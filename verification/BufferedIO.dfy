/** Chunked I/O over one buffer, as src/persistence.c does it. The writer is a plain byte
    stream as long as no copy leaves its buffer, and the exact condition for that is proved;
    the reader is one for any pattern of short reads. */
module BufferedIO {
  import opened Model
  import opened Framing
  import opened Bytes

  // --------------------------------------------------------------- when a call is in bounds

  /** What the n-th pwrite of a file returns, a number of bytes or a negative code; it is
      complete where nothing is said. */
  type Results = map<nat, int>

  /** The bytes that reach the file when the n-th pwrite is asked to write `asked` bytes. */
  function Written(pwrites: Results, n: nat, asked: nat): (written: nat)
    ensures n !in pwrites || pwrites[n] >= asked ==> written == asked
    ensures n in pwrites && pwrites[n] < 0 ==> written == 0
    ensures n in pwrites && 0 <= pwrites[n] <= asked ==> written == pwrites[n]
  {
    if n !in pwrites || pwrites[n] >= asked then asked else if pwrites[n] <= 0 then 0 else pwrites[n]
  }

  /** What a call still has to place when it comes to its k-th flush, if its data exceed the
      free room of the buffer by `due` bytes. */
  function Remaining(due: int, capacity: nat, k: nat): int { due - k * capacity }

  lemma {:induction false} RemainingStarts(due: int, capacity: nat)
    ensures Remaining(due, capacity, 0) == due
  {}

  lemma {:induction false} RemainingFalls(due: int, capacity: nat, k: nat, j: nat)
    requires k <= j
    ensures Remaining(due, capacity, k + 1) == Remaining(due, capacity, k) - capacity
    ensures Remaining(due, capacity, j) <= Remaining(due, capacity, k)
  {
    assert k * capacity <= j * capacity;
  }

  /** The k-th flush frees enough of the buffer for the copy that follows it. */
  predicate Enough(pwrites: Results, first: nat, capacity: nat, due: int, k: nat) {
    var remaining := Remaining(due, capacity, k);
    remaining > 0 ==> Written(pwrites, first + k, capacity) >= (if remaining < capacity then remaining else capacity)
  }

  /** Every copy of a call stays inside the buffer. */
  ghost predicate Roomy(pwrites: Results, first: nat, capacity: nat, due: int) {
    forall k: nat :: Enough(pwrites, first, capacity, due, k)
  }

  predicate CompleteAt(pwrites: Results, capacity: nat, n: nat) { Written(pwrites, n, capacity) == capacity }

  ghost predicate Complete(pwrites: Results, capacity: nat) { forall n: nat :: CompleteAt(pwrites, capacity, n) }

  /** Only the last flush of a call may be short: those before it must be complete, and the
      last must free what is still to be placed. */
  lemma {:induction false} OnlyTheLastMayBeShort(pwrites: Results, first: nat, capacity: nat, due: int, last: nat)
    requires 0 < Remaining(due, capacity, last) <= capacity
    ensures Roomy(pwrites, first, capacity, due) <==>
              && (forall n: nat :: first <= n < first + last ==> CompleteAt(pwrites, capacity, n))
              && Written(pwrites, first + last, capacity) >= Remaining(due, capacity, last)
  {
    hide Remaining;
    forall k: nat ensures k < last ==> Remaining(due, capacity, k) > capacity
                  ensures k > last ==> Remaining(due, capacity, k) <= 0
    {
      if k < last { RemainingFalls(due, capacity, k, k); RemainingFalls(due, capacity, k + 1, last); }
      if k > last { RemainingFalls(due, capacity, last, last); RemainingFalls(due, capacity, last + 1, k); }
    }
    if Roomy(pwrites, first, capacity, due) {
      forall n: nat | first <= n < first + last ensures CompleteAt(pwrites, capacity, n) {
        assert Enough(pwrites, first, capacity, due, n - first);
      }
      assert Enough(pwrites, first, capacity, due, last);
    } else {
      var k: nat :| !Enough(pwrites, first, capacity, due, k);
      if k < last && CompleteAt(pwrites, capacity, first + k) { assert false; }
    }
  }

  /** After a flush the copy stays inside the buffer exactly if the flush freed enough. */
  lemma {:induction false} CopyFits(pwrites: Results, first: nat, capacity: nat, due: int, k: nat, size: nat)
    requires Remaining(due, capacity, k) == size > 0
    ensures var left := capacity - Written(pwrites, first + k, capacity);
            (left + (if size < capacity then size else capacity) <= capacity)
            <==> Enough(pwrites, first, capacity, due, k)
  {}

  lemma {:induction false} NothingRemains(pwrites: Results, first: nat, capacity: nat, due: int, k: nat)
    requires Remaining(due, capacity, k) <= 0
    ensures Enough(pwrites, first, capacity, due, k)
  {}

  lemma {:induction false} CompleteIsRoomy(pwrites: Results, first: nat, capacity: nat, due: int)
    requires Complete(pwrites, capacity)
    ensures Roomy(pwrites, first, capacity, due)
  {
    forall k: nat ensures Enough(pwrites, first, capacity, due, k) { assert CompleteAt(pwrites, capacity, first + k); }
  }

  /** `data` was added to a stream, or only a beginning of it if the call had to stop. */
  ghost predicate Extends(before: Data, after: Data, data: Data, ok: bool) {
    before <= after <= before + data && (ok ==> after == before + data)
  }

  lemma {:induction false} ExtendsTwice(a: Data, b: Data, c: Data, d: Data, e: Data, ok: bool)
    requires Extends(a, b, d, true) && Extends(b, c, e, ok)
    ensures Extends(a, c, d + e, ok)
  {
    Regroup(a, d, e);
  }

  /** A call that stopped inside the first part of its data. */
  lemma {:induction false} ExtendsLess(a: Data, b: Data, d: Data, e: Data)
    requires Extends(a, b, d, false)
    ensures Extends(a, b, d + e, false)
  {
    Regroup(a, d, e);
  }

  /** A stream to which the first n bytes of the data were added. */
  function Part(start: Data, data: Data, n: nat): Data
    requires n <= |data|
  {
    start + data[..n]
  }

  lemma {:induction false} TakeMore(start: Data, data: Data, n: nat, more: nat)
    requires n + more <= |data|
    ensures Part(start, data, n + more) == Part(start, data, n) + data[n..n + more]
  {
    assert data[..n + more] == data[..n] + data[n..n + more];
  }

  lemma {:induction false} Started(start: Data, data: Data)
    ensures Part(start, data, 0) == start
  {}

  lemma {:induction false} Stopped(start: Data, data: Data, n: nat)
    requires n <= |data|
    ensures Extends(start, Part(start, data, n), data, false)
    ensures n == |data| ==> Extends(start, Part(start, data, n), data, true)
  {
    assert n == |data| ==> data[..n] == data;
    assert Part(start, data, n) <= start + data;
  }

  /** A part of the data was added, up to the end of the data or not. */
  lemma {:induction false} ExtendsPart(start: Data, before: Data, after: Data, d: Data, rest: Data, data: Data)
    requires start <= before && Extends(before, after, d, false) && before + (d + rest) == start + data
    ensures Extends(start, after, data, false)
  {
    Regroup(before, d, rest);
    assert after <= before + d <= start + data;
  }

  /** The writing side. `file` is the content of a file opened with O_TRUNC. */
  class Writer {
    const buffer: array<Byte>
    const pwrites: Results
    var calls: nat
    var bufferPos: nat
    var fileOffset: nat
    var file: Data

    ghost predicate Valid()
      reads this
    {
      0 < buffer.Length && bufferPos <= buffer.Length && fileOffset == |file|
    }

    /** Everything written so far, on disk or still in the buffer. */
    ghost function Stream(): Data
      requires Valid()
      reads this, buffer
    {
      file + buffer[..bufferPos]
    }

    constructor (capacity: nat, pwrites: Results)
      requires capacity > 0
      ensures Valid() && Stream() == [] && fresh(buffer) && buffer.Length == capacity
      ensures this.pwrites == pwrites && calls == 0 && bufferPos == 0
    {
      buffer := new Byte[capacity](i => 0);
      this.pwrites := pwrites;
      calls, bufferPos, fileOffset, file := 0, 0, 0, [];
    }

    /** flush_write_buffer. A complete, short or failed pwrite moves the bytes that it wrote
        from the buffer to the file and loses or reorders none. */
    method Flush()
      requires Valid()
      modifies this, buffer
      ensures Valid() && Stream() == old(Stream())
      ensures calls == old(calls) + (if old(bufferPos) > 0 then 1 else 0)
      ensures old(file) <= file && |file| - |old(file)| == old(bufferPos) - bufferPos
      ensures bufferPos == old(bufferPos) - Written(pwrites, old(calls), old(bufferPos))
      ensures old(calls) !in pwrites || pwrites[old(calls)] >= old(bufferPos) ==> bufferPos == 0
      ensures old(calls) in pwrites && 0 <= pwrites[old(calls)] < old(bufferPos) ==>
                bufferPos == old(bufferPos) - pwrites[old(calls)]
      ensures old(calls) in pwrites && pwrites[old(calls)] < 0 ==> bufferPos == old(bufferPos)
    {
      if bufferPos == 0 { return; }
      var written := Written(pwrites, calls, bufferPos);
      calls := calls + 1;
      if written == bufferPos {
        file := file + buffer[..bufferPos];
        fileOffset := fileOffset + bufferPos;
        bufferPos := 0;
      } else if written > 0 {
        var remaining := bufferPos - written;
        file := file + buffer[..written];
        fileOffset := fileOffset + written;
        ghost var tail := buffer[written..bufferPos];
        ShiftDown(buffer, written, remaining);
        bufferPos := remaining;
        assert buffer[..remaining] == tail;
        assert old(buffer[..bufferPos]) == old(buffer[..written]) + tail;
      }
    }

    method Put(chunk: Data)
      requires Valid() && bufferPos + |chunk| <= buffer.Length
      modifies this`bufferPos, buffer
      ensures Valid() && Stream() == old(Stream()) + chunk && bufferPos == old(bufferPos) + |chunk|
    {
      ghost var before := buffer[..bufferPos];
      CopyIn(buffer, bufferPos, chunk);
      bufferPos := bufferPos + |chunk|;
      assert buffer[..bufferPos] == before + chunk;
    }

    /** buffered_write. It takes a flush to have emptied the buffer. `ok` is false at the first
        copy that would leave the buffer, where the call stops. */
    method Write(data: Data) returns (ok: bool)
      requires Valid()
      modifies this, buffer
      ensures Valid() && Extends(old(Stream()), Stream(), data, ok)
      ensures ok <==> Roomy(pwrites, old(calls), buffer.Length, |data| - (buffer.Length - old(bufferPos)))
      ensures Complete(pwrites, buffer.Length) ==> ok
    {
      hide Remaining, Enough, Extends, Part;
      ghost var capacity, first, due := buffer.Length, calls, |data| - (buffer.Length - bufferPos);
      RemainingStarts(due, capacity);
      if Complete(pwrites, capacity) { CompleteIsRoomy(pwrites, first, capacity, due); }
      ghost var start := Stream();
      Started(start, data);
      var done := 0;
      ghost var k: nat := 0;
      while done < |data|
        invariant Valid() && done <= |data| && calls == first + k
        invariant Stream() == Part(start, data, done)
        invariant done == 0 && k == 0 ==> bufferPos == old(bufferPos)
        invariant (done == 0 && k == 0) || done == |data| || bufferPos == capacity
        invariant done < |data| && bufferPos == capacity ==> |data| - done == Remaining(due, capacity, k)
        invariant done == |data| ==> Remaining(due, capacity, k) <= 0
        invariant forall j: nat :: j < k ==> Enough(pwrites, first, capacity, due, j)
      {
        var size := |data| - done;
        var available := buffer.Length - bufferPos;
        if available == 0 {
          CopyFits(pwrites, first, capacity, due, k, size);
          RemainingFalls(due, capacity, k, k);
          Flush();
          available := buffer.Length;
          k := k + 1;
        }
        var toCopy := if size < available then size else available;
        if bufferPos + toCopy > buffer.Length { Stopped(start, data, done); return false; }
        Put(data[done..done + toCopy]);
        TakeMore(start, data, done, toCopy);
        done := done + toCopy;
      }
      forall j: nat ensures Enough(pwrites, first, capacity, due, j) {
        if j >= k { RemainingFalls(due, capacity, k, j); NothingRemains(pwrites, first, capacity, due, j); }
      }
      Stopped(start, data, done);
      ok := true;
    }

    /** write_elem_buffered. */
    method WriteElem(elem: Data) returns (ok: bool)
      requires Valid() && Framable(elem)
      modifies this, buffer
      ensures Valid() && Extends(old(Stream()), Stream(), Frame(elem), ok)
      ensures Complete(pwrites, buffer.Length) ==> ok
    {
      ok := Write(Le(|elem|, WIDTH_SIZE));
      if !ok { ExtendsLess(old(Stream()), Stream(), Le(|elem|, WIDTH_SIZE), elem); return; }
      ghost var between := Stream();
      ok := Write(elem);
      ExtendsTwice(old(Stream()), between, Stream(), Le(|elem|, WIDTH_SIZE), elem, ok);
    }

    /** save_entry. */
    method WriteRow(r: Row) returns (ok: bool)
      requires Valid() && Framable(r.key) && Framable(r.val)
      modifies this, buffer
      ensures Valid() && Extends(old(Stream()), Stream(), RowBytes(r), ok)
      ensures Complete(pwrites, buffer.Length) ==> ok
    {
      ok := WriteElem(r.key);
      if !ok { ExtendsLess(old(Stream()), Stream(), Frame(r.key), Frame(r.val)); return; }
      ghost var between := Stream();
      ok := WriteElem(r.val);
      ExtendsTwice(old(Stream()), between, Stream(), Frame(r.key), Frame(r.val), ok);
    }

    /** The file holds a beginning of the content: all of it if every pwrite is complete, and
        also if no copy left the buffer and the last flush emptied it. */
    ghost predicate Saved(content: Data, ok: bool)
      requires Valid()
      reads this
    {
      && file <= content
      && (ok ==> (file == content <==> bufferPos == 0))
      && (Complete(pwrites, buffer.Length) ==> ok && file == content)
    }

    /** The last flush of a file, unless the writing had to stop. */
    method Finish(ok: bool, ghost content: Data)
      requires Valid() && Extends([], Stream(), content, ok) && (Complete(pwrites, buffer.Length) ==> ok)
      modifies this, buffer
      ensures Valid() && Saved(content, ok)
    {
      if ok { Flush(); }
      assert |Stream()| == |file| + bufferPos && file <= Stream();
      if Complete(pwrites, buffer.Length) { assert CompleteAt(pwrites, buffer.Length, old(calls)); }
      if bufferPos == 0 { assert file == Stream(); }
    }

    method WriteRows(rows: seq<Row>) returns (ok: bool)
      requires Valid() && RowsFramable(rows)
      modifies this, buffer
      ensures Valid() && Extends(old(Stream()), Stream(), Rows(rows), ok)
      ensures Complete(pwrites, buffer.Length) ==> ok
    {
      ok := true;
      var i := 0;
      while i < |rows|
        invariant Valid() && i <= |rows| && ok && old(Stream()) <= Stream()
        invariant Stream() + Rows(rows[i..]) == old(Stream()) + Rows(rows)
      {
        assert rows[i] in rows && rows[i..][0] == rows[i] && rows[i..][1..] == rows[i + 1..];
        ghost var before := Stream();
        ok := WriteRow(rows[i]);
        if !ok {
          ExtendsPart(old(Stream()), before, Stream(), RowBytes(rows[i]), Rows(rows[i + 1..]), Rows(rows));
          return;
        }
        Regroup(before, RowBytes(rows[i]), Rows(rows[i + 1..]));
        i := i + 1;
      }
    }

    method WriteElems(xs: seq<Data>) returns (ok: bool)
      requires Valid() && AllFramable(xs)
      modifies this, buffer
      ensures Valid() && Extends(old(Stream()), Stream(), Elems(xs), ok)
      ensures Complete(pwrites, buffer.Length) ==> ok
    {
      ok := true;
      var i := 0;
      while i < |xs|
        invariant Valid() && i <= |xs| && ok && old(Stream()) <= Stream()
        invariant Stream() + Elems(xs[i..]) == old(Stream()) + Elems(xs)
      {
        assert xs[i] in xs && xs[i..][0] == xs[i] && xs[i..][1..] == xs[i + 1..];
        ghost var before := Stream();
        ok := WriteElem(xs[i]);
        if !ok {
          ExtendsPart(old(Stream()), before, Stream(), Frame(xs[i]), Elems(xs[i + 1..]), Elems(xs));
          return;
        }
        Regroup(before, Frame(xs[i]), Elems(xs[i + 1..]));
        i := i + 1;
      }
    }

    /** The body of ghash_save: the count, then every entry in the order of enumeration. */
    method SaveTable(rows: seq<Row>) returns (ok: bool)
      requires Valid() && Stream() == [] && RowsFramable(rows)
      modifies this, buffer
      ensures Valid() && Saved(TableFile(rows), ok)
    {
      ok := Write(Le(|rows|, WIDTH_INT));
      if ok {
        ghost var counted := Stream();
        ok := WriteRows(rows);
        ExtendsTwice([], counted, Stream(), Le(|rows|, WIDTH_INT), Rows(rows), ok);
      } else {
        ExtendsLess([], Stream(), Le(|rows|, WIDTH_INT), Rows(rows));
      }
      Finish(ok, TableFile(rows));
    }

    /** The body of gslist_save and save_values_array. */
    method SaveList(xs: seq<Data>) returns (ok: bool)
      requires Valid() && Stream() == [] && AllFramable(xs)
      modifies this, buffer
      ensures Valid() && Saved(ListFile(xs), ok)
    {
      ok := Write(Le(|xs|, WIDTH_INT));
      if ok {
        ghost var counted := Stream();
        ok := WriteElems(xs);
        ExtendsTwice([], counted, Stream(), Le(|xs|, WIDTH_INT), Elems(xs), ok);
      } else {
        ExtendsLess([], Stream(), Le(|xs|, WIDTH_INT), Elems(xs));
      }
      Finish(ok, ListFile(xs));
    }
  }

  /** One short pwrite is enough: two buffers of data, the first flush one byte short or
      worse, and the copy after it leaves the buffer. */
  method ShortPwriteOverruns(capacity: nat, short: int, data: Data) returns (ok: bool)
    requires 0 < capacity && short < capacity && |data| == 2 * capacity
    ensures !ok
  {
    var io := new Writer(capacity, map[0 := short]);
    ok := io.Write(data);
    assert !Enough(io.pwrites, 0, capacity, capacity, 0);
  }

  lemma {:induction false} Regroup<T>(a: seq<T>, b: seq<T>, c: seq<T>)
    ensures (a + b) + c == a + (b + c)
  {}

  method ShiftDown(a: array<Byte>, from: nat, n: nat)
    requires from + n <= a.Length
    modifies a
    ensures a[..n] == old(a[from..from + n])
  {
    var i := 0;
    while i < n
      invariant i <= n
      invariant a[..i] == old(a[from..from + i])
      invariant forall k: nat :: i <= k < a.Length ==> a[k] == old(a[k])
    {
      a[i] := a[from + i];
      i := i + 1;
    }
  }

  method CopyIn(a: array<Byte>, at: nat, data: Data)
    requires at + |data| <= a.Length
    modifies a
    ensures a[..at] == old(a[..at]) && a[at..at + |data|] == data
  {
    var i := 0;
    while i < |data|
      invariant i <= |data| && a[..at] == old(a[..at]) && a[at..at + i] == data[..i]
    {
      a[at + i] := data[i];
      assert a[at..at + i + 1] == a[at..at + i] + [data[i]] == data[..i + 1];
      i := i + 1;
    }
  }

  /** The n-th pread of a file fails. */
  predicate PreadFails(preads: Results, n: nat) { n in preads && preads[n] < 0 }

  /** The bytes that the n-th pread delivers when `most` are left and fit the buffer: some unless
      it fails, as many as the given number says, all where nothing is said. */
  function Delivered(preads: Results, n: nat, most: nat): (nread: nat)
    ensures nread <= most && (nread == 0 <==> most == 0 || PreadFails(preads, n))
    ensures n in preads && 0 < preads[n] <= most ==> nread == preads[n]
  {
    if n !in preads || preads[n] > most then most
    else if preads[n] < 0 || most == 0 then 0
    else if preads[n] == 0 then 1
    else preads[n]
  }

  /** The reading side. */
  class Reader {
    const buffer: array<Byte>
    const file: Data
    const preads: Results
    var calls: nat
    var bufferPos: nat
    var bufferEnd: nat
    var fileOffset: nat

    ghost predicate Valid()
      reads this
    {
      0 < buffer.Length && bufferPos <= bufferEnd <= buffer.Length && fileOffset <= |file|
    }

    /** The bytes not yet delivered. */
    ghost function Rest(): Data
      requires Valid()
      reads this, buffer
    {
      buffer[bufferPos..bufferEnd] + file[fileOffset..]
    }

    constructor (capacity: nat, file: Data, preads: Results)
      requires capacity > 0
      ensures Valid() && Rest() == file && this.preads == preads && calls == 0 && fresh(buffer)
    {
      buffer := new Byte[capacity](i => 0);
      calls, bufferPos, bufferEnd, fileOffset := 0, 0, 0, 0;
      this.file, this.preads := file, preads;
    }

    /** Some pread since the given one has failed. */
    ghost predicate Broke(since: nat)
      reads this`calls
    {
      exists n: nat :: since <= n < calls && PreadFails(preads, n)
    }

    /** refill_read_buffer: one pread that delivers any positive number of bytes, or nothing
        at the end of the file or when it fails. */
    method Refill() returns (ok: bool)
      requires Valid() && bufferPos == bufferEnd
      modifies this, buffer
      ensures Valid() && Rest() == old(Rest()) && calls == old(calls) + 1
      ensures ok <==> Rest() != [] && !PreadFails(preads, old(calls))
      ensures if ok then bufferPos < bufferEnd && fileOffset > old(fileOffset) else bufferPos == bufferEnd
    {
      var most := if buffer.Length < |file| - fileOffset then buffer.Length else |file| - fileOffset;
      var nread := Delivered(preads, calls, most);
      calls := calls + 1;
      if nread == 0 { return false; }
      CopyIn(buffer, 0, file[fileOffset..fileOffset + nread]);
      bufferEnd, bufferPos := nread, 0;
      assert file[fileOffset..] == file[fileOffset..fileOffset + nread] + file[fileOffset + nread..];
      fileOffset := fileOffset + nread;
      ok := true;
    }

    method Take(n: nat) returns (chunk: Data)
      requires Valid() && bufferPos + n <= bufferEnd
      modifies this`bufferPos
      ensures Valid() && chunk + Rest() == old(Rest()) && |chunk| == n && bufferPos == old(bufferPos) + n
    {
      chunk := buffer[bufferPos..bufferPos + n];
      assert buffer[bufferPos..bufferEnd] == chunk + buffer[bufferPos + n..bufferEnd];
      Regroup(chunk, buffer[bufferPos + n..bufferEnd], file[fileOffset..]);
      bufferPos := bufferPos + n;
    }

    /** buffered_read: the next `size` bytes, or failure when fewer are left or a pread failed;
        a failed read has consumed what it got. */
    method Read(size: nat) returns (ok: bool, data: Data)
      requires Valid()
      modifies this, buffer
      ensures Valid() && calls >= old(calls)
      ensures ok ==> |data| == size && data + Rest() == old(Rest())
      ensures ok <==> |old(Rest())| >= size && !Broke(old(calls))
      ensures !ok ==> Broke(old(calls)) || Rest() == []
    {
      data := [];
      assert [] + Rest() == Rest();
      while |data| < size
        invariant Valid() && |data| <= size && data + Rest() == old(Rest())
        invariant calls >= old(calls) && !Broke(old(calls))
        decreases size - |data|
      {
        if bufferEnd == bufferPos {
          var more := Refill();
          if !more {
            assert Rest() != [] ==> PreadFails(preads, calls - 1);
            return false, data;
          }
        }
        var available, need := bufferEnd - bufferPos, size - |data|;
        var toCopy := if need < available then need else available;
        var chunk := Take(toCopy);
        Regroup(data, chunk, Rest());
        data := data + chunk;
      }
      ok := true;
    }

    /** read_elem_buffered: one complete element, or nothing at the end of the file or after a
        failing pread. */
    method ReadElem() returns (ok: bool, elem: Data)
      requires Valid()
      modifies this, buffer
      ensures Valid() && calls >= old(calls)
      ensures match Framing.ReadElem(old(Rest()))
              case Parsed(x, rest) => ok == !Broke(old(calls)) && (ok ==> elem == x && Rest() == rest)
              case Truncated => !ok && (Broke(old(calls)) || Rest() == [])
    {
      ghost var s := Rest();
      var prefix;
      ok, prefix := Read(WIDTH_SIZE);
      if !ok { return false, []; }
      ghost var s1, c1 := Rest(), calls;
      assert s[..WIDTH_SIZE] == prefix && s[WIDTH_SIZE..] == s1;
      ok, elem := Read(FromLe(prefix));
      if ok { assert s1[..|elem|] == elem && s1[|elem|..] == Rest(); }
    }

    /** The count of a file; an empty or cut file has none. */
    method ReadCount() returns (n: nat)
      requires Valid()
      modifies this, buffer
      ensures Valid() && calls >= old(calls)
      ensures var s := old(Rest());
              || (|s| >= WIDTH_INT && n == Count(s) && Rest() == s[WIDTH_INT..])
              || (n == 0 && (Broke(old(calls)) || |s| < WIDTH_INT))
    {
      ghost var s := Rest();
      var ok, prefix := Read(WIDTH_INT);
      if !ok { return 0; }
      assert s[..WIDTH_INT] == prefix && s[WIDTH_INT..] == Rest();
      n := if FromLe(prefix) < INT_LIMIT then FromLe(prefix) else 0;
    }

    /** The loop of ghash_load before decoding; a failing pread ends it with the rows so far. */
    method LoadTable() returns (rows: seq<Row>)
      requires Valid()
      modifies this, buffer
      ensures Valid() && rows <= ParseTable(old(Rest()))
      ensures calls >= old(calls) && (!Broke(old(calls)) ==> rows == ParseTable(old(Rest())))
    {
      hide FromLe, Count, Framing.ReadElem;
      var n := ReadCount();
      var i := 0;
      rows := [];
      ghost var all := if n == 0 then [] else ParseTable(old(Rest()));
      while i < n
        invariant Valid() && i <= n && calls >= old(calls)
        invariant n == 0 ==> Broke(old(calls)) || all == ParseTable(old(Rest()))
        invariant rows + ParseRows(Rest(), n - i) == all
      {
        var okKey, key := ReadElem();
        var okVal, val := ReadElem();
        if !okKey || !okVal { return; }
        Regroup(rows, [Row(key, val)], ParseRows(Rest(), n - i - 1));
        rows := rows + [Row(key, val)];
        i := i + 1;
      }
    }

    /** gslist_load and load_values_array before decoding: elements are appended in order. */
    method LoadList() returns (xs: seq<Data>)
      requires Valid()
      modifies this, buffer
      ensures Valid() && xs <= ParseList(old(Rest()))
      ensures calls >= old(calls) && (!Broke(old(calls)) ==> xs == ParseList(old(Rest())))
    {
      hide FromLe, Count, Framing.ReadElem;
      var n := ReadCount();
      var i := 0;
      xs := [];
      ghost var all := if n == 0 then [] else ParseList(old(Rest()));
      while i < n
        invariant Valid() && i <= n && calls >= old(calls)
        invariant n == 0 ==> Broke(old(calls)) || all == ParseList(old(Rest()))
        invariant xs + ParseElems(Rest(), n - i) == all
      {
        var ok, x := ReadElem();
        if !ok { return; }
        Regroup(xs, [x], ParseElems(Rest(), n - i - 1));
        xs := xs + [x];
        i := i + 1;
      }
    }
  }
}
