/** The operations of the sequential store and their histories: what each one does to the
    files, how much space any history needs, and what failures cost. */
module Operations {
  import opened Model
  import opened Steps
  import opened Invariant
  import opened Accounting
  import opened Lifecycle
  import opened Frames
  import opened StepProofs
  import opened Protocol
  import opened Safety
  import opened Sequential
  import opened Solo
  import opened Quiescence
  import opened Laws
  import opened Coalescing

  // ------------------------------------------------------------------------------ writes

  function Max(a: nat, b: nat): nat { if a < b then b else a }

  predicate Aligned(data: seq<Byte>) { |data| > 0 && |data| % BLOCK_SIZE == 0 }

  ghost predicate TrustedData(env: Env, data: seq<Byte>) { forall b :: b in Blocks(data) ==> env.inPlay(b) }

  /** The plan of a write when it comes to its flush. */
  function PlanOf(
      env: Env, malloc: Malloc, io: Device, sh: Shared, path: Path, data: seq<Byte>, offset: nat): seq<Entry>
  {
    Planned(env, malloc, io, sh, Begin(path, offset / BLOCK_SIZE, Blocks(data)))
  }

  /** Any write ends in a balanced state; a rejected request changes nothing at all. */
  lemma {:induction false} WriteLaw(
      env: Env, malloc: Malloc, io: Device, sh: Shared, path: Path, data: seq<Byte>, offset: nat)
    requires Quiet(env, sh) && Fresh(malloc) && TrustedData(env, data)
    ensures var r := Write(env, malloc, io, sh, path, data, offset);
            && Quiet(env, r.sh)
            && (data == [] ==> r == Ended(sh, 0))
            && (|data| % 4096 != 0 ==> r == Ended(sh, -95))
            && (Aligned(data) ==> Finished(env, io, PlanOf(env, malloc, io, sh, path, data, offset), sh, path,
                offset / BLOCK_SIZE, Blocks(data), r))
  {
    if Aligned(data) {
      var w := Begin(path, offset / BLOCK_SIZE, Blocks(data));
      BeginUnderway(env, malloc, io, sh, w.path, w.start, w.buf);
      DriveFinishes(env, malloc, io, PlanOf(env, malloc, io, sh, path, data, offset), sh, sh, w);
    }
  }

  /** The bytes of one block of the request. */
  predicate InRange(k: Key, path: Path, start: nat, n: nat) { k.path == path && start <= k.block < start + n }

  /** The bytes of a request that belong to its i-th block. */
  function Slice(data: seq<Byte>, i: nat): Block
    requires i < |data| / 4096
  {
    data[i * 4096..(i + 1) * 4096]
  }

  /** Refinement: a positive return value is the number of bytes written, and then exactly
      the blocks of the request show the new content, and all other blocks the old. */
  lemma {:induction false} SuccessfulWrite(
      env: Env, malloc: Malloc, io: Device, sh: Shared, path: Path, data: seq<Byte>, offset: nat, k: Key)
    requires Quiet(env, sh) && Fresh(malloc) && TrustedData(env, data) && CollisionFree(env)
    requires Write(env, malloc, io, sh, path, data, offset).rc > 0
    ensures var r, start := Write(env, malloc, io, sh, path, data, offset), offset / BLOCK_SIZE;
            && Aligned(data) && r.rc == |data|
            && ContentAt(r.sh, k) == (if InRange(k, path, start, |data| / 4096)
                                      then Some(Slice(data, k.block - start)) else ContentAt(sh, k))
            && r.sh.sizes == Grow(sh.sizes, path, (start + |data| / 4096) * 4096)
  {
    hide Write, PlanOf, AllFull, Grown, Unseen, Seen;
    var r, start, buf := Write(env, malloc, io, sh, path, data, offset), offset / BLOCK_SIZE, Blocks(data);
    WriteLaw(env, malloc, io, sh, path, data, offset);
    SeenContent(env, sh, r.sh, path, start, buf, k);
  }

  /** Equal hashes mean equal contents, so what is seen is what was written. */
  lemma {:induction false} SeenContent(
      env: Env, sh: Shared, sh': Shared, path: Path, start: nat, buf: seq<Block>, k: Key)
    requires Quiet(env, sh) && Quiet(env, sh') && CollisionFree(env) && forall b :: b in buf ==> env.inPlay(b)
    requires Seen(env, sh, sh', path, start, buf, |buf|)
    ensures ContentAt(sh', k) == if InRange(k, path, start, |buf|) then Some(buf[k.block - start]) else ContentAt(sh, k)
  {
    assert SeenAt(env, sh, sh', path, start, buf, |buf|, k);
    if InRange(k, path, start, |buf|) {
      var b := buf[k.block - start];
      assert b in buf && k in sh'.fileToMaster;
      ContentIsBacked(env, sh', k);
    } else {
      SameHashSameContent(env, sh, sh', k);
    }
  }

  /** The same in bytes: every byte of the request is found at its place in the file, and the
      recorded size reaches at least to the end of the request. */
  lemma {:induction false} WrittenBytes(
      env: Env, malloc: Malloc, io: Device, sh: Shared, path: Path, data: seq<Byte>, offset: nat, j: nat)
    requires Quiet(env, sh) && Fresh(malloc) && TrustedData(env, data) && CollisionFree(env) && j < |data|
    requires Write(env, malloc, io, sh, path, data, offset).rc > 0
    ensures var r := Write(env, malloc, io, sh, path, data, offset);
            var content := ContentAt(r.sh, Key(path, offset / 4096 + j / 4096));
            && content.Some? && |content.value| == 4096 && content.value[j % 4096] == data[j]
            && path in r.sh.sizes && r.sh.sizes[path] >= offset / 4096 * 4096 + |data|
  {
    hide Write;
    var k := Key(path, offset / BLOCK_SIZE + j / 4096);
    SuccessfulWrite(env, malloc, io, sh, path, data, offset, k);
    assert |data| % 4096 == 0 && j / 4096 < |data| / 4096;
    assert Slice(data, j / 4096)[j % 4096] == data[j / 4096 * 4096 + j % 4096];
  }

  /** A failed or rejected write is invisible: mappings, infos with their refcounts, hash
      index, sizes and contents are as before, and the free list has gained exactly the
      slots that were appended to the master. */
  lemma {:induction false} FailedWrite(
      env: Env, malloc: Malloc, io: Device, sh: Shared, path: Path, data: seq<Byte>, offset: nat)
    requires Quiet(env, sh) && Fresh(malloc) && TrustedData(env, data)
    requires Write(env, malloc, io, sh, path, data, offset).rc <= 0
    ensures var r := Write(env, malloc, io, sh, path, data, offset);
            && r.sh.fileToMaster == sh.fileToMaster && r.sh.sizes == sh.sizes
            && r.sh.heap == sh.heap && r.sh.hashToMaster == sh.hashToMaster
            && sh.next <= r.sh.next
            && multiset(r.sh.freeList) == multiset(sh.freeList) + multiset(Range(sh.next, r.sh.next - sh.next))
            && forall k :: ContentAt(r.sh, k) == ContentAt(sh, k)
  {
    hide Write;
    FailedIsUnseen(env, malloc, io, sh, path, data, offset);
    UnseenIsInvisible(env, sh, Write(env, malloc, io, sh, path, data, offset).sh);
  }

  lemma {:induction false} FailedIsUnseen(
      env: Env, malloc: Malloc, io: Device, sh: Shared, path: Path, data: seq<Byte>, offset: nat)
    requires Quiet(env, sh) && Fresh(malloc) && TrustedData(env, data)
    requires Write(env, malloc, io, sh, path, data, offset).rc <= 0
    ensures var r := Write(env, malloc, io, sh, path, data, offset);
            Quiet(env, r.sh) && Unseen(sh, r.sh) && sh.next <= r.sh.next
  {
    hide Write;
    WriteLaw(env, malloc, io, sh, path, data, offset);
    UnseenRefl(env, sh);
  }

  /** An aligned write succeeds if and only if every pwrite that its flush issues is complete;
      otherwise it returns the code of one that was not. */
  lemma {:induction false} FailureIsReported(
      env: Env, malloc: Malloc, io: Device, sh: Shared, path: Path, data: seq<Byte>, offset: nat)
    requires Quiet(env, sh) && Fresh(malloc) && TrustedData(env, data) && Aligned(data)
    ensures var rc, plan := Write(env, malloc, io, sh, path, data, offset).rc,
        PlanOf(env, malloc, io, sh, path, data, offset);
            && (rc == |data| <==> AllFull(io, plan))
            && (rc == |data| || (rc < 0 && exists i: nat :: BadPwrite(io, plan, rc, i)))
  {
    hide Write, PlanOf;
    WriteLaw(env, malloc, io, sh, path, data, offset);
  }

  /** The space a write needs: one slot for each published block and one for each new hash. */
  function Need(env: Env, sh: Shared, path: Path, data: seq<Byte>): nat {
    if Aligned(data) then |sh.hashToMaster| + |NewHashes(env, sh, Blocks(data))| else 0
  }

  /** The master grows only when the free list is exhausted and then only by the shortfall,
      whether the write succeeds or fails. */
  lemma {:induction false} WriteSpace(
      env: Env, malloc: Malloc, io: Device, sh: Shared, path: Path, data: seq<Byte>, offset: nat)
    requires Quiet(env, sh) && Fresh(malloc) && TrustedData(env, data)
    ensures Write(env, malloc, io, sh, path, data, offset).sh.next == Max(sh.next, Need(env, sh, path, data))
  {
    hide Write;
    WriteLaw(env, malloc, io, sh, path, data, offset);
    SlotBudget(env, sh);
  }

  /** The state after n attempts to write the same data. */
  function Attempts(
      env: Env, malloc: Malloc, ios: seq<Device>, sh: Shared, path: Path, data: seq<Byte>, offset: nat, n: nat): Ended
    requires n <= |ios|
  {
    if n == 0 then Ended(sh, 0)
    else
      var before := Attempts(env, malloc, ios, sh, path, data, offset, n - 1).sh;
      Write(env, malloc, ios[n - 1], before, path, data, offset)
  }

  /** One attempt in a state with the hash index of sh. */
  lemma {:induction false} AttemptSpace(
      env: Env, malloc: Malloc, io: Device, sh: Shared, prev: Shared, path: Path, data: seq<Byte>, offset: nat)
    requires Quiet(env, prev) && Fresh(malloc) && TrustedData(env, data) && prev.hashToMaster == sh.hashToMaster
    ensures var r := Write(env, malloc, io, prev, path, data, offset);
            && Quiet(env, r.sh) && r.sh.next == Max(prev.next, Need(env, sh, path, data))
            && (r.rc <= 0 ==> r.sh.hashToMaster == sh.hashToMaster)
  {
    hide Write;
    WriteLaw(env, malloc, io, prev, path, data, offset);
    WriteSpace(env, malloc, io, prev, path, data, offset);
    SameNeed(env, sh, prev, Blocks(data), |Blocks(data)|);
    if Write(env, malloc, io, prev, path, data, offset).rc <= 0 {
      FailedWrite(env, malloc, io, prev, path, data, offset);
    }
  }

  /** Retries cost nothing: after any number of failed attempts the next attempt, failed or
      not, leaves the master exactly as long as a single attempt would. */
  lemma {:induction false} RetriesAreFree(
      env: Env, malloc: Malloc, ios: seq<Device>, sh: Shared, path: Path, data: seq<Byte>, offset: nat, n: nat)
    requires Quiet(env, sh) && Fresh(malloc) && TrustedData(env, data) && n <= |ios|
    requires forall i: nat :: i < n ==> Attempts(env, malloc, ios, sh, path, data, offset, i).rc <= 0
    ensures var r := Attempts(env, malloc, ios, sh, path, data, offset, n);
            && Quiet(env, r.sh) && r.sh.next == (if n == 0 then sh.next else Max(sh.next, Need(env, sh, path, data)))
            && (r.rc <= 0 ==> r.sh.hashToMaster == sh.hashToMaster)
  {
    hide Write;
    if n > 0 {
      var prev := Attempts(env, malloc, ios, sh, path, data, offset, n - 1);
      RetriesAreFree(env, malloc, ios, sh, path, data, offset, n - 1);
      assert prev.rc <= 0;
      AttemptSpace(env, malloc, ios[n - 1], sh, prev.sh, path, data, offset);
    }
  }

  lemma {:induction false} SameNeed(env: Env, sh: Shared, sh': Shared, buf: seq<Block>, n: nat)
    requires sh'.hashToMaster == sh.hashToMaster && n <= |buf|
    ensures NewTo(env, sh', buf, n) == NewTo(env, sh, buf, n)
  {
    if n > 0 { SameNeed(env, sh, sh', buf, n - 1); }
  }

  // ----------------------------------------------------------------------------- removals

  /** The blocks [a, b) of a path are gone and all others are as they were. */
  ghost predicate ClearedAt(sh0: Shared, sh: Shared, path: Path, a: nat, b: nat, k: Key) {
    if k.path == path && a <= k.block < b then k !in sh.fileToMaster
    else SameView(sh0, sh, k) && ContentAt(sh, k) == ContentAt(sh0, k)
         && (k in sh.fileToMaster <==> k in sh0.fileToMaster)
  }

  ghost predicate Cleared(sh0: Shared, sh: Shared, path: Path, a: nat, b: nat) {
    forall k :: ClearedAt(sh0, sh, path, a, b, k)
  }

  lemma {:induction false} UnmapClears(env: Env, sh: Shared, key: Key, c: Claims, k: Key)
    requires Global(env, sh, c)
    ensures ClearedAt(sh, Unmap(sh, key).sh, key.path, key.block, key.block + 1, k)
  {
    var d := Unmap(sh, key).sh;
    UnmapGlobal(env, sh, c, key);
    UnmapVisible(env, sh, key, c, k);
    UnmapElsewhere(sh, key);
    UnmapInfos(sh, key, if k in sh.fileToMaster then sh.fileToMaster[k] else 0);
    if k == key {
      assert key == Key(key.path, key.block);
    } else {
      assert FileLinked(sh, k) && FileLinked(d, k);
    }
  }

  lemma {:induction false} UnmapElsewhere(sh: Shared, key: Key)
    ensures var d := Unmap(sh, key).sh;
            d.sizes == sh.sizes && d.disk == sh.disk && d.next == sh.next && d.freeList == sh.freeList
  {
    if key in sh.fileToMaster {
      DropElsewhere(sh.(fileToMaster := Remove(sh.fileToMaster, key)), sh.fileToMaster[key]);
    }
  }

  lemma {:induction false} ClearedMore(env: Env, sh: Shared, c: Claims, path: Path, a: nat, b: nat, res: Shared)
    requires Global(env, sh, c) && a < b && Cleared(Unmap(sh, Key(path, a)).sh, res, path, a + 1, b)
    ensures Cleared(sh, res, path, a, b)
  {
    var sh1, a1 := Unmap(sh, Key(path, a)).sh, a + 1;
    forall k ensures ClearedAt(sh, res, path, a, b, k) {
      UnmapClears(env, sh, Key(path, a), c, k);
      assert ClearedAt(sh1, res, path, a1, b, k);
    }
  }

  lemma {:induction false} ClearedSame(sh: Shared, sh1: Shared, path: Path, a: nat, b: nat, res: Shared)
    requires sh1.heap == sh.heap && sh1.fileToMaster == sh.fileToMaster && sh1.disk == sh.disk
    requires Cleared(sh1, res, path, a, b)
    ensures Cleared(sh, res, path, a, b)
  {
    forall k ensures ClearedAt(sh, res, path, a, b, k) { assert ClearedAt(sh1, res, path, a, b, k); }
  }

  lemma {:induction false} ClearedNone(sh: Shared, path: Path, a: nat, b: nat)
    requires a >= b
    ensures Cleared(sh, sh, path, a, b)
  {
    forall k ensures ClearedAt(sh, sh, path, a, b, k) {}
  }

  /** What a batch removal leaves behind. */
  ghost predicate ClearOk(env: Env, sh: Shared, r: Removal, res: Shared) {
    && Quiet(env, res) && Cleared(sh, res, r.path, r.pos, r.end)
    && res.sizes == Shrink(sh.sizes, r.path, r.newSize) && res.disk == sh.disk && res.next == sh.next
  }

  lemma {:induction false} ClearOne(env: Env, sh: Shared, r: Removal, m: Moved, res: Shared)
    requires Global(env, sh, Nothing.Plus(OfSlots(r.release)))
    requires m == RemoverStep(sh, r) && m.t.Remover? && ClearOk(env, m.sh, m.t.removal, res)
    ensures ClearOk(env, sh, r, res)
  {
    if r.pos < r.end {
      UnmapElsewhere(sh, Key(r.path, r.pos));
      ClearedMore(env, sh, Nothing.Plus(OfSlots(r.release)), r.path, r.pos, r.end, res);
    } else {
      ClearedSame(sh, m.sh, r.path, r.pos, r.end, res);
    }
  }

  lemma {:induction false} ClearLast(env: Env, sh: Shared, r: Removal, m: Moved)
    requires m == RemoverStep(sh, r) && !m.t.Remover? && Global(env, m.sh, Nothing.Plus(Nothing))
    ensures ClearOk(env, sh, r, m.sh)
  {
    forall k: nat ensures SameAt(Nothing.Plus(Nothing), Nothing, k) {}
    GlobalSame(env, m.sh, Nothing.Plus(Nothing), Nothing);
    ClearedNone(m.sh, r.path, r.pos, r.end);
    ClearedSame(sh, m.sh, r.path, r.pos, r.end, m.sh);
  }

  /** A batch removal unmaps exactly its range, and keeps the balance. */
  lemma {:induction false} ClearLaw(env: Env, sh: Shared, r: Removal)
    requires Global(env, sh, Nothing.Plus(OfSlots(r.release)))
    ensures ClearOk(env, sh, r, Clear(sh, r))
    decreases if r.pos < r.end then r.end - r.pos else 0, |r.release|
  {
    var m := RemoverStep(sh, r);
    RemoverBalanced(env, sh, r, Nothing);
    if m.t.Remover? {
      ClearLaw(env, m.sh, m.t.removal);
      ClearOne(env, sh, r, m, Clear(m.sh, m.t.removal));
    } else {
      ClearLast(env, sh, r, m);
    }
  }

  lemma {:induction false} StartClear(env: Env, sh: Shared)
    requires Quiet(env, sh)
    ensures Global(env, sh, Nothing.Plus(OfSlots([])))
  {
    forall k: nat ensures SameAt(Nothing, Nothing.Plus(OfSlots([])), k) {}
    GlobalSame(env, sh, Nothing, Nothing.Plus(OfSlots([])));
  }

  // ---------------------------------------------------------- batch removal and the loop

  /** remove_block_dedup: one block, its slot straight to the free list. */
  function RemoveBlock(sh: Shared, path: Path, i: nat): Shared {
    var d := Unmap(sh, Key(path, i));
    GiveBack(d.sh, d.freed)
  }

  /** The naive loop over a range. */
  function RemoveLoop(sh: Shared, path: Path, a: nat, b: nat): Shared
    decreases if a < b then b - a else 0
  {
    if a < b then RemoveLoop(RemoveBlock(sh, path, a), path, a + 1, b) else sh
  }

  /** Unmapping does not look at the free list. */
  lemma {:induction false} UnmapCommutes(sh: Shared, key: Key, free: seq<nat>)
    ensures var d, d' := Unmap(sh, key), Unmap(sh.(freeList := free), key);
            d'.freed == d.freed && d'.sh == d.sh.(freeList := free)
  {}

  /** The batch removal, with its local release list and one lock round trip, refines the
      naive loop: same tables, same refcounts, same free list in the same order, for any
      range with holes and repeated infos, in any state whatsoever. */
  lemma {:induction false} BatchIsLoop(sh: Shared, path: Path, a: nat, b: nat, release: seq<nat>, newSize: Option<nat>)
    ensures var looped := RemoveLoop(sh.(freeList := release + sh.freeList), path, a, b);
            Clear(sh, Removal(path, a, b, release, newSize)) == looped.(sizes := Shrink(looped.sizes, path, newSize))
    decreases if a < b then b - a else 0, |release|
  {
    var r := Removal(path, a, b, release, newSize);
    var m := RemoverStep(sh, r);
    if a < b {
      var key, joined := Key(path, a), release + sh.freeList;
      var d := Unmap(sh, key);
      UnmapCommutes(sh, key, joined);
      UnmapElsewhere(sh, key);
      assert (d.freed + release) + d.sh.freeList == d.freed + joined;
      BatchIsLoop(d.sh, path, a + 1, b, d.freed + release, newSize);
      assert RemoveBlock(sh.(freeList := joined), path, a) == d.sh.(freeList := (d.freed + release) + d.sh.freeList);
      assert m == Moved(d.sh, Remover(Removal(path, a + 1, b, d.freed + release, newSize)));
    } else if release != [] {
      BatchIsLoop(GiveBack(sh, release), path, a, b, [], newSize);
      assert [] + GiveBack(sh, release).freeList == release + sh.freeList;
    } else {
      assert [] + sh.freeList == sh.freeList;
    }
  }
}
