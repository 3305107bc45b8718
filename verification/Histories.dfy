/** Whole histories of the sequential store: any sequence of writes, truncates and unlinks,
    with any I/O failures. */
module Histories {
  import opened Model
  import opened Steps
  import opened Invariant
  import opened Protocol
  import opened Safety
  import opened Sequential
  import opened Solo
  import opened Quiescence
  import opened Laws
  import opened Operations

  // ------------------------------------------------------------------------ one operation

  lemma {:induction false} UnlinkLaw(env: Env, sh: Shared, path: Path)
    requires Quiet(env, sh)
    ensures var res := Unlink(sh, path);
            && Quiet(env, res) && res.next == sh.next
            && if path in sh.sizes
               then Cleared(sh, res, path, 0, BlocksOf(sh.sizes[path])) && res.sizes == Remove(sh.sizes, path)
               else res == sh
  {
    if path in sh.sizes {
      StartClear(env, sh);
      ClearLaw(env, sh, Removal(path, 0, BlocksOf(sh.sizes[path]), [], None));
    }
  }

  lemma {:induction false} TruncateLaw(env: Env, sh: Shared, path: Path, size: int)
    requires Quiet(env, sh)
    ensures var r := Truncate(sh, path, size);
            && Quiet(env, r.sh) && r.sh.next == sh.next
            && (r.rc == 0 <==> size >= 0 && size % 4096 == 0) && (r.rc != 0 ==> r.rc == -95)
            && if r.rc == 0 && path in sh.sizes && size < sh.sizes[path]
               then && Cleared(sh, r.sh, path, BlocksOf(size), BlocksOf(sh.sizes[path]))
                    && r.sh.sizes == sh.sizes[path := size]
               else r.sh == sh
  {
    if size >= 0 && size % BLOCK_SIZE == 0 && path in sh.sizes && size < sh.sizes[path] {
      StartClear(env, sh);
      ClearLaw(env, sh, Removal(path, BlocksOf(size), BlocksOf(sh.sizes[path]), [], Some(size)));
    }
  }

  /** Every operation leads from balance to balance. */
  lemma {:induction false} ApplyQuiet(env: Env, malloc: Malloc, sh: Shared, op: Op)
    requires Quiet(env, sh) && Fresh(malloc) && Trusted(env, op)
    ensures Quiet(env, Apply(env, malloc, sh, op))
  {
    match op
    case WriteOp(path, data, offset, io) => WriteLaw(env, malloc, io, sh, path, data, offset);
    case UnlinkOp(path) => UnlinkLaw(env, sh, path);
    case TruncateOp(path, size) => TruncateLaw(env, sh, path, size);
  }

  ghost predicate AllTrusted(env: Env, ops: seq<Op>) { forall op :: op in ops ==> Trusted(env, op) }

  /** Every history keeps the balance. */
  lemma {:induction false} HistoryQuiet(env: Env, malloc: Malloc, sh: Shared, ops: seq<Op>, n: nat)
    requires Quiet(env, sh) && Fresh(malloc) && AllTrusted(env, ops) && n <= |ops|
    ensures Quiet(env, After(env, malloc, sh, ops, n))
  {
    if n > 0 {
      HistoryQuiet(env, malloc, sh, ops, n - 1);
      assert ops[n - 1] in ops;
      ApplyQuiet(env, malloc, After(env, malloc, sh, ops, n - 1), ops[n - 1]);
    }
  }

  /** Space optimality over histories from the empty store: as many slots hold published
      blocks as there are distinct contents in all files, and all other slots are free. */
  lemma {:induction false} HistorySpace(env: Env, malloc: Malloc, ops: seq<Op>, n: nat)
    requires Fresh(malloc) && AllTrusted(env, ops) && n <= |ops|
    ensures var sh := After(env, malloc, EMPTY, ops, n);
            |sh.hashToMaster| == |Contents(sh)| && sh.next == |Contents(sh)| + |sh.freeList|
  {
    EmptyGlobal(env);
    HistoryQuiet(env, malloc, EMPTY, ops, n);
    OneCopyEach(env, After(env, malloc, EMPTY, ops, n));
  }

  // ---------------------------------------------------------------------- high-water mark

  /** Slots the operation needs: published blocks plus new distinct blocks, for writes. */
  function NeedOf(env: Env, sh: Shared, op: Op): nat {
    match op
    case WriteOp(path, data, _, _) => Need(env, sh, path, data)
    case _ => 0
  }

  function NeedAt(env: Env, malloc: Malloc, sh: Shared, ops: seq<Op>, i: nat): nat
    requires i < |ops|
  {
    NeedOf(env, After(env, malloc, sh, ops, i), ops[i])
  }

  lemma {:induction false} ApplyNext(env: Env, malloc: Malloc, sh: Shared, op: Op)
    requires Quiet(env, sh) && Fresh(malloc) && Trusted(env, op)
    ensures Apply(env, malloc, sh, op).next == Max(sh.next, NeedOf(env, sh, op))
  {
    match op
    case WriteOp(path, data, offset, io) => WriteSpace(env, malloc, io, sh, path, data, offset);
    case UnlinkOp(path) => UnlinkLaw(env, sh, path);
    case TruncateOp(path, size) => TruncateLaw(env, sh, path, size);
  }

  lemma {:induction false} NextGrows(env: Env, malloc: Malloc, ops: seq<Op>, n: nat)
    requires Fresh(malloc) && AllTrusted(env, ops) && 0 < n <= |ops|
    ensures After(env, malloc, EMPTY, ops, n).next
            == Max(After(env, malloc, EMPTY, ops, n - 1).next, NeedAt(env, malloc, EMPTY, ops, n - 1))
  {
    EmptyGlobal(env);
    HistoryQuiet(env, malloc, EMPTY, ops, n - 1);
    assert ops[n - 1] in ops;
    ApplyNext(env, malloc, After(env, malloc, EMPTY, ops, n - 1), ops[n - 1]);
  }

  /** The largest number of a list. */
  function MaxOf(xs: seq<nat>): nat { if xs == [] then 0 else Max(MaxOf(xs[..|xs| - 1]), xs[|xs| - 1]) }

  lemma {:induction false} MaxOfIsMax(xs: seq<nat>)
    ensures forall x :: x in xs ==> x <= MaxOf(xs)
    ensures MaxOf(xs) == 0 || MaxOf(xs) in xs
  {
    if xs != [] {
      MaxOfIsMax(xs[..|xs| - 1]);
      assert xs == xs[..|xs| - 1] + [xs[|xs| - 1]];
    }
  }

  lemma {:induction false} MaxOfMore(xs: seq<nat>, x: nat)
    ensures MaxOf(xs + [x]) == Max(MaxOf(xs), x)
  {
    assert (xs + [x])[..|xs|] == xs;
  }

  lemma {:induction false} NoMax()
    ensures MaxOf([]) == 0
  {}

  /** What the first n operations of a history need, each when its turn comes. */
  function Needs(env: Env, malloc: Malloc, ops: seq<Op>, n: nat): (xs: seq<nat>)
    requires n <= |ops|
    ensures |xs| == n
  {
    if n == 0 then [] else Needs(env, malloc, ops, n - 1) + [NeedAt(env, malloc, EMPTY, ops, n - 1)]
  }

  /** High-water mark: over any history from the empty store the master is exactly as long
      as the largest need of any write so far, failed writes included. */
  lemma {:induction false} HighWater(env: Env, malloc: Malloc, ops: seq<Op>, n: nat)
    requires Fresh(malloc) && AllTrusted(env, ops) && n <= |ops|
    ensures After(env, malloc, EMPTY, ops, n).next == MaxOf(Needs(env, malloc, ops, n))
  {
    hide Apply, AllTrusted, NeedAt, MaxOf;
    if n > 0 {
      HighWater(env, malloc, ops, n - 1);
      NextGrows(env, malloc, ops, n);
      MaxOfMore(Needs(env, malloc, ops, n - 1), NeedAt(env, malloc, EMPTY, ops, n - 1));
    } else {
      NoMax();
    }
  }

  // -------------------------------------------------------------------------- size bound

  ghost predicate CoveredAt(sh: Shared, k: Key) {
    k in sh.fileToMaster ==> k.path in sh.sizes && (k.block + 1) * BLOCK_SIZE <= sh.sizes[k.path]
  }

  /** Recorded sizes are whole blocks and cover every mapped block of their path. */
  ghost predicate SizesOk(sh: Shared) {
    && (forall p :: p in sh.sizes ==> sh.sizes[p] % BLOCK_SIZE == 0)
    && (forall k :: CoveredAt(sh, k))
  }

  lemma {:induction false} VisibleMapped(env: Env, sh: Shared, k: Key)
    requires Quiet(env, sh)
    ensures k in sh.fileToMaster <==> VisibleAt(sh, k).Some?
  {
    assert FileLinked(sh, k);
  }

  lemma {:induction false} CommittedSizes(env: Env, sh0: Shared, sh: Shared, path: Path, start: nat, buf: seq<Block>)
    requires Quiet(env, sh0) && Quiet(env, sh) && SizesOk(sh0) && Committed(env, sh0, sh, path, start, buf)
    ensures SizesOk(sh)
  {
    forall k ensures CoveredAt(sh, k) {
      assert CoveredAt(sh0, k) && SeenAt(env, sh0, sh, path, start, buf, |buf|, k);
      VisibleMapped(env, sh0, k);
      VisibleMapped(env, sh, k);
    }
  }

  lemma {:induction false} WriteSizes(
      env: Env, malloc: Malloc, io: Device, sh: Shared, path: Path, data: seq<Byte>, offset: nat)
    requires Quiet(env, sh) && Fresh(malloc) && TrustedData(env, data) && SizesOk(sh)
    ensures SizesOk(Write(env, malloc, io, sh, path, data, offset).sh)
  {
    hide Write;
    var r, start, buf := Write(env, malloc, io, sh, path, data, offset), offset / BLOCK_SIZE, Blocks(data);
    WriteLaw(env, malloc, io, sh, path, data, offset);
    if Aligned(data) && Committed(env, sh, r.sh, path, start, buf) {
      CommittedSizes(env, sh, r.sh, path, start, buf);
    } else {
      forall k ensures CoveredAt(r.sh, k) { assert CoveredAt(sh, k); }
    }
  }

  lemma {:induction false} UnlinkSizes(env: Env, sh: Shared, path: Path)
    requires Quiet(env, sh) && SizesOk(sh)
    ensures SizesOk(Unlink(sh, path))
    ensures forall b: nat :: Key(path, b) !in Unlink(sh, path).fileToMaster
    ensures forall k: Key :: k.path != path ==> Untouched(sh, Unlink(sh, path), k)
  {
    var res := Unlink(sh, path);
    UnlinkLaw(env, sh, path);
    forall k: Key ensures k.path == path ==> k !in res.fileToMaster
             ensures CoveredAt(res, k) && (k.path != path ==> Untouched(sh, res, k))
    {
      assert CoveredAt(sh, k);
      if path in sh.sizes { assert ClearedAt(sh, res, path, 0, BlocksOf(sh.sizes[path]), k); }
    }
  }

  /** Shrinking keeps exactly the blocks below the new size, with their contents. */
  lemma {:induction false} TruncateSizes(env: Env, sh: Shared, path: Path, size: int)
    requires Quiet(env, sh) && SizesOk(sh)
    ensures SizesOk(Truncate(sh, path, size).sh)
    ensures var r := Truncate(sh, path, size);
            r.rc == 0 && path in sh.sizes && size < sh.sizes[path] ==>
              forall k :: ShrunkAt(sh, r.sh, path, size, k)
  {
    var r := Truncate(sh, path, size);
    TruncateLaw(env, sh, path, size);
    if r.rc == 0 && path in sh.sizes && size < sh.sizes[path] {
      var a, b := BlocksOf(size), BlocksOf(sh.sizes[path]);
      forall k ensures CoveredAt(r.sh, k) && ShrunkAt(sh, r.sh, path, size, k) {
        assert CoveredAt(sh, k) && ClearedAt(sh, r.sh, path, a, b, k);
      }
    }
  }

  /** The block is mapped as before and reads as before. */
  ghost predicate Untouched(sh: Shared, sh': Shared, k: Key) {
    (k in sh'.fileToMaster <==> k in sh.fileToMaster) && ContentAt(sh', k) == ContentAt(sh, k)
  }

  ghost predicate ShrunkAt(sh: Shared, sh': Shared, path: Path, size: int, k: Key) {
    if k.path == path && k.block * BLOCK_SIZE >= size then k !in sh'.fileToMaster
    else Untouched(sh, sh', k)
  }

  /** The size bound holds after every history. */
  lemma {:induction false} HistorySizes(env: Env, malloc: Malloc, ops: seq<Op>, n: nat)
    requires Fresh(malloc) && AllTrusted(env, ops) && n <= |ops|
    ensures SizesOk(After(env, malloc, EMPTY, ops, n))
  {
    if n == 0 {
      forall k ensures CoveredAt(EMPTY, k) {}
    } else {
      var prev := After(env, malloc, EMPTY, ops, n - 1);
      HistorySizes(env, malloc, ops, n - 1);
      EmptyGlobal(env);
      HistoryQuiet(env, malloc, EMPTY, ops, n - 1);
      assert ops[n - 1] in ops;
      match ops[n - 1]
      case WriteOp(path, data, offset, io) => WriteSizes(env, malloc, io, prev, path, data, offset);
      case UnlinkOp(path) => UnlinkSizes(env, prev, path);
      case TruncateOp(path, size) => TruncateSizes(env, prev, path, size);
    }
  }

  // ------------------------------------------------------------- refinement to a plain map

  /** Whether the i-th operation reported success. */
  function Succeeded(env: Env, malloc: Malloc, ops: seq<Op>, i: nat): bool
    requires i < |ops|
  {
    match ops[i]
    case WriteOp(path, data, offset, io) =>
      Write(env, malloc, io, After(env, malloc, EMPTY, ops, i), path, data, offset).rc > 0
    case UnlinkOp(_) => true
    case TruncateOp(path, size) => Truncate(After(env, malloc, EMPTY, ops, i), path, size).rc == 0
  }

  /** A file system without deduplication, hashes, slots or failures half done: block k after
      the operations, of which the successful ones took effect. */
  function Plain(ops: seq<Op>, done: seq<bool>, n: nat, k: Key): Option<Block>
    requires n <= |ops| == |done|
  {
    if n == 0 then None
    else
      var prev := Plain(ops, done, n - 1, k);
      if !done[n - 1] then prev
      else match ops[n - 1]
        case WriteOp(path, data, offset, _) =>
          if k.path == path && offset / 4096 <= k.block < offset / 4096 + |data| / 4096
          then Some(Slice(data, k.block - offset / 4096)) else prev
        case UnlinkOp(path) => if k.path == path then None else prev
        case TruncateOp(path, size) => if k.path == path && k.block * BLOCK_SIZE >= size then None else prev
  }

  /** The recorded size of a path in the plain file system. */
  function PlainSize(ops: seq<Op>, done: seq<bool>, n: nat, p: Path): Option<nat>
    requires n <= |ops| == |done|
  {
    if n == 0 then None
    else
      var prev := PlainSize(ops, done, n - 1, p);
      if !done[n - 1] then prev
      else match ops[n - 1]
        case WriteOp(path, data, offset, _) =>
          var end := (offset / BLOCK_SIZE + |data| / BLOCK_SIZE) * BLOCK_SIZE;
          if path != p then prev else if prev.Some? && prev.value >= end then prev else Some(end)
        case UnlinkOp(path) => if path == p then None else prev
        case TruncateOp(path, size) => if path == p && prev.Some? && 0 <= size < prev.value then Some(size) else prev
  }

  function SizeOf(sh: Shared, p: Path): Option<nat> { if p in sh.sizes then Some(sh.sizes[p]) else None }

  ghost predicate Reported(env: Env, malloc: Malloc, ops: seq<Op>, done: seq<bool>) {
    |done| == |ops| && forall i: nat :: i < |ops| ==> done[i] == Succeeded(env, malloc, ops, i)
  }

  lemma {:induction false} RefineWrite(env: Env, malloc: Malloc, sh: Shared, op: Op, k: Key)
    requires Quiet(env, sh) && Fresh(malloc) && Trusted(env, op) && CollisionFree(env) && op.WriteOp?
    ensures var r := Write(env, malloc, op.io, sh, op.path, op.data, op.offset);
            var start, n := op.offset / BLOCK_SIZE, |op.data| / BLOCK_SIZE;
            if r.rc > 0 then
              && ContentAt(r.sh, k) == (if InRange(k, op.path, start, n) then Some(Slice(op.data, k.block - start))
                  else ContentAt(sh, k))
              && r.sh.sizes == Grow(sh.sizes, op.path, (start + n) * BLOCK_SIZE)
            else ContentAt(r.sh, k) == ContentAt(sh, k) && r.sh.sizes == sh.sizes
  {
    hide Write;
    if Write(env, malloc, op.io, sh, op.path, op.data, op.offset).rc > 0 {
      SuccessfulWrite(env, malloc, op.io, sh, op.path, op.data, op.offset, k);
    } else {
      FailedWrite(env, malloc, op.io, sh, op.path, op.data, op.offset);
    }
  }

  lemma {:induction false} RefineRemoval(env: Env, sh: Shared, op: Op, k: Key)
    requires Quiet(env, sh) && SizesOk(sh) && !op.WriteOp?
    ensures op.UnlinkOp? ==>
              && ContentAt(Unlink(sh, op.path), k) == (if k.path == op.path then None else ContentAt(sh, k))
              && forall p :: SizeOf(Unlink(sh, op.path), p) == if p == op.path then None else SizeOf(sh, p)
    ensures op.TruncateOp? ==>
              var r := Truncate(sh, op.path, op.size);
              if r.rc == 0 then
                && ContentAt(r.sh, k) == (if k.path == op.path && k.block * BLOCK_SIZE >= op.size then None
                    else ContentAt(sh, k))
                && forall p :: SizeOf(r.sh, p) ==
                     if p == op.path && p in sh.sizes && 0 <= op.size < sh.sizes[p] then Some(op.size)
                         else SizeOf(sh, p)
              else r.sh == sh
  {
    match op
    case UnlinkOp(path) =>
      UnlinkLaw(env, sh, path);
      UnlinkSizes(env, sh, path);
      if k.path == path { assert Key(path, k.block) == k; } else { assert Untouched(sh, Unlink(sh, path), k); }
    case TruncateOp(path, size) =>
      var r := Truncate(sh, path, size);
      TruncateLaw(env, sh, path, size);
      TruncateSizes(env, sh, path, size);
      assert CoveredAt(sh, k);
      if r.rc == 0 && path in sh.sizes && size < sh.sizes[path] { assert ShrunkAt(sh, r.sh, path, size, k); }
  }

  /** Refinement over whole histories: every block reads, and every size is recorded, as in
      the plain file system, whatever was shared, overwritten, failed or retried. */
  lemma {:induction false} HistoryRefines(env: Env, malloc: Malloc, ops: seq<Op>, done: seq<bool>, n: nat, k: Key)
    requires Fresh(malloc) && AllTrusted(env, ops) && CollisionFree(env) && n <= |ops|
        && Reported(env, malloc, ops, done)
    ensures var sh := After(env, malloc, EMPTY, ops, n);
            ContentAt(sh, k) == Plain(ops, done, n, k) && SizeOf(sh, k.path) == PlainSize(ops, done, n, k.path)
  {
    hide Write, Unlink, Truncate;
    if n > 0 {
      var prev, op := After(env, malloc, EMPTY, ops, n - 1), ops[n - 1];
      HistoryRefines(env, malloc, ops, done, n - 1, k);
      EmptyGlobal(env);
      HistoryQuiet(env, malloc, EMPTY, ops, n - 1);
      HistorySizes(env, malloc, ops, n - 1);
      assert ops[n - 1] in ops;
      assert done[n - 1] == Succeeded(env, malloc, ops, n - 1);
      if op.WriteOp? { RefineWrite(env, malloc, prev, op, k); } else { RefineRemoval(env, prev, op, k); }
    }
  }
}
