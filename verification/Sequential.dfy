/** One operation at a time: the state machine of the threads, run by a single thread until
    it is idle again. This is the specification of the sequential store. */
module Sequential {
  import opened Model
  import opened Steps
  import opened Protocol

  /** The allocator of a sequential store returns an address outside the given set. */
  type Malloc = set<Ptr> -> Ptr

  ghost predicate Fresh(malloc: Malloc) { forall used: set<Ptr> :: malloc(used) !in used }

  function ChoiceFor(malloc: Malloc, io: Device, sh: Shared, w: Job): Choice {
    Choice(malloc(sh.heap.Keys), At(io, w.pos), 0)
  }

  /** The final state and return value of an operation. */
  datatype Ended = Ended(sh: Shared, rc: int)

  function PhaseRank(w: Job): nat {
    match w.phase
    case Deciding => 12
    case Draining => 11
    case Appending => 10
    case Placing => 9
    case Flushing => 8
    case Publishing => 7
    case Mapping => 6
    case Resizing => 5
    case Releasing => 4
    case UndoHits => 3
    case ReleaseHits => 2
    case UndoMisses => 1
  }

  /** Entries that the loop of the current phase has still to visit. */
  function Left(w: Job): nat {
    match w.phase
    case Deciding => if |w.plan| <= |w.buf| then |w.buf| - |w.plan| else 0
    case Draining => 0
    case Appending => 0
    case _ => if w.pos <= |w.plan| then |w.plan| - w.pos else 0
  }

  /** A write, from the given point to its end. */
  function Drive(env: Env, malloc: Malloc, io: Device, sh: Shared, w: Job): Ended
    decreases PhaseRank(w), Left(w)
  {
    if !ListsOk(w) then Ended(sh, 0)
    else
      var m := WriterStep(env, false, sh, w, ChoiceFor(malloc, io, sh, w));
      if m.t.Writer? then Drive(env, malloc, io, m.sh, m.t.job)
      else Ended(m.sh, if w.phase.Releasing? then |w.buf| * BLOCK_SIZE else w.rc)
  }

  /** A removal, from the given point to its end. */
  function Clear(sh: Shared, r: Removal): Shared
    decreases if r.pos < r.end then r.end - r.pos else 0, |r.release|
  {
    var m := RemoverStep(sh, r);
    if m.t.Remover? then Clear(m.sh, m.t.removal) else m.sh
  }

  /** The i-th block of a request buffer. */
  function BlockAt(data: seq<Byte>, i: nat): (b: Block)
    requires (i + 1) * BLOCK_SIZE <= |data|
    ensures |b| == 4096 && forall j: nat :: j < 4096 ==> b[j] == data[i * 4096 + j]
  {
    data[i * BLOCK_SIZE..(i + 1) * BLOCK_SIZE]
  }

  /** The blocks of a request buffer: all its bytes in order, as far as they fill blocks. */
  function Blocks(data: seq<Byte>): (blocks: seq<Block>)
    ensures |blocks| == |data| / 4096
    ensures forall i: nat :: i < |blocks| ==> blocks[i] == data[i * 4096..(i + 1) * 4096]
  {
    seq(|data| / BLOCK_SIZE, i requires 0 <= i < |data| / BLOCK_SIZE => BlockAt(data, i))
  }

  /** write_dedup. */
  function Write(env: Env, malloc: Malloc, io: Device, sh: Shared, path: Path, data: seq<Byte>, offset: nat): Ended {
    if |data| == 0 then Ended(sh, 0)
    else if |data| % BLOCK_SIZE != 0 then Ended(sh, -EOPNOTSUPP)
    else Drive(env, malloc, io, sh, Begin(path, offset / BLOCK_SIZE, Blocks(data)))
  }

  /** The metadata part of xmp_unlink. */
  function Unlink(sh: Shared, path: Path): Shared {
    if path in sh.sizes then Clear(sh, Removal(path, 0, BlocksOf(sh.sizes[path]), [], None)) else sh
  }

  /** The metadata part of xmp_truncate. */
  function Truncate(sh: Shared, path: Path, size: int): Ended {
    if size < 0 || size % BLOCK_SIZE != 0 then Ended(sh, -EOPNOTSUPP)
    else if path in sh.sizes && size < sh.sizes[path] then
      Ended(Clear(sh, Removal(path, BlocksOf(size), BlocksOf(sh.sizes[path]), [], Some(size))), 0)
    else Ended(sh, 0)
  }

  datatype Op =
    | WriteOp(path: Path, data: seq<Byte>, offset: nat, io: Device)
    | UnlinkOp(path: Path)
    | TruncateOp(path: Path, size: int)

  function Apply(env: Env, malloc: Malloc, sh: Shared, op: Op): Shared {
    match op
    case WriteOp(path, data, offset, io) => Write(env, malloc, io, sh, path, data, offset).sh
    case UnlinkOp(path) => Unlink(sh, path)
    case TruncateOp(path, size) => Truncate(sh, path, size).sh
  }

  /** The state after the first n operations. */
  function After(env: Env, malloc: Malloc, sh: Shared, ops: seq<Op>, n: nat): Shared
    requires n <= |ops|
  {
    if n == 0 then sh else Apply(env, malloc, After(env, malloc, sh, ops, n - 1), ops[n - 1])
  }

  /** All blocks written belong to the corpus on which the hash is trusted. */
  ghost predicate Trusted(env: Env, op: Op) {
    op.WriteOp? ==> forall b :: b in Blocks(op.data) ==> env.inPlay(b)
  }
}
