/** Shared state of the deduplicating block store (includes/metaindex.h) and the local
    state of the threads that work on it (src/dedup.c).

    MasterInfo objects are shared by address between the two indices and the plans of the
    writers, and they are freed explicitly, so the model keeps an explicit heap: a live
    object is a key of `heap`, `free` removes the key and `malloc` may return any address
    that is not a key. */
module Model {
  newtype Byte = b: int | 0 <= b < 256
  type Block = seq<Byte>
  type Hash = seq<Byte>
  type Path = seq<Byte>
  type Ptr = nat

  const BLOCK_SIZE := 4096

  datatype Key = Key(path: Path, block: nat)

  datatype MasterInfo = MasterInfo(hash: Hash, slot: nat, refcount: int)

  datatype Shared = Shared(
    hashToMaster: map<Hash, Ptr>,
    fileToMaster: map<Key, Ptr>,
    sizes: map<Path, nat>,
    heap: map<Ptr, MasterInfo>,
    freeList: seq<nat>,
    next: nat,
    disk: map<nat, Block>)

  const EMPTY := Shared(map[], map[], map[], map[], [], 0, map[])

  /** `hash` is SHA-512 over one block; `inPlay` delimits the blocks that requests may carry. */
  datatype Env = Env(hash: Block -> Hash, inPlay: Block -> bool)

  /** The hypothesis under which equal hashes mean equal contents. */
  ghost predicate CollisionFree(env: Env) {
    forall a: Block, b: Block ::
      env.inPlay(a) && env.inPlay(b) && env.hash(a) == env.hash(b) ==> a == b
  }

  /** One plan entry. `Hit` holds one counted reference on `info`; `Miss` owns a pending
      `info` without a slot; `Placed` owns a pending `info` and its slot; `Done` holds
      nothing any more. */
  datatype Entry = Hit(info: Ptr) | Miss(info: Ptr) | Placed(info: Ptr, slot: nat) | Done

  datatype Phase =
    | Deciding | Draining | Appending | Placing | Flushing
    | Publishing | Mapping | Resizing | Releasing
    | UndoHits | ReleaseHits | UndoMisses

  datatype Option<T> = None | Some(value: T)

  /** A write request in progress: its plan, its local slot lists, and the return code of the
      flush once it has failed. */
  datatype Job = Job(
    phase: Phase, path: Path, start: nat, buf: seq<Block>, plan: seq<Entry>,
    pendingHashes: map<Hash, Ptr>, pos: nat, out: seq<nat>, release: seq<nat>, rc: int)

  /** A batch removal of blocks [pos, end); `newSize` is None for unlink. */
  datatype Removal = Removal(path: Path, pos: nat, end: nat, release: seq<nat>, newSize: Option<nat>)

  /** A read in progress: the slots snapshotted so far and, once `looked` is set, the blocks
      fetched so far, by position in the request. */
  datatype Reading = Reading(path: Path, start: nat, count: nat, looked: bool, snap: seq<nat>, got: map<nat, Block>)

  datatype Thread = Idle | Writer(job: Job) | Remover(removal: Removal) | Reader(reading: Reading)

  /** An info is published when the hash index leads to it. */
  predicate Published(sh: Shared, p: Ptr) {
    p in sh.heap && sh.heap[p].hash in sh.hashToMaster && sh.hashToMaster[sh.heap[p].hash] == p
  }

  /** Number of MISS entries that still wait for a slot. */
  function Misses(plan: seq<Entry>): nat { MissesTo(plan, |plan|) }

  function MissesTo(plan: seq<Entry>, n: nat): nat
    requires n <= |plan|
  {
    if n == 0 then 0 else MissesTo(plan, n - 1) + if plan[n - 1].Miss? then 1 else 0
  }

  lemma {:induction false} SubsetSize<T>(a: set<T>, b: set<T>)
    requires a <= b
    ensures |a| <= |b|
  {
    if a != {} {
      var x :| x in a;
      SubsetSize(a - {x}, b - {x});
    }
  }
}
