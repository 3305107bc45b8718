/** The steps of one thread, each a function on the shared state and the thread's own
    state. A step never spans more than one critical section of the source, and inside a
    critical section each plan entry is a step of its own, so every schedule that the
    locks admit is also a schedule of these steps. */
module Steps {
  import opened Model

  function Lend(heap: map<Ptr, MasterInfo>, p: Ptr, k: int): map<Ptr, MasterInfo> {
    if p in heap then heap[p := heap[p].(refcount := heap[p].refcount + k)] else heap
  }

  /** Atomic increment of a refcount. */
  function Bump(heap: map<Ptr, MasterInfo>, p: Ptr): map<Ptr, MasterInfo> { Lend(heap, p, 1) }

  /** A map without key k. */
  function Remove<K(!new), V>(m: map<K, V>, k: K): (r: map<K, V>)
    ensures forall j :: j in r <==> j in m && j != k
    ensures forall j :: j in r ==> r[j] == m[j]
  {
    map j | j in m && j != k :: m[j]
  }

  datatype Stepped = Stepped(sh: Shared, w: Job)

  datatype Dropped = Dropped(sh: Shared, freed: seq<nat>)

  /** fetch_sub on a refcount; the last reference also unpublishes and frees the info and
      hands its slot to the caller. */
  function Drop(sh: Shared, p: Ptr): Dropped {
    if p !in sh.heap then Dropped(sh, [])
    else if sh.heap[p].refcount == 1 then
      Dropped(sh.(heap := Remove(sh.heap, p), hashToMaster := Remove(sh.hashToMaster, sh.heap[p].hash)),
              [sh.heap[p].slot])
    else
      Dropped(sh.(heap := sh.heap[p := sh.heap[p].(refcount := sh.heap[p].refcount - 1)]), [])
  }

  // -------------------------------------------------------------------------- write, pass 1

  function Begin(path: Path, start: nat, buf: seq<Block>): Job {
    Job(Deciding, path, start, buf, [], map[], 0, [], [], 0)
  }

  /** One block of pass 1; `addr` is the address malloc returns if a pending info is made. */
  function Decide(env: Env, sh: Shared, w: Job, addr: Ptr): Stepped
    requires |w.plan| < |w.buf|
  {
    var h := env.hash(w.buf[|w.plan|]);
    if h in sh.hashToMaster then
      var q := sh.hashToMaster[h];
      Stepped(sh.(heap := Bump(sh.heap, q)), w.(plan := w.plan + [Hit(q)]))
    else if h in w.pendingHashes then
      var q := w.pendingHashes[h];
      Stepped(sh.(heap := Bump(sh.heap, q)), w.(plan := w.plan + [Hit(q)]))
    else
      Stepped(sh.(heap := sh.heap[addr := MasterInfo(h, 0, 1)]),
       w.(plan := w.plan + [Miss(addr)], pendingHashes := w.pendingHashes[h := addr]))
  }

  // ------------------------------------------------------------------------ write, pass 1.5

  function Min(a: nat, b: nat): nat { if a < b then a else b }

  /** Pop slots from the head of the free list, at most one per MISS. */
  function Drain(sh: Shared, w: Job): Stepped
  {
    var k := Min(Misses(w.plan), |sh.freeList|);
    Stepped(sh.(freeList := sh.freeList[k..]), w.(phase := Appending, out := sh.freeList[..k]))
  }

  /** The range reserved by fetch_add. */
  function Range(base: nat, n: nat): (r: seq<nat>)
    ensures |r| == n
    ensures forall i :: 0 <= i < n ==> r[i] == base + i
  {
    if n == 0 then [] else Range(base, n - 1) + [base + n - 1]
  }

  function Append(sh: Shared, w: Job): Stepped
    requires |w.out| <= Misses(w.plan)
  {
    var n := Misses(w.plan) - |w.out|;
    Stepped(sh.(next := sh.next + n), w.(phase := Placing, pos := 0, out := w.out + Range(sh.next, n)))
  }

  function Place(sh: Shared, w: Job): Stepped
    requires w.pos < |w.plan|
  {
    var e := w.plan[w.pos];
    if e.Miss? && w.out != [] && e.info in sh.heap then
      Stepped(sh.(heap := sh.heap[e.info := sh.heap[e.info].(slot := w.out[0])]),
       w.(plan := w.plan[w.pos := Placed(e.info, w.out[0])], out := w.out[1..], pos := w.pos + 1))
    else Stepped(sh, w.(pos := w.pos + 1))
  }

  // -------------------------------------------------------------------------- write, pass 2

  /** End of the run of placed entries that starts at i: neighbours in the plan whose
      slots are neighbours in the master. */
  function RunEnd(plan: seq<Entry>, i: nat): (j: nat)
    requires i < |plan| && plan[i].Placed?
    ensures i < j <= |plan|
    ensures forall k :: i <= k < j ==> plan[k].Placed? && plan[k].slot == plan[i].slot + (k - i)
    ensures j < |plan| ==> !(plan[j].Placed? && plan[j].slot == plan[j - 1].slot + 1)
    decreases |plan| - i
  {
    if i + 1 < |plan| && plan[i + 1].Placed? && plan[i + 1].slot == plan[i].slot + 1
    then RunEnd(plan, i + 1) else i + 1
  }

  /** A complete pwrite of consecutive blocks. */
  function Pwrite(disk: map<nat, Block>, slot: nat, blocks: seq<Block>): (r: map<nat, Block>)
    ensures forall k: nat :: k in r <==> k in disk || slot <= k < slot + |blocks|
    ensures forall k: nat :: k in r ==>
      r[k] == if slot <= k < slot + |blocks| then blocks[k - slot] else disk[k]
  {
    if blocks == [] then disk
    else
      var n := |blocks| - 1;
      Pwrite(disk, slot, blocks[..n])[slot + n := blocks[n]]
  }

  const EIO := 5
  const EOPNOTSUPP := 95

  type Errno = e: nat | e > 0 witness EIO

  /** The outcome of one pwrite: complete, short, or failed with an errno. Unless it is
      complete, `patch` is what the device happens to hold afterwards. */
  datatype Outcome = Full | Short(patch: map<nat, Block>) | Failed(patch: map<nat, Block>, errno: Errno)

  /** The faults of the device during one flush: the outcome of the pwrite that starts at a
      given plan position, complete where nothing is said. */
  type Device = map<nat, Outcome>

  function At(io: Device, i: nat): (outcome: Outcome)
    ensures i in io ==> outcome == io[i]
    ensures i !in io ==> outcome.Full?
  {
    if i in io then io[i] else Full
  }

  /** The return code of a flush that stopped at this outcome. */
  function Code(outcome: Outcome): (rc: int)
    ensures rc == 0 <==> outcome.Full?
    ensures rc <= 0
  {
    match outcome
    case Full => 0
    case Short(_) => -EIO
    case Failed(_, errno) => 0 - errno
  }

  /** A torn pwrite: anything may be left behind, but only inside the target range. */
  function TornPwrite(disk: map<nat, Block>, slot: nat, n: nat, patch: map<nat, Block>): (r: map<nat, Block>)
    ensures disk.Keys <= r.Keys
    ensures forall k :: k in r && !(slot <= k < slot + n) ==> k in disk && r[k] == disk[k]
    ensures forall k :: k in patch && slot <= k < slot + n ==> k in r && r[k] == patch[k]
  {
    map k | k in disk.Keys + patch.Keys && (k in disk || slot <= k < slot + n)
      :: if k in patch && slot <= k < slot + n then patch[k] else disk[k]
  }

  /** One run, or one HIT skipped. A torn pwrite starts the rollback. */
  function Flush(sh: Shared, w: Job, outcome: Outcome): Stepped
    requires w.pos < |w.plan| == |w.buf|
  {
    if w.plan[w.pos].Placed? then
      var x, j := w.plan[w.pos].slot, RunEnd(w.plan, w.pos);
      if outcome.Full? then Stepped(sh.(disk := Pwrite(sh.disk, x, w.buf[w.pos..j])), w.(pos := j))
      else
        Stepped(sh.(disk := TornPwrite(sh.disk, x, j - w.pos, outcome.patch)),
         w.(phase := UndoHits, pos := 0, rc := Code(outcome)))
    else Stepped(sh, w.(pos := w.pos + 1))
  }

  // -------------------------------------------------------------------------- write, pass 3

  /** Double-check insert of one entry. A loser frees its pending info, takes a reference
      on the winner and keeps its slot for release. */
  function Publish(sh: Shared, w: Job): Stepped
    requires w.pos < |w.plan|
  {
    var e := w.plan[w.pos];
    if e.Placed? && e.info in sh.heap then
      var h := sh.heap[e.info].hash;
      if h in sh.hashToMaster then
        var winner := sh.hashToMaster[h];
        Stepped(sh.(heap := Bump(Remove(sh.heap, e.info), winner)),
         w.(plan := w.plan[w.pos := Hit(winner)], release := [e.slot] + w.release, pos := w.pos + 1))
      else
        Stepped(sh.(hashToMaster := sh.hashToMaster[h := e.info]),
         w.(plan := w.plan[w.pos := Hit(e.info)], pos := w.pos + 1))
    else Stepped(sh, w.(pos := w.pos + 1))
  }

  /** The plan in which every entry on p became a HIT on q. */
  function Redirected(plan: seq<Entry>, p: Ptr, q: Ptr): (r: seq<Entry>)
    ensures |r| == |plan|
    ensures forall i: nat :: i < |r| ==> r[i] == if !plan[i].Done? && plan[i].info == p then Hit(q) else plan[i]
  {
    seq(|plan|, i requires 0 <= i < |plan| => if !plan[i].Done? && plan[i].info == p then Hit(q) else plan[i])
  }

  /** A publication step that is NOT in the source: a race loser hands all its references to
      the winner and redirects every entry that shares its pending info. */
  function PublishRepaired(sh: Shared, w: Job): Stepped
    requires w.pos < |w.plan|
  {
    var e := w.plan[w.pos];
    if e.Placed? && e.info in sh.heap && sh.heap[e.info].hash in sh.hashToMaster then
      var winner := sh.hashToMaster[sh.heap[e.info].hash];
      Stepped(sh.(heap := Lend(Remove(sh.heap, e.info), winner, sh.heap[e.info].refcount)),
       w.(plan := Redirected(w.plan, e.info, winner), release := [e.slot] + w.release, pos := w.pos + 1))
    else Publish(sh, w)
  }

  /** Remove the mapping of one logical block and drop its reference. */
  function Unmap(sh: Shared, key: Key): Dropped {
    if key in sh.fileToMaster
    then Drop(sh.(fileToMaster := Remove(sh.fileToMaster, key)), sh.fileToMaster[key])
    else Dropped(sh, [])
  }

  /** Redirect one logical block to an info, dropping the mapping it replaces. */
  function Redirect(sh: Shared, key: Key, p: Ptr): Dropped {
    var d := Unmap(sh, key);
    Dropped(d.sh.(fileToMaster := d.sh.fileToMaster[key := p]), d.freed)
  }

  function MapBlock(sh: Shared, w: Job): Stepped
    requires w.pos < |w.plan|
  {
    var e := w.plan[w.pos];
    if e.Hit? then
      var d := Redirect(sh, Key(w.path, w.start + w.pos), e.info);
      Stepped(d.sh, w.(plan := w.plan[w.pos := Done], release := d.freed + w.release, pos := w.pos + 1))
    else Stepped(sh, w.(pos := w.pos + 1))
  }

  function Grow(sizes: map<Path, nat>, path: Path, newEnd: nat): map<Path, nat> {
    if path !in sizes || newEnd > sizes[path] then sizes[path := newEnd] else sizes
  }

  function Resize(sh: Shared, w: Job): Stepped
  {
    Stepped(sh.(sizes := Grow(sh.sizes, w.path, (w.start + |w.buf|) * BLOCK_SIZE)), w.(phase := Releasing))
  }

  // --------------------------------------------------------------------- release and rollback

  function UndoHit(sh: Shared, w: Job): Stepped
    requires w.pos < |w.plan|
  {
    var e := w.plan[w.pos];
    if e.Hit? then
      var d := Drop(sh, e.info);
      Stepped(d.sh, w.(plan := w.plan[w.pos := Done], release := d.freed + w.release, pos := w.pos + 1))
    else Stepped(sh, w.(pos := w.pos + 1))
  }

  function UndoMiss(sh: Shared, w: Job): Stepped
    requires w.pos < |w.plan|
  {
    var e := w.plan[w.pos];
    if e.Placed? then
      Stepped(sh.(freeList := [e.slot] + sh.freeList, heap := Remove(sh.heap, e.info)),
       w.(plan := w.plan[w.pos := Done], pos := w.pos + 1))
    else Stepped(sh, w.(pos := w.pos + 1))
  }

  /** The local release list goes to the head of the free list. */
  function GiveBack(sh: Shared, release: seq<nat>): Shared {
    sh.(freeList := release + sh.freeList)
  }

  // --------------------------------------------------------------------- threads

  /** The phase that follows when the loop of the current phase is over. */
  function Advance(w: Job): Job
  {
    match w.phase
    case Deciding => if Misses(w.plan) == 0 then w.(phase := Publishing, pos := 0) else w.(phase := Draining)
    case Placing => w.(phase := Flushing, pos := 0)
    case Flushing => w.(phase := Publishing, pos := 0)
    case Publishing => w.(phase := Mapping, pos := 0)
    case Mapping => w.(phase := Resizing)
    case UndoHits => w.(phase := ReleaseHits)
    case _ => w
  }

  /** What a step does not decide itself: the address malloc returns, the outcome of a
      pwrite, and which block of a request the next pread delivers. */
  datatype Choice = Choice(addr: Ptr, outcome: Outcome, index: nat)

  datatype Moved = Moved(sh: Shared, t: Thread)

  function ToMoved(s: Stepped): Moved { Moved(s.sh, Writer(s.w)) }

  /** Lists of a job that every phase relies on. */
  predicate ListsOk(w: Job) {
    && |w.plan| <= |w.buf|
    && (w.phase != Deciding ==> |w.plan| == |w.buf|)
    && w.pos <= |w.buf|
    && (w.phase.Appending? ==> |w.out| <= Misses(w.plan))
    && (w.phase.Placing? ==> |w.out| == Misses(w.plan))
    && (!w.phase.Appending? && !w.phase.Placing? ==> w.out == [])
    && (w.phase in {Deciding, Draining, Appending, Placing, Flushing, UndoMisses} ==> w.release == [])
  }

  /** One step of write_dedup. `repaired` selects the publication step. */
  function WriterStep(env: Env, repaired: bool, sh: Shared, w: Job, ch: Choice): Moved
    requires ListsOk(w)
  {
    match w.phase
    case Deciding =>
      ToMoved(if |w.plan| < |w.buf| then Decide(env, sh, w, ch.addr) else Stepped(sh, Advance(w)))
    case Draining => ToMoved(Drain(sh, w))
    case Appending => ToMoved(Append(sh, w))
    case Placing => ToMoved(if w.pos < |w.plan| then Place(sh, w) else Stepped(sh, Advance(w)))
    case Flushing => ToMoved(if w.pos < |w.plan| then Flush(sh, w, ch.outcome) else Stepped(sh, Advance(w)))
    case Publishing =>
      ToMoved(if w.pos == |w.plan| then Stepped(sh, Advance(w))
              else if repaired then PublishRepaired(sh, w) else Publish(sh, w))
    case Mapping => ToMoved(if w.pos < |w.plan| then MapBlock(sh, w) else Stepped(sh, Advance(w)))
    case Resizing => ToMoved(Resize(sh, w))
    case Releasing => Moved(GiveBack(sh, w.release), Idle)
    case UndoHits => ToMoved(if w.pos < |w.plan| then UndoHit(sh, w) else Stepped(sh, Advance(w)))
    case ReleaseHits =>
      ToMoved(Stepped(GiveBack(sh, w.release), w.(phase := UndoMisses, pos := 0, release := [])))
    case UndoMisses => if w.pos < |w.plan| then ToMoved(UndoMiss(sh, w)) else Moved(sh, Idle)
  }

  /** The size entry after the blocks are gone: unlink drops it, truncate only shrinks it. */
  function Shrink(sizes: map<Path, nat>, path: Path, newSize: Option<nat>): map<Path, nat> {
    match newSize
    case None => Remove(sizes, path)
    case Some(n) => if path in sizes && n < sizes[path] then sizes[path := n] else sizes
  }

  /** One step of a batch removal and of the size update that follows it. */
  function RemoverStep(sh: Shared, r: Removal): Moved {
    if r.pos < r.end then
      var d := Unmap(sh, Key(r.path, r.pos));
      Moved(d.sh, Remover(r.(pos := r.pos + 1, release := d.freed + r.release)))
    else if r.release != [] then Moved(GiveBack(sh, r.release), Remover(r.(release := [])))
    else Moved(sh.(sizes := Shrink(sh.sizes, r.path, r.newSize)), Idle)
  }

  /** Lookups until the first hole, then one block per step in any order. */
  function ReaderStep(sh: Shared, r: Reading, ch: Choice): Moved {
    var key := Key(r.path, r.start + |r.snap|);
    if !r.looked then
      if |r.snap| < r.count && key in sh.fileToMaster && sh.fileToMaster[key] in sh.heap
      then Moved(sh, Reader(r.(snap := r.snap + [sh.heap[sh.fileToMaster[key]].slot])))
      else Moved(sh, Reader(r.(looked := true)))
    else if ch.index < |r.snap| && r.snap[ch.index] in sh.disk
    then Moved(sh, Reader(r.(got := r.got[ch.index := sh.disk[r.snap[ch.index]]])))
    else Moved(sh, Idle)
  }
}
