/** What the balance means in every reachable state, and what single steps may change. */
module Safety {
  import opened Model
  import opened Steps
  import opened Invariant
  import opened Accounting
  import opened StepProofs
  import opened Lifecycle
  import opened Frames
  import opened Protocol

  // ------------------------------------------------------------------- slots and refcounts

  /** Slots held by writers for their MISSes, before and after placement. */
  function InFlight(ts: seq<Thread>, n: nat, x: nat): nat
    requires n <= |ts|
  {
    if n == 0 then 0
    else InFlight(ts, n - 1, x) + match ts[n - 1]
                                  case Writer(w) => SlotsTo(w.plan, |w.plan|, x) + multiset(w.out)[x]
                                  case _ => 0
  }

  /** Slots on the local release lists. */
  function OnRelease(ts: seq<Thread>, n: nat, x: nat): nat
    requires n <= |ts|
  {
    if n == 0 then 0
    else OnRelease(ts, n - 1, x) + match ts[n - 1]
                                   case Writer(w) => multiset(w.release)[x]
                                   case Remover(r) => multiset(r.release)[x]
                                   case _ => 0
  }

  /** References that plans hold on p. */
  function Reserved(ts: seq<Thread>, n: nat, p: Ptr): nat
    requires n <= |ts|
  {
    if n == 0 then 0
    else Reserved(ts, n - 1, p) + match ts[n - 1]
                                  case Writer(w) => RefsTo(w.plan, |w.plan|, p)
                                  case _ => 0
  }

  lemma {:induction false} ClaimsSum(ts: seq<Thread>, n: nat, x: nat)
    requires n <= |ts|
    ensures Total(ts, n).Slots(x) == InFlight(ts, n, x) + OnRelease(ts, n, x)
    ensures Total(ts, n).Refs(x) == Reserved(ts, n, x)
  {
    if n > 0 {
      ClaimsSum(ts, n - 1, x);
      assert Total(ts, n).Slots(x) == Total(ts, n - 1).Slots(x) + ThreadClaims(ts[n - 1]).Slots(x);
      assert Total(ts, n).Refs(x) == Total(ts, n - 1).Refs(x) + ThreadClaims(ts[n - 1]).Refs(x);
    }
  }

  /** Slot conservation: every slot below `next` has one owner among the free list, the
      published infos, the writers in flight and the release lists; no slot above has any. */
  lemma {:induction false} OneOwner(env: Env, s: State, x: nat)
    requires Inv(env, s)
    ensures multiset(s.sh.freeList)[x] + |PublishedAt(s.sh, x)| + InFlight(s.ts, |s.ts|, x) + OnRelease(s.ts, |s.ts|, x)
            == if x < s.sh.next then 1 else 0
  {
    assert ConservedAt(s.sh, Total(s.ts, |s.ts|), x);
    ClaimsSum(s.ts, |s.ts|, x);
  }

  /** Exact refcounts: mappings plus reservations, and never zero. */
  lemma {:induction false} ExactRefcount(env: Env, s: State, p: Ptr)
    requires Inv(env, s) && p in s.sh.heap
    ensures s.sh.heap[p].refcount == |MappedTo(s.sh.fileToMaster, p)| + Reserved(s.ts, |s.ts|, p) >= 1
  {
    assert ExactAt(s.sh, Total(s.ts, |s.ts|), p);
    ClaimsSum(s.ts, |s.ts|, p);
  }

  /** A reserved info is never freed, and when pass 3 maps it, it is published and carries
      the hash of the block written. */
  lemma {:induction false} ReservedIsAlive(env: Env, s: State, t: nat, i: nat)
    requires Inv(env, s) && t < |s.ts| && s.ts[t].Writer?
    requires var w := s.ts[t].job; i < |w.plan| && !w.plan[i].Done?
    ensures var w := s.ts[t].job;
            var p := w.plan[i].info;
            && |w.plan| <= |w.buf| && p in s.sh.heap && s.sh.heap[p].hash == env.hash(w.buf[i])
            && (w.phase.Mapping? ==> w.plan[i].Hit? && i >= w.pos && Published(s.sh, p))
  {
    var w := s.ts[t].job;
    assert ThreadAt(env, s, t);
    assert EntryOk(env, s.sh, w, i) && KindsOk(w, i);
    if w.phase.Mapping? {
      forall j: nat | j < |w.plan| ensures w.plan[j].Hit? || w.plan[j].Done? { assert KindsOk(w, j); }
      NoPendingTo(w.plan, |w.plan|, w.plan[i].info);
    }
  }

  /** Content coherence: slot and hash of a published info agree, whatever I/O failed before. */
  lemma {:induction false} PublishedHolds(env: Env, s: State, p: Ptr)
    requires Inv(env, s) && Published(s.sh, p)
    ensures var i := s.sh.heap[p]; i.slot < s.sh.next && i.slot in s.sh.disk && env.hash(s.sh.disk[i.slot]) == i.hash
  {
    assert BackedAt(env, s.sh, p);
  }

  /** Distinct published infos differ in hash and in slot. */
  lemma {:induction false} PublishedApart(env: Env, s: State, p: Ptr, q: Ptr)
    requires Inv(env, s) && Published(s.sh, p) && Published(s.sh, q) && p != q
    ensures s.sh.heap[p].hash != s.sh.heap[q].hash && s.sh.heap[p].slot != s.sh.heap[q].slot
  {
    SlotsApart(s.sh, Total(s.ts, |s.ts|), p, q);
  }

  lemma {:induction false} SlotsApart(sh: Shared, c: Claims, p: Ptr, q: Ptr)
    requires SlotsConserved(sh, c) && Published(sh, p) && Published(sh, q) && p != q
    ensures sh.heap[p].slot != sh.heap[q].slot
  {
    var x := sh.heap[p].slot;
    if sh.heap[q].slot == x {
      assert ConservedAt(sh, c, x);
      var two := {sh.heap[p].hash, sh.heap[q].hash};
      assert two <= PublishedAt(sh, x);
      SubsetSize(two, PublishedAt(sh, x));
      assert false;
    }
  }

  // ------------------------------------------------------------------------ the visible map

  /** What a lookup of one logical block leads to: the stored hash. */
  function VisibleAt(sh: Shared, k: Key): Option<Hash> {
    if k in sh.fileToMaster && sh.fileToMaster[k] in sh.heap then Some(sh.heap[sh.fileToMaster[k]].hash) else None
  }

  /** Both states see the same hash behind k. */
  ghost predicate SameView(sh: Shared, sh': Shared, k: Key) { VisibleAt(sh', k) == VisibleAt(sh, k) }

  lemma {:induction false} SameFileView(sh: Shared, sh': Shared, k: Key)
    requires Linked(sh) && Linked(sh')
    requires (k in sh'.fileToMaster <==> k in sh.fileToMaster)
    requires k in sh.fileToMaster ==> sh'.fileToMaster[k] == sh.fileToMaster[k] && SameInfo(sh, sh', sh.fileToMaster[k])
    ensures SameView(sh, sh', k)
  {
    assert FileLinked(sh, k) && FileLinked(sh', k);
  }

  /** Mapping one block makes exactly that block visible. */
  lemma {:induction false} MapVisible(env: Env, sh: Shared, w: Job, rest: Claims, k: Key)
    requires View(env, sh, w, rest) && w.phase.Mapping? && w.pos < |w.plan|
    ensures var s, key := MapBlock(sh, w), Key(w.path, w.start + w.pos);
            if k == key then VisibleAt(s.sh, k) == Some(env.hash(w.buf[w.pos])) else SameView(sh, s.sh, k)
  {
    var s, key := MapBlock(sh, w), Key(w.path, w.start + w.pos);
    MappedIsPublished(env, sh, w);
    MapKeeps(env, sh, w, rest);
    assert FileLinked(s.sh, key);
    UnmapInfos(sh, key, w.plan[w.pos].info);
    if k != key {
      if k in sh.fileToMaster { UnmapInfos(sh, key, sh.fileToMaster[k]); }
      SameFileView(sh, s.sh, k);
    }
  }

  /** Removing one mapping hides exactly that block. */
  lemma {:induction false} UnmapVisible(env: Env, sh: Shared, key: Key, c: Claims, k: Key)
    requires Global(env, sh, c)
    ensures if k == key then VisibleAt(Unmap(sh, key).sh, k) == None else SameView(sh, Unmap(sh, key).sh, k)
  {
    UnmapGlobal(env, sh, c, key);
    UnmapInfos(sh, key, 0);
    if k != key {
      if k in sh.fileToMaster { UnmapInfos(sh, key, sh.fileToMaster[k]); }
      SameFileView(sh, Unmap(sh, key).sh, k);
    }
  }

  lemma {:induction false} WriterVisible(env: Env, repaired: bool, sh: Shared, w: Job, ch: Choice, rest: Claims, k: Key)
    requires View(env, sh, w, rest) && LegalChoice(sh, ch) && Guarded(repaired, sh, w)
    ensures var m := WriterStep(env, repaired, sh, w, ch);
            if w.phase.Mapping? && w.pos < |w.plan| && k == Key(w.path, w.start + w.pos)
            then VisibleAt(m.sh, k) == Some(env.hash(w.buf[w.pos])) else SameView(sh, m.sh, k)
  {
    var m := WriterStep(env, repaired, sh, w, ch);
    if w.phase.Mapping? && w.pos < |w.plan| {
      MapVisible(env, sh, w, rest, k);
    } else {
      WriterBalanced(env, repaired, sh, w, ch, rest);
      WriterFramed(env, repaired, sh, w, ch, rest, if k in sh.fileToMaster then sh.fileToMaster[k] else 0);
      SameFileView(sh, m.sh, k);
    }
  }

  /** The key whose mapping an action is about to write, and the hash it will show. */
  function Effect(env: Env, s: State, a: Action): (e: Option<(Key, Option<Hash>)>)
    requires a.tid < |s.ts|
  {
    if !a.Step? then None else
    match s.ts[a.tid]
    case Writer(w) =>
      if w.phase.Mapping? && w.pos < |w.plan| && w.pos < |w.buf|
      then Some((Key(w.path, w.start + w.pos), Some(env.hash(w.buf[w.pos])))) else None
    case Remover(r) => if r.pos < r.end then Some((Key(r.path, r.pos), None)) else None
    case _ => None
  }

  /** The visible map changes only when a writer maps a block or a removal unmaps one, at
      that key alone, and then it shows the block just written or nothing. */
  lemma {:induction false} VisibleStep(env: Env, repaired: bool, s: State, a: Action, k: Key)
    requires Inv(env, s) && Enabled(env, s, a) && NoLostDupStep(repaired, s, a)
    ensures var s', e := Next(env, repaired, s, a), Effect(env, s, a);
            if e.Some? && e.value.0 == k then VisibleAt(s'.sh, k) == e.value.1 else SameView(s.sh, s'.sh, k)
  {
    if a.Step? && s.ts[a.tid].Writer? {
      var w, rest := s.ts[a.tid].job, Others(s.ts, a.tid);
      WriterView(env, s, a.tid);
      WriterVisible(env, repaired, s.sh, w, a.choice, rest, k);
    } else if a.Step? && s.ts[a.tid].Remover? {
      var r := s.ts[a.tid].removal;
      if r.pos < r.end { UnmapVisible(env, s.sh, Key(r.path, r.pos), Total(s.ts, |s.ts|), k); }
    }
  }

  // ------------------------------------------------------------------------------- the disk

  /** Slots that the next step of a writer may write: those of the run it flushes. */
  predicate Flushes(w: Job, x: nat) {
    && w.phase.Flushing? && w.pos < |w.plan| && w.plan[w.pos].Placed?
    && w.plan[w.pos].slot <= x < w.plan[w.pos].slot + (RunEnd(w.plan, w.pos) - w.pos)
  }

  ghost predicate SameBlock(sh: Shared, sh': Shared, x: nat) {
    (x in sh'.disk <==> x in sh.disk) && (x in sh.disk ==> sh'.disk[x] == sh.disk[x])
  }

  lemma {:induction false} WriterDisk(env: Env, repaired: bool, sh: Shared, w: Job, ch: Choice, rest: Claims, x: nat)
    requires View(env, sh, w, rest) && LegalChoice(sh, ch)
    requires !SameBlock(sh, WriterStep(env, repaired, sh, w, ch).sh, x)
    ensures Flushes(w, x) && SlotsTo(w.plan, |w.plan|, x) > 0
    ensures PublishedAt(sh, x) == {} && x !in sh.freeList && rest.Slots(x) == 0
  {
    WriterFramed(env, repaired, sh, w, ch, rest, 0);
    if w.phase.Flushing? && w.pos < |w.plan| {
      assert WriterStep(env, repaired, sh, w, ch) == ToMoved(Flush(sh, w, ch.outcome));
      if !Flushes(w, x) { FlushOnly(sh, w, ch.outcome, x); }
      FlushedIsOwned(env, sh, w, rest, x);
    }
  }

  lemma {:induction false} FlushedIsOwned(env: Env, sh: Shared, w: Job, rest: Claims, x: nat)
    requires View(env, sh, w, rest) && Flushes(w, x)
    ensures SlotsTo(w.plan, |w.plan|, x) > 0 && PublishedAt(sh, x) == {} && x !in sh.freeList && rest.Slots(x) == 0
  {
    var c := rest.Plus(JobClaims(w));
    PlanMember(w.plan, w.pos + (x - w.plan[w.pos].slot));
    assert c.Slots(x) > 0;
    assert ConservedAt(sh, c, x);
  }

  lemma {:induction false} FlushOnly(sh: Shared, w: Job, outcome: Outcome, x: nat)
    requires w.phase.Flushing? && w.pos < |w.plan| == |w.buf| && !Flushes(w, x)
    ensures SameBlock(sh, Flush(sh, w, outcome).sh, x)
  {}

  /** A full, short or failed pwrite of one thread never touches a block that is published
      or held by another thread: only slots that its own plan owns. */
  lemma {:induction false} DiskStep(env: Env, repaired: bool, s: State, a: Action, x: nat)
    requires Inv(env, s) && Enabled(env, s, a)
    requires !SameBlock(s.sh, Next(env, repaired, s, a).sh, x)
    ensures a.Step? && s.ts[a.tid].Writer?
            && var w := s.ts[a.tid].job; Flushes(w, x) && SlotsTo(w.plan, |w.plan|, x) > 0
    ensures PublishedAt(s.sh, x) == {} && x !in s.sh.freeList && Others(s.ts, a.tid).Slots(x) == 0
  {
    if a.Step? && s.ts[a.tid].Writer? {
      var w := s.ts[a.tid].job;
      WriterView(env, s, a.tid);
      assert Next(env, repaired, s, a).sh == WriterStep(env, repaired, s.sh, w, a.choice).sh;
      WriterDisk(env, repaired, s.sh, w, a.choice, Others(s.ts, a.tid), x);
    }
  }

  /** Slot x belongs to a published info in every state from i to j. */
  ghost predicate StaysPublished(run: Run, i: nat, j: nat, x: nat)
    requires j < |run.states|
  {
    forall m: nat :: i <= m <= j ==> PublishedAt(run.states[m].sh, x) != {}
  }

  /** No action changes the block in a published slot. */
  lemma {:induction false} StableStep(env: Env, repaired: bool, s: State, a: Action, x: nat)
    requires Inv(env, s) && Enabled(env, s, a) && PublishedAt(s.sh, x) != {}
    ensures SameBlock(s.sh, Next(env, repaired, s, a).sh, x)
  {
    if !SameBlock(s.sh, Next(env, repaired, s, a).sh, x) { DiskStep(env, repaired, s, a, x); }
  }

  /** Reader/writer non-interference: while a snapshotted slot stays published, the block in
      it is the block that was there at the snapshot. */
  lemma {:induction false} SlotStable(env: Env, repaired: bool, run: Run, i: nat, j: nat, x: nat)
    requires IsRun(env, repaired, run) && NoLostDups(repaired, run) && Inv(env, run.states[0])
    requires i <= j <= |run.acts| && StaysPublished(run, i, j, x)
    ensures SameBlock(run.states[i].sh, run.states[j].sh, x)
  {
    if i < j {
      assert StaysPublished(run, i, j - 1, x);
      SlotStable(env, repaired, run, i, j - 1, x);
      RunInv(env, repaired, run, j - 1);
      assert MoveAt(env, repaired, run, j - 1);
      assert PublishedAt(run.states[j - 1].sh, x) != {};
      StableStep(env, repaired, run.states[j - 1], run.acts[j - 1], x);
    }
  }

  /** A reader that looks up a block in state i and fetches it in state j gets exactly the
      content that the block had at the lookup, with the hash the index showed then. */
  lemma {:induction false} ReadNonInterference(
      env: Env, repaired: bool, run: Run, i: nat, j: nat, key: Key, r: Reading, n: nat, ch: Choice)
    requires IsRun(env, repaired, run) && NoLostDups(repaired, run) && Inv(env, run.states[0])
    requires i <= j <= |run.acts| && key in run.states[i].sh.fileToMaster
    requires var sh := run.states[i].sh;
             var p := sh.fileToMaster[key];
             && p in sh.heap && StaysPublished(run, i, j, sh.heap[p].slot)
             && r.looked && n < |r.snap| && r.snap[n] == sh.heap[p].slot && ch.index == n
    ensures var sh := run.states[i].sh;
            var x := sh.heap[sh.fileToMaster[key]].slot;
            && x in sh.disk
            && ReaderStep(run.states[j].sh, r, ch) == Moved(run.states[j].sh, Reader(r.(got := r.got[n := sh.disk[x]])))
            && VisibleAt(sh, key) == Some(env.hash(sh.disk[x]))
  {
    var sh := run.states[i].sh;
    RunInv(env, repaired, run, i);
    assert FileLinked(sh, key);
    PublishedHolds(env, run.states[i], sh.fileToMaster[key]);
    SlotStable(env, repaired, run, i, j, sh.heap[sh.fileToMaster[key]].slot);
  }

  /** A reader that has looked up its slots can fetch every one of them in any later reachable
      state: no pread runs past the end of the master, whatever was removed meanwhile. */
  lemma {:induction false} ReaderNeverShort(env: Env, s: State, t: nat, ch: Choice)
    requires Inv(env, s) && t < |s.ts| && s.ts[t].Reader? && s.ts[t].reading.looked && ch.index < |s.ts[t].reading.snap|
    ensures var r := s.ts[t].reading;
            var m := ReaderStep(s.sh, r, ch);
            && m.t.Reader? && m.t.reading == r.(got := m.t.reading.got)
            && ch.index in m.t.reading.got && r.snap[ch.index] in s.sh.disk
            && m.t.reading.got[ch.index] == s.sh.disk[r.snap[ch.index]]
  {
    assert SnapAt(s, t);
    assert s.ts[t].reading.snap[ch.index] in s.ts[t].reading.snap;
  }

  // -------------------------------------------------------------------- duplicate-free runs

  ghost predicate DistinctAt(env: Env, s: State, t: nat)
    requires t < |s.ts|
  {
    s.ts[t].Writer? ==> DistinctBlocks(env, s.ts[t].job.buf)
  }

  ghost predicate DistinctAction(env: Env, a: Action) { a.StartWrite? ==> DistinctBlocks(env, a.buf) }

  lemma {:induction false} DistinctNext(env: Env, s: State, a: Action, t: nat)
    requires Inv(env, s) && Enabled(env, s, a) && DistinctAction(env, a) && t < |s.ts| && DistinctAt(env, s, t)
    ensures DistinctAt(env, Next(env, false, s, a), t)
  {
    if t == a.tid && a.Step? && s.ts[t].Writer? {
      WriterView(env, s, t);
      WriterFramed(env, false, s.sh, s.ts[t].job, a.choice, Others(s.ts, t), 0);
    }
  }

  /** If no single request repeats a block, every run of the source as it is stays safe. */
  lemma {:induction false} DistinctRunInv(env: Env, run: Run, n: nat)
    requires IsRun(env, false, run) && n <= |run.acts| && Inv(env, run.states[0])
    requires forall t: nat :: t < |run.states[0].ts| ==> DistinctAt(env, run.states[0], t)
    requires forall a :: a in run.acts ==> DistinctAction(env, a)
    ensures Inv(env, run.states[n]) && forall t: nat :: t < |run.states[n].ts| ==> DistinctAt(env, run.states[n], t)
  {
    if n > 0 {
      var s, a := run.states[n - 1], run.acts[n - 1];
      DistinctRunInv(env, run, n - 1);
      assert MoveAt(env, false, run, n - 1) && DistinctAction(env, a);
      if a.Step? && s.ts[a.tid].Writer? {
        var w, rest := s.ts[a.tid].job, Others(s.ts, a.tid);
        assert DistinctAt(env, s, a.tid);
        WriterView(env, s, a.tid);
        if w.phase.Publishing? && w.pos < |w.plan| { DistinctIsSafe(env, s.sh, w, rest); }
      }
      NextInv(env, false, s, a);
      forall t: nat | t < |run.states[n].ts| ensures DistinctAt(env, run.states[n], t) {
        assert DistinctAt(env, s, t);
        DistinctNext(env, s, a, t);
      }
    }
  }
}
