/** The lookup phase of a read is atomic: under the locks of the source, the slots that a
    reader has collected are all slots of one and the same state. */
module Snapshots {
  import opened Model
  import opened Steps
  import opened Invariant
  import opened Accounting
  import opened Frames
  import opened Protocol
  import opened Locks
  import opened Safety
  import opened Quiescence
  import opened Timeline

  /** The slot that a lookup of k finds. */
  function SlotAt(sh: Shared, k: Key): Option<nat> {
    if k in sh.fileToMaster && sh.fileToMaster[k] in sh.heap then Some(sh.heap[sh.fileToMaster[k]].slot) else None
  }

  /** What a reader that is still looking up has collected is what the index shows now. */
  ghost predicate UpToDate(s: State, t: nat)
    requires t < |s.ts|
  {
    s.ts[t].Reader? && !s.ts[t].reading.looked ==>
      var r := s.ts[t].reading;
      |r.snap| <= r.count && forall i: nat :: i < |r.snap| ==> SlotAt(s.sh, Key(r.path, r.start + i)) == Some(r.snap[i])
  }

  /** While a reader holds the lock, no other thread changes what a lookup finds. */
  lemma {:induction false} LookupsStand(env: Env, repaired: bool, s: State, a: Action, t: nat, k: Key)
    requires Inv(env, s) && Enabled(env, s, a) && NoLostDupStep(repaired, s, a)
    requires t < |s.ts| && t != a.tid && Admits(s, a, t) && Holds(s.ts[t]).ReadHeld?
    ensures SlotAt(Next(env, repaired, s, a).sh, k) == SlotAt(s.sh, k)
  {
    var s' := Next(env, repaired, s, a);
    NextInv(env, repaired, s, a);
    assert FileLinked(s.sh, k) && FileLinked(s'.sh, k);
    if a.Step? && s.ts[a.tid].Writer? {
      WriterView(env, s, a.tid);
      WriterFramed(env, repaired, s.sh, s.ts[a.tid].job, a.choice, Others(s.ts, a.tid),
                   if k in s.sh.fileToMaster then s.sh.fileToMaster[k] else 0);
    }
  }

  /** A lookup adds what the index shows now. */
  lemma {:induction false} LookupAdds(s: State, t: nat, ch: Choice)
    requires t < |s.ts| && s.ts[t].Reader? && UpToDate(s, t)
    ensures var m := ReaderStep(s.sh, s.ts[t].reading, ch); UpToDate(State(m.sh, s.ts[t := m.t]), t)
  {}

  lemma {:induction false} StaysWriter(env: Env, repaired: bool, sh: Shared, w: Job, ch: Choice)
    requires ListsOk(w)
    ensures !WriterStep(env, repaired, sh, w, ch).t.Reader?
  {}

  lemma {:induction false} StaysRemover(sh: Shared, r: Removal)
    ensures !RemoverStep(sh, r).t.Reader?
  {}

  lemma {:induction false} UpToDateNext(env: Env, repaired: bool, s: State, a: Action, t: nat)
    requires Inv(env, s) && Enabled(env, s, a) && NoLostDupStep(repaired, s, a)
    requires t < |s.ts| && Admits(s, a, t) && UpToDate(s, t)
    ensures UpToDate(Next(env, repaired, s, a), t)
  {
    hide WriterStep, RemoverStep, Inv;
    var s' := Next(env, repaired, s, a);
    if t == a.tid {
      if a.Step? && s.ts[t].Reader? { LookupAdds(s, t, a.choice); }
      if a.Step? && s.ts[t].Writer? && ListsOk(s.ts[t].job) { StaysWriter(env, repaired, s.sh, s.ts[t].job, a.choice); }
      if a.Step? && s.ts[t].Remover? { StaysRemover(s.sh, s.ts[t].removal); }
    } else if s.ts[t].Reader? && !s.ts[t].reading.looked {
      var r := s.ts[t].reading;
      forall i: nat | i < |r.snap| ensures SlotAt(s'.sh, Key(r.path, r.start + i)) == Some(r.snap[i]) {
        LookupsStand(env, repaired, s, a, t, Key(r.path, r.start + i));
      }
    }
  }

  lemma {:induction false} RunUpToDate(env: Env, repaired: bool, run: Run, n: nat, t: nat)
    requires IsRun(env, repaired, run) && NoLostDups(repaired, run) && Locked(run) && n <= |run.acts|
    requires Inv(env, run.states[0]) && AllIdle(run.states[0].ts) && t < |run.states[0].ts|
    ensures |run.states[n].ts| == |run.states[0].ts| && UpToDate(run.states[n], t)
  {
    if n > 0 {
      RunUpToDate(env, repaired, run, n - 1, t);
      RunInv(env, repaired, run, n - 1);
      assert MoveAt(env, repaired, run, n - 1) && GuardedAt(repaired, run, n - 1) && RespectsAt(run, n - 1);
      assert Admits(run.states[n - 1], run.acts[n - 1], t);
      UpToDateNext(env, repaired, run.states[n - 1], run.acts[n - 1], t);
    }
  }

  /** The action with which reader t ends its lookups. */
  ghost predicate EndsLookup(run: Run, n: nat, t: nat)
    requires n < |run.acts| < |run.states|
  {
    && t < |run.states[n].ts| == |run.states[n + 1].ts|
    && run.states[n].ts[t].Reader? && !run.states[n].ts[t].reading.looked
    && run.states[n + 1].ts[t].Reader? && run.states[n + 1].ts[t].reading.looked
  }

  /** A read takes its snapshot at one point of the run: when its lookups end in state n, it
      holds the slots of the longest mapped prefix of its request in state n, and if they stay
      published until they are fetched, every block it delivers is the one of the plain map in
      state n. */
  lemma {:induction false} ReadIsAtomic(env: Env, repaired: bool, run: Run, n: nat, t: nat, i: nat)
    requires IsRun(env, repaired, run) && NoLostDups(repaired, run) && Locked(run) && CollisionFree(env)
    requires Inv(env, run.states[0]) && AllIdle(run.states[0].ts) && t < |run.states[0].ts|
    requires n < |run.acts| && EndsLookup(run, n, t)
    ensures var r, sh := run.states[n + 1].ts[t].reading, run.states[n].sh;
            var key := Key(r.path, r.start + i);
            && |r.snap| <= r.count && InRun(run, n)
            && (i < |r.snap| ==> SlotAt(sh, key) == Some(r.snap[i]) && PlainAt(run, n, key).Some?)
            && (i == |r.snap| < r.count ==> SlotAt(sh, key) == None && PlainAt(run, n, key) == None)
            && (i < |r.snap| ==>
                  forall j: nat, got: map<nat, Block>, ch: Choice ::
                    n <= j <= |run.acts| && StaysPublished(run, n, j, r.snap[i]) && ch.index == i ==>
                      ReaderStep(run.states[j].sh, r.(got := got), ch)
                      == Moved(run.states[j].sh, Reader(r.(got := got[i := PlainAt(run, n, key).value]))))
  {
    var r0, r, sh := run.states[n].ts[t].reading, run.states[n + 1].ts[t].reading, run.states[n].sh;
    var key := Key(r.path, r.start + i);
    RunUpToDate(env, repaired, run, n, t);
    RunInv(env, repaired, run, n);
    assert MoveAt(env, repaired, run, n);
    assert run.acts[n].tid == t && run.states[n + 1].ts[t] == ReaderStep(sh, r0, run.acts[n].choice).t;
    assert r.snap == r0.snap && r.path == r0.path && r.start == r0.start && r.count == r0.count;
    RunRefines(env, repaired, run, n, key);
    MappedHasContent(env, run.states[n], key);
    assert FileLinked(sh, key);
    if i < |r.snap| {
      forall j: nat, got: map<nat, Block>, ch: Choice
        | n <= j <= |run.acts| && StaysPublished(run, n, j, r.snap[i]) && ch.index == i
        ensures ReaderStep(run.states[j].sh, r.(got := got), ch)
             == Moved(run.states[j].sh, Reader(r.(got := got[i := PlainAt(run, n, key).value])))
      {
        ReadSeesPlain(env, repaired, run, n, j, key, r.(got := got), i, ch);
      }
    }
  }

  /** No snapshot falls between the blocks of a write or of a removal: while a reader looks up,
      no writer is in its mapping loop or size update, and no removal is inside its range. */
  lemma {:induction false} NoHalfWrite(run: Run, n: nat, t: nat, u: nat)
    requires |run.states| == |run.acts| + 1 && n < |run.acts| && Locked(run)
    requires t == run.acts[n].tid && run.acts[n].Step? && t < |run.states[n].ts| && u < |run.states[n].ts| && u != t
    requires run.states[n].ts[t].Reader? && !run.states[n].ts[t].reading.looked
    ensures match run.states[n].ts[u]
            case Writer(w) =>
              !w.phase.Mapping? && !w.phase.Resizing? && !(w.phase in {Publishing, UndoHits} && w.pos > 0)
            case Remover(r) => !(FirstBlock(r) < r.pos < r.end)
            case _ => true
  {
    assert RespectsAt(run, n) && Admits(run.states[n], run.acts[n], u);
  }
}
