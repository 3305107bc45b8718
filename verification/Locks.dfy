/** The locks of the source over the steps of the protocol. The theorems about all runs need
    no locks; a schedule that is claimed to be possible has to respect them. */
module Locks {
  import opened Model
  import opened Steps
  import opened Protocol

  /** How a thread holds the metadata lock. */
  datatype Mode = Unlocked | ReadHeld | WriteHeld

  predicate Compatible(a: Mode, b: Mode) { (a.WriteHeld? ==> b.Unlocked?) && (b.WriteHeld? ==> a.Unlocked?) }

  function FirstBlock(r: Removal): nat { if r.newSize.Some? then BlocksOf(r.newSize.value) else 0 }

  /** The mode in which a thread holds the metadata lock between two of its steps. */
  function Holds(t: Thread): Mode {
    match t
    case Idle => Unlocked
    case Writer(w) =>
      (match w.phase
       case Deciding => if w.plan != [] then ReadHeld else Unlocked
       case Publishing => if w.pos > 0 then WriteHeld else Unlocked
       case Mapping => WriteHeld
       case Resizing => WriteHeld
       case UndoHits => if w.pos > 0 then WriteHeld else Unlocked
       case _ => Unlocked)
    case Remover(r) => if FirstBlock(r) < r.pos < r.end then WriteHeld else Unlocked
    case Reader(r) => if !r.looked && r.snap != [] then ReadHeld else Unlocked
  }

  /** The mode in which the source holds the lock during the next step of a thread. */
  function Takes(t: Thread): Mode {
    match t
    case Idle => Unlocked
    case Writer(w) =>
      if w.phase.Deciding? then ReadHeld
      else if w.phase in {Publishing, Mapping, Resizing, UndoHits} then WriteHeld else Unlocked
    case Remover(r) => if r.pos < r.end || r.release == [] then WriteHeld else Unlocked
    case Reader(r) => if !r.looked then ReadHeld else Unlocked
  }

  /** Unlink and truncate look the size up when they start. */
  function TakesFor(s: State, a: Action): Mode
    requires a.tid < |s.ts|
  {
    match a
    case Step(tid, _) => Takes(s.ts[tid])
    case StartUnlink(_, _) => ReadHeld
    case StartTruncate(_, _, _) => ReadHeld
    case _ => Unlocked
  }

  /** The free-list mutex between two steps: rollback holds it over all its MISSes. */
  predicate HoldsList(t: Thread) { t.Writer? && t.job.phase.UndoMisses? && t.job.pos > 0 }

  predicate TakesList(t: Thread) {
    match t
    case Writer(w) =>
      w.phase.Draining? || w.phase.UndoMisses? || (w.phase in {Releasing, ReleaseHits} && w.release != [])
    case Remover(r) => r.pos >= r.end && r.release != []
    case _ => false
  }

  predicate TakesListFor(s: State, a: Action)
    requires a.tid < |s.ts|
  {
    a.Step? && TakesList(s.ts[a.tid])
  }

  /** The action needs no lock that thread u holds in a conflicting mode. */
  predicate Admits(s: State, a: Action, u: nat)
    requires a.tid < |s.ts| && u < |s.ts|
  {
    u != a.tid ==>
      Compatible(Holds(s.ts[u]), TakesFor(s, a)) && !(HoldsList(s.ts[u]) && TakesListFor(s, a))
  }

  ghost predicate Respects(s: State, a: Action)
    requires a.tid < |s.ts|
  {
    forall u: nat :: u < |s.ts| ==> Admits(s, a, u)
  }

  ghost predicate RespectsAt(run: Run, i: nat)
    requires i < |run.acts| < |run.states|
  {
    run.acts[i].tid < |run.states[i].ts| && Respects(run.states[i], run.acts[i])
  }

  /** A schedule that the locks of the source admit: no step of another thread falls into an
      open critical section of the write lock, none of a writing section into an open
      section of the read lock, and the free-list mutex has one owner. */
  ghost predicate Locked(run: Run)
    requires |run.states| == |run.acts| + 1
  {
    forall i: nat :: i < |run.acts| ==> RespectsAt(run, i)
  }

  /** Two threads do not exclude each other. */
  predicate Coexist(ts: seq<Thread>, t: nat, u: nat)
    requires t < |ts| && u < |ts|
  {
    t != u ==> Compatible(Holds(ts[t]), Holds(ts[u])) && !(HoldsList(ts[t]) && HoldsList(ts[u]))
  }

  ghost predicate Exclusive(ts: seq<Thread>) {
    forall t: nat, u: nat :: t < |ts| && u < |ts| ==> Coexist(ts, t, u)
  }

  /** After a step t' holds no more than the step from t took. */
  predicate HeldFrom(t: Thread, t': Thread) {
    (Holds(t').Unlocked? || Holds(t') == Takes(t)) && (HoldsList(t') ==> TakesList(t))
  }

  lemma {:induction false} EarlyHeld(env: Env, repaired: bool, sh: Shared, w: Job, ch: Choice)
    requires ListsOk(w) && w.phase in {Deciding, Draining, Appending, Placing, Flushing}
    ensures HeldFrom(Writer(w), WriterStep(env, repaired, sh, w, ch).t)
  {}

  lemma {:induction false} LateHeld(env: Env, repaired: bool, sh: Shared, w: Job, ch: Choice)
    requires ListsOk(w) && w.phase !in {Deciding, Draining, Appending, Placing, Flushing}
    ensures HeldFrom(Writer(w), WriterStep(env, repaired, sh, w, ch).t)
  {}

  /** A thread holds a lock after a step only in the mode in which the step ran. */
  lemma {:induction false} HeldWasTaken(env: Env, repaired: bool, s: State, a: Action)
    requires Enabled(env, s, a)
    ensures var t := Next(env, repaired, s, a).ts[a.tid];
            && (Holds(t).Unlocked? || Holds(t) == TakesFor(s, a))
            && (HoldsList(t) ==> TakesListFor(s, a))
  {
    hide WriterStep;
    if a.Step? && s.ts[a.tid].Writer? && ListsOk(s.ts[a.tid].job) {
      var w := s.ts[a.tid].job;
      if w.phase in {Deciding, Draining, Appending, Placing, Flushing} {
        EarlyHeld(env, repaired, s.sh, w, a.choice);
      } else {
        LateHeld(env, repaired, s.sh, w, a.choice);
      }
    }
  }

  /** In every state of such a schedule the locks exclude: a thread inside a write section is
      alone, and only one thread is inside the free-list mutex. */
  lemma {:induction false} LocksExclude(env: Env, repaired: bool, run: Run, n: nat)
    requires IsRun(env, repaired, run) && Locked(run) && n <= |run.acts| && Exclusive(run.states[0].ts)
    ensures Exclusive(run.states[n].ts)
  {
    if n > 0 {
      var s, a := run.states[n - 1], run.acts[n - 1];
      LocksExclude(env, repaired, run, n - 1);
      assert MoveAt(env, repaired, run, n - 1) && RespectsAt(run, n - 1);
      HeldWasTaken(env, repaired, s, a);
      forall t: nat, u: nat | t < |s.ts| && u < |s.ts| ensures Coexist(run.states[n].ts, t, u) {
        assert Coexist(s.ts, t, u) && Admits(s, a, t) && Admits(s, a, u);
      }
    }
  }

  /** While a rollback puts its slots back one by one, no other thread touches the free list. */
  lemma {:induction false} RollbackIsAtomic(run: Run, n: nat, u: nat)
    requires |run.states| == |run.acts| + 1 && n < |run.acts| && Locked(run) && run.acts[n].Step?
    requires var s, t := run.states[n], run.acts[n].tid;
             && t < |s.ts| && u < |s.ts| && u != t
             && match s.ts[t]
                case Writer(w) =>
                  w.phase in {Draining, UndoMisses} || (w.phase in {Releasing, ReleaseHits} && w.release != [])
                case Remover(r) => r.pos >= r.end && r.release != []
                case _ => false
    ensures var t := run.states[n].ts[u]; t.Writer? && t.job.phase.UndoMisses? ==> t.job.pos == 0
  {
    assert RespectsAt(run, n) && Admits(run.states[n], run.acts[n], u);
  }
}
