/** Any number of threads that write, remove and read concurrently. */
module Protocol {
  import opened Model
  import opened Steps
  import opened Invariant
  import opened Accounting
  import opened StepProofs
  import opened Lifecycle
  import opened Frames

  datatype State = State(sh: Shared, ts: seq<Thread>)

  /** A request is given to an idle thread, or a thread takes its next step. */
  datatype Action =
    | StartWrite(tid: nat, path: Path, start: nat, buf: seq<Block>)
    | StartUnlink(tid: nat, path: Path)
    | StartTruncate(tid: nat, path: Path, size: nat)
    | StartRead(tid: nat, path: Path, start: nat, count: nat)
    | Step(tid: nat, choice: Choice)

  /** The number of blocks that hold so many bytes. */
  function BlocksOf(size: nat): (n: nat)
    ensures size <= n * 4096 < size + 4096
  {
    (size + BLOCK_SIZE - 1) / BLOCK_SIZE
  }

  /** The thread after the size table was consulted. */
  function Launch(sh: Shared, a: Action): Thread
    requires !a.Step?
  {
    match a
    case StartWrite(_, path, start, buf) => Writer(Begin(path, start, buf))
    case StartUnlink(_, path) =>
      if path in sh.sizes then Remover(Removal(path, 0, BlocksOf(sh.sizes[path]), [], None)) else Idle
    case StartTruncate(_, path, size) =>
      if path in sh.sizes && size < sh.sizes[path]
      then Remover(Removal(path, BlocksOf(size), BlocksOf(sh.sizes[path]), [], Some(size))) else Idle
    case StartRead(_, path, start, count) => Reader(Reading(path, start, count, false, [], map[]))
  }

  function ThreadStep(env: Env, repaired: bool, sh: Shared, t: Thread, ch: Choice): Moved {
    match t
    case Idle => Moved(sh, Idle)
    case Writer(w) => if ListsOk(w) then WriterStep(env, repaired, sh, w, ch) else Moved(sh, t)
    case Remover(r) => RemoverStep(sh, r)
    case Reader(r) => ReaderStep(sh, r, ch)
  }

  ghost predicate Enabled(env: Env, s: State, a: Action) {
    && a.tid < |s.ts|
    && (a.Step? ==> LegalChoice(s.sh, a.choice))
    && (!a.Step? ==> s.ts[a.tid].Idle?)
    && (a.StartWrite? ==> a.buf != [] && forall b :: b in a.buf ==> env.inPlay(b))
    && (a.StartTruncate? ==> a.size % BLOCK_SIZE == 0)
  }

  function Next(env: Env, repaired: bool, s: State, a: Action): State
    requires a.tid < |s.ts|
  {
    if a.Step? then
      var m := ThreadStep(env, repaired, s.sh, s.ts[a.tid], a.choice);
      State(m.sh, s.ts[a.tid := m.t])
    else s.(ts := s.ts[a.tid := Launch(s.sh, a)])
  }

  /** The step does not make a race loser free an info that its own batch still uses. */
  predicate NoLostDupStep(repaired: bool, s: State, a: Action)
    requires a.tid < |s.ts|
  {
    a.Step? && s.ts[a.tid].Writer? && ListsOk(s.ts[a.tid].job) ==> Guarded(repaired, s.sh, s.ts[a.tid].job)
  }

  // ------------------------------------------------------------------------- the invariant

  ghost predicate ThreadAt(env: Env, s: State, t: nat)
    requires t < |s.ts|
  {
    ThreadOk(env, s.sh, s.ts[t])
  }

  /** Snapshotted slots lie inside the master, whoever owns them by now. */
  ghost predicate SnapAt(s: State, t: nat)
    requires t < |s.ts|
  {
    s.ts[t].Reader? ==> forall x :: x in s.ts[t].reading.snap ==> x in s.sh.disk
  }

  ghost predicate Inv(env: Env, s: State) {
    && Global(env, s.sh, Total(s.ts, |s.ts|))
    && (forall t: nat :: t < |s.ts| ==> ThreadAt(env, s, t))
    && (forall t: nat :: t < |s.ts| ==> SnapAt(s, t))
  }

  /** The claims of all threads but t. */
  function Others(ts: seq<Thread>, t: nat): Claims
    requires t < |ts|
  {
    Total(ts[t := Idle], |ts|)
  }

  lemma {:induction false} TotalPrefix(ts: seq<Thread>, ts': seq<Thread>, n: nat, k: nat)
    requires n <= |ts| && n <= |ts'| && forall i :: 0 <= i < n ==> ts'[i] == ts[i]
    ensures SameAt(Total(ts', n), Total(ts, n), k)
  {
    if n > 0 { TotalPrefix(ts, ts', n - 1, k); }
  }

  lemma {:induction false} SplitTo(ts: seq<Thread>, t: nat, n: nat, k: nat)
    requires t < n <= |ts|
    ensures SameAt(Total(ts, n), Total(ts[t := Idle], n).Plus(ThreadClaims(ts[t])), k)
  {
    if t < n - 1 { SplitTo(ts, t, n - 1, k); } else { TotalPrefix(ts, ts[t := Idle], t, k); }
  }

  lemma {:induction false} Split(ts: seq<Thread>, t: nat)
    requires t < |ts|
    ensures Same(Total(ts, |ts|), Others(ts, t).Plus(ThreadClaims(ts[t])))
    ensures Same(Others(ts, t).Plus(ThreadClaims(ts[t])), Total(ts, |ts|))
  {
    forall k: nat ensures SameAt(Total(ts, |ts|), Others(ts, t).Plus(ThreadClaims(ts[t])), k) {
      SplitTo(ts, t, |ts|, k);
    }
    forall k: nat ensures SameAt(Others(ts, t).Plus(ThreadClaims(ts[t])), Total(ts, |ts|), k) {
      SplitTo(ts, t, |ts|, k);
    }
  }

  lemma {:induction false} MemberOf(ts: seq<Thread>, u: nat, n: nat, k: nat)
    requires u < n <= |ts|
    ensures ThreadClaims(ts[u]).Refs(k) <= Total(ts, n).Refs(k)
    ensures ThreadClaims(ts[u]).Pending(k) <= Total(ts, n).Pending(k)
    ensures ThreadClaims(ts[u]).Slots(k) <= Total(ts, n).Slots(k)
  {
    if u < n - 1 { MemberOf(ts, u, n - 1, k); }
  }

  lemma {:induction false} RefWitness(ts: seq<Thread>, n: nat, p: Ptr) returns (u: nat)
    requires n <= |ts| && Total(ts, n).Refs(p) > 0
    ensures u < n && ThreadClaims(ts[u]).Refs(p) > 0
  {
    if ThreadClaims(ts[n - 1]).Refs(p) > 0 { u := n - 1; } else { u := RefWitness(ts, n - 1, p); }
  }

  lemma {:induction false} OthersClosed(env: Env, s: State, t: nat)
    requires t < |s.ts| && forall u: nat :: u < |s.ts| ==> ThreadAt(env, s, u)
    ensures Closed(s.sh, Others(s.ts, t))
  {
    var ts := s.ts[t := Idle];
    forall p: Ptr ensures ClosedAt(s.sh, Others(s.ts, t), p) {
      if Others(s.ts, t).Refs(p) > 0 {
        var u := RefWitness(ts, |ts|, p);
        assert ThreadAt(env, s, u);
        JobClosed(env, s.sh, ts[u].job);
        assert ClosedAt(s.sh, ThreadClaims(ts[u]), p);
        MemberOf(ts, u, |ts|, p);
      }
    }
  }

  lemma {:induction false} OtherThread(env: Env, s: State, sh': Shared, t: nat, u: nat)
    requires t < |s.ts| && u < |s.ts| && u != t && ThreadAt(env, s, u)
    requires Framed(s.sh, sh', Others(s.ts, t))
    ensures ThreadOk(env, sh', s.ts[u])
  {
    if s.ts[u].Writer? {
      var w := s.ts[u].job;
      forall k: nat ensures JobClaims(w).Refs(k) <= Others(s.ts, t).Refs(k)
                            && JobClaims(w).Slots(k) <= Others(s.ts, t).Slots(k)
      {
        MemberOf(s.ts[t := Idle], u, |s.ts|, k);
      }
      FramedSub(s.sh, sh', Others(s.ts, t), JobClaims(w));
      JobFramed(env, s.sh, sh', w);
    }
  }

  /** A balanced move of one thread keeps the invariant of all. */
  lemma {:induction false} MoveInv(env: Env, s: State, t: nat, m: Moved)
    requires Inv(env, s) && t < |s.ts| && Balanced(env, s.sh, m, Others(s.ts, t))
    requires s.sh.disk.Keys <= m.sh.disk.Keys
    requires SnapAt(State(m.sh, s.ts[t := m.t]), t)
    ensures Inv(env, State(m.sh, s.ts[t := m.t]))
  {
    var s' := State(m.sh, s.ts[t := m.t]);
    assert s'.ts[t := Idle] == s.ts[t := Idle];
    Split(s'.ts, t);
    GlobalSame(env, m.sh, Others(s.ts, t).Plus(ThreadClaims(m.t)), Total(s'.ts, |s'.ts|));
    forall u: nat | u < |s'.ts| ensures ThreadAt(env, s', u) {
      if u != t { assert ThreadAt(env, s, u); OtherThread(env, s, m.sh, t, u); }
    }
    forall u: nat | u < |s'.ts| ensures SnapAt(s', u) {
      if u != t { assert SnapAt(s, u); }
    }
  }

  // ------------------------------------------------------------------------- single moves

  /** The invariant as one writer sees it. */
  lemma {:induction false} WriterView(env: Env, s: State, t: nat)
    requires Inv(env, s) && t < |s.ts| && s.ts[t].Writer?
    ensures View(env, s.sh, s.ts[t].job, Others(s.ts, t))
  {
    assert ThreadAt(env, s, t);
    Split(s.ts, t);
    GlobalSame(env, s.sh, Total(s.ts, |s.ts|), Others(s.ts, t).Plus(JobClaims(s.ts[t].job)));
    OthersClosed(env, s, t);
  }

  /** A move that leaves the shared state alone and claims nothing. */
  lemma {:induction false} QuietMove(env: Env, s: State, t: nat, next: Thread)
    requires Inv(env, s) && t < |s.ts| && !s.ts[t].Writer? && !next.Remover?
    requires s.ts[t].Remover? ==> s.ts[t].removal.release == []
    requires next.Writer? ==>
               exists path, start, buf ::
                 next == Writer(Begin(path, start, buf)) && forall b :: b in buf ==> env.inPlay(b)
    requires SnapAt(s.(ts := s.ts[t := next]), t)
    ensures Inv(env, s.(ts := s.ts[t := next]))
  {
    var rest := Others(s.ts, t);
    Split(s.ts, t);
    forall k: nat ensures SameAt(Total(s.ts, |s.ts|), rest.Plus(ThreadClaims(next)), k) {
      assert SameAt(Total(s.ts, |s.ts|), rest.Plus(ThreadClaims(s.ts[t])), k);
    }
    GlobalSame(env, s.sh, Total(s.ts, |s.ts|), rest.Plus(ThreadClaims(next)));
    FramedElsewhere(s.sh, s.sh, rest.Plus(ThreadClaims(next)));
    FramedSub(s.sh, s.sh, rest.Plus(ThreadClaims(next)), rest);
    MoveInv(env, s, t, Moved(s.sh, next));
  }

  lemma {:induction false} LaunchInv(env: Env, s: State, a: Action)
    requires Inv(env, s) && Enabled(env, s, a) && !a.Step?
    ensures Inv(env, s.(ts := s.ts[a.tid := Launch(s.sh, a)]))
  {
    var next, rest := Launch(s.sh, a), Others(s.ts, a.tid);
    if next.Remover? {
      Split(s.ts, a.tid);
      forall k: nat ensures SameAt(Total(s.ts, |s.ts|), rest.Plus(ThreadClaims(next)), k) {
        assert SameAt(Total(s.ts, |s.ts|), rest.Plus(ThreadClaims(s.ts[a.tid])), k);
      }
      GlobalSame(env, s.sh, Total(s.ts, |s.ts|), rest.Plus(ThreadClaims(next)));
      FramedElsewhere(s.sh, s.sh, rest.Plus(ThreadClaims(next)));
      FramedSub(s.sh, s.sh, rest.Plus(ThreadClaims(next)), rest);
      MoveInv(env, s, a.tid, Moved(s.sh, next));
    } else {
      QuietMove(env, s, a.tid, next);
    }
  }

  lemma {:induction false} WriterInv(env: Env, repaired: bool, s: State, a: Action)
    requires Inv(env, s) && Enabled(env, s, a) && a.Step? && s.ts[a.tid].Writer? && NoLostDupStep(repaired, s, a)
    ensures Inv(env, Next(env, repaired, s, a))
  {
    var w, rest := s.ts[a.tid].job, Others(s.ts, a.tid);
    WriterView(env, s, a.tid);
    WriterBalanced(env, repaired, s.sh, w, a.choice, rest);
    WriterFramed(env, repaired, s.sh, w, a.choice, rest, 0);
    MoveInv(env, s, a.tid, WriterStep(env, repaired, s.sh, w, a.choice));
  }

  lemma {:induction false} RemoverInv(env: Env, s: State, t: nat)
    requires Inv(env, s) && t < |s.ts| && s.ts[t].Remover?
    ensures var m := RemoverStep(s.sh, s.ts[t].removal); Inv(env, State(m.sh, s.ts[t := m.t]))
  {
    var r, rest := s.ts[t].removal, Others(s.ts, t);
    Split(s.ts, t);
    GlobalSame(env, s.sh, Total(s.ts, |s.ts|), rest.Plus(OfSlots(r.release)));
    RemoverBalanced(env, s.sh, r, rest);
    MoveInv(env, s, t, RemoverStep(s.sh, r));
  }

  /** A slot that a reader finds in the index lies inside the master. */
  lemma {:induction false} ReaderInv(env: Env, s: State, t: nat, ch: Choice)
    requires Inv(env, s) && t < |s.ts| && s.ts[t].Reader?
    ensures var m := ReaderStep(s.sh, s.ts[t].reading, ch); m.sh == s.sh && Inv(env, s.(ts := s.ts[t := m.t]))
  {
    var r, m := s.ts[t].reading, ReaderStep(s.sh, s.ts[t].reading, ch);
    var key := Key(r.path, r.start + |r.snap|);
    assert SnapAt(s, t);
    if key in s.sh.fileToMaster {
      assert FileLinked(s.sh, key) && BackedAt(env, s.sh, s.sh.fileToMaster[key]);
    }
    QuietMove(env, s, t, m.t);
  }

  /** Every enabled action keeps the invariant. */
  lemma {:induction false} NextInv(env: Env, repaired: bool, s: State, a: Action)
    requires Inv(env, s) && Enabled(env, s, a) && NoLostDupStep(repaired, s, a)
    ensures Inv(env, Next(env, repaired, s, a))
  {
    if !a.Step? {
      LaunchInv(env, s, a);
    } else {
      match s.ts[a.tid]
      case Idle => assert s.ts[a.tid := Idle] == s.ts;
      case Writer(_) => WriterInv(env, repaired, s, a);
      case Remover(_) => RemoverInv(env, s, a.tid);
      case Reader(_) => ReaderInv(env, s, a.tid, a.choice);
    }
  }

  // ------------------------------------------------------------------------------- runs

  datatype Run = Run(states: seq<State>, acts: seq<Action>)

  ghost predicate MoveAt(env: Env, repaired: bool, run: Run, i: nat)
    requires i < |run.acts| < |run.states|
  {
    && Enabled(env, run.states[i], run.acts[i])
    && run.states[i + 1] == Next(env, repaired, run.states[i], run.acts[i])
  }

  /** Any interleaving of any requests, with any outcome of every pwrite. */
  ghost predicate IsRun(env: Env, repaired: bool, run: Run) {
    && |run.states| == |run.acts| + 1
    && forall i: nat :: i < |run.acts| ==> MoveAt(env, repaired, run, i)
  }

  ghost predicate GuardedAt(repaired: bool, run: Run, i: nat)
    requires i < |run.acts| < |run.states|
  {
    run.acts[i].tid < |run.states[i].ts| ==> NoLostDupStep(repaired, run.states[i], run.acts[i])
  }

  /** No race loser of the run has a duplicate in its own batch. */
  ghost predicate NoLostDups(repaired: bool, run: Run)
    requires |run.states| == |run.acts| + 1
  {
    forall i: nat :: i < |run.acts| ==> GuardedAt(repaired, run, i)
  }

  ghost predicate AllIdle(ts: seq<Thread>) {
    forall t: nat :: t < |ts| ==> ts[t].Idle?
  }

  lemma {:induction false} IdleClaims(ts: seq<Thread>, n: nat, k: nat)
    requires n <= |ts| && AllIdle(ts)
    ensures SameAt(Total(ts, n), Nothing, k)
  {
    if n > 0 { IdleClaims(ts, n - 1, k); }
  }

  /** The empty store, with any number of idle threads, satisfies the invariant. */
  lemma {:induction false} EmptyInv(env: Env, ts: seq<Thread>)
    requires AllIdle(ts)
    ensures Inv(env, State(EMPTY, ts))
  {
    EmptyGlobal(env);
    QuiescentInv(env, EMPTY, ts);
  }

  lemma {:induction false} EmptyGlobal(env: Env)
    ensures Global(env, EMPTY, Nothing)
  {
    forall p: Ptr ensures ExactAt(EMPTY, Nothing, p) { assert MappedTo(EMPTY.fileToMaster, p) == {}; }
    forall p: Ptr ensures ApartAt(EMPTY, Nothing, p) {}
    forall x: nat ensures ConservedAt(EMPTY, Nothing, x) { assert PublishedAt(EMPTY, x) == {}; }
    forall h ensures HashLinked(EMPTY, h) {}
    forall k ensures FileLinked(EMPTY, k) {}
    forall p: Ptr ensures BackedAt(env, EMPTY, p) {}
  }

  /** With all threads idle the invariant is the balance against no claims at all. */
  lemma {:induction false} QuiescentInv(env: Env, sh: Shared, ts: seq<Thread>)
    requires AllIdle(ts)
    ensures Inv(env, State(sh, ts)) <==> Global(env, sh, Nothing)
  {
    var s := State(sh, ts);
    forall k: nat ensures SameAt(Total(ts, |ts|), Nothing, k) && SameAt(Nothing, Total(ts, |ts|), k) {
      IdleClaims(ts, |ts|, k);
    }
    if Global(env, sh, Nothing) { GlobalSame(env, sh, Nothing, Total(ts, |ts|)); }
    if Inv(env, s) { GlobalSame(env, sh, Total(ts, |ts|), Nothing); }
    forall u: nat | u < |ts| ensures ThreadAt(env, s, u) {}
    forall u: nat | u < |ts| ensures SnapAt(s, u) {}
  }

  /** Safety over whole runs. */
  lemma {:induction false} RunInv(env: Env, repaired: bool, run: Run, n: nat)
    requires IsRun(env, repaired, run) && NoLostDups(repaired, run) && n <= |run.acts|
    requires Inv(env, run.states[0])
    ensures Inv(env, run.states[n])
  {
    if n > 0 {
      RunInv(env, repaired, run, n - 1);
      assert MoveAt(env, repaired, run, n - 1) && GuardedAt(repaired, run, n - 1);
      NextInv(env, repaired, run.states[n - 1], run.acts[n - 1]);
    }
  }

  /** A lost race with a duplicate breaks the invariant in the very next state. */
  lemma {:induction false} LostDupNext(env: Env, s: State, a: Action)
    requires Inv(env, s) && Enabled(env, s, a) && !NoLostDupStep(false, s, a)
    ensures !Inv(env, Next(env, false, s, a))
  {
    var w, rest, s' := s.ts[a.tid].job, Others(s.ts, a.tid), Next(env, false, s, a);
    WriterView(env, s, a.tid);
    LostDupBreaks(env, s.sh, w, rest);
    assert s' == State(Publish(s.sh, w).sh, s.ts[a.tid := Writer(Publish(s.sh, w).w)]);
    assert s'.ts[a.tid := Idle] == s.ts[a.tid := Idle];
    Split(s'.ts, a.tid);
    if Inv(env, s') { GlobalSame(env, s'.sh, Total(s'.ts, |s'.ts|), rest.Plus(JobClaims(Publish(s.sh, w).w))); }
  }

  ghost predicate InvAt(env: Env, run: Run, n: nat)
    requires n < |run.states|
  {
    Inv(env, run.states[n])
  }

  /** The exact condition for the source as it is: all states of a run are balanced if and
      only if no race loser of the run has a duplicate in its own batch. */
  lemma {:induction false} RunInvIff(env: Env, run: Run)
    requires IsRun(env, false, run) && Inv(env, run.states[0])
    ensures (forall n: nat :: n <= |run.acts| ==> InvAt(env, run, n)) <==> NoLostDups(false, run)
  {
    if NoLostDups(false, run) {
      forall n: nat | n <= |run.acts| ensures InvAt(env, run, n) { RunInv(env, false, run, n); }
    } else {
      var i: nat :| i < |run.acts| && !GuardedAt(false, run, i);
      assert MoveAt(env, false, run, i);
      if InvAt(env, run, i) {
        LostDupNext(env, run.states[i], run.acts[i]);
        assert !InvAt(env, run, i + 1);
      }
    }
  }

  /** With the repaired publication step no hypothesis on duplicates is needed. */
  lemma {:induction false} RepairedRunInv(env: Env, run: Run, n: nat)
    requires IsRun(env, true, run) && n <= |run.acts| && Inv(env, run.states[0])
    ensures Inv(env, run.states[n])
  {
    forall i: nat | i < |run.acts| ensures GuardedAt(true, run, i) {}
    RunInv(env, true, run, n);
  }
}
