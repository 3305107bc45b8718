/** Requests are accepted and come to their end: on a store at rest an idle thread can be given
    any request and returns after finitely many steps. */
module Progress {
  import opened Model
  import opened Steps
  import opened Invariant
  import opened Accounting
  import opened Lifecycle
  import opened Protocol
  import opened Sequential
  import opened Solo
  import opened Quiescence
  import opened Laws
  import opened Snapshots
  import opened Requests

  function Last(run: Run): State
    requires run.states != []
  {
    run.states[|run.states| - 1]
  }

  /** Thread t, busy in the last state of `run`, has gone on alone, with complete pwrites, and
      was busy up to the last state but one. */
  ghost predicate Continues(env: Env, run: Run, longer: Run, t: nat) {
    && IsRun(env, false, run) && IsRun(env, false, longer)
    && run.states <= longer.states && run.acts <= longer.acts
    && forall m: nat :: |run.acts| <= m < |longer.acts| ==> AloneAt(longer, m, t)
  }

  ghost predicate AloneAt(run: Run, m: nat, t: nat)
    requires m < |run.acts| < |run.states|
  {
    BusyAt(run, m, t) && run.acts[m].Step? && run.acts[m].tid == t && run.acts[m].choice.outcome.Full?
  }

  /** One more step of thread t. */
  lemma {:induction false} OneStep(env: Env, start: Run, run: Run, t: nat, ch: Choice) returns (longer: Run)
    requires Continues(env, start, run, t) && LegalChoice(Last(run).sh, ch) && ch.outcome.Full?
    requires t < |Last(run).ts| && !Last(run).ts[t].Idle?
    ensures Continues(env, start, longer, t) && |longer.acts| == |run.acts| + 1
    ensures longer.states == run.states + [Next(env, false, Last(run), Step(t, ch))]
  {
    var a := Step(t, ch);
    longer := Run(run.states + [Next(env, false, Last(run), a)], run.acts + [a]);
    forall i: nat | i < |longer.acts| ensures MoveAt(env, false, longer, i) {
      if i < |run.acts| { assert MoveAt(env, false, run, i); }
    }
    forall m: nat | |start.acts| <= m < |longer.acts| ensures AloneAt(longer, m, t) {
      if m < |run.acts| { assert AloneAt(run, m, t); }
    }
  }

  lemma {:induction false} WriterReturns(env: Env, malloc: Malloc, start: Run, run: Run, t: nat) returns (longer: Run)
    requires Fresh(malloc) && Continues(env, start, run, t) && t < |Last(run).ts| && Last(run).ts[t].Writer?
    requires SoloView(env, Last(run).sh, Last(run).ts[t].job)
    ensures Continues(env, start, longer, t) && Last(longer).ts == Last(run).ts[t := Idle]
    decreases PhaseRank(Last(run).ts[t].job), Left(Last(run).ts[t].job)
  {
    var s, w := Last(run), Last(run).ts[t].job;
    var ch := Choice(malloc(s.sh.heap.Keys), Full, 0);
    assert malloc(s.sh.heap.Keys) !in s.sh.heap.Keys;
    longer := OneStep(env, start, run, t, ch);
    SoloStep(env, s.sh, w, ch);
    if WriterStep(env, false, s.sh, w, ch).t.Writer? {
      Decreases(env, s.sh, w, ch);
      longer := WriterReturns(env, malloc, start, longer, t);
    } else {
      WriterEnds(env, s.sh, w, ch);
    }
  }

  lemma {:induction false} RemoverReturns(env: Env, malloc: Malloc, start: Run, run: Run, t: nat) returns (longer: Run)
    requires Fresh(malloc) && Continues(env, start, run, t) && t < |Last(run).ts| && Last(run).ts[t].Remover?
    ensures Continues(env, start, longer, t) && Last(longer).ts == Last(run).ts[t := Idle]
    decreases var r := Last(run).ts[t].removal; if r.pos < r.end then r.end - r.pos else 0,
              |Last(run).ts[t].removal.release|
  {
    var s := Last(run);
    var ch := Choice(malloc(s.sh.heap.Keys), Full, 0);
    assert malloc(s.sh.heap.Keys) !in s.sh.heap.Keys;
    longer := OneStep(env, start, run, t, ch);
    if RemoverStep(s.sh, s.ts[t].removal).t.Remover? { longer := RemoverReturns(env, malloc, start, longer, t); }
  }

  /** The reader has looked its blocks up in sh: a beginning of the request, or all that is
      mapped of it once it has looked. */
  ghost predicate LookedUp(sh: Shared, r: Reading) {
    && |r.snap| <= r.count
    && (forall x: nat :: x < |r.snap| ==> SlotAt(sh, Key(r.path, r.start + x)) == Some(r.snap[x]))
    && (r.looked && |r.snap| < r.count ==> SlotAt(sh, Key(r.path, r.start + |r.snap|)) == None)
  }

  /** The first k blocks have been fetched. */
  ghost predicate FetchedTo(sh: Shared, r: Reading, k: nat) {
    forall x: nat :: x < k ==>
      x in r.got && Some(r.got[x]) == ContentAt(sh, Key(r.path, r.start + x))
  }

  /** All that a read on a store at rest delivers: the longest mapped prefix of the request. */
  ghost predicate Delivered(sh: Shared, r: Reading) {
    r.looked && LookedUp(sh, r) && FetchedTo(sh, r, |r.snap|)
  }

  lemma {:induction false} FoundIsStored(env: Env, sh: Shared, k: Key)
    requires Quiet(env, sh) && SlotAt(sh, k).Some?
    ensures SlotAt(sh, k).value in sh.disk && ContentAt(sh, k) == Some(sh.disk[SlotAt(sh, k).value])
  {
    assert FileLinked(sh, k) && BackedAt(env, sh, sh.fileToMaster[k]);
  }

  /** One lookup. */
  lemma {:induction false} LookupGoesOn(env: Env, sh: Shared, r: Reading, ch: Choice)
    requires Quiet(env, sh) && LookedUp(sh, r) && !r.looked
    ensures var m := ReaderStep(sh, r, ch);
            && m.sh == sh && m.t.Reader? && LookedUp(sh, m.t.reading) && |m.t.reading.snap| <= r.count
            && (m.t.reading == r.(looked := true)
                || (m.t.reading == r.(snap := m.t.reading.snap) && |m.t.reading.snap| == |r.snap| + 1))
  {
    assert FileLinked(sh, Key(r.path, r.start + |r.snap|));
  }

  /** The fetch of block k. */
  lemma {:induction false} FetchGoesOn(env: Env, sh: Shared, r: Reading, k: nat, ch: Choice)
    requires Quiet(env, sh) && LookedUp(sh, r) && r.looked && FetchedTo(sh, r, k) && k < |r.snap| && ch.index == k
    ensures var m := ReaderStep(sh, r, ch);
            m.sh == sh && m.t.Reader? && m.t.reading == r.(got := m.t.reading.got) && FetchedTo(sh, m.t.reading, k + 1)
  {
    assert SlotAt(sh, Key(r.path, r.start + k)) == Some(r.snap[k]);
    FoundIsStored(env, sh, Key(r.path, r.start + k));
  }

  lemma {:induction false} ReaderReturns(
      env: Env, malloc: Malloc, start: Run, run: Run, t: nat, k: nat) returns (longer: Run)
    requires Fresh(malloc) && Continues(env, start, run, t) && t < |Last(run).ts| && Last(run).ts[t].Reader?
    requires Quiet(env, Last(run).sh) && LookedUp(Last(run).sh, Last(run).ts[t].reading)
    requires FetchedTo(Last(run).sh, Last(run).ts[t].reading, k) && k <= |Last(run).ts[t].reading.snap|
    ensures Continues(env, start, longer, t) && Last(longer) == State(Last(run).sh, Last(run).ts[t := Idle])
    ensures |run.acts| < |longer.acts| && ReadsAt(longer, |longer.acts| - 1, t, Last(run).sh)
    ensures var l := longer.states[|longer.acts| - 1].ts[t].reading;
            var r := Last(run).ts[t].reading;
            l.path == r.path && l.start == r.start && l.count == r.count
    decreases var r := Last(run).ts[t].reading; r.count - |r.snap|, !Last(run).ts[t].reading.looked,
              |Last(run).ts[t].reading.snap| - k
  {
    var s, r := Last(run), Last(run).ts[t].reading;
    assert |r.snap| <= r.count;
    hide LookedUp, FetchedTo, Quiet, Inv;
    var ch := Choice(malloc(s.sh.heap.Keys), Full, k);
    assert malloc(s.sh.heap.Keys) !in s.sh.heap.Keys;
    longer := OneStep(env, start, run, t, ch);
    if !r.looked {
      LookupGoesOn(env, s.sh, r, ch);
      longer := ReaderReturns(env, malloc, start, longer, t, k);
    } else if k < |r.snap| {
      FetchGoesOn(env, s.sh, r, k, ch);
      longer := ReaderReturns(env, malloc, start, longer, t, k + 1);
    } else {
      assert longer.states[|longer.acts| - 1] == s;
    }
  }

  /** In state m thread t has delivered everything that the store sh has of its request. */
  ghost predicate ReadsAt(run: Run, m: nat, t: nat, sh: Shared) {
    && m < |run.states| && t < |run.states[m].ts|
    && run.states[m].ts[t].Reader? && Delivered(sh, run.states[m].ts[t].reading)
  }

  /** A request that the protocol knows: at least one block to write, an aligned size. */
  ghost predicate Legal(env: Env, a: Action) {
    match a
    case StartWrite(_, _, _, buf) => buf != [] && forall b :: b in buf ==> env.inPlay(b)
    case StartTruncate(_, _, size) => size % 4096 == 0
    case Step(_, _) => false
    case _ => true
  }

  /** Every legal request to an idle thread of a store at rest has a run in which it returns
      and none of its pwrites fails; a read then delivers the longest mapped prefix of what was
      asked for, block by block. */
  lemma {:induction false} RequestReturns(env: Env, malloc: Malloc, s: State, a: Action) returns (run: Run, j: nat)
    requires Fresh(malloc) && Inv(env, s) && AllIdle(s.ts) && a.tid < |s.ts| && Legal(env, a)
    ensures IsRun(env, false, run) && run.states[0] == s && 0 < |run.acts| && run.acts[0] == a
    ensures ReturnsAt(run, 0, j) && j + 1 == |run.acts| && Last(run).ts == s.ts && !PwriteFailed(run, 0, j)
    ensures a.StartRead? ==>
              && ReadsAt(run, j, a.tid, s.sh)
              && var r := run.states[j].ts[a.tid].reading;
                 r.path == a.path && r.start == a.start && r.count == a.count
  {
    var s1 := Next(env, false, s, a);
    var start := Run([s, s1], [a]);
    assert s.ts[a.tid].Idle?;
    assert MoveAt(env, false, start, 0);
    run := start;
    if s1.ts[a.tid].Writer? {
      QuiescentInv(env, s.sh, s.ts);
      assert s == State(s.sh, s.ts);
      BeginView(env, s.sh, s1.ts[a.tid].job);
      run := WriterReturns(env, malloc, start, start, a.tid);
    } else if s1.ts[a.tid].Remover? {
      run := RemoverReturns(env, malloc, start, start, a.tid);
    } else if s1.ts[a.tid].Reader? {
      QuiescentInv(env, s.sh, s.ts);
      assert s == State(s.sh, s.ts);
      run := ReaderReturns(env, malloc, start, start, a.tid, 0);
    }
    j := |run.acts| - 1;
    Returned(env, start, run, a, j);
  }

  lemma {:induction false} Returned(env: Env, start: Run, run: Run, a: Action, j: nat)
    requires Continues(env, start, run, a.tid) && |start.acts| == 1 && start.acts[0] == a && !a.Step?
    requires j + 1 == |run.acts| && a.tid < |Last(run).ts| && Last(run).ts[a.tid].Idle?
    ensures ReturnsAt(run, 0, j) && !PwriteFailed(run, 0, j)
  {
    forall m: nat | 0 < m <= j ensures BusyAt(run, m, a.tid) { assert AloneAt(run, m, a.tid); }
    forall n: nat | 0 < n < j ensures !FailsAt(run, n, a.tid) { assert AloneAt(run, n, a.tid); }
  }
}
