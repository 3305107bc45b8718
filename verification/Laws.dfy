/** The laws of the sequential store: what one write does, seen and unseen. */
module Laws {
  import opened Model
  import opened Steps
  import opened Invariant
  import opened Accounting
  import opened StepProofs
  import opened Lifecycle
  import opened Frames
  import opened Safety
  import opened Sequential
  import opened Solo
  import opened Quiescence
  import opened Coalescing

  // ------------------------------------------------------------------------ space needed

  /** The hashes of the first n blocks of a request that the index does not know yet. */
  function NewTo(env: Env, sh: Shared, buf: seq<Block>, n: nat): set<Hash>
    requires n <= |buf|
  {
    if n == 0 then {}
    else NewTo(env, sh, buf, n - 1) + if env.hash(buf[n - 1]) in sh.hashToMaster then {} else {env.hash(buf[n - 1])}
  }

  function NewHashes(env: Env, sh: Shared, buf: seq<Block>): set<Hash> { NewTo(env, sh, buf, |buf|) }

  /** NewHashes is the set of all hashes of blocks of the request outside the index. */
  lemma {:induction false} NewMeans(env: Env, sh: Shared, buf: seq<Block>, n: nat, h: Hash)
    requires n <= |buf|
    ensures h in NewTo(env, sh, buf, n) <==> h !in sh.hashToMaster && exists i: nat :: i < n && env.hash(buf[i]) == h
  {
    if n > 0 {
      NewMeans(env, sh, buf, n - 1, h);
      if env.hash(buf[n - 1]) != h && exists i: nat :: i < n && env.hash(buf[i]) == h {
        var i: nat :| i < n && env.hash(buf[i]) == h;
        assert i < n - 1;
      }
    }
  }

  /** Pass 1 has one MISS for each new hash so far. */
  ghost predicate Counted(env: Env, sh0: Shared, sh: Shared, w: Job) {
    && sh.hashToMaster.Keys == sh0.hashToMaster.Keys
    && |w.plan| <= |w.buf|
    && w.pendingHashes.Keys == NewTo(env, sh0, w.buf, |w.plan|)
    && Misses(w.plan) == |w.pendingHashes.Keys|
  }

  /** How much of the space a write needs has been taken so far. */
  ghost predicate Budget(env: Env, sh0: Shared, sh: Shared, w: Job) {
    var m, f := |NewHashes(env, sh0, w.buf)|, |sh0.freeList|;
    match w.phase
    case Deciding => sh.next == sh0.next && |sh.freeList| == f && Counted(env, sh0, sh, w)
    case Draining => sh.next == sh0.next && |sh.freeList| == f && Misses(w.plan) == m
    case Appending => sh.next == sh0.next && Misses(w.plan) == m && |w.out| == Min(m, f)
    case _ => sh.next == sh0.next + (m - Min(m, f))
  }

  lemma {:induction false} CountedDecide(env: Env, sh0: Shared, sh: Shared, w: Job, addr: Ptr)
    requires |w.plan| < |w.buf| && Counted(env, sh0, sh, w)
    ensures Counted(env, sh0, Decide(env, sh, w, addr).sh, Decide(env, sh, w, addr).w)
  {
    var s, h, n := Decide(env, sh, w, addr), env.hash(w.buf[|w.plan|]), |w.plan|;
    PlanAppend(w.plan, s.w.plan[n]);
    DecideTables(env, sh, w, addr);
    assert h in sh.hashToMaster <==> h in sh0.hashToMaster.Keys;
    var more := if h in sh.hashToMaster then {} else {h};
    assert NewTo(env, sh0, w.buf, n + 1) == NewTo(env, sh0, w.buf, n) + more;
    assert s.w.pendingHashes.Keys == w.pendingHashes.Keys + more;
  }

  lemma {:induction false} DecideTables(env: Env, sh: Shared, w: Job, addr: Ptr)
    requires |w.plan| < |w.buf|
    ensures var s, h := Decide(env, sh, w, addr), env.hash(w.buf[|w.plan|]);
            && s.sh.hashToMaster == sh.hashToMaster && s.sh.next == sh.next && s.sh.freeList == sh.freeList
            && s.w.buf == w.buf && s.w.phase == w.phase && |s.w.plan| == |w.plan| + 1
                && s.w.plan == w.plan + [s.w.plan[|w.plan|]]
            && s.w.pendingHashes.Keys == w.pendingHashes.Keys + (if h in sh.hashToMaster then {} else {h})
            && (s.w.plan[|w.plan|].Miss? <==> h !in sh.hashToMaster && h !in w.pendingHashes)
  {
    var s, h := Decide(env, sh, w, addr), env.hash(w.buf[|w.plan|]);
    if h !in sh.hashToMaster && h !in w.pendingHashes {
      assert s.w.pendingHashes.Keys == w.pendingHashes.Keys + {h};
    } else {
      assert s.w.pendingHashes == w.pendingHashes;
    }
  }

  /** The master grew by what the free list could not supply. */
  ghost predicate Grown(env: Env, sh0: Shared, sh: Shared, buf: seq<Block>) {
    sh.next == sh0.next + (|NewHashes(env, sh0, buf)| - Min(|NewHashes(env, sh0, buf)|, |sh0.freeList|))
  }

  lemma {:induction false} BudgetStep(env: Env, sh0: Shared, sh: Shared, w: Job, ch: Choice)
    requires SoloView(env, sh, w) && LegalChoice(sh, ch) && Budget(env, sh0, sh, w)
    ensures var m := WriterStep(env, false, sh, w, ch);
            if m.t.Writer? then Budget(env, sh0, m.sh, m.t.job)
            else Grown(env, sh0, m.sh, w.buf)
  {
    if w.phase.Deciding? {
      if |w.plan| < |w.buf| { CountedDecide(env, sh0, sh, w, ch.addr); DecideTables(env, sh, w, ch.addr); }
    } else if !w.phase.Draining? && !w.phase.Appending? {
      WriterFramed(env, false, sh, w, ch, Nothing, 0);
      LaterPhase(env, sh, w, ch);
    }
  }

  lemma {:induction false} LaterPhase(env: Env, sh: Shared, w: Job, ch: Choice)
    requires ListsOk(w) && w.phase !in {Deciding, Draining, Appending}
    ensures var m := WriterStep(env, false, sh, w, ch);
            m.t.Writer? ==> m.t.job.phase !in {Deciding, Draining, Appending}
  {}

  /** Pass 1 alone, to its end. */
  function DecideAll(env: Env, malloc: Malloc, sh: Shared, w: Job): Stepped
    decreases |w.buf| - |w.plan|
  {
    if |w.plan| < |w.buf| then
      var s := Decide(env, sh, w, malloc(sh.heap.Keys));
      DecideAll(env, malloc, s.sh, s.w)
    else Stepped(sh, w)
  }

  lemma {:induction false} DecideAllCounts(env: Env, malloc: Malloc, sh0: Shared, sh: Shared, w: Job)
    requires Counted(env, sh0, sh, w)
    ensures var s := DecideAll(env, malloc, sh, w);
            |s.w.plan| == |w.buf| && Misses(s.w.plan) == |NewHashes(env, sh0, w.buf)|
    decreases |w.buf| - |w.plan|
  {
    if |w.plan| < |w.buf| {
      var s := Decide(env, sh, w, malloc(sh.heap.Keys));
      CountedDecide(env, sh0, sh, w, malloc(sh.heap.Keys));
      DecideTables(env, sh, w, malloc(sh.heap.Keys));
      DecideAllCounts(env, malloc, sh0, s.sh, s.w);
    }
  }

  /** Some block of the request has this hash. */
  ghost predicate Occurs(env: Env, buf: seq<Block>, h: Hash) { exists b :: b in buf && env.hash(b) == h }

  /** The MISSes of a request are as many as its distinct hashes that the index does not know,
      in any state whatsoever. */
  lemma {:induction false} MissesAreNew(env: Env, malloc: Malloc, sh: Shared, path: Path, start: nat, buf: seq<Block>)
    ensures Misses(DecideAll(env, malloc, sh, Begin(path, start, buf)).w.plan) == |NewHashes(env, sh, buf)|
    ensures forall h :: h in NewHashes(env, sh, buf) <==> h !in sh.hashToMaster && Occurs(env, buf, h)
  {
    assert Begin(path, start, buf).pendingHashes.Keys == {};
    DecideAllCounts(env, malloc, sh, sh, Begin(path, start, buf));
    forall h ensures h in NewHashes(env, sh, buf) <==> h !in sh.hashToMaster && Occurs(env, buf, h) {
      NewMeans(env, sh, buf, |buf|, h);
      if b :| b in buf && env.hash(b) == h {
        var i: nat :| i < |buf| && buf[i] == b;
        assert env.hash(buf[i]) == h;
      }
    }
  }

  // ------------------------------------------------------------------------- return codes

  predicate Early(w: Job) { w.phase in {Deciding, Draining, Appending, Placing} }

  predicate Undoing(w: Job) { w.phase in {UndoHits, ReleaseHits, UndoMisses} }

  /** The plan that a write has when it comes to its flush. */
  function Planned(env: Env, malloc: Malloc, io: Device, sh: Shared, w: Job): seq<Entry>
    decreases PhaseRank(w), Left(w)
  {
    if !ListsOk(w) || !Early(w) then w.plan
    else
      var m := WriterStep(env, false, sh, w, ChoiceFor(malloc, io, sh, w));
      if m.t.Writer? then Planned(env, malloc, io, m.sh, m.t.job) else w.plan
  }

  /** All pwrites of the flush before position n are complete. */
  ghost predicate FullTo(io: Device, plan: seq<Entry>, n: nat) {
    forall i: nat :: i in Starts(plan) && i < n ==> i !in io || io[i].Full?
  }

  /** All pwrites that the flush of the plan issues are complete. */
  ghost predicate AllFull(io: Device, plan: seq<Entry>) { FullTo(io, plan, |plan|) }

  /** A writer goes on to pass 3 only after all its pwrites were complete, and rolls back only
      after one that was not, whose code it returns. */
  ghost predicate Blamed(io: Device, plan: seq<Entry>, w: Job) {
    if Early(w) then true
    else if w.phase.Flushing? then
      w.plan == plan && w.pos <= |plan| && FullTo(io, plan, w.pos) && (w.pos < |plan| ==> !Continues(plan, w.pos))
    else if Undoing(w) then exists i: nat :: BadPwrite(io, plan, w.rc, i)
    else AllFull(io, plan)
  }

  lemma {:induction false} BlamedFlush(io: Device, plan: seq<Entry>, sh: Shared, w: Job)
    requires w.phase.Flushing? && w.pos < |w.plan| == |w.buf| && Blamed(io, plan, w)
    ensures Blamed(io, plan, Flush(sh, w, At(io, w.pos)).w)
  {
    var next := Flush(sh, w, At(io, w.pos)).w;
    StartsNext(plan, w.pos);
    if plan[w.pos].Placed? && !At(io, w.pos).Full? {
      assert BadPwrite(io, plan, next.rc, w.pos);
    } else {
      forall i: nat | i in Starts(plan) && i < next.pos ensures i !in io || io[i].Full? {
        assert i > w.pos ==> i in StartsFrom(plan, w.pos);
      }
    }
  }

  lemma {:induction false} NoneStart(plan: seq<Entry>)
    requires forall i: nat :: i < |plan| ==> plan[i].Hit?
    ensures Starts(plan) == {}
  {}

  /** An early step: the plan is not final before the flush begins. */
  lemma {:induction false} BlamedEarly(env: Env, malloc: Malloc, io: Device, sh: Shared, w: Job)
    requires ListsOk(w) && Early(w) && forall i: nat :: i < |w.plan| ==> KindsOk(w, i)
    ensures var m := WriterStep(env, false, sh, w, ChoiceFor(malloc, io, sh, w));
            && m.t.Writer? && !Undoing(m.t.job) && Blamed(io, m.t.job.plan, m.t.job)
            && (!Early(m.t.job) ==> m.t.job.plan == w.plan)
  {
    if w.phase.Deciding? && |w.plan| == |w.buf| && Misses(w.plan) == 0 {
      forall i: nat | i < |w.plan| ensures w.plan[i].Hit? {
        assert KindsOk(w, i);
        if w.plan[i].Miss? { MissCounts(w.plan, |w.plan|, i); }
      }
      NoneStart(w.plan);
    }
  }

  lemma {:induction false} MissCounts(plan: seq<Entry>, n: nat, i: nat)
    requires i < n <= |plan| && plan[i].Miss?
    ensures MissesTo(plan, n) > 0
  {
    if i < n - 1 { MissCounts(plan, n - 1, i); }
  }

  lemma {:induction false} RcKept(env: Env, sh: Shared, w: Job, ch: Choice)
    requires ListsOk(w) && Undoing(w)
    ensures var m := WriterStep(env, false, sh, w, ch); m.t.Writer? ==> Undoing(m.t.job) && m.t.job.rc == w.rc
  {}

  lemma {:induction false} NoUndo(env: Env, sh: Shared, w: Job, ch: Choice)
    requires ListsOk(w) && !Early(w) && !Undoing(w) && !(w.phase.Flushing? && w.pos < |w.plan|)
    ensures var m := WriterStep(env, false, sh, w, ch);
            m.t.Writer? ==> !Early(m.t.job) && !Undoing(m.t.job) && !m.t.job.phase.Flushing?
  {}

  lemma {:induction false} BlamedStep(env: Env, malloc: Malloc, io: Device, plan: seq<Entry>, sh: Shared, w: Job)
    requires SoloView(env, sh, w) && Blamed(io, plan, w)
    requires Early(w) ==> plan == Planned(env, malloc, io, sh, w)
    ensures var m := WriterStep(env, false, sh, w, ChoiceFor(malloc, io, sh, w));
            && (m.t.Writer? ==> Blamed(io, plan, m.t.job))
            && (m.t.Writer? && Early(m.t.job) ==> plan == Planned(env, malloc, io, m.sh, m.t.job))
  {
    var ch := ChoiceFor(malloc, io, sh, w);
    if Early(w) {
      BlamedEarly(env, malloc, io, sh, w);
    } else if w.phase.Flushing? && w.pos < |w.plan| {
      BlamedFlush(io, plan, sh, w);
    } else if Undoing(w) {
      RcKept(env, sh, w, ch);
    } else {
      NoUndo(env, sh, w, ch);
    }
  }

  // ------------------------------------------------------------------------- one write

  /** All that is known at a point of a write that began in sh0. */
  ghost predicate Underway(env: Env, malloc: Malloc, io: Device, plan: seq<Entry>, sh0: Shared, sh: Shared, w: Job) {
    && SoloView(env, sh, w) && Track(env, sh0, sh, w) && Budget(env, sh0, sh, w)
    && Blamed(io, plan, w) && (Early(w) ==> plan == Planned(env, malloc, io, sh, w))
  }

  lemma {:induction false} BeginView(env: Env, sh: Shared, w: Job)
    requires Quiet(env, sh) && w == Begin(w.path, w.start, w.buf) && InPlay(env, w)
    ensures SoloView(env, sh, w)
  {
    var c := Nothing.Plus(JobClaims(w));
    forall k: nat ensures SameAt(Nothing, c, k) {}
    GlobalSame(env, sh, Nothing, c);
    assert Closed(sh, Nothing) by { forall p: Ptr ensures ClosedAt(sh, Nothing, p) {} }
    forall h ensures HashPending(sh, w, h) {}
    forall i: nat ensures AloneAt(env, sh, w, i) {}
    forall i: nat, j: nat ensures ApartPair(env, w, i, j) {}
  }

  lemma {:induction false} UnseenRefl(env: Env, sh: Shared)
    requires Quiet(env, sh)
    ensures Unseen(sh, sh)
  {
    forall k ensures KeptAt(sh, sh, k) { assert FileLinked(sh, k); }
  }

  lemma {:induction false} BeginUnderway(
      env: Env, malloc: Malloc, io: Device, sh: Shared, path: Path, start: nat, buf: seq<Block>)
    requires Quiet(env, sh) && forall b :: b in buf ==> env.inPlay(b)
    ensures var w := Begin(path, start, buf); Underway(env, malloc, io, Planned(env, malloc, io, sh, w), sh, sh, w)
  {
    var w := Begin(path, start, buf);
    BeginView(env, sh, w);
    UnseenRefl(env, sh);
    assert w.pendingHashes.Keys == {};
  }

  /** What a write leaves behind. */
  ghost predicate Committed(env: Env, sh0: Shared, sh: Shared, path: Path, start: nat, buf: seq<Block>) {
    && Seen(env, sh0, sh, path, start, buf, |buf|)
    && sh.sizes == Grow(sh0.sizes, path, (start + |buf|) * BLOCK_SIZE)
  }

  /** The write is committed if all pwrites that its plan needs are complete; otherwise it
      stays unseen and returns the code of one of them. */
  ghost predicate Finished(
    env: Env, io: Device, plan: seq<Entry>, sh0: Shared, path: Path, start: nat, buf: seq<Block>, r: Ended)
  {
    && Quiet(env, r.sh)
    && Grown(env, sh0, r.sh, buf)
    && if AllFull(io, plan) then Committed(env, sh0, r.sh, path, start, buf) && r.rc == |buf| * BLOCK_SIZE
       else Unseen(sh0, r.sh) && exists i: nat :: BadPwrite(io, plan, r.rc, i)
  }

  function ReturnCode(w: Job): int { if w.phase.Releasing? then |w.buf| * BLOCK_SIZE else w.rc }

  lemma {:induction false} UnderwayNext(
      env: Env, malloc: Malloc, io: Device, plan: seq<Entry>, sh0: Shared, sh: Shared, w: Job, m: Moved)
    requires Fresh(malloc) && Underway(env, malloc, io, plan, sh0, sh, w)
    requires m == WriterStep(env, false, sh, w, ChoiceFor(malloc, io, sh, w)) && m.t.Writer?
    ensures Underway(env, malloc, io, plan, sh0, m.sh, m.t.job)
    ensures m.t.job.buf == w.buf && m.t.job.path == w.path && m.t.job.start == w.start
  {
    var ch := ChoiceFor(malloc, io, sh, w);
    assert malloc(sh.heap.Keys) !in sh.heap.Keys;
    SoloStep(env, sh, w, ch);
    TrackStep(env, sh0, sh, w, ch);
    BudgetStep(env, sh0, sh, w, ch);
    BlamedStep(env, malloc, io, plan, sh, w);
    WriterFramed(env, false, sh, w, ch, Nothing, 0);
  }

  lemma {:induction false} UnderwayEnd(
      env: Env, malloc: Malloc, io: Device, plan: seq<Entry>, sh0: Shared, sh: Shared, w: Job, m: Moved)
    requires Fresh(malloc) && Underway(env, malloc, io, plan, sh0, sh, w)
    requires m == WriterStep(env, false, sh, w, ChoiceFor(malloc, io, sh, w)) && !m.t.Writer?
    ensures Finished(env, io, plan, sh0, w.path, w.start, w.buf, Ended(m.sh, ReturnCode(w)))
  {
    var ch := ChoiceFor(malloc, io, sh, w);
    assert malloc(sh.heap.Keys) !in sh.heap.Keys;
    SoloStep(env, sh, w, ch);
    TrackStep(env, sh0, sh, w, ch);
    BudgetStep(env, sh0, sh, w, ch);
    WriterEnds(env, sh, w, ch);
  }

  lemma {:induction false} DriveUnfolds(env: Env, malloc: Malloc, io: Device, sh: Shared, w: Job)
    requires ListsOk(w)
    ensures var m := WriterStep(env, false, sh, w, ChoiceFor(malloc, io, sh, w));
            Drive(env, malloc, io, sh, w)
            == if m.t.Writer? then Drive(env, malloc, io, m.sh, m.t.job) else Ended(m.sh, ReturnCode(w))
  {}

  /** A write that runs to its end either commits all of its blocks or stays unseen. */
  lemma {:induction false} DriveFinishes(
      env: Env, malloc: Malloc, io: Device, plan: seq<Entry>, sh0: Shared, sh: Shared, w: Job)
    requires Fresh(malloc) && Underway(env, malloc, io, plan, sh0, sh, w)
    ensures Finished(env, io, plan, sh0, w.path, w.start, w.buf, Drive(env, malloc, io, sh, w))
    decreases PhaseRank(w), Left(w)
  {
    var ch := ChoiceFor(malloc, io, sh, w);
    var m := WriterStep(env, false, sh, w, ch);
    DriveUnfolds(env, malloc, io, sh, w);
    if m.t.Writer? {
      UnderwayNext(env, malloc, io, plan, sh0, sh, w, m);
      Decreases(env, sh, w, ch);
      DriveFinishes(env, malloc, io, plan, sh0, m.sh, m.t.job);
    } else {
      UnderwayEnd(env, malloc, io, plan, sh0, sh, w, m);
    }
  }

  lemma {:induction false} Decreases(env: Env, sh: Shared, w: Job, ch: Choice)
    requires ListsOk(w) && WriterStep(env, false, sh, w, ch).t.Writer?
    ensures var w' := WriterStep(env, false, sh, w, ch).t.job;
            PhaseRank(w') < PhaseRank(w) || (PhaseRank(w') == PhaseRank(w) && Left(w') < Left(w))
  {}
}
