/** Which block of a request goes to which slot, and in which order a rollback puts the slots
    back. */
module Placement {
  import opened Model
  import opened Steps
  import opened Invariant
  import opened Accounting
  import opened Lifecycle
  import opened Frames
  import opened StepProofs
  import opened Sequential
  import opened Solo
  import opened Quiescence
  import opened Laws
  import opened Coalescing
  import opened Operations

  /** The slot of the r-th MISS: the r-th of the free list, then the end of the master. */
  function SlotOfMiss(sh: Shared, r: nat): nat {
    if r < |sh.freeList| then sh.freeList[r] else sh.next + (r - |sh.freeList|)
  }

  /** The slots of the first m MISSes. */
  function SlotsOfMisses(sh: Shared, m: nat): (xs: seq<nat>)
    ensures |xs| == m
  {
    if m == 0 then [] else SlotsOfMisses(sh, m - 1) + [SlotOfMiss(sh, m - 1)]
  }

  /** What is left of the free list when m slots were taken. */
  function LeftFree(sh: Shared, m: nat): seq<nat> { sh.freeList[Min(m, |sh.freeList|)..] }

  lemma {:induction false} SlotsAre(sh: Shared, m: nat, i: nat)
    requires i < m
    ensures SlotsOfMisses(sh, m)[i] == SlotOfMiss(sh, i)
  {
    if i < m - 1 { SlotsAre(sh, m - 1, i); }
  }

  /** The first slots come from the free list, the others from fetch_add. */
  lemma {:induction false} TakenThenAppended(sh: Shared, m: nat)
    ensures var k := Min(m, |sh.freeList|); SlotsOfMisses(sh, m) == sh.freeList[..k] + Range(sh.next, m - k)
  {
    var k, xs := Min(m, |sh.freeList|), SlotsOfMisses(sh, m);
    forall i: nat | i < m ensures xs[i] == (sh.freeList[..k] + Range(sh.next, m - k))[i] { SlotsAre(sh, m, i); }
  }

  // ---------------------------------------------------------------------- the plan of pass 1

  /** Block i is the first of its hash, and the index does not know it. */
  ghost predicate FirstNew(env: Env, sh: Shared, buf: seq<Block>, i: nat)
    requires i < |buf|
  {
    env.hash(buf[i]) !in sh.hashToMaster && forall j: nat :: j < i ==> env.hash(buf[j]) != env.hash(buf[i])
  }

  ghost predicate KindAt(env: Env, sh0: Shared, buf: seq<Block>, plan: seq<Entry>, i: nat)
    requires i < |plan| <= |buf|
  {
    (plan[i].Miss? || plan[i].Hit?) && (plan[i].Miss? <==> FirstNew(env, sh0, buf, i))
  }

  lemma {:induction false} DecideKind(env: Env, sh0: Shared, sh: Shared, w: Job, addr: Ptr)
    requires Counted(env, sh0, sh, w) && |w.plan| < |w.buf|
    ensures var s := Decide(env, sh, w, addr); |s.w.plan| == |w.plan| + 1 && KindAt(env, sh0, w.buf, s.w.plan, |w.plan|)
  {
    var n := |w.plan|;
    NewMeans(env, sh0, w.buf, n, env.hash(w.buf[n]));
    DecideTables(env, sh, w, addr);
    assert env.hash(w.buf[n]) in sh.hashToMaster <==> env.hash(w.buf[n]) in sh0.hashToMaster.Keys;
  }

  lemma {:induction false} DecideKinds(env: Env, malloc: Malloc, sh0: Shared, sh: Shared, w: Job)
    requires Counted(env, sh0, sh, w) && forall i: nat :: i < |w.plan| ==> KindAt(env, sh0, w.buf, w.plan, i)
    ensures var plan := DecideAll(env, malloc, sh, w).w.plan;
            |plan| == |w.buf| && forall i: nat :: i < |plan| ==> KindAt(env, sh0, w.buf, plan, i)
    decreases |w.buf| - |w.plan|
  {
    if |w.plan| < |w.buf| {
      var s := Decide(env, sh, w, malloc(sh.heap.Keys));
      DecideKind(env, sh0, sh, w, malloc(sh.heap.Keys));
      CountedDecide(env, sh0, sh, w, malloc(sh.heap.Keys));
      DecideTables(env, sh, w, malloc(sh.heap.Keys));
      forall i: nat | i < |s.w.plan| ensures KindAt(env, sh0, w.buf, s.w.plan, i) {
        if i < |w.plan| { assert KindAt(env, sh0, w.buf, w.plan, i) && s.w.plan[i] == w.plan[i]; }
      }
      DecideKinds(env, malloc, sh0, s.sh, s.w);
    }
  }

  lemma {:induction false} OneMore(s: set<Hash>, h: Hash)
    ensures |s + {h}| == |s| + (if h in s then 0 else 1) && s + {} == s
  {
    if h in s { assert s + {h} == s; }
  }

  /** There are as many MISSes among the first n entries as new hashes. */
  lemma {:induction false} MissesCount(env: Env, sh0: Shared, buf: seq<Block>, plan: seq<Entry>, n: nat)
    requires n <= |plan| == |buf| && forall i: nat :: i < |plan| ==> KindAt(env, sh0, buf, plan, i)
    ensures MissesTo(plan, n) == |NewTo(env, sh0, buf, n)|
  {
    if n > 0 {
      MissesCount(env, sh0, buf, plan, n - 1);
      NewMeans(env, sh0, buf, n - 1, env.hash(buf[n - 1]));
      assert KindAt(env, sh0, buf, plan, n - 1);
      OneMore(NewTo(env, sh0, buf, n - 1), env.hash(buf[n - 1]));
    }
  }

  // -------------------------------------------------------------------- from pass 1 to pass 2

  /** Entry i as pass 1 left it in d, numbered. */
  ghost predicate PlacedAt(sh0: Shared, d: seq<Entry>, plan: seq<Entry>, i: nat)
    requires i < |d| == |plan|
  {
    plan[i] == if d[i].Miss? then Placed(d[i].info, SlotOfMiss(sh0, MissesTo(d, i))) else d[i]
  }

  ghost predicate PlacedTo(sh0: Shared, d: seq<Entry>, plan: seq<Entry>, n: nat)
    requires n <= |d| == |plan|
  {
    (forall i: nat :: i < n ==> PlacedAt(sh0, d, plan, i)) && forall i: nat :: n <= i < |d| ==> plan[i] == d[i]
  }

  /** The slots that wait for the MISSes from the r-th on. */
  ghost predicate Waiting(sh0: Shared, out: seq<nat>, r: nat, m: nat) {
    |out| + r == m && forall x: nat :: x < |out| ==> out[x] == SlotOfMiss(sh0, r + x)
  }

  /** How far a write that began in sh0 with plan d of pass 1 has come with its slots. */
  ghost predicate Numbering(env: Env, malloc: Malloc, d: seq<Entry>, sh0: Shared, sh: Shared, w: Job) {
    match w.phase
    case Deciding =>
      && sh.next == sh0.next && sh.freeList == sh0.freeList
      && |w.plan| <= |w.buf| && DecideAll(env, malloc, sh, w).w.plan == d
    case Draining => sh.next == sh0.next && sh.freeList == sh0.freeList && w.plan == d
    case Appending =>
      && sh.next == sh0.next && sh.freeList == LeftFree(sh0, Misses(d)) && w.plan == d
      && w.out == sh0.freeList[..Min(Misses(d), |sh0.freeList|)]
    case Placing =>
      && sh.freeList == LeftFree(sh0, Misses(d)) && w.pos <= |d| == |w.plan|
      && PlacedTo(sh0, d, w.plan, w.pos) && Waiting(sh0, w.out, MissesTo(d, w.pos), Misses(d))
    case Flushing => sh.freeList == LeftFree(sh0, Misses(d)) && |w.plan| == |d| && PlacedTo(sh0, d, w.plan, |d|)
    case _ => true
  }

  lemma {:induction false} NumberDecide(env: Env, malloc: Malloc, d: seq<Entry>, sh0: Shared, sh: Shared, w: Job)
    requires w.phase.Deciding? && Numbering(env, malloc, d, sh0, sh, w)
    ensures if |w.plan| < |w.buf| then
              var s := Decide(env, sh, w, malloc(sh.heap.Keys)); Numbering(env, malloc, d, sh0, s.sh, s.w)
            else w.plan == d && Numbering(env, malloc, d, sh0, sh, Advance(w))
  {}

  lemma {:induction false} NumberDrain(env: Env, malloc: Malloc, d: seq<Entry>, sh0: Shared, sh: Shared, w: Job)
    requires w.phase.Draining? && Numbering(env, malloc, d, sh0, sh, w)
    ensures var s := Drain(sh, w); Numbering(env, malloc, d, sh0, s.sh, s.w)
  {}

  lemma {:induction false} NumberAppend(env: Env, malloc: Malloc, d: seq<Entry>, sh0: Shared, sh: Shared, w: Job)
    requires w.phase.Appending? && Numbering(env, malloc, d, sh0, sh, w) && |w.out| <= Misses(w.plan)
    ensures var s := Append(sh, w); Numbering(env, malloc, d, sh0, s.sh, s.w)
  {
    var s := Append(sh, w);
    forall x: nat | x < |s.w.out| ensures s.w.out[x] == SlotOfMiss(sh0, x) {}
  }

  lemma {:induction false} NumberPlace(env: Env, malloc: Malloc, d: seq<Entry>, sh0: Shared, sh: Shared, w: Job)
    requires w.phase.Placing? && w.pos < |w.plan| && Numbering(env, malloc, d, sh0, sh, w)
    requires w.plan[w.pos].Miss? ==> w.plan[w.pos].info in sh.heap && w.out != []
    ensures var s := Place(sh, w); Numbering(env, malloc, d, sh0, s.sh, s.w)
  {
    var s, n := Place(sh, w), w.pos;
    assert w.plan[n] == d[n] && MissesTo(d, n + 1) == MissesTo(d, n) + if d[n].Miss? then 1 else 0;
    forall i: nat | i < n + 1 ensures PlacedAt(sh0, d, s.w.plan, i) {
      if i < n { assert PlacedAt(sh0, d, w.plan, i); }
    }
  }

  lemma {:induction false} NumberStep(
      env: Env, malloc: Malloc, io: Device, d: seq<Entry>, sh0: Shared, sh: Shared, w: Job, m: Moved)
    requires SoloView(env, sh, w) && Early(w) && Numbering(env, malloc, d, sh0, sh, w)
    requires m == WriterStep(env, false, sh, w, ChoiceFor(malloc, io, sh, w))
    ensures m.t.Writer? && Numbering(env, malloc, d, sh0, m.sh, m.t.job)
    ensures !Early(m.t.job) ==> |m.t.job.plan| == |d| && PlacedTo(sh0, d, m.t.job.plan, |d|)
  {
    assert ListsOk(w);
    hide SoloView;
    match w.phase
    case Deciding =>
      NumberDecide(env, malloc, d, sh0, sh, w);
      if |w.plan| == |w.buf| && Misses(w.plan) == 0 { AllHits(sh0, d); }
    case Draining => NumberDrain(env, malloc, d, sh0, sh, w);
    case Appending => NumberAppend(env, malloc, d, sh0, sh, w);
    case Placing =>
      if w.pos < |w.plan| {
        MissIsReady(env, sh, w);
        NumberPlace(env, malloc, d, sh0, sh, w);
      }
  }

  lemma {:induction false} MissIsReady(env: Env, sh: Shared, w: Job)
    requires SoloView(env, sh, w) && w.phase.Placing? && w.pos < |w.plan|
    ensures w.plan[w.pos].Miss? ==> w.plan[w.pos].info in sh.heap && w.out != []
  {
    assert EntryOk(env, sh, w, w.pos) && KindsOk(w, w.pos);
    PlanMember(w.plan, w.pos);
  }

  lemma {:induction false} AllHits(sh0: Shared, d: seq<Entry>)
    requires Misses(d) == 0
    ensures PlacedTo(sh0, d, d, |d|)
  {
    forall i: nat | i < |d| ensures PlacedAt(sh0, d, d, i) { if d[i].Miss? { MissCounts(d, |d|, i); } }
  }

  lemma {:induction false} PlannedIsPlaced(
      env: Env, malloc: Malloc, io: Device, d: seq<Entry>, sh0: Shared, sh: Shared, w: Job)
    requires Fresh(malloc) && SoloView(env, sh, w) && Early(w) && Numbering(env, malloc, d, sh0, sh, w)
    ensures var plan := Planned(env, malloc, io, sh, w); |plan| == |d| && PlacedTo(sh0, d, plan, |d|)
    decreases PhaseRank(w), Left(w)
  {
    var ch := ChoiceFor(malloc, io, sh, w);
    var m := WriterStep(env, false, sh, w, ch);
    assert malloc(sh.heap.Keys) !in sh.heap.Keys;
    NumberStep(env, malloc, io, d, sh0, sh, w, m);
    SoloStep(env, sh, w, ch);
    if Early(m.t.job) {
      Decreases(env, sh, w, ch);
      PlannedIsPlaced(env, malloc, io, d, sh0, m.sh, m.t.job);
    }
  }

  /** The plan that the flush sees: exactly the first blocks of each new hash are written, and
      the r-th of them to the r-th slot of the free list or, when that is used up, to the end
      of the master in order. */
  lemma {:induction false} PlannedSlots(
      env: Env, malloc: Malloc, io: Device, sh: Shared, path: Path, start: nat, buf: seq<Block>)
    requires Quiet(env, sh) && Fresh(malloc) && forall b :: b in buf ==> env.inPlay(b)
    ensures var plan := Planned(env, malloc, io, sh, Begin(path, start, buf));
            |plan| == |buf| && forall i: nat :: i < |buf| ==> NumberedAt(env, sh, buf, plan, i)
  {
    var w := Begin(path, start, buf);
    var d, plan := DecideAll(env, malloc, sh, w).w.plan, Planned(env, malloc, io, sh, w);
    BeginView(env, sh, w);
    assert w.pendingHashes.Keys == {};
    DecideKinds(env, malloc, sh, sh, w);
    PlannedIsPlaced(env, malloc, io, d, sh, sh, w);
    forall i: nat | i < |buf| ensures NumberedAt(env, sh, buf, plan, i) {
      assert KindAt(env, sh, buf, d, i) && PlacedAt(sh, d, plan, i);
      MissesCount(env, sh, buf, d, i);
    }
  }

  ghost predicate NumberedAt(env: Env, sh: Shared, buf: seq<Block>, plan: seq<Entry>, i: nat)
    requires i < |plan| == |buf|
  {
    if FirstNew(env, sh, buf, i) then plan[i].Placed? && plan[i].slot == SlotOfMiss(sh, |NewTo(env, sh, buf, i)|)
    else plan[i].Hit?
  }

  /** n new blocks and an empty free list: one pwrite. */
  lemma {:induction false} OnePwrite(
      env: Env, malloc: Malloc, io: Device, sh: Shared, path: Path, start: nat, buf: seq<Block>)
    requires Quiet(env, sh) && Fresh(malloc) && forall b :: b in buf ==> env.inPlay(b)
    requires buf != [] && sh.freeList == [] && forall i: nat :: i < |buf| ==> FirstNew(env, sh, buf, i)
    ensures Starts(Planned(env, malloc, io, sh, Begin(path, start, buf))) == {0}
  {
    var plan := Planned(env, malloc, io, sh, Begin(path, start, buf));
    PlannedSlots(env, malloc, io, sh, path, start, buf);
    forall i: nat | i < |buf| ensures plan[i].Placed? && plan[i].slot == sh.next + i {
      assert FirstNew(env, sh, buf, i) && NumberedAt(env, sh, buf, plan, i);
      AllNew(env, sh, buf, i);
    }
  }

  lemma {:induction false} AllNew(env: Env, sh: Shared, buf: seq<Block>, n: nat)
    requires n <= |buf| && forall i: nat :: i < |buf| ==> FirstNew(env, sh, buf, i)
    ensures |NewTo(env, sh, buf, n)| == n
  {
    if n > 0 {
      AllNew(env, sh, buf, n - 1);
      NewMeans(env, sh, buf, n - 1, env.hash(buf[n - 1]));
      assert FirstNew(env, sh, buf, n - 1);
    }
  }

  // ------------------------------------------------------------------------------- rollback

  /** The slots of the first n entries, the last one first. */
  function Backwards(plan: seq<Entry>, n: nat): seq<nat>
    requires n <= |plan|
  {
    if n == 0 then [] else (if plan[n - 1].Placed? then [plan[n - 1].slot] else []) + Backwards(plan, n - 1)
  }

  function Reversed(xs: seq<nat>): (r: seq<nat>)
    ensures |r| == |xs| && forall i: nat :: i < |xs| ==> r[i] == xs[|xs| - 1 - i]
  {
    if xs == [] then [] else [xs[|xs| - 1]] + Reversed(xs[..|xs| - 1])
  }

  lemma {:induction false} BackwardsIsReversed(sh0: Shared, d: seq<Entry>, plan: seq<Entry>, n: nat)
    requires n <= |d| == |plan| && PlacedTo(sh0, d, plan, |d|) && forall i: nat :: i < |d| ==> d[i].Hit? || d[i].Miss?
    ensures Backwards(plan, n) == Reversed(SlotsOfMisses(sh0, MissesTo(d, n)))
  {
    hide Reversed;
    if n > 0 {
      BackwardsIsReversed(sh0, d, plan, n - 1);
      assert PlacedAt(sh0, d, plan, n - 1);
      var r := MissesTo(d, n - 1);
      ReversedMore(SlotsOfMisses(sh0, r), SlotOfMiss(sh0, r));
      assert [] + Backwards(plan, n - 1) == Backwards(plan, n - 1);
    }
  }

  lemma {:induction false} ReversedMore(xs: seq<nat>, x: nat)
    ensures Reversed(xs + [x]) == [x] + Reversed(xs)
  {
    assert (xs + [x])[..|xs|] == xs;
  }

  /** The entries of the plan whose slots are still to be put back. */
  ghost predicate StillPlaced(plan: seq<Entry>, now: seq<Entry>, n: nat) {
    && |now| == |plan|
    && (forall i: nat :: n <= i < |plan| && plan[i].Placed? ==> now[i] == plan[i])
    && (forall i: nat :: n <= i < |plan| && !plan[i].Placed? ==> !now[i].Placed?)
  }

  /** How far a rollback has come: `freed` are slots of dropped HITs. */
  ghost predicate Undone(plan: seq<Entry>, left: seq<nat>, sh: Shared, w: Job, freed: seq<nat>) {
    match w.phase
    case Flushing => w.plan == plan && sh.freeList == left && w.release == freed == []
    case UndoHits => StillPlaced(plan, w.plan, 0) && sh.freeList == left && w.release == freed
    case ReleaseHits => StillPlaced(plan, w.plan, 0) && sh.freeList == left && w.release == freed
    case UndoMisses =>
      w.pos <= |plan| && StillPlaced(plan, w.plan, w.pos) && sh.freeList == Backwards(plan, w.pos) + freed + left
    case _ => false
  }

  lemma {:induction false} UndoneHit(plan: seq<Entry>, left: seq<nat>, sh: Shared, w: Job, freed: seq<nat>)
    requires w.phase.UndoHits? && w.pos < |w.plan| && Undone(plan, left, sh, w, freed)
    ensures var s := UndoHit(sh, w); Undone(plan, left, s.sh, s.w, s.w.release)
  {}

  lemma {:induction false} UndoneMiss(plan: seq<Entry>, left: seq<nat>, sh: Shared, w: Job, freed: seq<nat>)
    requires w.phase.UndoMisses? && w.pos < |w.plan| && Undone(plan, left, sh, w, freed)
    ensures var s := UndoMiss(sh, w); Undone(plan, left, s.sh, s.w, freed)
  {
    if plan[w.pos].Placed? {
      assert [plan[w.pos].slot] + (Backwards(plan, w.pos) + freed + left)
          == ([plan[w.pos].slot] + Backwards(plan, w.pos)) + freed + left;
    } else {
      assert [] + Backwards(plan, w.pos) == Backwards(plan, w.pos);
    }
  }

  lemma {:induction false} UndoneFlush(plan: seq<Entry>, left: seq<nat>, sh: Shared, w: Job, o: Outcome)
    requires w.phase.Flushing? && w.pos < |w.plan| == |w.buf| && Undone(plan, left, sh, w, [])
    ensures var s := Flush(sh, w, o); Undone(plan, left, s.sh, s.w, [])
  {}

  lemma {:induction false} UndoneStep(
      env: Env, sh: Shared, w: Job, ch: Choice, plan: seq<Entry>, left: seq<nat>, freed: seq<nat>, m: Moved)
    returns (freed': seq<nat>)
    requires ListsOk(w) && Undone(plan, left, sh, w, freed) && m == WriterStep(env, false, sh, w, ch)
    requires m.t.Writer? && !m.t.job.phase.Publishing?
    ensures Undone(plan, left, m.sh, m.t.job, freed')
  {
    freed' := freed;
    match w.phase
    case Flushing => if w.pos < |w.plan| { UndoneFlush(plan, left, sh, w, ch.outcome); }
    case UndoHits =>
      if w.pos < |w.plan| { UndoneHit(plan, left, sh, w, freed); freed' := UndoHit(sh, w).w.release; }
    case ReleaseHits =>
      assert [] + freed + left == freed + left;
    case UndoMisses => UndoneMiss(plan, left, sh, w, freed);
    case _ =>
  }

  /** A write that fails puts its slots back in front of everything else. */
  lemma {:induction false} DriveUndoes(
      env: Env, malloc: Malloc, io: Device, sh: Shared, w: Job, plan: seq<Entry>, left: seq<nat>, freed: seq<nat>)
    returns (all: seq<nat>)
    requires Fresh(malloc) && SoloView(env, sh, w) && Undone(plan, left, sh, w, freed)
    requires Drive(env, malloc, io, sh, w).rc <= 0 && w.buf != []
    ensures Drive(env, malloc, io, sh, w).sh.freeList == Backwards(plan, |plan|) + all + left
    decreases PhaseRank(w), Left(w)
  {
    var ch := ChoiceFor(malloc, io, sh, w);
    var m := WriterStep(env, false, sh, w, ch);
    assert malloc(sh.heap.Keys) !in sh.heap.Keys;
    DriveUnfolds(env, malloc, io, sh, w);
    if m.t.Writer? {
      SoloStep(env, sh, w, ch);
      WriterFramed(env, false, sh, w, ch, Nothing, 0);
      Decreases(env, sh, w, ch);
      if m.t.job.phase.Publishing? {
        CommitsPositive(env, malloc, io, m.sh, m.t.job);
        all := freed;
      } else {
        var freed' := UndoneStep(env, sh, w, ch, plan, left, freed, m);
        all := DriveUndoes(env, malloc, io, m.sh, m.t.job, plan, left, freed');
      }
    } else {
      WriterEnds(env, sh, w, ch);
      all := freed;
    }
  }

  /** Once in pass 3 a write succeeds. */
  lemma {:induction false} CommitsPositive(env: Env, malloc: Malloc, io: Device, sh: Shared, w: Job)
    requires Fresh(malloc) && SoloView(env, sh, w) && w.phase in {Publishing, Mapping, Resizing, Releasing}
    ensures Drive(env, malloc, io, sh, w).rc == |w.buf| * BLOCK_SIZE
    decreases PhaseRank(w), Left(w)
  {
    var ch := ChoiceFor(malloc, io, sh, w);
    var m := WriterStep(env, false, sh, w, ch);
    assert malloc(sh.heap.Keys) !in sh.heap.Keys;
    DriveUnfolds(env, malloc, io, sh, w);
    if m.t.Writer? {
      SoloStep(env, sh, w, ch);
      WriterFramed(env, false, sh, w, ch, Nothing, 0);
      Decreases(env, sh, w, ch);
      StaysCommitted(env, sh, w, ch);
      CommitsPositive(env, malloc, io, m.sh, m.t.job);
    } else {
      WriterEnds(env, sh, w, ch);
    }
  }

  lemma {:induction false} StaysCommitted(env: Env, sh: Shared, w: Job, ch: Choice)
    requires ListsOk(w) && w.phase in {Publishing, Mapping, Resizing, Releasing}
    ensures var m := WriterStep(env, false, sh, w, ch);
            m.t.Writer? ==> m.t.job.phase in {Publishing, Mapping, Resizing, Releasing}
  {}

  lemma {:induction false} DriveNumbers(
      env: Env, malloc: Malloc, io: Device, d: seq<Entry>, sh0: Shared, sh: Shared, w: Job) returns (all: seq<nat>)
    requires Fresh(malloc) && SoloView(env, sh, w) && Early(w) && Numbering(env, malloc, d, sh0, sh, w)
    requires Drive(env, malloc, io, sh, w).rc <= 0 && w.buf != []
    requires forall i: nat :: i < |d| ==> d[i].Hit? || d[i].Miss?
    ensures Drive(env, malloc, io, sh, w).sh.freeList
            == Reversed(SlotsOfMisses(sh0, Misses(d))) + all + LeftFree(sh0, Misses(d))
    decreases PhaseRank(w), Left(w)
  {
    var ch := ChoiceFor(malloc, io, sh, w);
    var m := WriterStep(env, false, sh, w, ch);
    assert malloc(sh.heap.Keys) !in sh.heap.Keys;
    DriveUnfolds(env, malloc, io, sh, w);
    NumberStep(env, malloc, io, d, sh0, sh, w, m);
    SoloStep(env, sh, w, ch);
    WriterFramed(env, false, sh, w, ch, Nothing, 0);
    if Early(m.t.job) {
      Decreases(env, sh, w, ch);
      all := DriveNumbers(env, malloc, io, d, sh0, m.sh, m.t.job);
    } else if m.t.job.phase.Flushing? {
      BackwardsIsReversed(sh0, d, m.t.job.plan, |d|);
      all := DriveUndoes(env, malloc, io, m.sh, m.t.job, m.t.job.plan, LeftFree(sh0, Misses(d)), []);
    } else {
      AfterEarly(env, sh, w, ch);
      CommitsPositive(env, malloc, io, m.sh, m.t.job);
      assert false;
    }
  }

  lemma {:induction false} AfterEarly(env: Env, sh: Shared, w: Job, ch: Choice)
    requires ListsOk(w) && Early(w)
    ensures var t := WriterStep(env, false, sh, w, ch).t;
            t.Writer? && (Early(t.job) || t.job.phase in {Flushing, Publishing})
  {}

  lemma {:induction false} NothingBetween(a: seq<nat>, all: seq<nat>, c: seq<nat>, xs: seq<nat>)
    requires xs == a + all + c && |xs| == |a| + |c|
    ensures xs == a + c
  {}

  /** A rollback returns all slots that the write was given to the head of the free list, the
      last one first, in front of the slots that it was not given. */
  lemma {:induction false} RollbackOrder(
      env: Env, malloc: Malloc, io: Device, sh: Shared, path: Path, data: seq<Byte>, offset: nat)
    requires Quiet(env, sh) && Fresh(malloc) && TrustedData(env, data) && Aligned(data)
    requires Write(env, malloc, io, sh, path, data, offset).rc < 0
    ensures var m := |NewHashes(env, sh, Blocks(data))|;
            var k := Min(m, |sh.freeList|);
            Write(env, malloc, io, sh, path, data, offset).sh.freeList
            == Reversed(sh.freeList[..k] + Range(sh.next, m - k)) + sh.freeList[k..]
  {
    var buf, r := Blocks(data), Write(env, malloc, io, sh, path, data, offset);
    var m := |NewHashes(env, sh, buf)|;
    assert r == Drive(env, malloc, io, sh, Begin(path, offset / BLOCK_SIZE, buf));
    hide Write, Drive, NewHashes;
    var all := DriveReturns(env, malloc, io, sh, path, offset / BLOCK_SIZE, buf);
    TakenThenAppended(sh, m);
    ReturnedSize(env, malloc, io, sh, path, data, offset);
    NothingBetween(Reversed(SlotsOfMisses(sh, m)), all, LeftFree(sh, m), r.sh.freeList);
  }

  lemma {:induction false} DriveReturns(
      env: Env, malloc: Malloc, io: Device, sh: Shared, path: Path, start: nat, buf: seq<Block>) returns (all: seq<nat>)
    requires Quiet(env, sh) && Fresh(malloc) && buf != [] && forall b :: b in buf ==> env.inPlay(b)
    requires Drive(env, malloc, io, sh, Begin(path, start, buf)).rc <= 0
    ensures var m := |NewHashes(env, sh, buf)|;
            Drive(env, malloc, io, sh, Begin(path, start, buf)).sh.freeList
            == Reversed(SlotsOfMisses(sh, m)) + all + LeftFree(sh, m)
  {
    hide Drive;
    var w := Begin(path, start, buf);
    var d := DecideAll(env, malloc, sh, w).w.plan;
    BeginView(env, sh, w);
    assert w.pendingHashes.Keys == {};
    DecideKinds(env, malloc, sh, sh, w);
    MissesCount(env, sh, buf, d, |d|);
    forall i: nat | i < |d| ensures d[i].Hit? || d[i].Miss? { assert KindAt(env, sh, buf, d, i); }
    all := DriveNumbers(env, malloc, io, d, sh, sh, w);
  }

  lemma {:induction false} ReturnedSize(
      env: Env, malloc: Malloc, io: Device, sh: Shared, path: Path, data: seq<Byte>, offset: nat)
    requires Quiet(env, sh) && Fresh(malloc) && TrustedData(env, data) && Aligned(data)
    requires Write(env, malloc, io, sh, path, data, offset).rc < 0
    ensures var m := |NewHashes(env, sh, Blocks(data))|;
            |Write(env, malloc, io, sh, path, data, offset).sh.freeList| == |sh.freeList| + (m - Min(m, |sh.freeList|))
  {
    hide Write;
    var r := Write(env, malloc, io, sh, path, data, offset);
    WriteLaw(env, malloc, io, sh, path, data, offset);
    FailedWrite(env, malloc, io, sh, path, data, offset);
    var more: seq<nat> := Range(sh.next, r.sh.next - sh.next);
    assert |multiset(r.sh.freeList)| == |r.sh.freeList| && |multiset(sh.freeList)| == |sh.freeList|;
    assert |multiset(more)| == |more|;
  }
}
