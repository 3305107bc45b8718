/** A schedule of the source as it is, without any I/O failure, that ends with a mapping to
    a freed info: one request holds the same new block twice, another request writes that
    block too and publishes it first. */
module Counterexample {
  import opened Model
  import opened Steps
  import opened Invariant
  import opened Lifecycle
  import opened Protocol
  import opened Locks

  function Last(run: Run): State
    requires run.states != []
  {
    run.states[|run.states| - 1]
  }

  /** No pwrite of the run fails. */
  predicate Faultless(run: Run) {
    forall i: nat :: i < |run.acts| && run.acts[i].Step? ==> run.acts[i].choice.outcome.Full?
  }

  /** A run of the source as it is, from the empty store with two threads, in an order that
      the locks admit and without any I/O failure. */
  ghost predicate Possible(env: Env, run: Run) {
    && IsRun(env, false, run) && run.states[0] == State(EMPTY, [Idle, Idle])
    && Locked(run) && Faultless(run)
  }

  /** Such a run that ends in the given state. */
  ghost predicate Reaches(env: Env, run: Run, sh: Shared, first: Thread, second: Thread) {
    Possible(env, run) && Last(run) == State(sh, [first, second])
  }

  lemma {:induction false} Extend(env: Env, run: Run, a: Action) returns (longer: Run)
    requires Possible(env, run) && Enabled(env, Last(run), a) && Respects(Last(run), a)
    requires a.Step? ==> a.choice.outcome.Full?
    ensures Possible(env, longer) && Last(longer) == Next(env, false, Last(run), a)
  {
    longer := Run(run.states + [Next(env, false, Last(run), a)], run.acts + [a]);
    forall i: nat | i < |longer.acts| ensures MoveAt(env, false, longer, i) && RespectsAt(longer, i) {
      if i < |run.acts| { assert MoveAt(env, false, run, i) && RespectsAt(run, i); }
    }
  }

  /** A thread that is in no critical section. */
  predicate Outside(t: Thread) { Holds(t).Unlocked? && !HoldsList(t) }

  /** A step of the first thread from job w, or of the second. */
  lemma {:induction false} FirstMoves(
      env: Env, run: Run, sh: Shared, w: Job, other: Thread, addr: Ptr, m: Moved) returns (longer: Run)
    requires ListsOk(w) && addr !in sh.heap && Reaches(env, run, sh, Writer(w), other) && Outside(other)
    requires WriterStep(env, false, sh, w, Choice(addr, Full, 0)) == m
    ensures Reaches(env, longer, m.sh, m.t, other)
  {
    var a := Step(0, Choice(addr, Full, 0));
    longer := Extend(env, run, a);
    assert Next(env, false, Last(run), a).ts == [m.t, other];
  }

  lemma {:induction false} SecondMoves(
      env: Env, run: Run, sh: Shared, w: Job, other: Thread, addr: Ptr, m: Moved) returns (longer: Run)
    requires ListsOk(w) && addr !in sh.heap && Reaches(env, run, sh, other, Writer(w)) && Outside(other)
    requires WriterStep(env, false, sh, w, Choice(addr, Full, 0)) == m
    ensures Reaches(env, longer, m.sh, other, m.t)
  {
    var a := Step(1, Choice(addr, Full, 0));
    longer := Extend(env, run, a);
    assert Next(env, false, Last(run), a).ts == [other, m.t];
  }

  lemma {:induction false} First(
      env: Env, run: Run, sh: Shared, w: Job, other: Thread, addr: Ptr, s: Stepped) returns (longer: Run)
    requires ListsOk(w) && addr !in sh.heap && Reaches(env, run, sh, Writer(w), other) && Outside(other)
    requires WriterStep(env, false, sh, w, Choice(addr, Full, 0)) == ToMoved(s)
    ensures Reaches(env, longer, s.sh, Writer(s.w), other)
  {
    longer := FirstMoves(env, run, sh, w, other, addr, ToMoved(s));
  }

  lemma {:induction false} Second(
      env: Env, run: Run, sh: Shared, w: Job, other: Thread, addr: Ptr, s: Stepped) returns (longer: Run)
    requires ListsOk(w) && addr !in sh.heap && Reaches(env, run, sh, other, Writer(w)) && Outside(other)
    requires WriterStep(env, false, sh, w, Choice(addr, Full, 0)) == ToMoved(s)
    ensures Reaches(env, longer, s.sh, other, Writer(s.w))
  {
    longer := SecondMoves(env, run, sh, w, other, addr, ToMoved(s));
  }

  // ------------------------------------------------------------------ the states on the way

  function TwiceJob(
      env: Env, b: Block, phase: Phase, plan: seq<Entry>, pos: nat, out: seq<nat>, release: seq<nat>): Job
  {
    Job(phase, [0], 0, [b, b], plan, map[env.hash(b) := 0], pos, out, release, 0)
  }

  function OnceJob(env: Env, b: Block, phase: Phase, plan: seq<Entry>, pos: nat, out: seq<nat>): Job {
    Job(phase, [1], 0, [b], plan, map[env.hash(b) := 1], pos, out, [], 0)
  }

  /** The shared state when the two requests have used `infos`, `next` slots and `disk`. */
  function Busy(infos: map<Ptr, MasterInfo>, next: nat, disk: map<nat, Block>): Shared {
    Shared(map[], map[], map[], infos, [], next, disk)
  }

  /** Both requests have started. */
  lemma {:induction false} Started(env: Env, b: Block) returns (run: Run)
    requires env.inPlay(b)
    ensures Reaches(env, run, EMPTY, Writer(Begin([0], 0, [b, b])), Writer(Begin([1], 0, [b])))
  {
    run := Run([State(EMPTY, [Idle, Idle])], []);
    run := Extend(env, run, StartWrite(0, [0], 0, [b, b]));
    assert Last(run).ts == [Writer(Begin([0], 0, [b, b])), Idle];
    run := Extend(env, run, StartWrite(1, [1], 0, [b]));
    assert Last(run).ts == [Writer(Begin([0], 0, [b, b])), Writer(Begin([1], 0, [b]))];
  }

  /** Pass 1 of the first request: a MISS and a HIT on the same pending info. */
  lemma {:induction false} FirstDecides(env: Env, b: Block, start: Run, other: Thread) returns (run: Run)
    requires Outside(other)
    requires Reaches(env, start, EMPTY, Writer(Begin([0], 0, [b, b])), other)
    ensures Reaches(env, run, Busy(map[0 := MasterInfo(env.hash(b), 0, 2)], 0, map[]),
                    Writer(TwiceJob(env, b, Draining, [Miss(0), Hit(0)], 0, [], [])), other)
  {
    hide Reaches;
    var w0, h := Begin([0], 0, [b, b]), env.hash(b);
    var sh1 := Busy(map[0 := MasterInfo(h, 0, 1)], 0, map[]);
    var w1 := TwiceJob(env, b, Deciding, [Miss(0)], 0, [], []);
    var s1 := Decide(env, EMPTY, w0, 0);
    assert s1.sh.heap == sh1.heap && s1.w.plan == w1.plan && s1.w.pendingHashes == w1.pendingHashes;
    run := First(env, start, EMPTY, w0, other, 0, Stepped(sh1, w1));
    var sh2 := Busy(map[0 := MasterInfo(h, 0, 2)], 0, map[]);
    var w2 := TwiceJob(env, b, Deciding, [Miss(0), Hit(0)], 0, [], []);
    var s2 := Decide(env, sh1, w1, 2);
    assert s2.sh.heap == sh2.heap && s2.w.plan == w2.plan;
    run := First(env, run, sh1, w1, other, 2, Stepped(sh2, w2));
    assert MissesTo(w2.plan, 1) == 1 && Misses(w2.plan) == 1;
    run := First(env, run, sh2, w2, other, 2, Stepped(sh2, w2.(phase := Draining)));
  }

  /** With an empty free list a request for one slot drains nothing and appends one. */
  lemma {:induction false} DrainNone(sh: Shared, w: Job)
    requires |sh.freeList| == 0 && |w.out| == 0
    ensures Drain(sh, w) == Stepped(sh, w.(phase := Appending))
  {
    assert Min(Misses(w.plan), 0) == 0 && sh.freeList[0..] == sh.freeList && sh.freeList[..0] == w.out;
  }

  lemma {:induction false} AppendOne(sh: Shared, w: Job)
    requires |w.out| == 0 && w.pos == 0 && Misses(w.plan) == 1
    ensures Append(sh, w) == Stepped(sh.(next := sh.next + 1), w.(phase := Placing, out := [sh.next]))
  {
    assert Range(sh.next, 1) == [sh.next] && w.out + [sh.next] == [sh.next];
  }

  /** The first request gets slot 0. */
  lemma {:induction false} FirstAllocates(env: Env, b: Block, start: Run, other: Thread) returns (run: Run)
    requires Outside(other)
    requires var sh := Busy(map[0 := MasterInfo(env.hash(b), 0, 2)], 0, map[]);
             Reaches(env, start, sh, Writer(TwiceJob(env, b, Draining, [Miss(0), Hit(0)], 0, [], [])), other)
    ensures Reaches(env, run, Busy(map[0 := MasterInfo(env.hash(b), 0, 2)], 1, map[]),
                    Writer(TwiceJob(env, b, Placing, [Miss(0), Hit(0)], 0, [0], [])), other)
  {
    hide Reaches, Drain, Append;
    var heap := map[0 := MasterInfo(env.hash(b), 0, 2)];
    var sh0, sh1 := Busy(heap, 0, map[]), Busy(heap, 1, map[]);
    var w0 := TwiceJob(env, b, Draining, [Miss(0), Hit(0)], 0, [], []);
    assert MissesTo(w0.plan, 1) == 1 && Misses(w0.plan) == 1;
    DrainNone(sh0, w0);
    AppendOne(sh0, w0.(phase := Appending));
    run := First(env, start, sh0, w0, other, 2, Stepped(sh0, w0.(phase := Appending)));
    var w2 := TwiceJob(env, b, Placing, [Miss(0), Hit(0)], 0, [0], []);
    run := First(env, run, sh0, w0.(phase := Appending), other, 2, Stepped(sh1, w2));
  }

  lemma {:induction false} FirstPlaces(env: Env, b: Block, start: Run, other: Thread) returns (run: Run)
    requires Outside(other)
    requires var sh := Busy(map[0 := MasterInfo(env.hash(b), 0, 2)], 1, map[]);
             Reaches(env, start, sh, Writer(TwiceJob(env, b, Placing, [Miss(0), Hit(0)], 0, [0], [])), other)
    ensures Reaches(env, run, Busy(map[0 := MasterInfo(env.hash(b), 0, 2)], 1, map[]),
                    Writer(TwiceJob(env, b, Placing, [Placed(0, 0), Hit(0)], 1, [], [])), other)
  {
    hide Reaches;
    var heap := map[0 := MasterInfo(env.hash(b), 0, 2)];
    var sh1, w2 := Busy(heap, 1, map[]), TwiceJob(env, b, Placing, [Miss(0), Hit(0)], 0, [0], []);
    assert MissesTo(w2.plan, 1) == 1 && Misses(w2.plan) == 1;
    var w3, s3 := TwiceJob(env, b, Placing, [Placed(0, 0), Hit(0)], 1, [], []), Place(sh1, w2);
    assert s3.sh.heap == heap && s3.w.plan == w3.plan && s3.w.out == [];
    run := First(env, start, sh1, w2, other, 2, Stepped(sh1, w3));
  }

  /** The first request writes its new block. */
  lemma {:induction false} FirstFlushes(env: Env, b: Block, start: Run, other: Thread) returns (run: Run)
    requires Outside(other)
    requires var sh := Busy(map[0 := MasterInfo(env.hash(b), 0, 2)], 1, map[]);
             Reaches(env, start, sh, Writer(TwiceJob(env, b, Placing, [Placed(0, 0), Hit(0)], 1, [], [])), other)
    ensures Reaches(env, run, Busy(map[0 := MasterInfo(env.hash(b), 0, 2)], 1, map[0 := b]),
                    Writer(TwiceJob(env, b, Publishing, [Placed(0, 0), Hit(0)], 0, [], [])), other)
  {
    hide Reaches;
    var heap := map[0 := MasterInfo(env.hash(b), 0, 2)];
    var sh1, sh2 := Busy(heap, 1, map[]), Busy(heap, 1, map[0 := b]);
    var w3 := TwiceJob(env, b, Placing, [Placed(0, 0), Hit(0)], 1, [], []);
    assert MissesTo(w3.plan, 1) == 0 && Misses(w3.plan) == 0;
    run := First(env, start, sh1, w3, other, 2, Stepped(sh1, w3.(pos := 2)));
    run := First(env, run, sh1, w3.(pos := 2), other, 2, Stepped(sh1, w3.(phase := Flushing, pos := 0)));
    assert RunEnd(w3.plan, 0) == 1;
    assert Pwrite(map[], 0, [b]) == map[0 := b];
    assert w3.buf[0..1] == [b];
    run := First(env, run, sh1, w3.(phase := Flushing, pos := 0), other, 2,
        Stepped(sh2, w3.(phase := Flushing, pos := 1)));
    run := First(env, run, sh2, w3.(phase := Flushing, pos := 1), other, 2,
        Stepped(sh2, w3.(phase := Flushing, pos := 2)));
    run := First(env, run, sh2, w3.(phase := Flushing, pos := 2), other, 2,
        Stepped(sh2, w3.(phase := Publishing, pos := 0)));
  }

  function Infos(h: Hash, slot: nat): map<Ptr, MasterInfo> {
    map[0 := MasterInfo(h, 0, 2), 1 := MasterInfo(h, slot, 1)]
  }

  /** The second request does not see the first and prepares the same block again. */
  lemma {:induction false} SecondDecides(env: Env, b: Block, start: Run, other: Thread) returns (run: Run)
    requires Outside(other)
    requires Reaches(env, start, Busy(map[0 := MasterInfo(env.hash(b), 0, 2)], 1, map[0 := b]), other,
        Writer(Begin([1], 0, [b])))
    ensures Reaches(env, run, Busy(Infos(env.hash(b), 0), 1, map[0 := b]), other,
        Writer(OnceJob(env, b, Deciding, [Miss(1)], 0, [])))
  {
    hide Reaches;
    var w0, h, d := Begin([1], 0, [b]), env.hash(b), map[0 := b];
    var sh0, sh1 := Busy(map[0 := MasterInfo(h, 0, 2)], 1, d), Busy(Infos(h, 0), 1, d);
    var w1 := OnceJob(env, b, Deciding, [Miss(1)], 0, []);
    var s1 := Decide(env, sh0, w0, 1);
    assert s1.sh.heap == Infos(h, 0) && s1.w.plan == w1.plan && s1.w.pendingHashes == w1.pendingHashes;
    run := Second(env, start, sh0, w0, other, 1, Stepped(sh1, w1));
  }

  lemma {:induction false} SecondAllocates(env: Env, b: Block, start: Run, other: Thread) returns (run: Run)
    requires Outside(other)
    requires Reaches(env, start, Busy(Infos(env.hash(b), 0), 1, map[0 := b]), other,
        Writer(OnceJob(env, b, Deciding, [Miss(1)], 0, [])))
    ensures Reaches(env, run, Busy(Infos(env.hash(b), 0), 2, map[0 := b]), other,
        Writer(OnceJob(env, b, Placing, [Miss(1)], 0, [1])))
  {
    hide Reaches, Drain, Append;
    var h, d := env.hash(b), map[0 := b];
    var sh1, w1 := Busy(Infos(h, 0), 1, d), OnceJob(env, b, Deciding, [Miss(1)], 0, []);
    assert Misses(w1.plan) == 1;
    DrainNone(sh1, w1.(phase := Draining));
    AppendOne(sh1, w1.(phase := Appending));
    run := Second(env, start, sh1, w1, other, 2, Stepped(sh1, w1.(phase := Draining)));
    run := Second(env, run, sh1, w1.(phase := Draining), other, 2, Stepped(sh1, w1.(phase := Appending)));
    var sh2, w2 := Busy(Infos(h, 0), 2, d), OnceJob(env, b, Placing, [Miss(1)], 0, [1]);
    run := Second(env, run, sh1, w1.(phase := Appending), other, 2, Stepped(sh2, w2));
  }

  lemma {:induction false} SecondFlushes(env: Env, b: Block, start: Run, other: Thread) returns (run: Run)
    requires Outside(other)
    requires Reaches(env, start, Busy(Infos(env.hash(b), 0), 2, map[0 := b]), other,
        Writer(OnceJob(env, b, Placing, [Miss(1)], 0, [1])))
    ensures Reaches(env, run, Busy(Infos(env.hash(b), 1), 2, map[0 := b, 1 := b]), other,
                    Writer(OnceJob(env, b, Publishing, [Placed(1, 1)], 0, [])))
  {
    hide Reaches;
    var h, d := env.hash(b), map[0 := b];
    var sh2, w2 := Busy(Infos(h, 0), 2, d), OnceJob(env, b, Placing, [Miss(1)], 0, [1]);
    var sh3, w3 := Busy(Infos(h, 1), 2, d), OnceJob(env, b, Placing, [Placed(1, 1)], 1, []);
    var s3, sh4 := Place(sh2, w2), Busy(Infos(h, 1), 2, map[0 := b, 1 := b]);
    assert Misses(w2.plan) == 1 && Misses(w3.plan) == 0;
    assert s3.sh.heap == Infos(h, 1) && s3.w.plan == w3.plan && s3.w.out == [];
    run := Second(env, start, sh2, w2, other, 2, Stepped(sh3, w3));
    run := Second(env, run, sh3, w3, other, 2, Stepped(sh3, w3.(phase := Flushing, pos := 0)));
    assert RunEnd(w3.plan, 0) == 1 && w3.buf[0..1] == [b];
    assert Pwrite(d, 1, [b]) == map[0 := b, 1 := b];
    run := Second(env, run, sh3, w3.(phase := Flushing, pos := 0), other, 2,
        Stepped(sh4, w3.(phase := Flushing, pos := 1)));
    run := Second(env, run, sh4, w3.(phase := Flushing, pos := 1), other, 2,
        Stepped(sh4, w3.(phase := Publishing, pos := 0)));
  }

  // ---------------------------------------------------------------------- the two pass 3

  /** What is left of the infos once the loser has freed its own. */
  function Survivor(h: Hash): map<Ptr, MasterInfo> { map[1 := MasterInfo(h, 1, 2)] }

  /** The store after the second request, with the files that the first has mapped so far. */
  function Late(h: Hash, b: Block, infos: map<Ptr, MasterInfo>, files: map<Key, Ptr>): Shared {
    Shared(map[h := 1], files, map[[1] := BLOCK_SIZE], infos, [], 2, map[0 := b, 1 := b])
  }

  const SECOND_FILE: map<Key, Ptr> := map[Key([1], 0) := 1]

  /** Pass 3 of the second request, which publishes its info, up to its end. */
  lemma {:induction false} SecondCommits(env: Env, b: Block, start: Run, other: Thread) returns (run: Run)
    requires Outside(other)
    requires Reaches(env, start, Busy(Infos(env.hash(b), 1), 2, map[0 := b, 1 := b]), other,
                     Writer(OnceJob(env, b, Publishing, [Placed(1, 1)], 0, [])))
    ensures Reaches(env, run, Late(env.hash(b), b, Infos(env.hash(b), 1), SECOND_FILE), other, Idle)
  {
    hide Reaches;
    var h, d := env.hash(b), map[0 := b, 1 := b];
    var sh0, v0 := Busy(Infos(h, 1), 2, d), OnceJob(env, b, Publishing, [Placed(1, 1)], 0, []);
    var sh1, v1 := sh0.(hashToMaster := map[h := 1]), OnceJob(env, b, Publishing, [Hit(1)], 1, []);
    var s1 := Publish(sh0, v0);
    assert s1.sh.hashToMaster == map[h := 1] && s1.w.plan == v1.plan;
    run := Second(env, start, sh0, v0, other, 2, Stepped(sh1, v1));
    run := Second(env, run, sh1, v1, other, 2, Stepped(sh1, v1.(phase := Mapping, pos := 0)));
    var sh2, v2 := sh1.(fileToMaster := SECOND_FILE), OnceJob(env, b, Mapping, [Done], 1, []);
    var s2 := MapBlock(sh1, v1.(phase := Mapping, pos := 0));
    assert s2.sh.fileToMaster == SECOND_FILE && s2.w.plan == v2.plan && s2.w.release == [];
    run := Second(env, run, sh1, v1.(phase := Mapping, pos := 0), other, 2, Stepped(sh2, v2));
    run := SecondEnds(env, b, run, other);
  }

  lemma {:induction false} SecondEnds(env: Env, b: Block, start: Run, other: Thread) returns (run: Run)
    requires Outside(other)
    requires var sh := Busy(Infos(env.hash(b), 1), 2, map[0 := b, 1 := b]);
             Reaches(env, start, sh.(hashToMaster := map[env.hash(b) := 1], fileToMaster := SECOND_FILE), other,
                     Writer(OnceJob(env, b, Mapping, [Done], 1, [])))
    ensures Reaches(env, run, Late(env.hash(b), b, Infos(env.hash(b), 1), SECOND_FILE), other, Idle)
  {
    hide Reaches;
    var h := env.hash(b);
    var sh := Busy(Infos(h, 1), 2, map[0 := b, 1 := b]).(hashToMaster := map[h := 1], fileToMaster := SECOND_FILE);
    var v, late := OnceJob(env, b, Mapping, [Done], 1, []), Late(h, b, Infos(h, 1), SECOND_FILE);
    run := Second(env, start, sh, v, other, 2, Stepped(sh, v.(phase := Resizing)));
    assert Grow(map[], [1], BLOCK_SIZE) == map[[1] := BLOCK_SIZE];
    run := Second(env, run, sh, v.(phase := Resizing), other, 2, Stepped(late, v.(phase := Releasing)));
    assert GiveBack(late, []) == late;
    run := SecondMoves(env, run, late, v.(phase := Releasing), other, 2, Moved(late, Idle));
  }

  /** The first request loses the race for its MISS; its HIT still leads to the info that it
      frees. */
  lemma {:induction false} FirstLoses(env: Env, b: Block, start: Run) returns (run: Run)
    requires Reaches(env, start, Late(env.hash(b), b, Infos(env.hash(b), 1), SECOND_FILE),
                     Writer(TwiceJob(env, b, Publishing, [Placed(0, 0), Hit(0)], 0, [], [])), Idle)
    ensures Reaches(env, run, Late(env.hash(b), b, Survivor(env.hash(b)), SECOND_FILE),
                    Writer(TwiceJob(env, b, Mapping, [Hit(1), Hit(0)], 0, [], [0])), Idle)
  {
    hide Reaches;
    var h := env.hash(b);
    var sh0, w0 := Late(h, b, Infos(h, 1), SECOND_FILE),
        TwiceJob(env, b, Publishing, [Placed(0, 0), Hit(0)], 0, [], []);
    var sh1, w1 := Late(h, b, Survivor(h), SECOND_FILE), TwiceJob(env, b, Publishing, [Hit(1), Hit(0)], 1, [], [0]);
    var s1 := Publish(sh0, w0);
    assert s1.sh.heap == Survivor(h) && s1.w.plan == w1.plan && s1.w.release == [0];
    run := First(env, start, sh0, w0, Idle, 2, Stepped(sh1, w1));
    run := First(env, run, sh1, w1, Idle, 2, Stepped(sh1, w1.(pos := 2)));
    run := First(env, run, sh1, w1.(pos := 2), Idle, 2, Stepped(sh1, w1.(phase := Mapping, pos := 0)));
  }

  /** All three mappings: the last one leads to the freed info. */
  const THREE_FILES: map<Key, Ptr> := SECOND_FILE[Key([0], 0) := 1][Key([0], 1) := 0]

  /** The first request maps its second block to the info it has just freed. */
  lemma {:induction false} FirstMaps(env: Env, b: Block, start: Run) returns (run: Run)
    requires Reaches(env, start, Late(env.hash(b), b, Survivor(env.hash(b)), SECOND_FILE),
                     Writer(TwiceJob(env, b, Mapping, [Hit(1), Hit(0)], 0, [], [0])), Idle)
    ensures Reaches(env, run, Late(env.hash(b), b, Survivor(env.hash(b)), THREE_FILES),
                    Writer(TwiceJob(env, b, Mapping, [Done, Done], 2, [], [0])), Idle)
  {
    hide Reaches;
    var h := env.hash(b);
    var sh1, w1 := Late(h, b, Survivor(h), SECOND_FILE), TwiceJob(env, b, Mapping, [Hit(1), Hit(0)], 0, [], [0]);
    var sh2 := Late(h, b, Survivor(h), SECOND_FILE[Key([0], 0) := 1]);
    var w2 := TwiceJob(env, b, Mapping, [Done, Hit(0)], 1, [], [0]);
    var s1 := MapBlock(sh1, w1);
    assert s1.sh.fileToMaster == sh2.fileToMaster && s1.w.plan == w2.plan && s1.w.release == [0];
    run := First(env, start, sh1, w1, Idle, 2, Stepped(sh2, w2));
    var sh3, w3 := Late(h, b, Survivor(h), THREE_FILES), TwiceJob(env, b, Mapping, [Done, Done], 2, [], [0]);
    var s2 := MapBlock(sh2, w2);
    assert s2.sh.fileToMaster == sh3.fileToMaster && s2.w.plan == w3.plan && s2.w.release == [0];
    run := First(env, run, sh2, w2, Idle, 2, Stepped(sh3, w3));
  }

  lemma {:induction false} FirstEnds(env: Env, b: Block, start: Run) returns (run: Run)
    requires Reaches(env, start, Late(env.hash(b), b, Survivor(env.hash(b)), THREE_FILES),
                     Writer(TwiceJob(env, b, Mapping, [Done, Done], 2, [], [0])), Idle)
    ensures Possible(env, run) && Last(run).ts == [Idle, Idle]
    ensures Last(run).sh.fileToMaster == THREE_FILES && Last(run).sh.heap == Survivor(env.hash(b))
  {
    var h := env.hash(b);
    var sh, w := Late(h, b, Survivor(h), THREE_FILES), TwiceJob(env, b, Mapping, [Done, Done], 2, [], [0]);
    run := First(env, start, sh, w, Idle, 2, Stepped(sh, w.(phase := Resizing)));
    var s := Resize(sh, w.(phase := Resizing));
    run := First(env, run, sh, w.(phase := Resizing), Idle, 2, s);
    run := FirstMoves(env, run, s.sh, s.w, Idle, 2, Moved(GiveBack(s.sh, [0]), Idle));
  }

  /** Without the hypothesis on duplicates the source reaches, from the empty store, in an
      order that its locks admit and with no pwrite failing, a state at rest in which a
      mapped block leads to freed memory. */
  lemma {:induction false} LostDupReachable(env: Env, b: Block) returns (run: Run)
    requires env.inPlay(b)
    ensures IsRun(env, false, run) && run.states[0] == State(EMPTY, [Idle, Idle])
    ensures Locked(run) && Faultless(run) && Last(run).ts == [Idle, Idle]
    ensures Key([0], 1) in Last(run).sh.fileToMaster && Last(run).sh.fileToMaster[Key([0], 1)] !in Last(run).sh.heap
    ensures !Inv(env, Last(run)) && !NoLostDups(false, run)
  {
    var second, first := Writer(Begin([1], 0, [b])),
        Writer(TwiceJob(env, b, Publishing, [Placed(0, 0), Hit(0)], 0, [], []));
    run := Started(env, b);
    run := FirstDecides(env, b, run, second);
    run := FirstAllocates(env, b, run, second);
    run := FirstPlaces(env, b, run, second);
    run := FirstFlushes(env, b, run, second);
    run := SecondDecides(env, b, run, first);
    run := SecondAllocates(env, b, run, first);
    run := SecondFlushes(env, b, run, first);
    run := SecondCommits(env, b, run, first);
    run := FirstLoses(env, b, run);
    run := FirstMaps(env, b, run);
    run := FirstEnds(env, b, run);
    assert !FileLinked(Last(run).sh, Key([0], 1));
    EmptyInv(env, [Idle, Idle]);
    if NoLostDups(false, run) { RunInv(env, false, run, |run.acts|); }
  }
}
