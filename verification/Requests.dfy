/** Concurrent operations from the request to the return: what holds for the arguments that
    an operation was called with, while other threads do anything else. */
module Requests {
  import opened Model
  import opened Steps
  import opened Invariant
  import opened Accounting
  import opened Frames
  import opened Protocol
  import opened Locks
  import opened Safety
  import opened Quiescence
  import opened Timeline
  import opened Snapshots
  import opened SizeBound
  import opened Laws

  /** Thread t works on request a with the arguments that a carries. */
  predicate Serves(t: Thread, a: Action) {
    match a
    case StartWrite(_, path, start, buf) =>
      t.Writer? && t.job.path == path && t.job.start == start && t.job.buf == buf
    case StartUnlink(_, path) => t.Remover? && t.removal.path == path && t.removal.newSize == None
    case StartTruncate(_, path, size) => t.Remover? && t.removal.path == path && t.removal.newSize == Some(size)
    case StartRead(_, path, start, count) =>
      t.Reader? && t.reading.path == path && t.reading.start == start && t.reading.count == count
    case Step(_, _) => false
  }

  /** Request i of the run is in progress in all states from i + 1 to j, and over in j + 1 if
      `over`: the thread that got it has not been idle meanwhile. */
  ghost predicate InProgress(run: Run, i: nat, j: nat) {
    && i < j <= |run.acts| < |run.states| && !run.acts[i].Step?
    && forall m: nat :: i < m <= j ==> BusyAt(run, m, run.acts[i].tid)
  }

  predicate BusyAt(run: Run, m: nat, t: nat)
    requires m < |run.states|
  {
    t < |run.states[m].ts| && !run.states[m].ts[t].Idle?
  }

  lemma {:induction false} KeepsJob(env: Env, repaired: bool, sh: Shared, w: Job, ch: Choice)
    requires ListsOk(w)
    ensures var t := WriterStep(env, repaired, sh, w, ch).t;
            t.Idle? || (t.Writer? && t.job.path == w.path && t.job.start == w.start && t.job.buf == w.buf)
  {}

  lemma {:induction false} ServesNext(env: Env, repaired: bool, s: State, a: Action, t: nat, request: Action)
    requires Enabled(env, s, a) && t < |s.ts| && Serves(s.ts[t], request)
    ensures var t' := Next(env, repaired, s, a).ts[t]; t'.Idle? || Serves(t', request)
  {
    hide WriterStep;
    if t == a.tid && a.Step? && s.ts[t].Writer? && ListsOk(s.ts[t].job) {
      KeepsJob(env, repaired, s.sh, s.ts[t].job, a.choice);
    }
  }

  /** As long as a request is in progress its thread works with its arguments. */
  lemma {:induction false} RequestKept(env: Env, repaired: bool, run: Run, i: nat, j: nat)
    requires IsRun(env, repaired, run) && InProgress(run, i, j)
    ensures run.acts[i].tid < |run.states[j].ts| && Serves(run.states[j].ts[run.acts[i].tid], run.acts[i])
  {
    var t := run.acts[i].tid;
    assert MoveAt(env, repaired, run, i) && BusyAt(run, j, t);
    if j == i + 1 {
      assert run.states[j].ts[t] == Launch(run.states[i].sh, run.acts[i]);
    } else {
      RequestKept(env, repaired, run, i, j - 1);
      assert MoveAt(env, repaired, run, j - 1);
      ServesNext(env, repaired, run.states[j - 1], run.acts[j - 1], t, run.acts[i]);
    }
  }

  /** What a write or removal in progress assigns belongs to its request. */
  lemma {:induction false} AssignsRequest(env: Env, repaired: bool, run: Run, i: nat, j: nat)
    requires IsRun(env, repaired, run) && InProgress(run, i, j) && j < |run.acts| && run.acts[j].tid == run.acts[i].tid
    requires run.acts[j].tid < |run.states[j].ts| && Assigns(run.states[j], run.acts[j]).Some?
    ensures var a, (k, b) := run.acts[i], Assigns(run.states[j], run.acts[j]).value;
            match a
            case StartWrite(_, path, start, buf) =>
              k.path == path && start <= k.block < start + |buf| && b == Some(buf[k.block - start])
            case StartUnlink(_, path) => k.path == path && b == None
            case StartTruncate(_, path, _) => k.path == path && b == None
            case _ => false
  {
    RequestKept(env, repaired, run, i, j);
  }

  // -------------------------------------------------------------------------- other threads

  function SizeAt(s: State, path: Path): Option<nat> { if path in s.sh.sizes then Some(s.sh.sizes[path]) else None }

  lemma {:induction false} WriterSizes(env: Env, repaired: bool, sh: Shared, w: Job, ch: Choice, path: Path)
    requires ListsOk(w) && (w.path != path || !w.phase.Resizing?)
    ensures var sh' := WriterStep(env, repaired, sh, w, ch).sh;
            (path in sh'.sizes <==> path in sh.sizes) && (path in sh.sizes ==> sh'.sizes[path] == sh.sizes[path])
  {
    if Maps(w) { MapTables(sh, w); } else if !w.phase.Resizing? { OtherTables(env, repaired, sh, w, ch); }
  }

  /** An action of a thread that does not work on the path leaves its blocks and its size. */
  lemma {:induction false} Elsewhere(env: Env, repaired: bool, s: State, a: Action, path: Path, k: Key)
    requires Inv(env, s) && Enabled(env, s, a) && NoLostDupStep(repaired, s, a) && CollisionFree(env)
    requires WorksOn(s.ts[a.tid]) != Some(path) && k.path == path
    ensures var s' := Next(env, repaired, s, a);
            ContentOf(s', k) == ContentOf(s, k) && SizeAt(s', path) == SizeAt(s, path)
  {
    ElsewhereSize(env, repaired, s, a, path);
    hide Inv, SizeAt, Next;
    ContentStep(env, repaired, s, a, k);
  }

  lemma {:induction false} HasLists(env: Env, s: State, t: nat)
    requires Inv(env, s) && t < |s.ts| && s.ts[t].Writer?
    ensures ListsOk(s.ts[t].job)
  {
    assert ThreadAt(env, s, t);
  }

  lemma {:induction false} ElsewhereSize(env: Env, repaired: bool, s: State, a: Action, path: Path)
    requires Inv(env, s) && Enabled(env, s, a) && WorksOn(s.ts[a.tid]) != Some(path)
    ensures SizeAt(Next(env, repaired, s, a), path) == SizeAt(s, path)
  {
    hide WriterStep, RemoverStep, Inv, ListsOk;
    if a.Step? && s.ts[a.tid].Writer? {
      HasLists(env, s, a.tid);
      WriterSizes(env, repaired, s.sh, s.ts[a.tid].job, a.choice, path);
    } else if a.Step? && s.ts[a.tid].Remover? {
      RemoverSizes(s.sh, s.ts[a.tid].removal, path);
    }
  }

  lemma {:induction false} RemoverSizes(sh: Shared, r: Removal, path: Path)
    requires r.path != path
    ensures var sh' := RemoverStep(sh, r).sh;
            (path in sh'.sizes <==> path in sh.sizes) && (path in sh.sizes ==> sh'.sizes[path] == sh.sizes[path])
  {
    UnmapTables(sh, Key(r.path, r.pos));
  }

  /** All hypotheses on a run, at its i-th action. */
  ghost predicate Orderly(env: Env, repaired: bool, run: Run) {
    && IsRun(env, repaired, run) && NoLostDups(repaired, run) && CollisionFree(env) && NeverOverlaps(run)
    && run.states[0].sh == EMPTY && AllIdle(run.states[0].ts)
  }

  lemma {:induction false} OrderlyAt(env: Env, repaired: bool, run: Run, n: nat)
    requires Orderly(env, repaired, run) && n <= |run.acts|
    ensures Inv(env, run.states[n]) && SizeInv(run.states[n]) && NoOverlap(run.states[n].ts)
    ensures n < |run.acts| ==> MoveAt(env, repaired, run, n) && NoLostDupStep(repaired, run.states[n], run.acts[n])
  {
    EmptyInv(env, run.states[0].ts);
    RunInv(env, repaired, run, n);
    SizeRun(env, repaired, run, n);
    if n < |run.acts| { assert MoveAt(env, repaired, run, n) && GuardedAt(repaired, run, n); }
  }

  // ------------------------------------------------------------------------------- removals

  /** The number of bytes from which on a removal takes the blocks away. */
  function NewSize(a: Action): nat
    requires a.StartUnlink? || a.StartTruncate?
  {
    if a.StartTruncate? then a.size else 0
  }

  /** Since it was requested, a removal has left the blocks below the new size and the size. */
  ghost predicate Removing(s0: State, s: State, a: Action)
    requires (a.StartUnlink? || a.StartTruncate?) && a.tid < |s.ts|
  {
    && Serves(s.ts[a.tid], a) && SizeAt(s, a.path) == SizeAt(s0, a.path)
    && forall k: Key :: k.path == a.path && k.block * 4096 < NewSize(a) ==> ContentOf(s, k) == ContentOf(s0, k)
  }

  lemma {:induction false} RemovingNext(env: Env, repaired: bool, s0: State, s: State, a: Action, request: Action)
    requires Inv(env, s) && SizeInv(s) && NoOverlap(s.ts)
    requires Enabled(env, s, a) && NoLostDupStep(repaired, s, a) && CollisionFree(env)
    requires (request.StartUnlink? || request.StartTruncate?) && request.tid < |s.ts| && Removing(s0, s, request)
    requires request.StartTruncate? ==> request.size % 4096 == 0
    requires !Next(env, repaired, s, a).ts[request.tid].Idle?
    ensures Removing(s0, Next(env, repaired, s, a), request)
  {
    var s' := Next(env, repaired, s, a);
    ServesNext(env, repaired, s, a, request.tid, request);
    if a.tid == request.tid {
      var r := s.ts[a.tid].removal;
      assert RemovalAt(s, a.tid);
      UnmapTables(s.sh, Key(r.path, r.pos));
      forall k: Key | k.path == request.path && k.block * 4096 < NewSize(request)
        ensures ContentOf(s', k) == ContentOf(s0, k)
      {
        ContentStep(env, repaired, s, a, k);
      }
    } else {
      assert ApartPaths(s.ts, request.tid, a.tid);
      Elsewhere(env, repaired, s, a, request.path, Key(request.path, 0));
      forall k: Key | k.path == request.path && k.block * 4096 < NewSize(request)
        ensures ContentOf(s', k) == ContentOf(s0, k)
      {
        Elsewhere(env, repaired, s, a, request.path, k);
      }
    }
  }

  lemma {:induction false} RemovingRun(env: Env, repaired: bool, run: Run, i: nat, j: nat)
    requires Orderly(env, repaired, run) && InProgress(run, i, j)
    requires run.acts[i].StartUnlink? || run.acts[i].StartTruncate?
    ensures run.acts[i].tid < |run.states[j].ts| && Removing(run.states[i], run.states[j], run.acts[i])
  {
    RequestKept(env, repaired, run, i, j);
    OrderlyAt(env, repaired, run, i);
    if j > i + 1 {
      RemovingRun(env, repaired, run, i, j - 1);
      OrderlyAt(env, repaired, run, j - 1);
      assert BusyAt(run, j, run.acts[i].tid);
      RemovingNext(env, repaired, run.states[i], run.states[j - 1], run.acts[j - 1], run.acts[i]);
    }
  }

  /** Request i is over in state j + 1. */
  ghost predicate ReturnsAt(run: Run, i: nat, j: nat) {
    && i <= j < |run.acts| < |run.states| && !run.acts[i].Step?
    && run.acts[i].tid < |run.states[j + 1].ts| && run.states[j + 1].ts[run.acts[i].tid].Idle?
    && forall m: nat :: i < m <= j ==> BusyAt(run, m, run.acts[i].tid)
  }

  /** What a truncate or an unlink has done when it returns. */
  ghost predicate Removed(s0: State, s: State, a: Action, k: Key)
    requires a.StartUnlink? || a.StartTruncate?
  {
    if a.StartUnlink? then ContentOf(s, k) == None && SizeAt(s, a.path) == None
    else
      var before := SizeAt(s0, a.path);
      && SizeAt(s, a.path) == (if before.Some? && a.size < before.value then Some(a.size) else before)
      && ContentOf(s, k) == if k.block * 4096 >= a.size then None else ContentOf(s0, k)
  }

  lemma {:induction false} LastRemoval(
      env: Env, repaired: bool, s0: State, s: State, a: Action, request: Action, k: Key)
    requires Inv(env, s) && SizeInv(s) && NoOverlap(s.ts)
    requires Enabled(env, s, a) && NoLostDupStep(repaired, s, a) && CollisionFree(env)
    requires (request.StartUnlink? || request.StartTruncate?) && request.tid < |s.ts| && Removing(s0, s, request)
    requires request.StartTruncate? ==>
               request.size % 4096 == 0 && request.path in s0.sh.sizes && request.size < s0.sh.sizes[request.path]
    requires Next(env, repaired, s, a).ts[request.tid].Idle? && k.path == request.path
    ensures Removed(s0, Next(env, repaired, s, a), request, k)
  {
    var r, s' := s.ts[request.tid].removal, Next(env, repaired, s, a);
    assert a.tid == request.tid && a.Step?;
    assert r.pos >= r.end && r.release == [];
    NextInv(env, repaired, s, a);
    ContentStep(env, repaired, s, a, k);
    MappedHasContent(env, s, k);
    if k in s.sh.fileToMaster { RangeIsGone(s, a.tid, k); }
  }

  /** Truncate and unlink, from the call to the return, while other threads work on other
      paths: a truncate to a smaller size removes exactly the blocks from that size on and
      records it, an unlink leaves neither a block nor a size, and whatever else the file
      had is as it was at the call. */
  lemma {:induction false} ConcurrentRemoval(env: Env, repaired: bool, run: Run, i: nat, j: nat, k: Key)
    requires Orderly(env, repaired, run) && ReturnsAt(run, i, j)
    requires (run.acts[i].StartUnlink? || run.acts[i].StartTruncate?) && k.path == run.acts[i].path
    requires Untouched(run.states[i].ts, run.acts[i].path)
    ensures Removed(run.states[i], run.states[j + 1], run.acts[i], k)
  {
    var a, s0 := run.acts[i], run.states[i];
    OrderlyAt(env, repaired, run, i);
    OrderlyAt(env, repaired, run, j);
    if j == i {
      SizesCover(env, repaired, run, i, a.path);
      MappedHasContent(env, s0, k);
      assert run.states[j + 1].sh == s0.sh;
    } else {
      assert BusyAt(run, i + 1, a.tid);
      assert run.states[i + 1].ts[a.tid] == Launch(s0.sh, a);
      RemovingRun(env, repaired, run, i, j);
      LastRemoval(env, repaired, s0, run.states[j], run.acts[j], a, k);
    }
  }

  // --------------------------------------------------------------------------------- writes

  /** Blocks that a writer has mapped. */
  function MappedSoFar(w: Job): nat {
    match w.phase
    case Mapping => w.pos
    case Resizing => |w.buf|
    case Releasing => |w.buf|
    case _ => 0
  }

  /** The next step of the writer issues a pwrite. */
  predicate Writes(w: Job) { w.phase.Flushing? && w.pos < |w.plan| && w.plan[w.pos].Placed? }

  /** How the phases of a writer follow each other. */
  lemma {:induction false} PhaseNext(env: Env, repaired: bool, sh: Shared, w: Job, ch: Choice)
    requires ListsOk(w)
    ensures var t := WriterStep(env, repaired, sh, w, ch).t;
            if t.Writer? then
              && MappedSoFar(t.job) == MappedSoFar(w) + (if w.phase.Mapping? && w.pos < |w.plan| then 1 else 0)
              && (Undoing(t.job) <==> Undoing(w) || (Writes(w) && !ch.outcome.Full?))
              && (t.job.phase.Releasing? <==> w.phase.Resizing?)
            else w.phase.Releasing? || Undoing(w)
  {}

  /** The recorded size after a write that reaches to `end`. */
  function Reaching(size: Option<nat>, end: nat): Option<nat> {
    if size.Some? && size.value >= end then size else Some(end)
  }

  /** The first n blocks of the request are in the file, and all else on its path is as it was. */
  ghost predicate Written(s0: State, s: State, a: Action, n: nat)
    requires a.StartWrite? && n <= |a.buf|
  {
    forall k: Key :: k.path == a.path ==>
      ContentOf(s, k) == if a.start <= k.block < a.start + n then Some(a.buf[k.block - a.start]) else ContentOf(s0, k)
  }

  /** How far the effect of a write request has come. */
  ghost predicate Writing(s0: State, s: State, a: Action)
    requires a.StartWrite? && a.tid < |s.ts|
  {
    && Serves(s.ts[a.tid], a) && MappedSoFar(s.ts[a.tid].job) <= |a.buf|
    && Written(s0, s, a, MappedSoFar(s.ts[a.tid].job))
    && SizeAt(s, a.path) == if s.ts[a.tid].job.phase.Releasing?
                            then Reaching(SizeAt(s0, a.path), (a.start + |a.buf|) * 4096) else SizeAt(s0, a.path)
  }

  lemma {:induction false} WrittenByOther(env: Env, repaired: bool, s0: State, s: State, a: Action, request: Action)
    requires Inv(env, s) && NoOverlap(s.ts) && Enabled(env, s, a) && NoLostDupStep(repaired, s, a) && CollisionFree(env)
    requires request.StartWrite? && request.tid < |s.ts| && Writing(s0, s, request) && a.tid != request.tid
    ensures Writing(s0, Next(env, repaired, s, a), request)
  {
    var s', n := Next(env, repaired, s, a), MappedSoFar(s.ts[request.tid].job);
    assert ApartPaths(s.ts, request.tid, a.tid);
    Elsewhere(env, repaired, s, a, request.path, Key(request.path, 0));
    assert Written(s0, s', request, n) by {
      forall k: Key | k.path == request.path
        ensures ContentOf(s', k) == if request.start <= k.block < request.start + n
                                    then Some(request.buf[k.block - request.start]) else ContentOf(s0, k)
      {
        Elsewhere(env, repaired, s, a, request.path, k);
      }
    }
  }

  /** The effect of an own step on the blocks of the path. */
  lemma {:induction false} WrittenByOwn(
      env: Env, repaired: bool, s0: State, s: State, a: Action, request: Action, n: nat)
    requires Inv(env, s) && Enabled(env, s, a) && NoLostDupStep(repaired, s, a) && CollisionFree(env)
    requires request.StartWrite? && request.tid < |s.ts| && Writing(s0, s, request) && a.tid == request.tid
    requires var w := s.ts[a.tid].job;
             n == MappedSoFar(w) + (if w.phase.Mapping? && w.pos < |w.plan| then 1 else 0)
    ensures n <= |request.buf| && Written(s0, Next(env, repaired, s, a), request, n)
  {
    var w, s' := s.ts[a.tid].job, Next(env, repaired, s, a);
    assert ThreadAt(env, s, a.tid);
    assert a.Step?;
    forall k: Key | k.path == request.path
      ensures ContentOf(s', k) == if request.start <= k.block < request.start + n
                                  then Some(request.buf[k.block - request.start]) else ContentOf(s0, k)
    {
      ContentStep(env, repaired, s, a, k);
    }
  }

  lemma {:induction false} ResizeOwn(env: Env, repaired: bool, sh: Shared, w: Job, ch: Choice)
    requires ListsOk(w) && w.phase.Resizing?
    ensures WriterStep(env, repaired, sh, w, ch) == ToMoved(Resize(sh, w))
  {}

  lemma {:induction false} WritingNext(env: Env, repaired: bool, s0: State, s: State, a: Action, request: Action)
    requires Inv(env, s) && NoOverlap(s.ts) && Enabled(env, s, a) && NoLostDupStep(repaired, s, a) && CollisionFree(env)
    requires request.StartWrite? && request.tid < |s.ts| && Writing(s0, s, request)
    requires !Next(env, repaired, s, a).ts[request.tid].Idle?
    ensures Writing(s0, Next(env, repaired, s, a), request)
  {
    if a.tid != request.tid {
      WrittenByOther(env, repaired, s0, s, a, request);
    } else {
      var w := s.ts[a.tid].job;
      assert ThreadAt(env, s, a.tid) && a.Step?;
      hide WriterStep;
      ServesNext(env, repaired, s, a, a.tid, request);
      PhaseNext(env, repaired, s.sh, w, a.choice);
      WrittenByOwn(env, repaired, s0, s, a, request, MappedSoFar(Next(env, repaired, s, a).ts[a.tid].job));
      if w.phase.Resizing? { ResizeOwn(env, repaired, s.sh, w, a.choice); }
      else { WriterSizes(env, repaired, s.sh, w, a.choice, w.path); }
    }
  }

  /** Action n is a pwrite of thread t that is not complete. */
  predicate FailsAt(run: Run, n: nat, t: nat)
    requires n < |run.acts| < |run.states|
  {
    && run.acts[n].Step? && run.acts[n].tid == t && t < |run.states[n].ts| && run.states[n].ts[t].Writer?
    && Writes(run.states[n].ts[t].job) && !run.acts[n].choice.outcome.Full?
  }

  /** Some pwrite of request i before state j was not complete. */
  ghost predicate PwriteFailed(run: Run, i: nat, j: nat)
    requires i < |run.acts| < |run.states| && j <= |run.acts|
  {
    exists n: nat :: i < n < j && FailsAt(run, n, run.acts[i].tid)
  }

  lemma {:induction false} FailedMore(run: Run, i: nat, j: nat)
    requires i < j < |run.acts| < |run.states|
    ensures PwriteFailed(run, i, j + 1) <==> PwriteFailed(run, i, j) || FailsAt(run, j, run.acts[i].tid)
  {}

  lemma {:induction false} WritingRun(env: Env, repaired: bool, run: Run, i: nat, j: nat)
    requires Orderly(env, repaired, run) && InProgress(run, i, j) && run.acts[i].StartWrite?
    ensures run.acts[i].tid < |run.states[j].ts| && Writing(run.states[i], run.states[j], run.acts[i])
    ensures Undoing(run.states[j].ts[run.acts[i].tid].job) <==> PwriteFailed(run, i, j)
  {
    var a, s0 := run.acts[i], run.states[i];
    RequestKept(env, repaired, run, i, j);
    if j == i + 1 {
      OrderlyAt(env, repaired, run, i);
      assert run.states[j].ts[a.tid] == Launch(s0.sh, a) && run.states[j].sh == s0.sh;
    } else {
      var s, b := run.states[j - 1], run.acts[j - 1];
      WritingRun(env, repaired, run, i, j - 1);
      OrderlyAt(env, repaired, run, j - 1);
      assert BusyAt(run, j, a.tid);
      WritingNext(env, repaired, s0, s, b, a);
      FailedMore(run, i, j - 1);
      UndoingNext(env, repaired, s, b, a.tid);
    }
  }

  lemma {:induction false} UndoingNext(env: Env, repaired: bool, s: State, a: Action, t: nat)
    requires Inv(env, s) && Enabled(env, s, a) && t < |s.ts| && s.ts[t].Writer?
    requires Next(env, repaired, s, a).ts[t].Writer?
    ensures Undoing(Next(env, repaired, s, a).ts[t].job) <==>
              Undoing(s.ts[t].job)
              || (a.Step? && a.tid == t && Writes(s.ts[t].job) && !a.choice.outcome.Full?)
  {
    if a.tid == t {
      assert ThreadAt(env, s, t) && a.Step?;
      PhaseNext(env, repaired, s.sh, s.ts[t].job, a.choice);
    }
  }

  /** A write, from the call to the return, while other threads work on other paths: if all its
      pwrites were complete, exactly the blocks of the request show its data and the recorded
      size reaches at least to its end; otherwise its path is as it was at the call. */
  lemma {:induction false} ConcurrentWrite(env: Env, repaired: bool, run: Run, i: nat, j: nat)
    requires Orderly(env, repaired, run) && ReturnsAt(run, i, j) && run.acts[i].StartWrite?
    ensures var a, s0, s := run.acts[i], run.states[i], run.states[j + 1];
            if PwriteFailed(run, i, j) then Written(s0, s, a, 0) && SizeAt(s, a.path) == SizeAt(s0, a.path)
            else Written(s0, s, a, |a.buf|)
                 && SizeAt(s, a.path) == Reaching(SizeAt(s0, a.path), (a.start + |a.buf|) * 4096)
  {
    var a, s0 := run.acts[i], run.states[i];
    OrderlyAt(env, repaired, run, i);
    OrderlyAt(env, repaired, run, j);
    if j == i {
      assert false;
    } else {
      var s := run.states[j];
      WritingRun(env, repaired, run, i, j);
      assert ThreadAt(env, s, a.tid);
      assert run.acts[j].tid == a.tid && run.acts[j].Step?;
      PhaseNext(env, repaired, s.sh, s.ts[a.tid].job, run.acts[j].choice);
      WrittenByOwn(env, repaired, s0, s, run.acts[j], a, MappedSoFar(s.ts[a.tid].job));
      WriterSizes(env, repaired, s.sh, s.ts[a.tid].job, run.acts[j].choice, a.path);
    }
  }

  // ---------------------------------------------------------------------------------- reads

  /** A read does not return before its lookups have ended. */
  lemma {:induction false} ReadLooks(env: Env, repaired: bool, run: Run, i: nat, j: nat) returns (n: nat)
    requires IsRun(env, repaired, run) && ReturnsAt(run, i, j) && run.acts[i].StartRead?
    ensures i < n < j && InProgress(run, i, n) && EndsLookup(run, n, run.acts[i].tid)
  {
    assert MoveAt(env, repaired, run, i) && MoveAt(env, repaired, run, j);
    if i < j { RequestKept(env, repaired, run, i, j); }
    n := LookupsEnd(env, repaired, run, i, j);
  }

  lemma {:induction false} LookupsEnd(env: Env, repaired: bool, run: Run, i: nat, j: nat) returns (n: nat)
    requires IsRun(env, repaired, run) && InProgress(run, i, j) && run.acts[i].StartRead?
    requires run.acts[i].tid < |run.states[j].ts|
    requires var t := run.states[j].ts[run.acts[i].tid]; t.Reader? && t.reading.looked
    ensures i < n < j && InProgress(run, i, n) && EndsLookup(run, n, run.acts[i].tid)
  {
    var t := run.acts[i].tid;
    assert MoveAt(env, repaired, run, i) && MoveAt(env, repaired, run, j - 1);
    RequestKept(env, repaired, run, i, j - 1);
    if run.states[j - 1].ts[t].reading.looked { n := LookupsEnd(env, repaired, run, i, j - 1); } else { n := j - 1; }
  }

  /** A read request takes its snapshot of the blocks that it asked for: when its lookups end
      in state n, it holds the slots of the longest mapped prefix of the requested blocks in
      state n, and each block that it fetches from a slot that stayed published is the one of
      the plain map in state n. */
  lemma {:induction false} ConcurrentRead(env: Env, repaired: bool, run: Run, i: nat, n: nat, x: nat)
    requires IsRun(env, repaired, run) && NoLostDups(repaired, run) && Locked(run) && CollisionFree(env)
    requires Inv(env, run.states[0]) && AllIdle(run.states[0].ts)
    requires InProgress(run, i, n) && n < |run.acts| && run.acts[i].StartRead?
    requires run.acts[i].tid < |run.states[0].ts| && EndsLookup(run, n, run.acts[i].tid)
    ensures var a, r, sh := run.acts[i], run.states[n + 1].ts[run.acts[i].tid].reading, run.states[n].sh;
            var key := Key(a.path, a.start + x);
            && InRun(run, n) && |r.snap| <= a.count
            && (x < |r.snap| ==> SlotAt(sh, key) == Some(r.snap[x]) && PlainAt(run, n, key).Some?)
            && (x == |r.snap| < a.count ==> SlotAt(sh, key) == None && PlainAt(run, n, key) == None)
            && (x < |r.snap| ==>
                  forall j: nat, got: map<nat, Block>, ch: Choice ::
                    n <= j <= |run.acts| && StaysPublished(run, n, j, r.snap[x]) && ch.index == x ==>
                      ReaderStep(run.states[j].sh, r.(got := got), ch)
                      == Moved(run.states[j].sh, Reader(r.(got := got[x := PlainAt(run, n, key).value]))))
  {
    var t := run.acts[i].tid;
    RequestKept(env, repaired, run, i, n);
    assert MoveAt(env, repaired, run, n);
    ServesNext(env, repaired, run.states[n], run.acts[n], t, run.acts[i]);
    ReadIsAtomic(env, repaired, run, n, t, x);
  }
}
