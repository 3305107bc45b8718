/** The size bound over concurrent runs: operations may overlap freely as long as no two
    writes, unlinks or truncates of one path do. Nothing here needs the balance of the
    store, so no hypothesis on duplicates is needed either. */
module SizeBound {
  import opened Model
  import opened Steps
  import opened Protocol
  import opened Locks

  /** The path that a thread writes to or removes from. */
  function WorksOn(t: Thread): Option<Path> {
    match t
    case Writer(w) => Some(w.path)
    case Remover(r) => Some(r.path)
    case _ => None
  }

  predicate ApartPaths(ts: seq<Thread>, t: nat, u: nat)
    requires t < |ts| && u < |ts|
  {
    t != u && WorksOn(ts[t]).Some? ==> WorksOn(ts[u]) != WorksOn(ts[t])
  }

  /** No two operations on one path are in progress. */
  ghost predicate NoOverlap(ts: seq<Thread>) {
    forall t: nat, u: nat :: t < |ts| && u < |ts| ==> ApartPaths(ts, t, u)
  }

  ghost predicate NeverOverlaps(run: Run) { forall i: nat :: i < |run.states| ==> NoOverlap(run.states[i].ts) }

  // -------------------------------------------------------------------------- the invariant

  predicate Covers(sizes: map<Path, nat>, k: Key) { k.path in sizes && (k.block + 1) * BLOCK_SIZE <= sizes[k.path] }

  /** A writer has mapped the block but not yet recorded the size. */
  predicate JustMapped(t: Thread, k: Key) {
    t.Writer? && t.job.phase in {Mapping, Resizing} && t.job.path == k.path
    && t.job.start <= k.block < t.job.start + t.job.pos
  }

  ghost predicate Accounted(s: State, k: Key) {
    k in s.sh.fileToMaster ==> Covers(s.sh.sizes, k) || exists t: nat :: t < |s.ts| && JustMapped(s.ts[t], k)
  }

  predicate SizeWhole(sizes: map<Path, nat>, path: Path) { path in sizes ==> sizes[path] % BLOCK_SIZE == 0 }

  /** A removal runs over the blocks between the new and the recorded size, and has removed
      those before its position. */
  ghost predicate RemovalOk(sh: Shared, r: Removal) {
    && r.path in sh.sizes && sh.sizes[r.path] == r.end * BLOCK_SIZE
    && (r.newSize.Some? ==> r.newSize.value % BLOCK_SIZE == 0)
    && FirstBlock(r) <= r.pos <= r.end
    && forall k :: k in sh.fileToMaster && k.path == r.path ==> !(FirstBlock(r) <= k.block < r.pos)
  }

  ghost predicate RemovalAt(s: State, t: nat)
    requires t < |s.ts|
  {
    s.ts[t].Remover? ==> RemovalOk(s.sh, s.ts[t].removal)
  }

  ghost predicate SizeInv(s: State) {
    && (forall k :: Accounted(s, k))
    && (forall path :: SizeWhole(s.sh.sizes, path))
    && (forall t: nat :: t < |s.ts| ==> RemovalAt(s, t))
  }

  // --------------------------------------------------------------------- what a writer does

  predicate Maps(w: Job) { w.phase.Mapping? && w.pos < |w.plan| && w.plan[w.pos].Hit? }

  lemma {:induction false} DropTables(sh: Shared, p: Ptr)
    ensures Drop(sh, p).sh.fileToMaster == sh.fileToMaster && Drop(sh, p).sh.sizes == sh.sizes
  {}

  lemma {:induction false} UnmapTables(sh: Shared, key: Key)
    ensures var d := Unmap(sh, key).sh; d.sizes == sh.sizes && d.fileToMaster == Remove(sh.fileToMaster, key)
  {
    if key in sh.fileToMaster {
      DropTables(sh.(fileToMaster := Remove(sh.fileToMaster, key)), sh.fileToMaster[key]);
    } else {
      assert Remove(sh.fileToMaster, key) == sh.fileToMaster;
    }
  }

  lemma {:induction false} MapTables(sh: Shared, w: Job)
    requires Maps(w)
    ensures var s, key := MapBlock(sh, w), Key(w.path, w.start + w.pos);
            && s.sh.sizes == sh.sizes && s.sh.fileToMaster.Keys == sh.fileToMaster.Keys + {key}
            && s.w.phase.Mapping? && s.w.path == w.path && s.w.start == w.start && s.w.pos == w.pos + 1
  {
    UnmapTables(sh, Key(w.path, w.start + w.pos));
  }

  /** All steps of a writer but two leave both tables alone, and none forgets a block that was
      just mapped. */
  ghost predicate TablesKept(sh: Shared, w: Job, m: Moved) {
    && m.sh.fileToMaster == sh.fileToMaster && m.sh.sizes == sh.sizes && !m.t.Remover?
    && forall k :: JustMapped(Writer(w), k) ==> JustMapped(m.t, k)
  }

  lemma {:induction false} EarlyTables(env: Env, repaired: bool, sh: Shared, w: Job, ch: Choice)
    requires ListsOk(w) && w.phase in {Deciding, Draining, Appending, Placing}
    ensures TablesKept(sh, w, WriterStep(env, repaired, sh, w, ch))
  {}

  lemma {:induction false} FlushTables(env: Env, repaired: bool, sh: Shared, w: Job, ch: Choice)
    requires ListsOk(w) && w.phase.Flushing?
    ensures TablesKept(sh, w, WriterStep(env, repaired, sh, w, ch))
  {}

  lemma {:induction false} PublishTables(env: Env, repaired: bool, sh: Shared, w: Job, ch: Choice)
    requires ListsOk(w) && w.phase.Publishing?
    ensures TablesKept(sh, w, WriterStep(env, repaired, sh, w, ch))
  {}

  lemma {:induction false} LateTables(env: Env, repaired: bool, sh: Shared, w: Job, ch: Choice)
    requires ListsOk(w) && !Maps(w) && w.phase in {Mapping, Releasing}
    ensures TablesKept(sh, w, WriterStep(env, repaired, sh, w, ch))
  {}

  lemma {:induction false} UndoTables(env: Env, repaired: bool, sh: Shared, w: Job, ch: Choice)
    requires ListsOk(w) && w.phase in {UndoHits, ReleaseHits, UndoMisses}
    ensures TablesKept(sh, w, WriterStep(env, repaired, sh, w, ch))
  {
    if w.phase.UndoHits? && w.pos < |w.plan| && w.plan[w.pos].Hit? { DropTables(sh, w.plan[w.pos].info); }
  }

  lemma {:induction false} OtherTables(env: Env, repaired: bool, sh: Shared, w: Job, ch: Choice)
    requires ListsOk(w) && !Maps(w) && !w.phase.Resizing?
    ensures TablesKept(sh, w, WriterStep(env, repaired, sh, w, ch))
  {
    hide WriterStep, ListsOk;
    if w.phase in {Deciding, Draining, Appending, Placing} {
      EarlyTables(env, repaired, sh, w, ch);
    } else if w.phase.Flushing? {
      FlushTables(env, repaired, sh, w, ch);
    } else if w.phase.Publishing? {
      PublishTables(env, repaired, sh, w, ch);
    } else if w.phase in {Mapping, Releasing} {
      LateTables(env, repaired, sh, w, ch);
    } else {
      UndoTables(env, repaired, sh, w, ch);
    }
  }

  /** A move of one thread, seen from the tables. */
  lemma {:induction false} AccountedMove(s: State, s': State, t: nat, k: Key)
    requires t < |s.ts| && |s'.ts| == |s.ts| && s'.ts == s.ts[t := s'.ts[t]]
    requires Accounted(s, k) && (k in s'.sh.fileToMaster ==> k in s.sh.fileToMaster)
    requires k in s'.sh.fileToMaster && Covers(s.sh.sizes, k) ==> Covers(s'.sh.sizes, k)
    requires k in s'.sh.fileToMaster && JustMapped(s.ts[t], k) ==> JustMapped(s'.ts[t], k) || Covers(s'.sh.sizes, k)
    ensures Accounted(s', k)
  {
    if k in s'.sh.fileToMaster && !Covers(s'.sh.sizes, k) {
      var u: nat :| u < |s.ts| && JustMapped(s.ts[u], k);
      assert JustMapped(s'.ts[u], k);
    }
  }

  /** Removals of other paths are not affected by what happens to one path. */
  lemma {:induction false} OtherRemovals(s: State, s': State, t: nat, path: Path)
    requires SizeInv(s) && NoOverlap(s.ts) && t < |s.ts| == |s'.ts| && s'.ts == s.ts[t := s'.ts[t]]
    requires WorksOn(s.ts[t]) == Some(path) && !s'.ts[t].Remover?
    requires forall k: Key :: k.path != path && k in s'.sh.fileToMaster ==> k in s.sh.fileToMaster
    requires forall p :: p != path && p in s.sh.sizes ==> p in s'.sh.sizes && s'.sh.sizes[p] == s.sh.sizes[p]
    ensures forall u: nat :: u < |s'.ts| ==> RemovalAt(s', u)
  {
    forall u: nat | u < |s'.ts| ensures RemovalAt(s', u) {
      if u != t { assert RemovalAt(s, u) && ApartPaths(s.ts, t, u); }
    }
  }

  lemma {:induction false} MapStep(env: Env, repaired: bool, s: State, t: nat, ch: Choice)
    requires SizeInv(s) && NoOverlap(s.ts) && t < |s.ts| && s.ts[t].Writer? && ListsOk(s.ts[t].job) && Maps(s.ts[t].job)
    ensures var m := WriterStep(env, repaired, s.sh, s.ts[t].job, ch); SizeInv(State(m.sh, s.ts[t := m.t]))
  {
    var w, m := s.ts[t].job, WriterStep(env, repaired, s.sh, s.ts[t].job, ch);
    var s' := State(m.sh, s.ts[t := m.t]);
    MapTables(s.sh, w);
    assert m == ToMoved(MapBlock(s.sh, w));
    forall k ensures Accounted(s', k) {
      if k == Key(w.path, w.start + w.pos) { assert JustMapped(s'.ts[t], k); } else { AccountedMove(s, s', t, k); }
    }
    OtherRemovals(s, s', t, w.path);
  }

  lemma {:induction false} ResizeStep(env: Env, repaired: bool, s: State, t: nat, ch: Choice)
    requires SizeInv(s) && NoOverlap(s.ts) && t < |s.ts| && s.ts[t].Writer? && ListsOk(s.ts[t].job)
        && s.ts[t].job.phase.Resizing?
    ensures var m := WriterStep(env, repaired, s.sh, s.ts[t].job, ch); SizeInv(State(m.sh, s.ts[t := m.t]))
  {
    var w, m := s.ts[t].job, WriterStep(env, repaired, s.sh, s.ts[t].job, ch);
    var s' := State(m.sh, s.ts[t := m.t]);
    assert m == ToMoved(Resize(s.sh, w));
    forall k ensures Accounted(s', k) { AccountedMove(s, s', t, k); }
    forall path ensures SizeWhole(s'.sh.sizes, path) { assert SizeWhole(s.sh.sizes, path); }
    OtherRemovals(s, s', t, w.path);
  }

  lemma {:induction false} QuietStep(env: Env, repaired: bool, s: State, t: nat, ch: Choice)
    requires SizeInv(s) && t < |s.ts| && s.ts[t].Writer? && ListsOk(s.ts[t].job)
    requires !Maps(s.ts[t].job) && !s.ts[t].job.phase.Resizing?
    ensures var m := WriterStep(env, repaired, s.sh, s.ts[t].job, ch); SizeInv(State(m.sh, s.ts[t := m.t]))
  {
    var w, m := s.ts[t].job, WriterStep(env, repaired, s.sh, s.ts[t].job, ch);
    var s' := State(m.sh, s.ts[t := m.t]);
    OtherTables(env, repaired, s.sh, w, ch);
    forall k ensures Accounted(s', k) { AccountedMove(s, s', t, k); }
    forall u: nat | u < |s'.ts| ensures RemovalAt(s', u) { assert RemovalAt(s, u); }
  }

  // -------------------------------------------------------------------- what a removal does

  /** When a removal has done its range, its path has no block from the new size on. */
  lemma {:induction false} RangeIsGone(s: State, t: nat, k: Key)
    requires SizeInv(s) && NoOverlap(s.ts) && t < |s.ts| && s.ts[t].Remover?
        && s.ts[t].removal.pos >= s.ts[t].removal.end
    requires k in s.sh.fileToMaster && k.path == s.ts[t].removal.path
    ensures k.block < FirstBlock(s.ts[t].removal)
  {
    assert RemovalAt(s, t) && Accounted(s, k);
    forall u: nat | u < |s.ts| ensures !JustMapped(s.ts[u], k) { assert ApartPaths(s.ts, t, u); }
  }

  lemma {:induction false} ShrinkStep(s: State, t: nat)
    requires SizeInv(s) && NoOverlap(s.ts) && t < |s.ts| && s.ts[t].Remover?
    requires var r := s.ts[t].removal; r.pos >= r.end && r.release == []
    ensures var m := RemoverStep(s.sh, s.ts[t].removal); SizeInv(State(m.sh, s.ts[t := m.t]))
  {
    var r, m := s.ts[t].removal, RemoverStep(s.sh, s.ts[t].removal);
    var s' := State(m.sh, s.ts[t := m.t]);
    assert RemovalAt(s, t);
    forall k ensures Accounted(s', k) {
      if k in s.sh.fileToMaster && k.path == r.path { RangeIsGone(s, t, k); }
      AccountedMove(s, s', t, k);
    }
    forall path ensures SizeWhole(s'.sh.sizes, path) { assert SizeWhole(s.sh.sizes, path); }
    OtherRemovals(s, s', t, r.path);
  }

  lemma {:induction false} UnmapStep(s: State, t: nat)
    requires SizeInv(s) && NoOverlap(s.ts) && t < |s.ts| && s.ts[t].Remover?
    requires var r := s.ts[t].removal; r.pos < r.end || r.release != []
    ensures var m := RemoverStep(s.sh, s.ts[t].removal); SizeInv(State(m.sh, s.ts[t := m.t]))
  {
    var r, m := s.ts[t].removal, RemoverStep(s.sh, s.ts[t].removal);
    var s' := State(m.sh, s.ts[t := m.t]);
    UnmapTables(s.sh, Key(r.path, r.pos));
    forall k ensures Accounted(s', k) { AccountedMove(s, s', t, k); }
    forall u: nat | u < |s'.ts| ensures RemovalAt(s', u) {
      assert RemovalAt(s, u) && ApartPaths(s.ts, t, u);
      if u == t && r.pos < r.end {
        forall k | k in s'.sh.fileToMaster && k.path == r.path ensures !(FirstBlock(r) <= k.block < r.pos + 1) {
          assert k != Key(r.path, r.pos);
        }
      }
    }
  }

  // ------------------------------------------------------------------------------ all steps

  lemma {:induction false} LaunchStep(env: Env, s: State, a: Action)
    requires SizeInv(s) && Enabled(env, s, a) && !a.Step?
    ensures SizeInv(s.(ts := s.ts[a.tid := Launch(s.sh, a)]))
  {
    var s' := s.(ts := s.ts[a.tid := Launch(s.sh, a)]);
    forall k ensures Accounted(s', k) { AccountedMove(s, s', a.tid, k); }
    forall u: nat | u < |s'.ts| ensures RemovalAt(s', u) {
      if u != a.tid { assert RemovalAt(s, u); }
      else if s'.ts[u].Remover? { assert SizeWhole(s.sh.sizes, s'.ts[u].removal.path); }
    }
  }

  lemma {:induction false} ReadStep(s: State, t: nat, ch: Choice)
    requires SizeInv(s) && t < |s.ts| && s.ts[t].Reader?
    ensures var m := ReaderStep(s.sh, s.ts[t].reading, ch); SizeInv(State(m.sh, s.ts[t := m.t]))
  {
    var m := ReaderStep(s.sh, s.ts[t].reading, ch);
    var s' := State(m.sh, s.ts[t := m.t]);
    forall k ensures Accounted(s', k) { AccountedMove(s, s', t, k); }
    forall u: nat | u < |s'.ts| ensures RemovalAt(s', u) { assert RemovalAt(s, u); }
  }

  lemma {:induction false} SizeNext(env: Env, repaired: bool, s: State, a: Action)
    requires SizeInv(s) && NoOverlap(s.ts) && Enabled(env, s, a)
    ensures SizeInv(Next(env, repaired, s, a))
  {
    hide SizeInv, WriterStep, RemoverStep, ReaderStep;
    if !a.Step? {
      LaunchStep(env, s, a);
    } else {
      match s.ts[a.tid]
      case Idle => assert s.ts[a.tid := Idle] == s.ts;
      case Writer(w) =>
        if !ListsOk(w) { assert s.ts[a.tid := s.ts[a.tid]] == s.ts; }
        else if Maps(w) { MapStep(env, repaired, s, a.tid, a.choice); }
        else if w.phase.Resizing? { ResizeStep(env, repaired, s, a.tid, a.choice); }
        else { QuietStep(env, repaired, s, a.tid, a.choice); }
      case Remover(r) =>
        if r.pos < r.end || r.release != [] { UnmapStep(s, a.tid); } else { ShrinkStep(s, a.tid); }
      case Reader(_) => ReadStep(s, a.tid, a.choice);
    }
  }

  lemma {:induction false} SizeRun(env: Env, repaired: bool, run: Run, n: nat)
    requires IsRun(env, repaired, run) && NeverOverlaps(run) && n <= |run.acts|
    requires run.states[0].sh == EMPTY && AllIdle(run.states[0].ts)
    ensures SizeInv(run.states[n])
  {
    if n == 0 {
      forall k ensures Accounted(run.states[0], k) {}
      forall path ensures SizeWhole(EMPTY.sizes, path) {}
      forall t: nat | t < |run.states[0].ts| ensures RemovalAt(run.states[0], t) {}
    } else {
      SizeRun(env, repaired, run, n - 1);
      assert MoveAt(env, repaired, run, n - 1);
      SizeNext(env, repaired, run.states[n - 1], run.acts[n - 1]);
    }
  }

  // -------------------------------------------------------------------------------- results

  ghost predicate Untouched(ts: seq<Thread>, path: Path) { forall t: nat :: t < |ts| ==> WorksOn(ts[t]) != Some(path) }

  /** The size bound: in every state of such a run, the recorded size of a path on which no
      operation is in progress is a multiple of the block size and covers every mapped block
      of the path, whatever happens on other paths at the time. */
  lemma {:induction false} SizesCover(env: Env, repaired: bool, run: Run, n: nat, path: Path)
    requires IsRun(env, repaired, run) && NeverOverlaps(run) && n <= |run.acts|
    requires run.states[0].sh == EMPTY && AllIdle(run.states[0].ts) && Untouched(run.states[n].ts, path)
    ensures SizeWhole(run.states[n].sh.sizes, path)
    ensures forall k :: k in run.states[n].sh.fileToMaster && k.path == path ==> Covers(run.states[n].sh.sizes, k)
  {
    var s := run.states[n];
    SizeRun(env, repaired, run, n);
    assert SizeWhole(s.sh.sizes, path);
    forall k | k in s.sh.fileToMaster && k.path == path ensures Covers(s.sh.sizes, k) {
      assert Accounted(s, k);
      forall t: nat | t < |s.ts| ensures !JustMapped(s.ts[t], k) {}
    }
  }

  /** When an unlink or truncate of such a run ends, no block of its path is mapped from the
      new size on; after an unlink none at all. */
  lemma {:induction false} RemovalEnds(env: Env, repaired: bool, run: Run, n: nat, k: Key)
    requires IsRun(env, repaired, run) && NeverOverlaps(run) && n < |run.acts|
    requires run.states[0].sh == EMPTY && AllIdle(run.states[0].ts)
    requires var s, a := run.states[n], run.acts[n];
             && a.tid < |s.ts| == |run.states[n + 1].ts| && a.Step? && s.ts[a.tid].Remover?
                 && run.states[n + 1].ts[a.tid].Idle?
             && k.path == s.ts[a.tid].removal.path && k in run.states[n + 1].sh.fileToMaster
    ensures var r := run.states[n].ts[run.acts[n].tid].removal;
            r.newSize.Some? && (k.block + 1) * BLOCK_SIZE <= r.newSize.value
  {
    var s, a := run.states[n], run.acts[n];
    var r := s.ts[a.tid].removal;
    SizeRun(env, repaired, run, n);
    assert MoveAt(env, repaired, run, n) && RemovalAt(s, a.tid);
    RangeIsGone(s, a.tid, k);
  }
}
