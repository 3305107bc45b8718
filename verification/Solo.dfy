/** A writer that runs alone: what each of its steps keeps, measured against the state in
    which the operation began. */
module Solo {
  import opened Model
  import opened Steps
  import opened Invariant
  import opened Accounting
  import opened StepProofs
  import opened Lifecycle
  import opened Frames
  import opened Safety

  // ------------------------------------------------------------- no race can be lost alone

  predicate PendingAt(w: Job, i: nat) { i < |w.plan| && (w.plan[i].Miss? || w.plan[i].Placed?) }

  /** No pending entry has a published twin. */
  ghost predicate AloneAt(env: Env, sh: Shared, w: Job, i: nat)
    requires |w.plan| <= |w.buf|
  {
    PendingAt(w, i) ==>
      && env.hash(w.buf[i]) !in sh.hashToMaster
      && (w.phase.Deciding? ==> env.hash(w.buf[i]) in w.pendingHashes)
  }

  /** Pending entries hash differently. */
  ghost predicate ApartPair(env: Env, w: Job, i: nat, j: nat)
    requires |w.plan| <= |w.buf|
  {
    i < j && PendingAt(w, i) && PendingAt(w, j) ==> env.hash(w.buf[i]) != env.hash(w.buf[j])
  }

  ghost predicate Alone(env: Env, sh: Shared, w: Job) {
    && |w.plan| <= |w.buf|
    && (forall i: nat :: AloneAt(env, sh, w, i))
    && (forall i: nat, j: nat :: ApartPair(env, w, i, j))
  }

  /** The view of a writer without company. */
  ghost predicate SoloView(env: Env, sh: Shared, w: Job) {
    View(env, sh, w, Nothing) && Alone(env, sh, w)
  }

  /** A writer that runs alone never loses the double-check race. */
  lemma {:induction false} AloneNeverLoses(env: Env, sh: Shared, w: Job)
    requires SoloView(env, sh, w) && w.pos < |w.plan|
    ensures NoLostDup(sh, w)
  {
    assert EntryOk(env, sh, w, w.pos) && AloneAt(env, sh, w, w.pos);
  }

  lemma {:induction false} AloneShrinks(env: Env, sh: Shared, w: Job, sh': Shared, w': Job)
    requires Alone(env, sh, w) && w'.buf == w.buf && |w'.plan| <= |w.buf| && !w'.phase.Deciding?
    requires forall i: nat :: PendingAt(w', i) ==> PendingAt(w, i)
    requires sh'.hashToMaster.Keys <= sh.hashToMaster.Keys
    ensures Alone(env, sh', w')
  {
    forall i: nat ensures AloneAt(env, sh', w', i) { assert AloneAt(env, sh, w, i); }
    forall i: nat, j: nat ensures ApartPair(env, w', i, j) { assert ApartPair(env, w, i, j); }
  }

  lemma {:induction false} AloneDecide(env: Env, sh: Shared, w: Job, addr: Ptr)
    requires Alone(env, sh, w) && w.phase.Deciding? && |w.plan| < |w.buf|
    ensures Alone(env, Decide(env, sh, w, addr).sh, Decide(env, sh, w, addr).w)
  {
    var s := Decide(env, sh, w, addr);
    assert forall i: nat :: i < |w.plan| ==> s.w.plan[i] == w.plan[i];
    forall i: nat ensures AloneAt(env, s.sh, s.w, i) { assert AloneAt(env, sh, w, i); }
    forall i: nat, j: nat ensures ApartPair(env, s.w, i, j) {
      assert ApartPair(env, w, i, j) && AloneAt(env, sh, w, i);
    }
  }

  lemma {:induction false} AlonePublish(env: Env, sh: Shared, w: Job)
    requires SoloView(env, sh, w) && w.phase.Publishing? && w.pos < |w.plan|
    ensures Alone(env, Publish(sh, w).sh, Publish(sh, w).w)
  {
    var s := Publish(sh, w);
    assert EntryOk(env, sh, w, w.pos) && AloneAt(env, sh, w, w.pos) && KindsOk(w, w.pos);
    forall i: nat ensures AloneAt(env, s.sh, s.w, i) {
      assert AloneAt(env, sh, w, i) && ApartPair(env, w, i, w.pos) && ApartPair(env, w, w.pos, i);
    }
    forall i: nat, j: nat ensures ApartPair(env, s.w, i, j) { assert ApartPair(env, w, i, j); }
  }

  lemma {:induction false} AloneMap(env: Env, sh: Shared, w: Job)
    requires Alone(env, sh, w) && !w.phase.Deciding? && w.pos < |w.plan|
    ensures Alone(env, MapBlock(sh, w).sh, MapBlock(sh, w).w)
  {
    var s := MapBlock(sh, w);
    assert s.sh.hashToMaster.Keys <= sh.hashToMaster.Keys;
    AloneShrinks(env, sh, w, s.sh, s.w);
  }

  lemma {:induction false} AloneUndo(env: Env, sh: Shared, w: Job)
    requires Alone(env, sh, w) && !w.phase.Deciding? && w.pos < |w.plan|
    ensures Alone(env, UndoHit(sh, w).sh, UndoHit(sh, w).w) && Alone(env, UndoMiss(sh, w).sh, UndoMiss(sh, w).w)
  {
    var s, u := UndoHit(sh, w), UndoMiss(sh, w);
    assert s.sh.hashToMaster.Keys <= sh.hashToMaster.Keys && u.sh.hashToMaster == sh.hashToMaster;
    AloneShrinks(env, sh, w, s.sh, s.w);
    AloneShrinks(env, sh, w, u.sh, u.w);
  }

  lemma {:induction false} AlonePlace(env: Env, sh: Shared, w: Job)
    requires Alone(env, sh, w) && !w.phase.Deciding? && w.pos < |w.plan|
    ensures Alone(env, Place(sh, w).sh, Place(sh, w).w)
  {
    AloneShrinks(env, sh, w, Place(sh, w).sh, Place(sh, w).w);
  }

  lemma {:induction false} AloneEnd(env: Env, sh: Shared, w: Job, ch: Choice)
    requires SoloView(env, sh, w) && (AtEnd(w) || w.phase.Flushing?)
    ensures var m := WriterStep(env, false, sh, w, ch); m.t.Writer? ==> Alone(env, m.sh, m.t.job)
  {
    var m := WriterStep(env, false, sh, w, ch);
    if m.t.Writer? {
      EndKeeps(env, sh, w, ch);
      AloneShrinks(env, sh, w, m.sh, m.t.job);
    }
  }

  lemma {:induction false} EndKeeps(env: Env, sh: Shared, w: Job, ch: Choice)
    requires ListsOk(w) && (AtEnd(w) || w.phase.Flushing?)
    ensures var m := WriterStep(env, false, sh, w, ch);
            m.sh.hashToMaster == sh.hashToMaster
            && (m.t.Writer? ==> m.t.job.plan == w.plan && m.t.job.buf == w.buf && !m.t.job.phase.Deciding?)
  {}

  lemma {:induction false} AloneStep(env: Env, sh: Shared, w: Job, ch: Choice)
    requires SoloView(env, sh, w)
    ensures var m := WriterStep(env, false, sh, w, ch); m.t.Writer? ==> Alone(env, m.sh, m.t.job)
  {
    if AtEnd(w) || w.phase.Flushing? { AloneEnd(env, sh, w, ch); }
    else if w.phase.Deciding? { AloneDecide(env, sh, w, ch.addr); }
    else if w.phase.Placing? { AlonePlace(env, sh, w); }
    else if w.phase.Publishing? { AlonePublish(env, sh, w); }
    else if w.phase.Mapping? { AloneMap(env, sh, w); }
    else { AloneUndo(env, sh, w); }
  }

  /** Every step of a writer that runs alone keeps the balance, without any hypothesis. */
  lemma {:induction false} SoloStep(env: Env, sh: Shared, w: Job, ch: Choice)
    requires SoloView(env, sh, w) && LegalChoice(sh, ch)
    ensures var m := WriterStep(env, false, sh, w, ch);
            if m.t.Writer? then SoloView(env, m.sh, m.t.job) else Global(env, m.sh, Nothing)
  {
    var m := WriterStep(env, false, sh, w, ch);
    if w.phase.Publishing? && w.pos < |w.plan| { AloneNeverLoses(env, sh, w); }
    WriterBalanced(env, false, sh, w, ch, Nothing);
    AloneStep(env, sh, w, ch);
    if m.t.Writer? {
      assert Closed(m.sh, Nothing) by { forall p: Ptr ensures ClosedAt(m.sh, Nothing, p) {} }
    } else {
      WriterEnds(env, sh, w, ch);
      forall k: nat ensures SameAt(Nothing.Plus(Nothing), Nothing, k) {}
      GlobalSame(env, m.sh, Nothing.Plus(Nothing), Nothing);
    }
  }

  lemma {:induction false} WriterEnds(env: Env, sh: Shared, w: Job, ch: Choice)
    requires ListsOk(w) && !WriterStep(env, false, sh, w, ch).t.Writer?
    ensures WriterStep(env, false, sh, w, ch).t.Idle?
    ensures w.phase.Releasing? || (w.phase.UndoMisses? && w.pos >= |w.plan|)
  {}

  // ------------------------------------------------------------------ the visible effect

  /** The info behind a mapped block is still the same, and so is the block in its slot. */
  ghost predicate KeptAt(sh0: Shared, sh: Shared, k: Key) {
    k in sh0.fileToMaster ==>
      var p := sh0.fileToMaster[k];
      && p in sh0.heap && p in sh.heap && sh.heap[p].hash == sh0.heap[p].hash && sh.heap[p].slot == sh0.heap[p].slot
      && SameBlock(sh0, sh, sh0.heap[p].slot)
  }

  /** Same mappings, same infos behind them, same sizes. */
  ghost predicate Unseen(sh0: Shared, sh: Shared) {
    sh.fileToMaster == sh0.fileToMaster && sh.sizes == sh0.sizes && forall k :: KeptAt(sh0, sh, k)
  }

  /** The first n blocks of the request are visible, and nothing else changed. */
  ghost predicate SeenAt(env: Env, sh0: Shared, sh: Shared, path: Path, start: nat, buf: seq<Block>, n: nat, k: Key)
    requires n <= |buf|
  {
    VisibleAt(sh, k) ==
      if k.path == path && start <= k.block < start + n then Some(env.hash(buf[k.block - start])) else VisibleAt(sh0, k)
  }

  ghost predicate Seen(env: Env, sh0: Shared, sh: Shared, path: Path, start: nat, buf: seq<Block>, n: nat)
    requires n <= |buf|
  {
    forall k :: SeenAt(env, sh0, sh, path, start, buf, n, k)
  }

  /** How far the effect of a write has come. */
  ghost predicate Track(env: Env, sh0: Shared, sh: Shared, w: Job) {
    match w.phase
    case Mapping => w.pos <= |w.buf| && sh.sizes == sh0.sizes && Seen(env, sh0, sh, w.path, w.start, w.buf, w.pos)
    case Resizing => sh.sizes == sh0.sizes && Seen(env, sh0, sh, w.path, w.start, w.buf, |w.buf|)
    case Releasing =>
      && sh.sizes == Grow(sh0.sizes, w.path, (w.start + |w.buf|) * BLOCK_SIZE)
      && Seen(env, sh0, sh, w.path, w.start, w.buf, |w.buf|)
    case _ => Unseen(sh0, sh)
  }

  lemma {:induction false} UnseenVisible(sh0: Shared, sh: Shared, k: Key)
    requires Unseen(sh0, sh)
    ensures VisibleAt(sh, k) == VisibleAt(sh0, k)
  {
    assert KeptAt(sh0, sh, k);
  }

  /** A published block stays on disk as it is. */
  lemma {:induction false} PublishedBlockKept(env: Env, sh: Shared, w: Job, ch: Choice, p: Ptr)
    requires SoloView(env, sh, w) && LegalChoice(sh, ch) && Published(sh, p)
    ensures SameBlock(sh, WriterStep(env, false, sh, w, ch).sh, sh.heap[p].slot)
  {
    assert sh.heap[p].hash in PublishedAt(sh, sh.heap[p].slot);
    if !SameBlock(sh, WriterStep(env, false, sh, w, ch).sh, sh.heap[p].slot) {
      WriterDisk(env, false, sh, w, ch, Nothing, sh.heap[p].slot);
    }
  }

  lemma {:induction false} UnseenStep(env: Env, sh0: Shared, sh: Shared, w: Job, ch: Choice, m: Moved)
    requires SoloView(env, sh, w) && LegalChoice(sh, ch) && Unseen(sh0, sh)
        && w.phase !in {Mapping, Resizing, Releasing}
    requires m == WriterStep(env, false, sh, w, ch) && Linked(m.sh)
    ensures Unseen(sh0, m.sh)
  {
    WriterFramed(env, false, sh, w, ch, Nothing, 0);
    forall k ensures KeptAt(sh0, m.sh, k) {
      if k in sh0.fileToMaster {
        assert KeptAt(sh0, sh, k) && FileLinked(sh, k) && FileLinked(m.sh, k);
        WriterFramed(env, false, sh, w, ch, Nothing, sh.fileToMaster[k]);
        PublishedBlockKept(env, sh, w, ch, sh.fileToMaster[k]);
      }
    }
  }

  lemma {:induction false} SeenStep(env: Env, sh0: Shared, sh: Shared, w: Job)
    requires SoloView(env, sh, w) && w.phase.Mapping? && w.pos < |w.plan| && Track(env, sh0, sh, w)
    ensures Track(env, sh0, MapBlock(sh, w).sh, MapBlock(sh, w).w)
  {
    var s, n := MapBlock(sh, w), w.pos + 1;
    MapFrame(sh, w, 0);
    forall k ensures SeenAt(env, sh0, s.sh, w.path, w.start, w.buf, n, k) {
      assert SeenAt(env, sh0, sh, w.path, w.start, w.buf, w.pos, k);
      MapVisible(env, sh, w, Nothing, k);
    }
  }

  lemma {:induction false} SameSeen(
      env: Env, sh0: Shared, sh: Shared, sh': Shared, path: Path, start: nat, buf: seq<Block>)
    requires sh'.heap == sh.heap && sh'.fileToMaster == sh.fileToMaster && Seen(env, sh0, sh, path, start, buf, |buf|)
    ensures Seen(env, sh0, sh', path, start, buf, |buf|)
  {
    forall k ensures SeenAt(env, sh0, sh', path, start, buf, |buf|, k) {
      assert SeenAt(env, sh0, sh, path, start, buf, |buf|, k);
    }
  }

  /** What a finished write has done: committed with everything visible, or rolled back with
      nothing visible. */
  ghost predicate Settled(env: Env, sh0: Shared, sh: Shared, w: Job) {
    if w.phase.Releasing? then
      && sh.sizes == Grow(sh0.sizes, w.path, (w.start + |w.buf|) * BLOCK_SIZE)
      && Seen(env, sh0, sh, w.path, w.start, w.buf, |w.buf|)
    else Unseen(sh0, sh)
  }

  lemma {:induction false} TrackCommit(env: Env, sh0: Shared, sh: Shared, w: Job, ch: Choice)
    requires SoloView(env, sh, w) && LegalChoice(sh, ch) && Track(env, sh0, sh, w)
    requires w.phase in {Mapping, Resizing, Releasing}
    ensures var m := WriterStep(env, false, sh, w, ch);
            if m.t.Writer? then Track(env, sh0, m.sh, m.t.job) else Settled(env, sh0, m.sh, w)
  {
    if w.phase.Mapping? && w.pos < |w.plan| {
      SeenStep(env, sh0, sh, w);
    } else {
      SameSeen(env, sh0, sh, WriterStep(env, false, sh, w, ch).sh, w.path, w.start, w.buf);
    }
  }

  lemma {:induction false} TrackStep(env: Env, sh0: Shared, sh: Shared, w: Job, ch: Choice)
    requires SoloView(env, sh, w) && LegalChoice(sh, ch) && Track(env, sh0, sh, w)
    ensures var m := WriterStep(env, false, sh, w, ch);
            if m.t.Writer? then Track(env, sh0, m.sh, m.t.job) else Settled(env, sh0, m.sh, w)
  {
    if w.phase in {Mapping, Resizing, Releasing} {
      TrackCommit(env, sh0, sh, w, ch);
    } else {
      var m := WriterStep(env, false, sh, w, ch);
      SoloStep(env, sh, w, ch);
      UnseenStep(env, sh0, sh, w, ch, m);
      NextPhase(env, sh, w, ch);
      if m.t.Writer? && m.t.job.phase.Mapping? {
        forall k ensures SeenAt(env, sh0, m.sh, w.path, w.start, w.buf, 0, k) { UnseenVisible(sh0, m.sh, k); }
      }
    }
  }

  /** Which phases can follow. */
  lemma {:induction false} NextPhase(env: Env, sh: Shared, w: Job, ch: Choice)
    requires ListsOk(w) && w.phase !in {Mapping, Resizing, Releasing}
    ensures var m := WriterStep(env, false, sh, w, ch);
            m.t.Writer? ==>
              && m.t.job.phase !in {Resizing, Releasing}
              && m.t.job.buf == w.buf && m.t.job.path == w.path && m.t.job.start == w.start
              && (m.t.job.phase.Mapping? ==> m.t.job.pos == 0)
  {}
}
