/** The gap in a restart: an append that fails before anything reaches the master leaves a
    free slot beyond its physical end, and the store is out of balance after the next mount.
    What follows from that is in Reissue. */
module RestartGap {
  import opened Model
  import opened Steps
  import opened Invariant
  import opened StepProofs
  import opened Lifecycle
  import opened Frames
  import opened Protocol
  import opened Safety
  import opened Sequential
  import opened Solo
  import opened Quiescence
  import opened Laws
  import opened Operations
  import opened Framing
  import opened Tables
  import opened Restart

  /** No pwrite of a request of n blocks writes anything. */
  ghost predicate Dead(io: Device, n: nat) {
    forall i: nat :: i < n ==> !At(io, i).Full? && At(io, i).patch == map[]
  }

  lemma {:induction false} DeadFlush(sh: Shared, w: Job, o: Outcome)
    requires w.pos < |w.plan| == |w.buf| && !o.Full? && o.patch == map[]
    ensures Flush(sh, w, o).sh.disk == sh.disk
  {
    if w.plan[w.pos].Placed? {
      assert TornPwrite(sh.disk, w.plan[w.pos].slot, RunEnd(w.plan, w.pos) - w.pos, map[]) == sh.disk;
    }
  }

  lemma {:induction false} DeadStep(env: Env, malloc: Malloc, io: Device, sh: Shared, w: Job, m: Moved)
    requires SoloView(env, sh, w) && Fresh(malloc) && Dead(io, |w.buf|)
    requires m == WriterStep(env, false, sh, w, ChoiceFor(malloc, io, sh, w))
    ensures m.sh.disk == sh.disk && (m.t.Writer? ==> m.t.job.buf == w.buf)
  {
    assert malloc(sh.heap.Keys) !in sh.heap.Keys;
    WriterFramed(env, false, sh, w, ChoiceFor(malloc, io, sh, w), Nothing, 0);
    if w.phase.Flushing? && w.pos < |w.plan| {
      DeadFlush(sh, w, At(io, w.pos));
      assert m.sh == Flush(sh, w, At(io, w.pos)).sh;
    }
  }

  lemma {:induction false} DeadDrive(
      env: Env, malloc: Malloc, io: Device, plan: seq<Entry>, sh0: Shared, sh: Shared, w: Job)
    requires Underway(env, malloc, io, plan, sh0, sh, w) && Fresh(malloc) && Dead(io, |w.buf|)
    ensures Drive(env, malloc, io, sh, w).sh.disk == sh.disk
    decreases PhaseRank(w), Left(w)
  {
    var m := WriterStep(env, false, sh, w, ChoiceFor(malloc, io, sh, w));
    DeadStep(env, malloc, io, sh, w, m);
    DriveUnfolds(env, malloc, io, sh, w);
    if m.t.Writer? {
      UnderwayNext(env, malloc, io, plan, sh0, sh, w, m);
      Decreases(env, sh, w, ChoiceFor(malloc, io, sh, w));
      DeadDrive(env, malloc, io, plan, sh0, m.sh, m.t.job);
    }
  }

  lemma {:induction false} DeadWrite(env: Env, malloc: Malloc, io: Device, path: Path, data: seq<Byte>, offset: nat)
    requires Fresh(malloc) && TrustedData(env, data) && Aligned(data) && Dead(io, |Blocks(data)|)
    ensures Write(env, malloc, io, EMPTY, path, data, offset).sh.disk == map[]
  {
    EmptyGlobal(env);
    BeginUnderway(env, malloc, io, EMPTY, path, offset / BLOCK_SIZE, Blocks(data));
    DeadDrive(env, malloc, io, PlanOf(env, malloc, io, EMPTY, path, data, offset), EMPTY, EMPTY,
              Begin(path, offset / BLOCK_SIZE, Blocks(data)));
  }

  /** A failed append, then a restart: before it everything balances, after it the store is
      out of balance, whatever the request was. */
  lemma {:induction false} FailedAppendBreaksRestart(
      env: Env, malloc: Malloc, io: Device, path: Path, data: seq<Byte>, offset: nat,
      o: Orders, image: map<Ptr, Data>, place: seq<Ptr>)
    requires Fresh(malloc) && TrustedData(env, data) && Aligned(data) && Dead(io, |Blocks(data)|)
    requires var sh := Write(env, malloc, io, EMPTY, path, data, offset).sh;
             Enumerated(sh, o) && Fits(sh) && Images(sh, image) && RoomFor(sh, o, place)
    ensures var r := Write(env, malloc, io, EMPTY, path, data, offset);
            && r.rc < 0 && Quiet(env, r.sh) && 0 in r.sh.freeList && r.sh.disk == map[]
            && Collected(r.sh, Values(r.sh, o), image)
            && !Quiet(env, Remount(r.sh, o, image, place))
  {
    hide Write;
    var r := Write(env, malloc, io, EMPTY, path, data, offset);
    EmptyGlobal(env);
    WriteLaw(env, malloc, io, EMPTY, path, data, offset);
    DeadWrite(env, malloc, io, path, data, offset);
    DeadFails(env, malloc, io, path, data, offset);
    AppendFails(env, malloc, io, path, data, offset);
    RestartPreserves(env, r.sh, o, image, place);
    assert EndOf(r.sh.disk.Keys) == 0;
  }

  /** A store that shows a block has a block in its master. */
  lemma {:induction false} ShownIsStored(env: Env, sh: Shared, path: Path, start: nat, buf: seq<Block>)
    requires Quiet(env, sh) && buf != [] && Seen(env, EMPTY, sh, path, start, buf, |buf|)
    ensures sh.disk != map[]
  {
    var k := Key(path, start);
    assert SeenAt(env, EMPTY, sh, path, start, buf, |buf|, k);
    ContentIsBacked(env, sh, k);
  }

  lemma {:induction false} DeadFails(env: Env, malloc: Malloc, io: Device, path: Path, data: seq<Byte>, offset: nat)
    requires Fresh(malloc) && TrustedData(env, data) && Aligned(data) && Dead(io, |Blocks(data)|)
    ensures Write(env, malloc, io, EMPTY, path, data, offset).rc < 0
  {
    hide Write;
    EmptyGlobal(env);
    WriteLaw(env, malloc, io, EMPTY, path, data, offset);
    FailureIsReported(env, malloc, io, EMPTY, path, data, offset);
    DeadWrite(env, malloc, io, path, data, offset);
    var r, start, buf := Write(env, malloc, io, EMPTY, path, data, offset), offset / BLOCK_SIZE, Blocks(data);
    if Committed(env, EMPTY, r.sh, path, start, buf) { ShownIsStored(env, r.sh, path, start, buf); }
  }

  /** On an empty store a failed request leaves slot 0 on the free list. */
  lemma {:induction false} AppendFails(env: Env, malloc: Malloc, io: Device, path: Path, data: seq<Byte>, offset: nat)
    requires Fresh(malloc) && TrustedData(env, data) && Aligned(data)
        && Write(env, malloc, io, EMPTY, path, data, offset).rc < 0
    ensures 0 in Write(env, malloc, io, EMPTY, path, data, offset).sh.freeList
  {
    hide Write;
    var sh, buf := Write(env, malloc, io, EMPTY, path, data, offset).sh, Blocks(data);
    EmptyGlobal(env);
    FailedWrite(env, malloc, io, EMPTY, path, data, offset);
    NewMeans(env, EMPTY, buf, |buf|, env.hash(buf[0]));
    WriteSpace(env, malloc, io, EMPTY, path, data, offset);
    assert env.hash(buf[0]) in NewHashes(env, EMPTY, buf) && sh.next > 0;
    var grown: seq<nat> := Range(0, sh.next);
    assert grown[0] == 0 && multiset(grown)[0] > 0;
    assert multiset(sh.freeList)[0] > 0;
  }
}
