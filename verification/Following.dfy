/** One step of the specification at a time, for the imperative store: the final outcome
    `goal` of an operation stays the same while the operation goes on, and every pointer the
    next step follows is alive. */
module Following {
  import opened Model
  import opened Steps
  import opened Invariant
  import opened Accounting
  import opened StepProofs
  import opened Lifecycle
  import opened Frames
  import opened Sequential
  import opened Solo
  import opened Quiescence
  import opened Laws
  import opened Coalescing

  /** Job w in state sh is on its way to the outcome goal. */
  ghost predicate On(env: Env, malloc: Malloc, io: Device, sh: Shared, w: Job, goal: Ended) {
    Fresh(malloc) && SoloView(env, sh, w) && Drive(env, malloc, io, sh, w) == goal
  }

  /** The general step. */
  lemma {:induction false} Follow(env: Env, malloc: Malloc, io: Device, sh: Shared, w: Job, goal: Ended, m: Moved)
    requires On(env, malloc, io, sh, w, goal) && m == WriterStep(env, false, sh, w, ChoiceFor(malloc, io, sh, w))
    ensures if m.t.Writer? then On(env, malloc, io, m.sh, m.t.job, goal)
            else Quiet(env, m.sh) && goal == Ended(m.sh, ReturnCode(w))
  {
    var ch := ChoiceFor(malloc, io, sh, w);
    assert malloc(sh.heap.Keys) !in sh.heap.Keys;
    SoloStep(env, sh, w, ch);
    DriveUnfolds(env, malloc, io, sh, w);
  }

  lemma {:induction false} FollowAdvance(env: Env, malloc: Malloc, io: Device, sh: Shared, w: Job, goal: Ended)
    requires On(env, malloc, io, sh, w, goal) && AtEnd(w)
    requires w.phase in {Deciding, Placing, Flushing, Publishing, Mapping, UndoHits}
    ensures On(env, malloc, io, sh, Advance(w), goal)
  {
    Follow(env, malloc, io, sh, w, goal, ToMoved(Stepped(sh, Advance(w))));
  }

  lemma {:induction false} FollowDecide(env: Env, malloc: Malloc, io: Device, sh: Shared, w: Job, goal: Ended)
    requires On(env, malloc, io, sh, w, goal) && w.phase.Deciding? && |w.plan| < |w.buf|
    ensures var s, h := Decide(env, sh, w, malloc(sh.heap.Keys)), env.hash(w.buf[|w.plan|]);
            && On(env, malloc, io, s.sh, s.w, goal)
            && (h in sh.hashToMaster ==> sh.hashToMaster[h] in sh.heap)
            && (h in w.pendingHashes ==> w.pendingHashes[h] in sh.heap)
  {
    var h := env.hash(w.buf[|w.plan|]);
    assert HashLinked(sh, h) && HashPending(sh, w, h);
    Follow(env, malloc, io, sh, w, goal, ToMoved(Decide(env, sh, w, malloc(sh.heap.Keys))));
  }

  lemma {:induction false} FollowDrain(env: Env, malloc: Malloc, io: Device, sh: Shared, w: Job, goal: Ended)
    requires On(env, malloc, io, sh, w, goal) && w.phase.Draining?
    ensures On(env, malloc, io, Drain(sh, w).sh, Drain(sh, w).w, goal)
  {
    Follow(env, malloc, io, sh, w, goal, ToMoved(Drain(sh, w)));
  }

  lemma {:induction false} FollowAppend(env: Env, malloc: Malloc, io: Device, sh: Shared, w: Job, goal: Ended)
    requires On(env, malloc, io, sh, w, goal) && w.phase.Appending?
    ensures On(env, malloc, io, Append(sh, w).sh, Append(sh, w).w, goal)
  {
    Follow(env, malloc, io, sh, w, goal, ToMoved(Append(sh, w)));
  }

  /** A MISS has a live pending info, and a slot is left for it. */
  lemma {:induction false} FollowPlace(env: Env, malloc: Malloc, io: Device, sh: Shared, w: Job, goal: Ended)
    requires On(env, malloc, io, sh, w, goal) && w.phase.Placing? && w.pos < |w.plan|
    ensures On(env, malloc, io, Place(sh, w).sh, Place(sh, w).w, goal)
    ensures w.plan[w.pos].Miss? ==> w.plan[w.pos].info in sh.heap && w.out != []
  {
    assert EntryOk(env, sh, w, w.pos) && KindsOk(w, w.pos);
    PlanMember(w.plan, w.pos);
    Follow(env, malloc, io, sh, w, goal, ToMoved(Place(sh, w)));
  }

  lemma {:induction false} FollowFlush(env: Env, malloc: Malloc, io: Device, sh: Shared, w: Job, goal: Ended)
    requires On(env, malloc, io, sh, w, goal) && w.phase.Flushing? && w.pos < |w.plan|
    ensures On(env, malloc, io, Flush(sh, w, At(io, w.pos)).sh, Flush(sh, w, At(io, w.pos)).w, goal)
  {
    Follow(env, malloc, io, sh, w, goal, ToMoved(Flush(sh, w, At(io, w.pos))));
  }

  lemma {:induction false} FollowPublish(env: Env, malloc: Malloc, io: Device, sh: Shared, w: Job, goal: Ended)
    requires On(env, malloc, io, sh, w, goal) && w.phase.Publishing? && w.pos < |w.plan|
    ensures On(env, malloc, io, Publish(sh, w).sh, Publish(sh, w).w, goal)
    ensures w.plan[w.pos].Hit? || (w.plan[w.pos].Placed? && w.plan[w.pos].info in sh.heap)
    ensures w.plan[w.pos].Placed? && sh.heap[w.plan[w.pos].info].hash in sh.hashToMaster ==>
              var winner := sh.hashToMaster[sh.heap[w.plan[w.pos].info].hash];
              winner in sh.heap && winner != w.plan[w.pos].info
  {
    assert EntryOk(env, sh, w, w.pos) && KindsOk(w, w.pos);
    if w.plan[w.pos].Placed? {
      MinePrivate(env, sh, w, Nothing, w.pos);
      assert HashLinked(sh, sh.heap[w.plan[w.pos].info].hash);
    }
    Follow(env, malloc, io, sh, w, goal, ToMoved(Publish(sh, w)));
  }

  /** The info that a mapped block leads to is alive when its reference is dropped. */
  lemma {:induction false} FollowMap(env: Env, malloc: Malloc, io: Device, sh: Shared, w: Job, goal: Ended)
    requires On(env, malloc, io, sh, w, goal) && w.phase.Mapping? && w.pos < |w.plan|
    ensures On(env, malloc, io, MapBlock(sh, w).sh, MapBlock(sh, w).w, goal)
    ensures w.plan[w.pos].Hit? && w.plan[w.pos].info in sh.heap
    ensures var key := Key(w.path, w.start + w.pos); key in sh.fileToMaster ==> sh.fileToMaster[key] in sh.heap
  {
    assert FileLinked(sh, Key(w.path, w.start + w.pos));
    MappedIsPublished(env, sh, w);
    Follow(env, malloc, io, sh, w, goal, ToMoved(MapBlock(sh, w)));
  }

  lemma {:induction false} FollowResize(env: Env, malloc: Malloc, io: Device, sh: Shared, w: Job, goal: Ended)
    requires On(env, malloc, io, sh, w, goal) && w.phase.Resizing?
    ensures On(env, malloc, io, Resize(sh, w).sh, Resize(sh, w).w, goal)
  {
    Follow(env, malloc, io, sh, w, goal, ToMoved(Resize(sh, w)));
  }

  lemma {:induction false} FollowRelease(env: Env, malloc: Malloc, io: Device, sh: Shared, w: Job, goal: Ended)
    requires On(env, malloc, io, sh, w, goal) && w.phase.Releasing?
    ensures Quiet(env, GiveBack(sh, w.release)) && goal == Ended(GiveBack(sh, w.release), |w.buf| * BLOCK_SIZE)
  {
    Follow(env, malloc, io, sh, w, goal, Moved(GiveBack(sh, w.release), Idle));
  }

  lemma {:induction false} FollowUndoHit(env: Env, malloc: Malloc, io: Device, sh: Shared, w: Job, goal: Ended)
    requires On(env, malloc, io, sh, w, goal) && w.phase.UndoHits? && w.pos < |w.plan|
    ensures On(env, malloc, io, UndoHit(sh, w).sh, UndoHit(sh, w).w, goal)
    ensures w.plan[w.pos].Hit? ==> w.plan[w.pos].info in sh.heap
  {
    assert EntryOk(env, sh, w, w.pos);
    Follow(env, malloc, io, sh, w, goal, ToMoved(UndoHit(sh, w)));
  }

  lemma {:induction false} FollowReleaseHits(env: Env, malloc: Malloc, io: Device, sh: Shared, w: Job, goal: Ended)
    requires On(env, malloc, io, sh, w, goal) && w.phase.ReleaseHits?
    ensures On(env, malloc, io, GiveBack(sh, w.release), w.(phase := UndoMisses, pos := 0, release := []), goal)
  {
    Follow(env, malloc, io, sh, w, goal,
        ToMoved(Stepped(GiveBack(sh, w.release), w.(phase := UndoMisses, pos := 0, release := []))));
  }

  lemma {:induction false} FollowUndoMiss(env: Env, malloc: Malloc, io: Device, sh: Shared, w: Job, goal: Ended)
    requires On(env, malloc, io, sh, w, goal) && w.phase.UndoMisses? && w.pos < |w.plan|
    ensures On(env, malloc, io, UndoMiss(sh, w).sh, UndoMiss(sh, w).w, goal)
    ensures w.plan[w.pos].Placed? ==> w.plan[w.pos].info in sh.heap
  {
    assert EntryOk(env, sh, w, w.pos);
    Follow(env, malloc, io, sh, w, goal, ToMoved(UndoMiss(sh, w)));
  }

  lemma {:induction false} FollowFinish(env: Env, malloc: Malloc, io: Device, sh: Shared, w: Job, goal: Ended)
    requires On(env, malloc, io, sh, w, goal) && w.phase.UndoMisses? && w.pos == |w.plan|
    ensures Quiet(env, sh) && goal == Ended(sh, w.rc)
  {
    Follow(env, malloc, io, sh, w, goal, Moved(sh, Idle));
  }

  lemma {:induction false} FollowBegin(
      env: Env, malloc: Malloc, io: Device, sh: Shared, path: Path, start: nat, buf: seq<Block>)
    requires Fresh(malloc) && Quiet(env, sh) && forall b :: b in buf ==> env.inPlay(b)
    ensures var w := Begin(path, start, buf); On(env, malloc, io, sh, w, Drive(env, malloc, io, sh, w))
  {
    BeginView(env, sh, Begin(path, start, buf));
  }

  /** Pass 1.5, from the drained free list to the numbered slots. */
  lemma {:induction false} FollowAllocation(
      env: Env, malloc: Malloc, io: Device, sh: Shared, w: Job, goal: Ended, sh': Shared, w': Job)
    requires On(env, malloc, io, sh, w, goal) && w.phase.Draining?
    requires var m, k := Misses(w.plan), Min(Misses(w.plan), |sh.freeList|);
             && sh' == sh.(freeList := sh.freeList[k..], next := sh.next + (m - k))
             && w' == w.(phase := Placing, pos := 0, out := sh.freeList[..k] + Range(sh.next, m - k))
    ensures On(env, malloc, io, sh', w', goal)
  {
    var s := Drain(sh, w);
    FollowDrain(env, malloc, io, sh, w, goal);
    assert s.w.plan == w.plan && |s.w.out| == Min(Misses(w.plan), |sh.freeList|);
    FollowAppend(env, malloc, io, s.sh, s.w, goal);
    var t := Append(s.sh, s.w);
    assert t.sh == sh' && t.w == w';
  }

  lemma {:induction false} FlushCase(sh: Shared, w: Job, o: Outcome)
    requires w.phase.Flushing? && w.pos < |w.plan| == |w.buf|
    ensures var s := Flush(sh, w, o);
            if !w.plan[w.pos].Placed? then s == Stepped(sh, w.(pos := w.pos + 1))
            else
              var j, x := RunEnd(w.plan, w.pos), w.plan[w.pos].slot;
              if o.Full? then s == Stepped(sh.(disk := Pwrite(sh.disk, x, w.buf[w.pos..j])), w.(pos := j))
              else s == Stepped(sh.(disk := TornPwrite(sh.disk, x, j - w.pos, o.patch)),
                                w.(phase := UndoHits, pos := 0, rc := Code(o)))
  {}

  /** The disk and the job after the flush. */
  ghost predicate Flushes(sh: Shared, w: Job, f: Flushed, sh': Shared, w': Job) {
    && sh' == sh.(disk := f.disk)
    && w' == if f.rc == 0 then w.(phase := Publishing, pos := 0) else w.(phase := UndoHits, pos := 0, rc := f.rc)
  }

  lemma {:induction false} FlushesMore(sh: Shared, w: Job, io: Device, s: Stepped, sh': Shared, w': Job)
    requires w.phase.Flushing? && w.pos < |w.plan| == |w.buf| && s == Flush(sh, w, At(io, w.pos)) && s.w.phase.Flushing?
    requires Flushes(sh, w, FlushFrom(sh.disk, w.plan, w.buf, io, w.pos), sh', w')
    ensures s.w.plan == w.plan && s.w.buf == w.buf && w.pos < s.w.pos <= |w.plan|
    ensures Flushes(s.sh, s.w, FlushFrom(s.sh.disk, w.plan, w.buf, io, s.w.pos), sh', w')
  {
    FlushCase(sh, w, At(io, w.pos));
    FlushFromStep(sh.disk, w.plan, w.buf, io, w.pos);
  }

  lemma {:induction false} FlushesNoMore(sh: Shared, w: Job, io: Device, s: Stepped, sh': Shared, w': Job)
    requires w.phase.Flushing? && w.pos < |w.plan| == |w.buf| && s == Flush(sh, w, At(io, w.pos))
        && !s.w.phase.Flushing?
    requires Flushes(sh, w, FlushFrom(sh.disk, w.plan, w.buf, io, w.pos), sh', w')
    ensures sh' == s.sh && w' == s.w
  {
    FlushCase(sh, w, At(io, w.pos));
    FlushFromStep(sh.disk, w.plan, w.buf, io, w.pos);
  }

  /** Pass 2, from any position on: the flush of the plan, then the next phase or a rollback. */
  lemma {:induction false} FollowFlushPlan(
      env: Env, malloc: Malloc, io: Device, sh: Shared, w: Job, goal: Ended, sh': Shared, w': Job)
    requires On(env, malloc, io, sh, w, goal) && w.phase.Flushing? && w.pos <= |w.plan| == |w.buf|
    requires Flushes(sh, w, FlushFrom(sh.disk, w.plan, w.buf, io, w.pos), sh', w')
    ensures On(env, malloc, io, sh', w', goal)
    decreases |w.plan| - w.pos
  {
    if w.pos == |w.plan| {
      FollowAdvance(env, malloc, io, sh, w, goal);
      assert sh' == sh && w' == Advance(w);
    } else {
      var s := Flush(sh, w, At(io, w.pos));
      FollowFlush(env, malloc, io, sh, w, goal);
      if s.w.phase.Flushing? {
        FlushesMore(sh, w, io, s, sh', w');
        FollowFlushPlan(env, malloc, io, s.sh, s.w, goal, sh', w');
      } else {
        FlushesNoMore(sh, w, io, s, sh', w');
      }
    }
  }
}
