/** What each step of a writer leaves alone. */
module Frames {
  import opened Model
  import opened Steps
  import opened Invariant
  import opened StepProofs
  import opened Lifecycle

  /** An object that is alive before and after keeps its hash, and its slot if it is published. */
  ghost predicate SameInfo(sh: Shared, sh': Shared, p: Ptr) {
    p in sh.heap && p in sh'.heap ==>
      && sh'.heap[p].hash == sh.heap[p].hash
      && (Published(sh, p) ==> sh'.heap[p].slot == sh.heap[p].slot)
  }

  /** Only the mapping loop writes the logical index, only the size update the size table and
      only the flush the disk; the request itself never changes, and no info is rewritten.
      The master grows in one phase only. */
  ghost predicate Frame(sh: Shared, w: Job, m: Moved, p: Ptr) {
    && (!w.phase.Mapping? ==> m.sh.fileToMaster == sh.fileToMaster)
    && (!w.phase.Resizing? ==> m.sh.sizes == sh.sizes)
    && (!w.phase.Flushing? ==> m.sh.disk == sh.disk)
    && (!w.phase.Appending? ==> m.sh.next == sh.next)
    && sh.disk.Keys <= m.sh.disk.Keys
    && (m.t.Idle? || (m.t.Writer? && m.t.job.buf == w.buf && m.t.job.path == w.path && m.t.job.start == w.start))
    && (!w.phase.Mapping? ==> SameInfo(sh, m.sh, p))
  }

  lemma {:induction false} UnmapInfos(sh: Shared, key: Key, p: Ptr)
    ensures SameInfo(sh, Unmap(sh, key).sh, p)
    ensures Unmap(sh, key).sh.fileToMaster == Remove(sh.fileToMaster, key)
            || (key !in sh.fileToMaster && Unmap(sh, key).sh.fileToMaster == sh.fileToMaster)
  {}

  lemma {:induction false} DecideFrame(env: Env, sh: Shared, w: Job, addr: Ptr, p: Ptr)
    requires w.phase.Deciding? && |w.plan| < |w.buf| && addr !in sh.heap
    ensures Frame(sh, w, ToMoved(Decide(env, sh, w, addr)), p)
  {}

  lemma {:induction false} PlaceFrame(env: Env, sh: Shared, w: Job, rest: Claims, p: Ptr)
    requires View(env, sh, w, rest) && w.phase.Placing? && w.pos < |w.plan|
    ensures Frame(sh, w, ToMoved(Place(sh, w)), p)
  {
    if w.plan[w.pos].Miss? { MinePrivate(env, sh, w, rest, w.pos); }
  }

  lemma {:induction false} FlushFrame(sh: Shared, w: Job, outcome: Outcome, p: Ptr)
    requires w.phase.Flushing? && w.pos < |w.plan| == |w.buf|
    ensures Frame(sh, w, ToMoved(Flush(sh, w, outcome)), p)
  {
    var m := ToMoved(Flush(sh, w, outcome));
    assert sh.disk.Keys <= m.sh.disk.Keys;
  }

  lemma {:induction false} PublishFrame(sh: Shared, w: Job, p: Ptr)
    requires w.phase.Publishing? && w.pos < |w.plan|
    ensures Frame(sh, w, ToMoved(Publish(sh, w)), p)
  {}

  lemma {:induction false} RepairedFrame(sh: Shared, w: Job, p: Ptr)
    requires w.phase.Publishing? && w.pos < |w.plan|
    ensures Frame(sh, w, ToMoved(PublishRepaired(sh, w)), p)
  {
    PublishFrame(sh, w, p);
  }

  /** Dropping a reference touches the heap and the hash index only. */
  lemma {:induction false} DropElsewhere(sh: Shared, p: Ptr)
    ensures var d := Drop(sh, p).sh;
            && d.sizes == sh.sizes && d.disk == sh.disk && d.fileToMaster == sh.fileToMaster
            && d.freeList == sh.freeList && d.next == sh.next
  {}

  lemma {:induction false} RedirectElsewhere(sh: Shared, key: Key, q: Ptr)
    ensures var d := Redirect(sh, key, q).sh; d.sizes == sh.sizes && d.disk == sh.disk && d.next == sh.next
  {
    if key in sh.fileToMaster {
      DropElsewhere(sh.(fileToMaster := Remove(sh.fileToMaster, key)), sh.fileToMaster[key]);
    }
  }

  lemma {:induction false} MapFrame(sh: Shared, w: Job, p: Ptr)
    requires w.phase.Mapping? && w.pos < |w.plan|
    ensures Frame(sh, w, ToMoved(MapBlock(sh, w)), p)
  {
    var m := ToMoved(MapBlock(sh, w));
    if w.plan[w.pos].Hit? { RedirectElsewhere(sh, Key(w.path, w.start + w.pos), w.plan[w.pos].info); 
      assert m.sh == Redirect(sh, Key(w.path, w.start + w.pos), w.plan[w.pos].info).sh;
      assert m.sh.disk == sh.disk;
    }
    assert m.t.Writer? && m.t.job.buf == w.buf && m.t.job.path == w.path && m.t.job.start == w.start;
  }

  lemma {:induction false} UndoHitFrame(sh: Shared, w: Job, p: Ptr)
    requires w.phase.UndoHits? && w.pos < |w.plan|
    ensures Frame(sh, w, ToMoved(UndoHit(sh, w)), p)
  {}

  lemma {:induction false} UndoMissFrame(sh: Shared, w: Job, p: Ptr)
    requires w.phase.UndoMisses? && w.pos < |w.plan|
    ensures Frame(sh, w, ToMoved(UndoMiss(sh, w)), p)
  {}

  /** The loop of a phase is over, or the phase has no loop. */
  predicate AtEnd(w: Job) {
    match w.phase
    case Deciding => |w.plan| >= |w.buf|
    case Placing => w.pos >= |w.plan|
    case Flushing => w.pos >= |w.plan|
    case Publishing => w.pos >= |w.plan|
    case Mapping => w.pos >= |w.plan|
    case UndoHits => w.pos >= |w.plan|
    case UndoMisses => w.pos >= |w.plan|
    case _ => true
  }

  lemma {:induction false} AdvanceFrame(sh: Shared, w: Job, p: Ptr)
    ensures Frame(sh, w, ToMoved(Stepped(sh, Advance(w))), p)
  {}

  lemma {:induction false} GiveBackFrame(env: Env, repaired: bool, sh: Shared, w: Job, ch: Choice, p: Ptr)
    requires ListsOk(w) && (w.phase in {Resizing, Releasing, ReleaseHits} || (w.phase.UndoMisses? && w.pos >= |w.plan|))
    ensures Frame(sh, w, WriterStep(env, repaired, sh, w, ch), p)
  {}

  lemma {:induction false} EndFrame(env: Env, repaired: bool, sh: Shared, w: Job, ch: Choice, p: Ptr)
    requires ListsOk(w) && AtEnd(w)
    ensures Frame(sh, w, WriterStep(env, repaired, sh, w, ch), p)
  {
    if w.phase in {Resizing, Releasing, ReleaseHits, UndoMisses} {
      GiveBackFrame(env, repaired, sh, w, ch, p);
    } else if !w.phase.Draining? && !w.phase.Appending? {
      AdvanceFrame(sh, w, p);
    }
  }

  lemma {:induction false} WriterFramed(env: Env, repaired: bool, sh: Shared, w: Job, ch: Choice, rest: Claims, p: Ptr)
    requires View(env, sh, w, rest) && LegalChoice(sh, ch)
    ensures Frame(sh, w, WriterStep(env, repaired, sh, w, ch), p)
  {
    if AtEnd(w) { EndFrame(env, repaired, sh, w, ch, p); }
    else if w.phase.Deciding? { DecideFrame(env, sh, w, ch.addr, p); }
    else if w.phase.Placing? { PlaceFrame(env, sh, w, rest, p); }
    else if w.phase.Flushing? { FlushFrame(sh, w, ch.outcome, p); }
    else if w.phase.Publishing? { if repaired { RepairedFrame(sh, w, p); } else { PublishFrame(sh, w, p); } }
    else if w.phase.Mapping? { MapFrame(sh, w, p); }
    else if w.phase.UndoHits? { UndoHitFrame(sh, w, p); }
    else { UndoMissFrame(sh, w, p); }
  }
}
