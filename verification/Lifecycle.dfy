/** The remaining steps of a thread: phase changes, releases, removals, and the publication
    step with and without its guard. Together with StepProofs: every step of a writer or a
    remover keeps the balance. */
module Lifecycle {
  import opened Model
  import opened Steps
  import opened Invariant
  import opened Accounting
  import opened StepProofs

  /** The balance after a thread moved, and what the other threads can rely on. */
  ghost predicate Balanced(env: Env, sh: Shared, m: Moved, rest: Claims) {
    && Global(env, m.sh, rest.Plus(ThreadClaims(m.t)))
    && ThreadOk(env, m.sh, m.t)
    && Framed(sh, m.sh, rest)
  }

  // ------------------------------------------------------------------------- phase changes

  lemma {:induction false} NoMisses(plan: seq<Entry>, n: nat)
    requires n <= |plan| && forall i: nat :: i < n ==> !plan[i].Miss?
    ensures MissesTo(plan, n) == 0
  {
    if n > 0 { NoMisses(plan, n - 1); }
  }

  /** The end of the loop of a phase. */
  lemma {:induction false} AdvanceKeeps(env: Env, sh: Shared, w: Job, rest: Claims)
    requires View(env, sh, w, rest)
    requires match w.phase
             case Deciding => |w.plan| == |w.buf|
             case Placing => w.pos == |w.plan|
             case Flushing => w.pos == |w.plan|
             case Publishing => w.pos == |w.plan|
             case Mapping => w.pos == |w.plan|
             case UndoHits => w.pos == |w.plan|
             case _ => false
    ensures Keeps(env, sh, Stepped(sh, Advance(w)), rest)
  {
    var w' := Advance(w);
    if w.phase.Placing? {
      forall i: nat | i < |w.plan| ensures !w.plan[i].Miss? { assert KindsOk(w, i); }
      NoMisses(w.plan, |w.plan|);
    }
    forall i: nat | i < |w.plan| && KindsOk(w, i) ensures KindsOk(w', i) {
      if w.phase.Deciding? { PlanMember(w.plan, i); }
    }
    forall k: nat ensures SameAt(rest.Plus(JobClaims(w)), rest.Plus(JobClaims(w')), k) {}
    LocalStep(env, sh, sh, w, w', rest);
    Assemble(env, sh, Stepped(sh, w'), rest, rest.Plus(JobClaims(w)));
  }

  /** Changing the size table only. */
  lemma {:induction false} SizesOnly(env: Env, sh: Shared, sizes: map<Path, nat>, c: Claims)
    requires Global(env, sh, c)
    ensures Global(env, sh.(sizes := sizes), c) && Framed(sh, sh.(sizes := sizes), c)
  {
    var sh' := sh.(sizes := sizes);
    IndexOnly(env, sh, sh');
    forall q: Ptr ensures ExactAt(sh', c, q) { assert ExactAt(sh, c, q); }
    forall j ensures FileLinked(sh', j) { assert FileLinked(sh, j); }
    forall q: Ptr ensures ApartAt(sh', c, q) { assert ApartAt(sh, c, q); }
    forall x: nat ensures ConservedAt(sh', c, x) { assert ConservedAt(sh, c, x); }
    FramedElsewhere(sh, sh', c);
  }

  lemma {:induction false} ResizeKeeps(env: Env, sh: Shared, w: Job, rest: Claims)
    requires View(env, sh, w, rest) && w.phase.Resizing?
    ensures Keeps(env, sh, Resize(sh, w), rest)
  {
    var s := Resize(sh, w);
    SizesOnly(env, sh, s.sh.sizes, rest.Plus(JobClaims(w)));
    forall k: nat ensures SameAt(rest.Plus(JobClaims(w)), rest.Plus(JobClaims(s.w)), k) {}
    LocalStep(env, sh, s.sh, w, s.w, rest);
    Assemble(env, sh, s, rest, rest.Plus(JobClaims(w)));
  }

  /** Slots of a release list go back to the free list. */
  lemma {:induction false} GiveBackGlobal(env: Env, sh: Shared, c: Claims, xs: seq<nat>)
    requires Global(env, sh, c.Owns(xs))
    ensures Global(env, GiveBack(sh, xs), c) && Framed(sh, GiveBack(sh, xs), c)
  {
    MoveSlotsIn(env, sh, c, xs);
    FramedElsewhere(sh, GiveBack(sh, xs), c.Owns(xs));
    FramedSub(sh, GiveBack(sh, xs), c.Owns(xs), c);
  }

  lemma {:induction false} DoneClaims(plan: seq<Entry>, n: nat, k: nat)
    requires n <= |plan| && forall i: nat :: i < n ==> plan[i].Done?
    ensures RefsTo(plan, n, k) == 0 && PendingTo(plan, n, k) == 0 && SlotsTo(plan, n, k) == 0
  {
    if n > 0 { DoneClaims(plan, n - 1, k); }
  }

  /** A finished job claims nothing but its release list. */
  lemma {:induction false} FinishedClaims(rest: Claims, w: Job)
    requires forall i: nat :: i < |w.plan| ==> w.plan[i].Done?
    requires w.out == []
    ensures Same(rest.Plus(JobClaims(w)), rest.Plus(Nothing).Owns(w.release))
  {
    forall k: nat ensures SameAt(rest.Plus(JobClaims(w)), rest.Plus(Nothing).Owns(w.release), k) {
      DoneClaims(w.plan, |w.plan|, k);
    }
  }

  lemma {:induction false} ReleaseBalanced(env: Env, sh: Shared, w: Job, rest: Claims)
    requires View(env, sh, w, rest) && w.phase.Releasing?
    ensures Balanced(env, sh, Moved(GiveBack(sh, w.release), Idle), rest)
  {
    forall i: nat | i < |w.plan| ensures w.plan[i].Done? { assert KindsOk(w, i); }
    FinishedClaims(rest, w);
    GlobalSame(env, sh, rest.Plus(JobClaims(w)), rest.Plus(Nothing).Owns(w.release));
    GiveBackGlobal(env, sh, rest.Plus(Nothing), w.release);
    FramedSub(sh, GiveBack(sh, w.release), rest.Plus(Nothing), rest);
  }

  lemma {:induction false} FinishBalanced(env: Env, sh: Shared, w: Job, rest: Claims)
    requires View(env, sh, w, rest) && w.phase.UndoMisses? && w.pos == |w.plan|
    ensures Balanced(env, sh, Moved(sh, Idle), rest)
  {
    forall i: nat | i < |w.plan| ensures w.plan[i].Done? { assert KindsOk(w, i); }
    FinishedClaims(rest, w);
    forall k: nat ensures SameAt(rest.Plus(JobClaims(w)), rest.Plus(Nothing), k) {
      assert SameAt(rest.Plus(JobClaims(w)), rest.Plus(Nothing).Owns(w.release), k);
    }
    GlobalSame(env, sh, rest.Plus(JobClaims(w)), rest.Plus(Nothing));
    FramedElsewhere(sh, sh, rest.Plus(JobClaims(w)));
    FramedSub(sh, sh, rest.Plus(JobClaims(w)), rest);
  }

  lemma {:induction false} ReleaseHitsKeeps(env: Env, sh: Shared, w: Job, rest: Claims)
    requires View(env, sh, w, rest) && w.phase.ReleaseHits?
    ensures Keeps(env, sh, Stepped(GiveBack(sh, w.release), w.(phase := UndoMisses, pos := 0, release := [])), rest)
  {
    var w' := w.(phase := UndoMisses, pos := 0, release := []);
    var c := rest.Plus(JobClaims(w'));
    forall k: nat ensures SameAt(rest.Plus(JobClaims(w)), c.Owns(w.release), k) {}
    GlobalSame(env, sh, rest.Plus(JobClaims(w)), c.Owns(w.release));
    GiveBackGlobal(env, sh, c, w.release);
    LocalStep(env, sh, GiveBack(sh, w.release), w, w', rest);
    forall k: nat ensures SameAt(c, c, k) {}
    Assemble(env, sh, Stepped(GiveBack(sh, w.release), w'), rest, c);
  }

  // ------------------------------------------------------------------------- the lost race

  /** The references on the pending info of a placed entry are those of the plan itself. */
  lemma {:induction false} PendingRefs(env: Env, sh: Shared, w: Job, rest: Claims)
    requires View(env, sh, w, rest) && w.pos < |w.plan| && w.plan[w.pos].Placed?
    ensures var p := w.plan[w.pos].info;
            && p in sh.heap && sh.heap[p].refcount == RefsTo(w.plan, |w.plan|, p) >= 1
            && MappedTo(sh.fileToMaster, p) == {} && rest.Refs(p) == 0
  {
    var p, c := w.plan[w.pos].info, rest.Plus(JobClaims(w));
    assert EntryOk(env, sh, w, w.pos);
    MinePrivate(env, sh, w, rest, w.pos);
    assert ExactAt(sh, c, p);
    forall k | k in sh.fileToMaster ensures sh.fileToMaster[k] != p { assert FileLinked(sh, k); }
    assert MappedTo(sh.fileToMaster, p) == {};
  }

  /** Without the guard the publication of a race loser breaks the balance. */
  lemma {:induction false} LostDupBreaks(env: Env, sh: Shared, w: Job, rest: Claims)
    requires View(env, sh, w, rest) && w.phase.Publishing? && w.pos < |w.plan| && !NoLostDup(sh, w)
    ensures !RefsExact(Publish(sh, w).sh, rest.Plus(JobClaims(Publish(sh, w).w)))
  {
    var p, s := w.plan[w.pos].info, Publish(sh, w);
    PendingRefs(env, sh, w, rest);
    MinePrivate(env, sh, w, rest, w.pos);
    HashIsPublished(sh, sh.heap[p].hash);
    UpdateTo(w.plan, w.pos, s.w.plan[w.pos], |w.plan|, p);
    assert !ExactAt(s.sh, rest.Plus(JobClaims(s.w)), p);
  }

  /** The exact condition: a publication step keeps the balance if and only if no other
      reference hangs on the pending info of a race loser. */
  lemma {:induction false} PublishKeepsIff(env: Env, sh: Shared, w: Job, rest: Claims)
    requires View(env, sh, w, rest) && w.phase.Publishing? && w.pos < |w.plan|
    ensures Keeps(env, sh, Publish(sh, w), rest) <==> NoLostDup(sh, w)
  {
    if NoLostDup(sh, w) { PublishKeeps(env, sh, w, rest); } else { LostDupBreaks(env, sh, w, rest); }
  }

  lemma {:induction false} OneRef(plan: seq<Entry>, i: nat, n: nat, p: Ptr)
    requires i < n <= |plan| && !plan[i].Done? && plan[i].info == p
    ensures RefsTo(plan, n, p) == 1 <==> forall j: nat :: j < n && j != i ==> plan[j].Done? || plan[j].info != p
  {
    var others := plan[i := Done];
    UpdateTo(plan, i, Done, n, p);
    NoRefs(others, n, p);
    forall j: nat | j < n && j != i ensures others[j] == plan[j] {}
  }

  lemma {:induction false} NoRefs(plan: seq<Entry>, n: nat, p: Ptr)
    requires n <= |plan|
    ensures RefsTo(plan, n, p) == 0 <==> forall j: nat :: j < n ==> plan[j].Done? || plan[j].info != p
  {
    if n > 0 { NoRefs(plan, n - 1, p); }
  }

  /** The guard, read off the plan: a loser shares its pending info with no other entry. */
  lemma {:induction false} NoLostDupMeans(env: Env, sh: Shared, w: Job, rest: Claims)
    requires View(env, sh, w, rest) && w.phase.Publishing? && w.pos < |w.plan| && w.plan[w.pos].Placed?
    requires env.hash(w.buf[w.pos]) in sh.hashToMaster
    ensures NoLostDup(sh, w) <==>
            forall j: nat :: j < |w.plan| && j != w.pos ==> w.plan[j].Done? || w.plan[j].info != w.plan[w.pos].info
  {
    PendingRefs(env, sh, w, rest);
    assert EntryOk(env, sh, w, w.pos);
    OneRef(w.plan, w.pos, |w.plan|, w.plan[w.pos].info);
  }

  /** All blocks of a request hash differently. */
  ghost predicate DistinctBlocks(env: Env, buf: seq<Block>) {
    forall i: nat, j: nat :: i < j < |buf| ==> env.hash(buf[i]) != env.hash(buf[j])
  }

  /** A request without repeated blocks never meets the case that the guard excludes. */
  lemma {:induction false} DistinctIsSafe(env: Env, sh: Shared, w: Job, rest: Claims)
    requires View(env, sh, w, rest) && w.phase.Publishing? && w.pos < |w.plan| && DistinctBlocks(env, w.buf)
    ensures NoLostDup(sh, w)
  {
    assert EntryOk(env, sh, w, w.pos);
    if w.plan[w.pos].Placed? && env.hash(w.buf[w.pos]) in sh.hashToMaster {
      NoLostDupMeans(env, sh, w, rest);
      forall j: nat | j < |w.plan| && j != w.pos && !w.plan[j].Done?
        ensures w.plan[j].info != w.plan[w.pos].info
      {
        assert EntryOk(env, sh, w, j);
        assert env.hash(w.buf[if j < w.pos then j else w.pos]) != env.hash(w.buf[if j < w.pos then w.pos else j]);
      }
    }
  }

  // ------------------------------------------------------------------- the repaired step

  lemma {:induction false} RedirectedTo(plan: seq<Entry>, p: Ptr, q: Ptr, n: nat, k: nat)
    requires n <= |plan| && p != q
    ensures RefsTo(Redirected(plan, p, q), n, k)
            == if k == p then 0 else RefsTo(plan, n, k) + if k == q then RefsTo(plan, n, p) else 0
    ensures PendingTo(Redirected(plan, p, q), n, k) == if k == p then 0 else PendingTo(plan, n, k)
  {
    if n > 0 { RedirectedTo(plan, p, q, n - 1, k); }
  }

  /** Slots are held by the redirected plan except the slot of the one placed entry on p. */
  lemma {:induction false} RedirectedSlots(plan: seq<Entry>, i: nat, q: Ptr, n: nat, k: nat)
    requires i < |plan| && n <= |plan| && plan[i].Placed? && plan[i].info != q
    requires forall j: nat :: j < |plan| && j != i && plan[j].Placed? ==> plan[j].info != plan[i].info
    ensures SlotsTo(Redirected(plan, plan[i].info, q), n, k) + (if i < n && plan[i].slot == k then 1 else 0)
            == SlotsTo(plan, n, k)
  {
    if n > 0 { RedirectedSlots(plan, i, q, n - 1, k); }
  }

  /** The situation of a race loser. */
  ghost predicate Lost(env: Env, sh: Shared, w: Job, rest: Claims) {
    && View(env, sh, w, rest) && w.phase.Publishing? && w.pos < |w.plan| && w.plan[w.pos].Placed?
    && w.plan[w.pos].info in sh.heap && sh.heap[w.plan[w.pos].info].hash in sh.hashToMaster
  }

  lemma {:induction false} LostFacts(env: Env, sh: Shared, w: Job, rest: Claims)
    requires Lost(env, sh, w, rest)
    ensures var p := w.plan[w.pos].info;
            var q := sh.hashToMaster[sh.heap[p].hash];
            && p != q && !Published(sh, p) && Published(sh, q) && sh.heap[q].hash == sh.heap[p].hash
            && sh.heap[p].refcount == RefsTo(w.plan, |w.plan|, p)
            && MappedTo(sh.fileToMaster, p) == {} && rest.Refs(p) == 0 && rest.Pending(p) == 0
            && KeepsIndexed(sh, PublishRepaired(sh, w).sh)
    ensures forall j: nat :: j < |w.plan| && j != w.pos && w.plan[j].Placed? ==> w.plan[j].info != w.plan[w.pos].info
  {
    var p := w.plan[w.pos].info;
    var q, sh' := sh.hashToMaster[sh.heap[p].hash], PublishRepaired(sh, w).sh;
    PendingRefs(env, sh, w, rest);
    MinePrivate(env, sh, w, rest, w.pos);
    PlanMember(w.plan, w.pos);
    PendingPrivate(sh, JobClaims(w), rest, p);
    HashIsPublished(sh, sh.heap[p].hash);
    assert HashLinked(sh, sh.heap[p].hash);
    forall h ensures KeepsHash(sh, sh', h) { assert HashLinked(sh, h); }
    forall j: nat | j < |w.plan| && j != w.pos && w.plan[j].Placed? ensures w.plan[j].info != p {
      EntriesApart(env, sh, w, rest, j, w.pos);
    }
  }

  lemma {:induction false} RepairedGlobal(env: Env, sh: Shared, w: Job, rest: Claims)
    requires Lost(env, sh, w, rest)
    ensures var s := PublishRepaired(sh, w); Global(env, s.sh, rest.Plus(JobClaims(s.w)))
  {
    var p, s, c := w.plan[w.pos].info, PublishRepaired(sh, w), rest.Plus(JobClaims(w));
    var q, c' := sh.hashToMaster[sh.heap[p].hash], rest.Plus(JobClaims(s.w));
    LostFacts(env, sh, w, rest);
    SameLinks(env, sh, s.sh);
    forall r: Ptr ensures ExactAt(s.sh, c', r) {
      assert ExactAt(sh, c, r) && ExactAt(sh, c, p);
      RedirectedTo(w.plan, p, q, |w.plan|, r);
    }
    forall r: Ptr ensures ApartAt(s.sh, c', r) {
      assert ApartAt(sh, c, r) && ApartAt(sh, c, q);
      RedirectedTo(w.plan, p, q, |w.plan|, r);
      SamePublished(sh, s.sh, r);
    }
    forall x: nat ensures c'.Slots(x) == c.Slots(x) {
      RedirectedSlots(w.plan, w.pos, q, |w.plan|, x);
      assert multiset(s.w.release) == multiset([w.plan[w.pos].slot]) + multiset(w.release);
    }
    SameOwners(sh, s.sh, c, c');
  }

  lemma {:induction false} RepairedEntry(env: Env, sh: Shared, w: Job, rest: Claims, i: nat)
    requires Lost(env, sh, w, rest) && i < |w.plan|
    ensures var s := PublishRepaired(sh, w);
            EntryOk(env, s.sh, s.w, i) && KindsOk(s.w, i) && WrittenAt(s.sh, s.w, i)
  {
    var p, s := w.plan[w.pos].info, PublishRepaired(sh, w);
    var q := sh.hashToMaster[sh.heap[p].hash];
    LostFacts(env, sh, w, rest);
    assert EntryOk(env, sh, w, i) && KindsOk(w, i) && WrittenAt(sh, w, i);
    SamePublished(sh, s.sh, q);
    assert KeepsHash(sh, s.sh, sh.heap[p].hash);
    if !w.plan[i].Done? && w.plan[i].info != p {
      SamePublished(sh, s.sh, w.plan[i].info);
      RedirectedTo(w.plan, p, q, |w.plan|, w.plan[i].info);
    }
  }

  lemma {:induction false} RepairedKeeps(env: Env, sh: Shared, w: Job, rest: Claims)
    requires View(env, sh, w, rest) && w.phase.Publishing? && w.pos < |w.plan|
    ensures Keeps(env, sh, PublishRepaired(sh, w), rest)
  {
    var s := PublishRepaired(sh, w);
    assert KindsOk(w, w.pos) && EntryOk(env, sh, w, w.pos);
    if w.plan[w.pos].Placed? && sh.heap[w.plan[w.pos].info].hash in sh.hashToMaster {
      LostFacts(env, sh, w, rest);
      RepairedGlobal(env, sh, w, rest);
      forall i: nat | i < |w.plan| ensures EntryOk(env, s.sh, s.w, i) && KindsOk(s.w, i) && WrittenAt(s.sh, s.w, i) {
        RepairedEntry(env, sh, w, rest, i);
      }
      forall p: Ptr | rest.Refs(p) > 0 ensures KeepsInfo(sh, s.sh, p) {
        assert ExactAt(sh, rest.Plus(JobClaims(w)), p);
      }
      FramedIf(sh, s.sh, rest);
      forall k: nat ensures SameAt(rest.Plus(JobClaims(s.w)), rest.Plus(JobClaims(s.w)), k) {}
      Assemble(env, sh, s, rest, rest.Plus(JobClaims(s.w)));
    } else {
      PublishKeeps(env, sh, w, rest);
    }
  }

  // ------------------------------------------------------------------------- every step

  /** What the source leaves to chance is legal: malloc returns an address not in use. */
  predicate LegalChoice(sh: Shared, ch: Choice) { ch.addr !in sh.heap }

  /** The guard of a writer's next step. */
  predicate Guarded(repaired: bool, sh: Shared, w: Job)
    requires ListsOk(w)
  {
    !repaired && w.phase.Publishing? && w.pos < |w.plan| ==> NoLostDup(sh, w)
  }

  lemma {:induction false} BeforeCommit(env: Env, repaired: bool, sh: Shared, w: Job, ch: Choice, rest: Claims)
    requires View(env, sh, w, rest) && LegalChoice(sh, ch)
    requires w.phase in {Deciding, Draining, Appending, Placing, Flushing}
    ensures Balanced(env, sh, WriterStep(env, repaired, sh, w, ch), rest)
  {
    match w.phase
    case Deciding =>
      if |w.plan| < |w.buf| { DecideKeeps(env, sh, w, ch.addr, rest); } else { AdvanceKeeps(env, sh, w, rest); }
    case Draining => DrainKeeps(env, sh, w, rest);
    case Appending => AppendKeeps(env, sh, w, rest);
    case Placing => if w.pos < |w.plan| { PlaceKeeps(env, sh, w, rest); } else { AdvanceKeeps(env, sh, w, rest); }
    case Flushing =>
      if w.pos < |w.plan| { FlushKeeps(env, sh, w, rest, ch.outcome); } else { AdvanceKeeps(env, sh, w, rest); }
  }

  lemma {:induction false} AtCommit(env: Env, repaired: bool, sh: Shared, w: Job, ch: Choice, rest: Claims)
    requires View(env, sh, w, rest) && Guarded(repaired, sh, w)
    requires w.phase in {Publishing, Mapping, Resizing, Releasing}
    ensures Balanced(env, sh, WriterStep(env, repaired, sh, w, ch), rest)
  {
    match w.phase
    case Publishing =>
      if w.pos == |w.plan| { AdvanceKeeps(env, sh, w, rest); }
      else if repaired { RepairedKeeps(env, sh, w, rest); }
      else { PublishKeeps(env, sh, w, rest); }
    case Mapping => if w.pos < |w.plan| { MapKeeps(env, sh, w, rest); } else { AdvanceKeeps(env, sh, w, rest); }
    case Resizing => ResizeKeeps(env, sh, w, rest);
    case Releasing => ReleaseBalanced(env, sh, w, rest);
  }

  lemma {:induction false} AtRollback(env: Env, repaired: bool, sh: Shared, w: Job, ch: Choice, rest: Claims)
    requires View(env, sh, w, rest) && w.phase in {UndoHits, ReleaseHits, UndoMisses}
    ensures Balanced(env, sh, WriterStep(env, repaired, sh, w, ch), rest)
  {
    match w.phase
    case UndoHits => if w.pos < |w.plan| { UndoHitKeeps(env, sh, w, rest); } else { AdvanceKeeps(env, sh, w, rest); }
    case ReleaseHits => ReleaseHitsKeeps(env, sh, w, rest);
    case UndoMisses =>
      if w.pos < |w.plan| { UndoMissKeeps(env, sh, w, rest); } else { FinishBalanced(env, sh, w, rest); }
  }

  /** Every step of a writer keeps the balance. */
  lemma {:induction false} WriterBalanced(env: Env, repaired: bool, sh: Shared, w: Job, ch: Choice, rest: Claims)
    requires View(env, sh, w, rest) && LegalChoice(sh, ch) && Guarded(repaired, sh, w)
    ensures Balanced(env, sh, WriterStep(env, repaired, sh, w, ch), rest)
  {
    if w.phase in {Deciding, Draining, Appending, Placing, Flushing} {
      BeforeCommit(env, repaired, sh, w, ch, rest);
    } else if w.phase in {UndoHits, ReleaseHits, UndoMisses} {
      AtRollback(env, repaired, sh, w, ch, rest);
    } else {
      AtCommit(env, repaired, sh, w, ch, rest);
    }
  }

  /** Every step of a removal keeps the balance. */
  lemma {:induction false} RemoverBalanced(env: Env, sh: Shared, r: Removal, rest: Claims)
    requires Global(env, sh, rest.Plus(OfSlots(r.release)))
    ensures Balanced(env, sh, RemoverStep(sh, r), rest)
  {
    var m, c := RemoverStep(sh, r), rest.Plus(OfSlots(r.release));
    if r.pos < r.end {
      var d := Unmap(sh, Key(r.path, r.pos));
      UnmapGlobal(env, sh, c, Key(r.path, r.pos));
      assert multiset(d.freed + r.release) == multiset(d.freed) + multiset(r.release);
      forall k: nat ensures SameAt(c.Owns(d.freed), rest.Plus(OfSlots(d.freed + r.release)), k) {}
      GlobalSame(env, d.sh, c.Owns(d.freed), rest.Plus(OfSlots(d.freed + r.release)));
      FramedSub(sh, m.sh, c, rest);
    } else if r.release != [] {
      forall k: nat ensures SameAt(c, rest.Plus(OfSlots([])).Owns(r.release), k) {}
      GlobalSame(env, sh, c, rest.Plus(OfSlots([])).Owns(r.release));
      GiveBackGlobal(env, sh, rest.Plus(OfSlots([])), r.release);
      FramedSub(sh, m.sh, rest.Plus(OfSlots([])), rest);
    } else {
      SizesOnly(env, sh, m.sh.sizes, c);
      forall k: nat ensures SameAt(c, rest.Plus(Nothing), k) {}
      GlobalSame(env, m.sh, c, rest.Plus(Nothing));
      FramedSub(sh, m.sh, c, rest);
    }
  }
}
