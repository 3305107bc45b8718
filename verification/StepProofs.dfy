/** Every step of a job keeps the balance of the store and the plan of the job, and leaves
    the claims of the other threads alone. */
module StepProofs {
  import opened Model
  import opened Steps
  import opened Invariant
  import opened Accounting

  /** The view after a step, and what the others can rely on. */
  ghost predicate Keeps(env: Env, sh: Shared, s: Stepped, rest: Claims) {
    View(env, s.sh, s.w, rest) && Framed(sh, s.sh, rest)
  }

  lemma {:induction false} ClosedFramed(sh: Shared, sh': Shared, rest: Claims)
    requires Closed(sh, rest) && Framed(sh, sh', rest)
    ensures Closed(sh', rest)
  {
    forall p: Ptr ensures ClosedAt(sh', rest, p) { assert ClosedAt(sh, rest, p) && RefFramed(sh, sh', rest, p); }
  }

  lemma {:induction false} FramedTwice(sh: Shared, sh1: Shared, sh2: Shared, c: Claims)
    requires Framed(sh, sh1, c) && Framed(sh1, sh2, c)
    ensures Framed(sh, sh2, c)
  {
    forall p: Ptr ensures RefFramed(sh, sh2, c, p) { assert RefFramed(sh, sh1, c, p) && RefFramed(sh1, sh2, c, p); }
    forall x: nat ensures SlotFramed(sh, sh2, c, x) { assert SlotFramed(sh, sh1, c, x) && SlotFramed(sh1, sh2, c, x); }
  }

  /** A change outside the heap, the hash index and the disk frames every claim. */
  lemma {:induction false} FramedElsewhere(sh: Shared, sh': Shared, c: Claims)
    requires sh'.heap == sh.heap && sh'.hashToMaster == sh.hashToMaster && sh'.disk == sh.disk
    requires RefsExact(sh, c)
    ensures Framed(sh, sh', c)
  {
    forall p: Ptr ensures RefFramed(sh, sh', c, p) { assert ExactAt(sh, c, p); }
    forall x: nat ensures SlotFramed(sh, sh', c, x) {}
  }

  /** A step that frames all claims keeps the job as it is and frames the others. */
  lemma {:induction false} KeepAll(env: Env, sh: Shared, sh': Shared, w: Job, rest: Claims)
    requires View(env, sh, w, rest) && Framed(sh, sh', rest.Plus(JobClaims(w)))
    ensures JobOk(env, sh', w) && Closed(sh', rest) && Framed(sh, sh', rest)
  {
    FramedSub(sh, sh', rest.Plus(JobClaims(w)), rest);
    FramedSub(sh, sh', rest.Plus(JobClaims(w)), JobClaims(w));
    JobFramed(env, sh, sh', w);
    ClosedFramed(sh, sh', rest);
  }

  /** Assembles the outcome of a step from its parts. */
  lemma {:induction false} Assemble(env: Env, sh: Shared, s: Stepped, rest: Claims, c: Claims)
    requires Global(env, s.sh, c) && Same(c, rest.Plus(JobClaims(s.w)))
    requires Closed(sh, rest) && Framed(sh, s.sh, rest) && JobOk(env, s.sh, s.w)
    ensures Keeps(env, sh, s, rest)
  {
    GlobalSame(env, s.sh, c, rest.Plus(JobClaims(s.w)));
    ClosedFramed(sh, s.sh, rest);
  }

  // --------------------------------------------------------------------------------- pass 1

  lemma {:induction false} AppendEntry(env: Env, sh: Shared, w: Job, w': Job, e: Entry)
    requires JobOk(env, sh, w) && w.phase.Deciding? && |w.plan| < |w.buf|
    requires (e.Hit? && w' == w.(plan := w.plan + [e]))
             || (e.Miss? && e.info in sh.heap
                 && w' == w.(plan := w.plan + [e], pendingHashes := w.pendingHashes[sh.heap[e.info].hash := e.info]))
    requires e.info in sh.heap && sh.heap[e.info].hash == env.hash(w.buf[|w.plan|])
    requires e.Hit? ==> Published(sh, e.info) || PlanPending(w.plan, e.info) > 0
    ensures JobOk(env, sh, w')
  {
    PlanAppend(w.plan, e);
    forall p: Ptr ensures PlanPending(w'.plan, p) == PlanPending(w.plan, p) + EntryPending(e, p) {
      assert SameAt(OfPlan(w.plan + [e]), OfPlan(w.plan).With(e), p);
    }
    forall i: nat | i < |w'.plan| ensures EntryOk(env, sh, w', i) && KindsOk(w', i) && WrittenAt(sh, w', i) {
      if i < |w.plan| { assert EntryOk(env, sh, w, i) && KindsOk(w, i); }
    }
    forall h ensures HashPending(sh, w', h) { assert HashPending(sh, w, h); }
  }

  lemma {:induction false} AppendClaims(rest: Claims, w: Job, w': Job, e: Entry)
    requires w'.plan == w.plan + [e] && w'.out == w.out && w'.release == w.release
    ensures Same(rest.Plus(JobClaims(w)).With(e), rest.Plus(JobClaims(w')))
  {
    PlanAppend(w.plan, e);
    forall k: nat ensures SameAt(rest.Plus(JobClaims(w)).With(e), rest.Plus(JobClaims(w')), k) {
      assert SameAt(OfPlan(w.plan + [e]), OfPlan(w.plan).With(e), k);
    }
  }

  lemma {:induction false} DecideHit(env: Env, sh: Shared, w: Job, q: Ptr, rest: Claims)
    requires View(env, sh, w, rest) && w.phase.Deciding? && |w.plan| < |w.buf|
    requires q in sh.heap && sh.heap[q].hash == env.hash(w.buf[|w.plan|])
    requires Published(sh, q) || PlanPending(w.plan, q) > 0
    ensures Keeps(env, sh, Stepped(sh.(heap := Bump(sh.heap, q)), w.(plan := w.plan + [Hit(q)])), rest)
  {
    var sh', w' := sh.(heap := Bump(sh.heap, q)), w.(plan := w.plan + [Hit(q)]);
    TakeRef(env, sh, rest.Plus(JobClaims(w)), q);
    KeepAll(env, sh, sh', w, rest);
    AppendEntry(env, sh', w, w', Hit(q));
    AppendClaims(rest, w, w', Hit(q));
    Assemble(env, sh, Stepped(sh', w'), rest, rest.Plus(JobClaims(w)).Ref(q));
  }

  lemma {:induction false} DecideMiss(env: Env, sh: Shared, w: Job, addr: Ptr, rest: Claims)
    requires View(env, sh, w, rest) && w.phase.Deciding? && |w.plan| < |w.buf| && addr !in sh.heap
    ensures var h := env.hash(w.buf[|w.plan|]);
            Keeps(env, sh, Stepped(sh.(heap := sh.heap[addr := MasterInfo(h, 0, 1)]),
                                   w.(plan := w.plan + [Miss(addr)], pendingHashes := w.pendingHashes[h := addr])),
                  rest)
  {
    var h := env.hash(w.buf[|w.plan|]);
    var sh' := sh.(heap := sh.heap[addr := MasterInfo(h, 0, 1)]);
    var w' := w.(plan := w.plan + [Miss(addr)], pendingHashes := w.pendingHashes[h := addr]);
    NewPending(env, sh, rest.Plus(JobClaims(w)), addr, h);
    KeepAll(env, sh, sh', w, rest);
    AppendEntry(env, sh', w, w', Miss(addr));
    AppendClaims(rest, w, w', Miss(addr));
    Assemble(env, sh, Stepped(sh', w'), rest, rest.Plus(JobClaims(w)).With(Miss(addr)));
  }

  /** Pass 1, one block. */
  lemma {:induction false} DecideKeeps(env: Env, sh: Shared, w: Job, addr: Ptr, rest: Claims)
    requires View(env, sh, w, rest) && w.phase.Deciding? && |w.plan| < |w.buf| && addr !in sh.heap
    ensures Keeps(env, sh, Decide(env, sh, w, addr), rest)
  {
    var h := env.hash(w.buf[|w.plan|]);
    if h in sh.hashToMaster {
      HashIsPublished(sh, h);
      assert HashLinked(sh, h);
      DecideHit(env, sh, w, sh.hashToMaster[h], rest);
    } else if h in w.pendingHashes {
      assert HashPending(sh, w, h);
      DecideHit(env, sh, w, w.pendingHashes[h], rest);
    } else {
      DecideMiss(env, sh, w, addr, rest);
    }
  }

  // ------------------------------------------------------------------------------- pass 1.5

  /** Steps that leave the heap, the indices, the disk and the plan alone. */
  lemma {:induction false} LocalStep(env: Env, sh: Shared, sh': Shared, w: Job, w': Job, rest: Claims)
    requires View(env, sh, w, rest)
    requires sh'.heap == sh.heap && sh'.hashToMaster == sh.hashToMaster && sh'.disk == sh.disk
    requires w'.plan == w.plan && w'.buf == w.buf && ListsOk(w') && !w'.phase.Deciding?
    requires forall i: nat :: i < |w.plan| && KindsOk(w, i) ==> KindsOk(w', i)
    requires forall i: nat :: i < |w.plan| && KindsOk(w, i) && w.plan[i].Placed? && OnDisk(w', i) ==> OnDisk(w, i)
    ensures JobOk(env, sh', w') && Framed(sh, sh', rest)
  {
    FramedElsewhere(sh, sh', rest.Plus(JobClaims(w)));
    KeepAll(env, sh, sh', w, rest);
    forall i: nat | i < |w'.plan| ensures EntryOk(env, sh', w', i) && KindsOk(w', i) && WrittenAt(sh', w', i) {
      assert EntryOk(env, sh', w, i) && KindsOk(w, i) && WrittenAt(sh', w, i);
    }
  }

  lemma {:induction false} OutClaims(rest: Claims, w: Job, w': Job, xs: seq<nat>)
    requires w'.plan == w.plan && w'.release == w.release && w'.out == w.out + xs
    ensures Same(rest.Plus(JobClaims(w)).Owns(xs), rest.Plus(JobClaims(w')))
  {
    assert multiset(w'.out) == multiset(w.out) + multiset(xs);
    forall k: nat ensures SameAt(rest.Plus(JobClaims(w)).Owns(xs), rest.Plus(JobClaims(w')), k) {}
  }

  lemma {:induction false} DrainKeeps(env: Env, sh: Shared, w: Job, rest: Claims)
    requires View(env, sh, w, rest) && w.phase.Draining?
    ensures Keeps(env, sh, Drain(sh, w), rest)
  {
    var k := Min(Misses(w.plan), |sh.freeList|);
    var s, xs := Drain(sh, w), sh.freeList[..k];
    assert sh.freeList == xs + sh.freeList[k..];
    MoveSlotsOut(env, sh, rest.Plus(JobClaims(w)), xs, sh.freeList[k..]);
    OutClaims(rest, w, s.w, xs);
    LocalStep(env, sh, s.sh, w, s.w, rest);
    Assemble(env, sh, s, rest, rest.Plus(JobClaims(w)).Owns(xs));
  }

  lemma {:induction false} AppendKeeps(env: Env, sh: Shared, w: Job, rest: Claims)
    requires View(env, sh, w, rest) && w.phase.Appending?
    ensures Keeps(env, sh, Append(sh, w), rest)
  {
    var n, s := Misses(w.plan) - |w.out|, Append(sh, w);
    Reserve(env, sh, rest.Plus(JobClaims(w)), n);
    OutClaims(rest, w, s.w, Range(sh.next, n));
    LocalStep(env, sh, s.sh, w, s.w, rest);
    Assemble(env, sh, s, rest, rest.Plus(JobClaims(w)).Owns(Range(sh.next, n)));
  }

  // --------------------------------------------------------------------- one entry of a plan

  /** The job without the claims of its current entry. */
  function Without(w: Job): Job
    requires w.pos < |w.plan|
  {
    w.(plan := w.plan[w.pos := Done])
  }

  lemma {:induction false} Extract(rest: Claims, w: Job)
    requires w.pos < |w.plan|
    ensures Same(rest.Plus(JobClaims(w)), rest.Plus(JobClaims(Without(w))).With(w.plan[w.pos]))
  {
    PlanUpdate(w.plan, w.pos, Done);
    forall k: nat ensures SameAt(rest.Plus(JobClaims(w)), rest.Plus(JobClaims(Without(w))).With(w.plan[w.pos]), k) {
      assert SameAt(OfPlan(w.plan[w.pos := Done]).With(w.plan[w.pos]), OfPlan(w.plan).With(Done), k);
    }
  }

  lemma {:induction false} Insert(rest: Claims, w: Job, w': Job, e: Entry, freed: seq<nat>)
    requires w.pos < |w.plan| && w'.plan == w.plan[w.pos := e]
    requires w'.out == w.out && w'.release == freed + w.release
    ensures Same(rest.Plus(JobClaims(Without(w))).Owns(freed).With(e), rest.Plus(JobClaims(w')))
  {
    var d := w.plan[w.pos := Done];
    var c0 := rest.Plus(JobClaims(Without(w)));
    assert d[w.pos := e] == w'.plan;
    PlanUpdate(d, w.pos, e);
    assert multiset(w'.release) == multiset(freed) + multiset(w.release);
    forall k: nat ensures SameAt(c0.Owns(freed).With(e), rest.Plus(JobClaims(w')), k) {
      assert SameAt(OfPlan(d[w.pos := e]).With(d[w.pos]), OfPlan(d).With(e), k);
    }
  }

  /** Replacing the current entry changes the pending count of its own info at most. */
  lemma {:induction false} PendingUpdate(plan: seq<Entry>, i: nat, e: Entry, p: Ptr)
    requires i < |plan|
    ensures PlanPending(plan[i := e], p) + EntryPending(plan[i], p) == PlanPending(plan, p) + EntryPending(e, p)
  {
    UpdateTo(plan, i, e, |plan|, p);
  }

  lemma {:induction false} TwoTo(plan: seq<Entry>, i: nat, j: nat, n: nat)
    requires i < j < n <= |plan| && !plan[i].Done? && !plan[j].Done?
    ensures !plan[i].Hit? && !plan[j].Hit? && plan[i].info == plan[j].info ==> PendingTo(plan, n, plan[i].info) > 1
    ensures plan[i].Placed? && plan[j].Placed? && plan[i].slot == plan[j].slot ==> SlotsTo(plan, n, plan[i].slot) > 1
  {
    if j < n - 1 { TwoTo(plan, i, j, n - 1); } else { MemberTo(plan, i, j); }
  }

  /** Two entries of a plan never share a pending info or a slot. */
  lemma {:induction false} EntriesApart(env: Env, sh: Shared, w: Job, rest: Claims, i: nat, j: nat)
    requires Global(env, sh, rest.Plus(JobClaims(w)))
    requires i < |w.plan| && j < |w.plan| && i != j && !w.plan[i].Done? && !w.plan[j].Done?
    ensures !w.plan[i].Hit? && !w.plan[j].Hit? ==> w.plan[i].info != w.plan[j].info
    ensures w.plan[i].Placed? && w.plan[j].Placed? ==> w.plan[i].slot != w.plan[j].slot
  {
    var c := rest.Plus(JobClaims(w));
    TwoTo(w.plan, if i < j then i else j, if i < j then j else i, |w.plan|);
    assert ApartAt(sh, c, w.plan[i].info);
    if w.plan[i].Placed? { assert ConservedAt(sh, c, w.plan[i].slot); }
  }

  /** A pending info of the job is out of reach for the others. */
  lemma {:induction false} MinePrivate(env: Env, sh: Shared, w: Job, rest: Claims, i: nat)
    requires View(env, sh, w, rest) && i < |w.plan| && (w.plan[i].Miss? || w.plan[i].Placed?)
    ensures rest.Refs(w.plan[i].info) == 0 && !Published(sh, w.plan[i].info)
    ensures w.plan[i].Placed? ==> rest.Slots(w.plan[i].slot) == 0
  {
    PlanMember(w.plan, i);
    PendingPrivate(sh, JobClaims(w), rest, w.plan[i].info);
    if w.plan[i].Placed? { SlotPrivate(sh, rest.Plus(JobClaims(w)), w.plan[i].slot); }
  }

  /** Moving past an entry that the current loop ignores. */
  lemma {:induction false} SkipEntry(env: Env, sh: Shared, w: Job, rest: Claims)
    requires View(env, sh, w, rest) && w.pos < |w.plan|
    requires match w.phase
             case Placing => w.plan[w.pos].Hit?
             case Flushing => w.plan[w.pos].Hit?
             case Publishing => w.plan[w.pos].Hit?
             case UndoHits => !w.plan[w.pos].Hit?
             case UndoMisses => w.plan[w.pos].Done?
             case _ => false
    ensures Keeps(env, sh, Stepped(sh, w.(pos := w.pos + 1)), rest)
  {
    var w' := w.(pos := w.pos + 1);
    assert KindsOk(w, w.pos);
    forall k: nat ensures SameAt(rest.Plus(JobClaims(w)), rest.Plus(JobClaims(w')), k) {}
    LocalStep(env, sh, sh, w, w', rest);
    Assemble(env, sh, Stepped(sh, w'), rest, rest.Plus(JobClaims(w)));
  }

  // ------------------------------------------------------------------------------ placement

  lemma {:induction false} PlaceEntry(env: Env, sh: Shared, w: Job, rest: Claims, i: nat)
    requires View(env, sh, w, rest) && w.phase.Placing? && w.pos < |w.plan| && w.plan[w.pos].Miss? && w.out != []
    requires w.plan[w.pos].info in sh.heap && i < |w.plan|
    ensures EntryOk(env, Place(sh, w).sh, Place(sh, w).w, i)
  {
    var s, p, x := Place(sh, w), w.plan[w.pos].info, w.out[0];
    assert EntryOk(env, sh, w, i) && EntryOk(env, sh, w, w.pos);
    PlanMember(w.plan, w.pos);
    SetSlot(env, sh, rest.Plus(JobClaims(w)), p, x);
    if i != w.pos && !w.plan[i].Done? {
      EntriesApart(env, sh, w, rest, i, w.pos);
      PendingUpdate(w.plan, w.pos, Placed(p, x), w.plan[i].info);
    }
  }

  lemma {:induction false} PlaceClaims(rest: Claims, w: Job, w': Job)
    requires w.pos < |w.plan| && w.plan[w.pos].Miss? && w.out != []
    requires w'.plan == w.plan[w.pos := Placed(w.plan[w.pos].info, w.out[0])]
    requires w'.out == w.out[1..] && w'.release == w.release
    ensures Same(rest.Plus(JobClaims(w)), rest.Plus(JobClaims(w')))
  {
    assert w.out == [w.out[0]] + w.out[1..];
    forall k: nat ensures SameAt(rest.Plus(JobClaims(w)), rest.Plus(JobClaims(w')), k) {
      UpdateTo(w.plan, w.pos, w'.plan[w.pos], |w.plan|, k);
      assert multiset(w.out)[k] == multiset([w.out[0]])[k] + multiset(w.out[1..])[k];
    }
  }

  lemma {:induction false} PlaceFramed(env: Env, sh: Shared, w: Job, rest: Claims, x: nat)
    requires View(env, sh, w, rest) && w.pos < |w.plan| && w.plan[w.pos].Miss? && w.plan[w.pos].info in sh.heap
    ensures var p := w.plan[w.pos].info; Framed(sh, sh.(heap := sh.heap[p := sh.heap[p].(slot := x)]), rest)
  {
    var p, c := w.plan[w.pos].info, rest.Plus(JobClaims(w));
    var sh' := sh.(heap := sh.heap[p := sh.heap[p].(slot := x)]);
    PlanMember(w.plan, w.pos);
    SetSlot(env, sh, c, p, x);
    MinePrivate(env, sh, w, rest, w.pos);
    forall q: Ptr ensures RefFramed(sh, sh', rest, q) { assert ExactAt(sh, c, q); }
    forall y: nat ensures SlotFramed(sh, sh', rest, y) {}
  }

  /** Giving a MISS its slot. */
  lemma {:induction false} PlaceKeeps(env: Env, sh: Shared, w: Job, rest: Claims)
    requires View(env, sh, w, rest) && w.phase.Placing? && w.pos < |w.plan|
    ensures Keeps(env, sh, Place(sh, w), rest)
  {
    var s, c := Place(sh, w), rest.Plus(JobClaims(w));
    assert KindsOk(w, w.pos) && EntryOk(env, sh, w, w.pos);
    if w.plan[w.pos].Miss? {
      PlanMember(w.plan, w.pos);
      var p, x := w.plan[w.pos].info, w.out[0];
      PlanUpdate(w.plan, w.pos, Placed(p, x));
      forall i: nat | i < |w.plan| ensures EntryOk(env, s.sh, s.w, i) && KindsOk(s.w, i) && WrittenAt(s.sh, s.w, i) {
        PlaceEntry(env, sh, w, rest, i);
        assert KindsOk(w, i);
      }
      SetSlot(env, sh, c, p, x);
      PlaceFramed(env, sh, w, rest, x);
      PlaceClaims(rest, w, s.w);
      Assemble(env, sh, s, rest, c);
    } else {
      SkipEntry(env, sh, w, rest);
    }
  }

  // --------------------------------------------------------------------------------- flush

  /** The run that starts at pos does not touch the slots of earlier entries. */
  lemma {:induction false} RunApart(env: Env, sh: Shared, w: Job, rest: Claims, i: nat)
    requires Global(env, sh, rest.Plus(JobClaims(w)))
    requires i < w.pos < |w.plan| && w.plan[w.pos].Placed? && w.plan[i].Placed?
    ensures !(w.plan[w.pos].slot <= w.plan[i].slot < w.plan[w.pos].slot + (RunEnd(w.plan, w.pos) - w.pos))
  {
    var j, x0, x := RunEnd(w.plan, w.pos), w.plan[w.pos].slot, w.plan[i].slot;
    if x0 <= x < x0 + (j - w.pos) {
      EntriesApart(env, sh, w, rest, i, w.pos + (x - x0));
    }
  }

  /** Writing a run, even in part, touches only slots that the job owns. */
  lemma {:induction false} FlushDisk(env: Env, sh: Shared, w: Job, rest: Claims, disk': map<nat, Block>)
    requires View(env, sh, w, rest) && w.phase.Flushing? && w.pos < |w.plan| && w.plan[w.pos].Placed?
    requires sh.disk.Keys <= disk'.Keys
    requires var x0, n := w.plan[w.pos].slot, RunEnd(w.plan, w.pos) - w.pos;
             forall k :: k in disk' && !(x0 <= k < x0 + n) ==> k in sh.disk && disk'[k] == sh.disk[k]
    ensures Global(env, sh.(disk := disk'), rest.Plus(JobClaims(w)))
    ensures Framed(sh, sh.(disk := disk'), rest)
    ensures forall i: nat :: i < |w.plan| ==> EntryOk(env, sh.(disk := disk'), w, i)
  {
    var c, sh', x0, j := rest.Plus(JobClaims(w)), sh.(disk := disk'), w.plan[w.pos].slot, RunEnd(w.plan, w.pos);
    forall x: nat | x0 <= x < x0 + (j - w.pos) ensures c.Slots(x) > 0 && rest.Slots(x) == 0 {
      var k := w.pos + (x - x0);
      PlanMember(w.plan, k);
      MinePrivate(env, sh, w, rest, k);
    }
    WriteClaimed(env, sh, c, disk');
    forall p: Ptr ensures RefFramed(sh, sh', rest, p) { assert ExactAt(sh, c, p); }
    forall x: nat ensures SlotFramed(sh, sh', rest, x) {}
    forall i: nat | i < |w.plan| ensures EntryOk(env, sh', w, i) { assert EntryOk(env, sh, w, i); }
  }

  /** A pwrite leaves alone what lies outside its range and puts its own blocks in place. */
  lemma {:induction false} PwriteAt(disk: map<nat, Block>, x0: nat, blocks: seq<Block>, x: nat, b: Block)
    requires if x0 <= x < x0 + |blocks| then blocks[x - x0] == b else x in disk && disk[x] == b
    ensures x in Pwrite(disk, x0, blocks) && Pwrite(disk, x0, blocks)[x] == b
  {
    if blocks != [] {
      var n := |blocks| - 1;
      if x != x0 + n {
        assert x0 <= x < x0 + n ==> blocks[..n][x - x0] == blocks[x - x0];
        PwriteAt(disk, x0, blocks[..n], x, b);
      }
    }
  }

  /** A complete pwrite puts every block of the run in its slot and keeps the earlier runs. */
  lemma {:induction false} FlushWritten(env: Env, sh: Shared, w: Job, rest: Claims, i: nat)
    requires View(env, sh, w, rest) && w.phase.Flushing? && w.pos < |w.plan| && w.plan[w.pos].Placed?
    requires i < |w.plan|
    ensures WrittenAt(Flush(sh, w, Full).sh, Flush(sh, w, Full).w, i)
  {
    var j, x0 := RunEnd(w.plan, w.pos), w.plan[w.pos].slot;
    assert WrittenAt(sh, w, i);
    if w.plan[i].Placed? && i < j {
      if i < w.pos { RunApart(env, sh, w, rest, i); } else { assert w.plan[i].slot == x0 + (i - w.pos); }
      PwriteAt(sh.disk, x0, w.buf[w.pos..j], w.plan[i].slot, w.buf[i]);
    }
  }

  lemma {:induction false} FlushJob(env: Env, sh: Shared, w: Job, rest: Claims, outcome: Outcome)
    requires View(env, sh, w, rest) && w.phase.Flushing? && w.pos < |w.plan| && w.plan[w.pos].Placed?
    ensures Global(env, Flush(sh, w, outcome).sh, rest.Plus(JobClaims(w)))
    ensures Framed(sh, Flush(sh, w, outcome).sh, rest)
    ensures JobOk(env, Flush(sh, w, outcome).sh, Flush(sh, w, outcome).w)
  {
    var s := Flush(sh, w, outcome);
    FlushDisk(env, sh, w, rest, s.sh.disk);
    forall i: nat | i < |w.plan| ensures EntryOk(env, s.sh, s.w, i) && KindsOk(s.w, i) && WrittenAt(s.sh, s.w, i) {
      assert EntryOk(env, s.sh, w, i) && KindsOk(w, i);
      if outcome.Full? { FlushWritten(env, sh, w, rest, i); }
    }
  }

  /** One run of the flush, complete or torn. */
  lemma {:induction false} FlushKeeps(env: Env, sh: Shared, w: Job, rest: Claims, outcome: Outcome)
    requires View(env, sh, w, rest) && w.phase.Flushing? && w.pos < |w.plan|
    ensures Keeps(env, sh, Flush(sh, w, outcome), rest)
  {
    assert KindsOk(w, w.pos);
    if w.plan[w.pos].Placed? {
      var s := Flush(sh, w, outcome);
      FlushJob(env, sh, w, rest, outcome);
      forall k: nat ensures SameAt(rest.Plus(JobClaims(w)), rest.Plus(JobClaims(s.w)), k) {}
      Assemble(env, sh, s, rest, rest.Plus(JobClaims(w)));
    } else {
      SkipEntry(env, sh, w, rest);
    }
  }

  // ------------------------------------------------------------------------------- publish

  /** No reference other than the one of the entry itself: the guard under which a race
      loser may free its pending info. */
  predicate NoLostDup(sh: Shared, w: Job)
    requires w.pos < |w.plan|
  {
    var e := w.plan[w.pos];
    e.Placed? && e.info in sh.heap && sh.heap[e.info].hash in sh.hashToMaster ==> sh.heap[e.info].refcount == 1
  }

  /** The plan after entry pos became a HIT on a published info q. */
  lemma {:induction false} PublishJob(env: Env, sh: Shared, s: Stepped, w: Job, rest: Claims, q: Ptr)
    requires JobOk(env, sh, w) && w.phase.Publishing? && w.pos < |w.plan| && w.plan[w.pos].Placed?
    requires s.w.plan == w.plan[w.pos := Hit(q)] && s.w.buf == w.buf && s.w.out == w.out
    requires s.w.phase == w.phase && s.w.pos == w.pos + 1 && s.sh.disk == sh.disk
    requires Published(s.sh, q) && s.sh.heap[q].hash == env.hash(w.buf[w.pos])
    requires forall r: Ptr :: JobClaims(Without(w)).Refs(r) > 0 ==>
               && KeepsInfo(sh, s.sh, r)
               && (Published(sh, r) || r == w.plan[w.pos].info ==> Published(s.sh, r))
    ensures JobOk(env, s.sh, s.w)
  {
    forall i: nat | i < |w.plan| ensures EntryOk(env, s.sh, s.w, i) && KindsOk(s.w, i) && WrittenAt(s.sh, s.w, i) {
      assert EntryOk(env, sh, w, i) && KindsOk(w, i) && WrittenAt(sh, w, i);
      if i != w.pos && !w.plan[i].Done? {
        PlanMember(Without(w).plan, i);
        assert JobClaims(Without(w)).Refs(w.plan[i].info) > 0;
        PendingUpdate(w.plan, w.pos, Hit(q), w.plan[i].info);
      }
    }
  }

  lemma {:induction false} WinKeeps(env: Env, sh: Shared, w: Job, rest: Claims)
    requires View(env, sh, w, rest) && w.phase.Publishing? && w.pos < |w.plan| && w.plan[w.pos].Placed?
    requires w.plan[w.pos].info in sh.heap && sh.heap[w.plan[w.pos].info].hash !in sh.hashToMaster
    ensures Keeps(env, sh, Publish(sh, w), rest)
  {
    var p, s, c0 := w.plan[w.pos].info, Publish(sh, w), rest.Plus(JobClaims(Without(w)));
    assert EntryOk(env, sh, w, w.pos) && WrittenAt(sh, w, w.pos);
    MinePrivate(env, sh, w, rest, w.pos);
    Extract(rest, w);
    GlobalSame(env, sh, rest.Plus(JobClaims(w)), c0.With(w.plan[w.pos]));
    PublishPending(env, sh, c0, p);
    forall q: Ptr ensures Published(s.sh, q) == (q == p || Published(sh, q)) { WinPublished(sh, p, q); }
    forall r: Ptr | c0.Refs(r) > 0 ensures KeepsInfo(sh, s.sh, r) {
      assert ExactAt(sh, c0.With(w.plan[w.pos]), r);
    }
    PublishJob(env, sh, s, w, rest, p);
    forall q: Ptr ensures RefFramed(sh, s.sh, rest, q) { assert ExactAt(sh, rest.Plus(JobClaims(w)), q); }
    forall x: nat ensures SlotFramed(sh, s.sh, rest, x) {}
    Insert(rest, w, s.w, Hit(p), []);
    forall k: nat ensures SameAt(c0.Ref(p), rest.Plus(JobClaims(s.w)), k) {
      assert SameAt(c0.Owns([]).With(Hit(p)), rest.Plus(JobClaims(s.w)), k);
    }
    Assemble(env, sh, s, rest, c0.Ref(p));
  }

  /** Freeing the pending info of a race loser or of a rolled back MISS. */
  lemma {:induction false} FreeEntry(env: Env, sh: Shared, w: Job, rest: Claims)
    requires Global(env, sh, rest.Plus(JobClaims(w))) && w.pos < |w.plan| && w.plan[w.pos].Placed?
    requires Refcount(sh, w.plan[w.pos].info) == 1
    ensures var sh1 := sh.(heap := Remove(sh.heap, w.plan[w.pos].info));
            var c := rest.Plus(JobClaims(Without(w))).Owns([w.plan[w.pos].slot]);
            Global(env, sh1, c) && Framed(sh, sh1, c)
    ensures !Published(sh, w.plan[w.pos].info)
  {
    var p, x := w.plan[w.pos].info, w.plan[w.pos].slot;
    var c0 := rest.Plus(JobClaims(Without(w)));
    Extract(rest, w);
    forall k: nat ensures SameAt(rest.Plus(JobClaims(w)), c0.Owns([x]).With(Miss(p)), k) {
      assert SameAt(rest.Plus(JobClaims(w)), c0.With(w.plan[w.pos]), k);
    }
    GlobalSame(env, sh, rest.Plus(JobClaims(w)), c0.Owns([x]).With(Miss(p)));
    FreePending(env, sh, c0.Owns([x]), p);
  }

  /** The race loser: its pending info is freed, the winner gains a reference. */
  lemma {:induction false} LoseGlobal(env: Env, sh: Shared, w: Job, rest: Claims)
    requires Global(env, sh, rest.Plus(JobClaims(w))) && w.pos < |w.plan| && w.plan[w.pos].Placed?
    requires w.plan[w.pos].info in sh.heap && sh.heap[w.plan[w.pos].info].hash in sh.hashToMaster
    requires sh.heap[w.plan[w.pos].info].refcount == 1
    ensures var s, c := Publish(sh, w), rest.Plus(JobClaims(Without(w))).Owns([w.plan[w.pos].slot]);
            var winner := sh.hashToMaster[sh.heap[w.plan[w.pos].info].hash];
            && Global(env, s.sh, c.Ref(winner)) && Framed(sh, s.sh, c)
            && Published(s.sh, winner) && s.sh.heap[winner].hash == sh.heap[w.plan[w.pos].info].hash
  {
    var p, s, c := w.plan[w.pos].info, Publish(sh, w), rest.Plus(JobClaims(Without(w))).Owns([w.plan[w.pos].slot]);
    var h := sh.heap[p].hash;
    var winner, sh1 := sh.hashToMaster[h], sh.(heap := Remove(sh.heap, p));
    FreeEntry(env, sh, w, rest);
    HashIsPublished(sh, h);
    assert HashLinked(sh, h);
    TakeRef(env, sh1, c, winner);
    FramedTwice(sh, sh1, s.sh, c);
  }

  lemma {:induction false} LoseKeeps(env: Env, sh: Shared, w: Job, rest: Claims)
    requires View(env, sh, w, rest) && w.phase.Publishing? && w.pos < |w.plan| && w.plan[w.pos].Placed?
    requires w.plan[w.pos].info in sh.heap && sh.heap[w.plan[w.pos].info].hash in sh.hashToMaster
    requires sh.heap[w.plan[w.pos].info].refcount == 1
    ensures Keeps(env, sh, Publish(sh, w), rest)
  {
    var p, s := w.plan[w.pos].info, Publish(sh, w);
    var c, q := rest.Plus(JobClaims(Without(w))).Owns([w.plan[w.pos].slot]), sh.hashToMaster[sh.heap[p].hash];
    assert EntryOk(env, sh, w, w.pos);
    LoseGlobal(env, sh, w, rest);
    forall r: Ptr | JobClaims(Without(w)).Refs(r) > 0
      ensures KeepsInfo(sh, s.sh, r) && (Published(sh, r) || r == p ==> Published(s.sh, r))
    {
      assert RefFramed(sh, s.sh, c, r);
    }
    PublishJob(env, sh, s, w, rest, q);
    FramedSub(sh, s.sh, c, rest);
    Insert(rest, w, s.w, Hit(q), [w.plan[w.pos].slot]);
    Assemble(env, sh, s, rest, c.Ref(q));
  }

  lemma {:induction false} PublishKeeps(env: Env, sh: Shared, w: Job, rest: Claims)
    requires View(env, sh, w, rest) && w.phase.Publishing? && w.pos < |w.plan| && NoLostDup(sh, w)
    ensures Keeps(env, sh, Publish(sh, w), rest)
  {
    assert KindsOk(w, w.pos) && EntryOk(env, sh, w, w.pos);
    if w.plan[w.pos].Placed? {
      if sh.heap[w.plan[w.pos].info].hash in sh.hashToMaster {
        LoseKeeps(env, sh, w, rest);
      } else {
        WinKeeps(env, sh, w, rest);
      }
    } else {
      SkipEntry(env, sh, w, rest);
    }
  }

  // ------------------------------------------------------------------------------- mapping

  /** A plan without pending entries claims no pending info. */
  lemma {:induction false} NoPendingTo(plan: seq<Entry>, n: nat, p: Ptr)
    requires n <= |plan| && forall i :: 0 <= i < n ==> plan[i].Hit? || plan[i].Done?
    ensures PendingTo(plan, n, p) == 0
  {
    if n > 0 { NoPendingTo(plan, n - 1, p); }
  }

  lemma {:induction false} MappedIsPublished(env: Env, sh: Shared, w: Job)
    requires JobOk(env, sh, w) && w.phase.Mapping? && w.pos < |w.plan|
    ensures w.plan[w.pos].Hit? && Published(sh, w.plan[w.pos].info)
    ensures sh.heap[w.plan[w.pos].info].hash == env.hash(w.buf[w.pos])
  {
    forall i: nat | i < |w.plan| ensures w.plan[i].Hit? || w.plan[i].Done? { assert KindsOk(w, i); }
    assert KindsOk(w, w.pos) && EntryOk(env, sh, w, w.pos);
    NoPendingTo(w.plan, |w.plan|, w.plan[w.pos].info);
  }

  /** Removing a mapping and dropping its reference. */
  lemma {:induction false} UnmapGlobal(env: Env, sh: Shared, c: Claims, key: Key)
    requires Global(env, sh, c)
    ensures Global(env, Unmap(sh, key).sh, c.Owns(Unmap(sh, key).freed))
    ensures Framed(sh, Unmap(sh, key).sh, c)
    ensures key !in Unmap(sh, key).sh.fileToMaster
  {
    if key in sh.fileToMaster {
      var prev, sh1 := sh.fileToMaster[key], sh.(fileToMaster := Remove(sh.fileToMaster, key));
      Detach(env, sh, c, key);
      assert FileLinked(sh, key);
      DropRef(env, sh1, c, prev);
      FramedElsewhere(sh, sh1, c);
      FramedTwice(sh, sh1, Drop(sh1, prev).sh, c);
    } else {
      forall k: nat ensures SameAt(c, c.Owns([]), k) {}
      GlobalSame(env, sh, c, c.Owns([]));
      FramedElsewhere(sh, sh, c);
    }
  }

  /** Redirecting a block consumes the reference and releases what the block held before. */
  lemma {:induction false} RedirectGlobal(env: Env, sh: Shared, c: Claims, key: Key, p: Ptr)
    requires Global(env, sh, c.Ref(p)) && Published(sh, p)
    ensures Global(env, Redirect(sh, key, p).sh, c.Owns(Redirect(sh, key, p).freed))
    ensures Framed(sh, Redirect(sh, key, p).sh, c)
  {
    var d, s := Unmap(sh, key), Redirect(sh, key, p);
    UnmapGlobal(env, sh, c.Ref(p), key);
    assert RefFramed(sh, d.sh, c.Ref(p), p);
    forall k: nat ensures SameAt(c.Ref(p).Owns(d.freed), c.Owns(d.freed).Ref(p), k) {}
    GlobalSame(env, d.sh, c.Ref(p).Owns(d.freed), c.Owns(d.freed).Ref(p));
    Attach(env, d.sh, c.Owns(d.freed), key, p);
    FramedSub(sh, d.sh, c.Ref(p), c);
    FramedElsewhere(d.sh, s.sh, c.Ref(p).Owns(d.freed));
    FramedSub(d.sh, s.sh, c.Ref(p).Owns(d.freed), c);
    FramedTwice(sh, d.sh, s.sh, c);
  }

  /** The plan after entry pos has been used up. */
  lemma {:induction false} DoneJob(env: Env, sh: Shared, s: Stepped, w: Job)
    requires JobOk(env, sh, w) && w.pos < |w.plan|
    requires Framed(sh, s.sh, JobClaims(Without(w)))
    requires s.w == w.(plan := w.plan[w.pos := Done], pos := w.pos + 1, release := s.w.release)
    requires w.phase.Mapping? || w.phase.UndoHits? || (w.phase.UndoMisses? && s.w.release == [])
    requires w.plan[w.pos].Hit? || w.phase.UndoMisses?
    ensures JobOk(env, s.sh, s.w)
  {
    forall i: nat | i < |w.plan| ensures EntryOk(env, s.sh, s.w, i) && KindsOk(s.w, i) && WrittenAt(s.sh, s.w, i) {
      assert EntryOk(env, sh, w, i) && KindsOk(w, i);
      if i != w.pos && !w.plan[i].Done? {
        PlanMember(Without(w).plan, i);
        assert RefFramed(sh, s.sh, JobClaims(Without(w)), w.plan[i].info);
        PendingUpdate(w.plan, w.pos, Done, w.plan[i].info);
      }
    }
  }

  /** Finishing one entry: the common end of mapping and rollback steps. */
  lemma {:induction false} DoneKeeps(env: Env, sh: Shared, s: Stepped, w: Job, rest: Claims, freed: seq<nat>)
    requires View(env, sh, w, rest) && w.pos < |w.plan|
    requires var c0 := rest.Plus(JobClaims(Without(w)));
             Global(env, s.sh, c0.Owns(freed)) && Framed(sh, s.sh, c0)
    requires s.w == w.(plan := w.plan[w.pos := Done], pos := w.pos + 1, release := freed + w.release)
    requires w.phase.Mapping? || w.phase.UndoHits? || (w.phase.UndoMisses? && freed == [])
    requires w.plan[w.pos].Hit? || w.phase.UndoMisses?
    ensures Keeps(env, sh, s, rest)
  {
    var c0 := rest.Plus(JobClaims(Without(w)));
    FramedSub(sh, s.sh, c0, JobClaims(Without(w)));
    FramedSub(sh, s.sh, c0, rest);
    DoneJob(env, sh, s, w);
    Insert(rest, w, s.w, Done, freed);
    forall k: nat ensures SameAt(c0.Owns(freed), rest.Plus(JobClaims(s.w)), k) {
      assert SameAt(c0.Owns(freed).With(Done), rest.Plus(JobClaims(s.w)), k);
    }
    Assemble(env, sh, s, rest, c0.Owns(freed));
  }

  lemma {:induction false} MapKeeps(env: Env, sh: Shared, w: Job, rest: Claims)
    requires View(env, sh, w, rest) && w.phase.Mapping? && w.pos < |w.plan|
    ensures Keeps(env, sh, MapBlock(sh, w), rest)
  {
    var c0, key := rest.Plus(JobClaims(Without(w))), Key(w.path, w.start + w.pos);
    MappedIsPublished(env, sh, w);
    Extract(rest, w);
    GlobalSame(env, sh, rest.Plus(JobClaims(w)), c0.Ref(w.plan[w.pos].info));
    RedirectGlobal(env, sh, c0, key, w.plan[w.pos].info);
    DoneKeeps(env, sh, MapBlock(sh, w), w, rest, Redirect(sh, key, w.plan[w.pos].info).freed);
  }

  // ------------------------------------------------------------------------------- rollback

  lemma {:induction false} UndoHitKeeps(env: Env, sh: Shared, w: Job, rest: Claims)
    requires View(env, sh, w, rest) && w.phase.UndoHits? && w.pos < |w.plan|
    ensures Keeps(env, sh, UndoHit(sh, w), rest)
  {
    if w.plan[w.pos].Hit? {
      var p, c0 := w.plan[w.pos].info, rest.Plus(JobClaims(Without(w)));
      assert EntryOk(env, sh, w, w.pos);
      Extract(rest, w);
      GlobalSame(env, sh, rest.Plus(JobClaims(w)), c0.Ref(p));
      PendingUpdate(w.plan, w.pos, Done, p);
      PendingIsRef(Without(w).plan, |w.plan|, p);
      DropRef(env, sh, c0, p);
      DoneKeeps(env, sh, UndoHit(sh, w), w, rest, Drop(sh, p).freed);
    } else {
      SkipEntry(env, sh, w, rest);
    }
  }

  /** Without HITs the references of a plan are its pending infos. */
  lemma {:induction false} NoHitRefs(plan: seq<Entry>, n: nat, p: Ptr)
    requires n <= |plan| && forall i :: 0 <= i < n ==> !plan[i].Hit?
    ensures RefsTo(plan, n, p) == PendingTo(plan, n, p)
  {
    if n > 0 { NoHitRefs(plan, n - 1, p); }
  }

  /** During the last rollback loop a pending info has exactly one reference. */
  lemma {:induction false} LastReference(env: Env, sh: Shared, w: Job, rest: Claims)
    requires View(env, sh, w, rest) && w.pos < |w.plan| && w.plan[w.pos].Placed?
    requires forall i: nat :: i < |w.plan| ==> !w.plan[i].Hit?
    ensures w.plan[w.pos].info in sh.heap && sh.heap[w.plan[w.pos].info].refcount == 1
  {
    var p, c := w.plan[w.pos].info, rest.Plus(JobClaims(w));
    assert EntryOk(env, sh, w, w.pos);
    MinePrivate(env, sh, w, rest, w.pos);
    PlanMember(w.plan, w.pos);
    NoHitRefs(w.plan, |w.plan|, p);
    assert ApartAt(sh, c, p) && ExactAt(sh, c, p);
    forall k | k in sh.fileToMaster ensures sh.fileToMaster[k] != p { assert FileLinked(sh, k); }
    assert MappedTo(sh.fileToMaster, p) == {};
  }

  lemma {:induction false} UndoMissKeeps(env: Env, sh: Shared, w: Job, rest: Claims)
    requires View(env, sh, w, rest) && w.phase.UndoMisses? && w.pos < |w.plan|
    ensures Keeps(env, sh, UndoMiss(sh, w), rest)
  {
    if w.plan[w.pos].Placed? {
      var p, x, c0 := w.plan[w.pos].info, w.plan[w.pos].slot, rest.Plus(JobClaims(Without(w)));
      var sh1, s := sh.(heap := Remove(sh.heap, p)), UndoMiss(sh, w);
      forall i: nat | i < |w.plan| ensures !w.plan[i].Hit? { assert KindsOk(w, i); }
      LastReference(env, sh, w, rest);
      FreeEntry(env, sh, w, rest);
      MoveSlotsIn(env, sh1, c0, [x]);
      FramedElsewhere(sh1, s.sh, c0.Owns([x]));
      FramedTwice(sh, sh1, s.sh, c0.Owns([x]));
      FramedSub(sh, s.sh, c0.Owns([x]), c0);
      forall k: nat ensures SameAt(c0, c0.Owns([]), k) {}
      GlobalSame(env, s.sh, c0, c0.Owns([]));
      DoneKeeps(env, sh, s, w, rest, []);
    } else {
      assert KindsOk(w, w.pos);
      SkipEntry(env, sh, w, rest);
    }
  }
}
