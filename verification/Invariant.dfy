/** What the store owes to its threads. Each thread claims references, pending infos and
    slots; the global invariant balances the shared state against the sum of the claims. */
module Invariant {
  import opened Model
  import opened Steps

  /** A ledger of claims. Only the three counts below matter. */
  datatype Claims = Nothing | OfEntry(e: Entry) | OfPlan(plan: seq<Entry>) | OfSlots(xs: seq<nat>)
                  | Both(left: Claims, right: Claims)
  {
    /** Counted references on info p. */
    function Refs(p: Ptr): nat {
      match this
      case OfEntry(e) => EntryRefs(e, p)
      case OfPlan(plan) => RefsTo(plan, |plan|, p)
      case Both(a, b) => a.Refs(p) + b.Refs(p)
      case _ => 0
    }

    /** Ownership of p as a pending info. */
    function Pending(p: Ptr): nat {
      match this
      case OfEntry(e) => EntryPending(e, p)
      case OfPlan(plan) => PendingTo(plan, |plan|, p)
      case Both(a, b) => a.Pending(p) + b.Pending(p)
      case _ => 0
    }

    /** Ownership of slot x. */
    function Slots(x: nat): nat {
      match this
      case OfEntry(e) => EntrySlots(e, x)
      case OfPlan(plan) => SlotsTo(plan, |plan|, x)
      case OfSlots(xs) => multiset(xs)[x]
      case Both(a, b) => a.Slots(x) + b.Slots(x)
      case Nothing => 0
    }

    function Plus(c: Claims): (r: Claims)
      ensures forall p: Ptr {:trigger r.Refs(p)} :: r.Refs(p) == Refs(p) + c.Refs(p)
      ensures forall p: Ptr {:trigger r.Pending(p)} :: r.Pending(p) == Pending(p) + c.Pending(p)
      ensures forall x: nat {:trigger r.Slots(x)} :: r.Slots(x) == Slots(x) + c.Slots(x)
    {
      Both(this, c)
    }

    function With(e: Entry): (r: Claims)
      ensures forall p: Ptr {:trigger r.Refs(p)} :: r.Refs(p) == Refs(p) + EntryRefs(e, p)
      ensures forall p: Ptr {:trigger r.Pending(p)} :: r.Pending(p) == Pending(p) + EntryPending(e, p)
      ensures forall x: nat {:trigger r.Slots(x)} :: r.Slots(x) == Slots(x) + EntrySlots(e, x)
    {
      Both(this, OfEntry(e))
    }

    function Ref(p: Ptr): Claims { With(Hit(p)) }

    function Owns(xs: seq<nat>): (r: Claims)
      ensures forall p: Ptr {:trigger r.Refs(p)} :: r.Refs(p) == Refs(p)
      ensures forall p: Ptr {:trigger r.Pending(p)} :: r.Pending(p) == Pending(p)
      ensures forall x: nat {:trigger r.Slots(x)} :: r.Slots(x) == Slots(x) + multiset(xs)[x]
    {
      Both(this, OfSlots(xs))
    }
  }

  function EntryRefs(e: Entry, p: Ptr): nat { if !e.Done? && e.info == p then 1 else 0 }

  function EntryPending(e: Entry, p: Ptr): nat { if (e.Miss? || e.Placed?) && e.info == p then 1 else 0 }

  function EntrySlots(e: Entry, x: nat): nat { if e.Placed? && e.slot == x then 1 else 0 }

  function RefsTo(plan: seq<Entry>, n: nat, p: Ptr): nat
    requires n <= |plan|
  {
    if n == 0 then 0 else RefsTo(plan, n - 1, p) + EntryRefs(plan[n - 1], p)
  }

  function PendingTo(plan: seq<Entry>, n: nat, p: Ptr): nat
    requires n <= |plan|
  {
    if n == 0 then 0 else PendingTo(plan, n - 1, p) + EntryPending(plan[n - 1], p)
  }

  function SlotsTo(plan: seq<Entry>, n: nat, x: nat): nat
    requires n <= |plan|
  {
    if n == 0 then 0 else SlotsTo(plan, n - 1, x) + EntrySlots(plan[n - 1], x)
  }

  function PlanPending(plan: seq<Entry>, p: Ptr): nat { PendingTo(plan, |plan|, p) }

  function JobClaims(w: Job): (c: Claims)
    ensures forall p: Ptr {:trigger c.Refs(p)} :: c.Refs(p) == RefsTo(w.plan, |w.plan|, p)
    ensures forall p: Ptr {:trigger c.Pending(p)} :: c.Pending(p) == PlanPending(w.plan, p)
    ensures forall x: nat {:trigger c.Slots(x)}  ::
              c.Slots(x) == SlotsTo(w.plan, |w.plan|, x) + multiset(w.out)[x] + multiset(w.release)[x]
  {
    OfPlan(w.plan).Owns(w.out).Owns(w.release)
  }

  function ThreadClaims(t: Thread): Claims {
    match t
    case Writer(w) => JobClaims(w)
    case Remover(r) => OfSlots(r.release)
    case Idle => Nothing
    case Reader(_) => Nothing
  }

  /** The claims of the first n threads. */
  function Total(ts: seq<Thread>, n: nat): Claims
    requires n <= |ts|
  {
    if n == 0 then Nothing else Total(ts, n - 1).Plus(ThreadClaims(ts[n - 1]))
  }

  ghost predicate SameAt(c: Claims, d: Claims, k: nat) {
    c.Refs(k) == d.Refs(k) && c.Pending(k) == d.Pending(k) && c.Slots(k) == d.Slots(k)
  }

  /** Two ledgers with the same counts. */
  ghost predicate Same(c: Claims, d: Claims) {
    forall k: nat :: SameAt(c, d, k)
  }

  // ------------------------------------------------------------------------ shared state

  function MappedTo(files: map<Key, Ptr>, p: Ptr): set<Key> {
    set k | k in files && files[k] == p
  }

  /** Published infos that own slot x, by hash. */
  function PublishedAt(sh: Shared, x: nat): set<Hash> {
    set h | h in sh.hashToMaster && sh.hashToMaster[h] in sh.heap && sh.heap[sh.hashToMaster[h]].slot == x
  }

  function Refcount(sh: Shared, p: Ptr): int { if p in sh.heap then sh.heap[p].refcount else 0 }

  function References(sh: Shared, c: Claims, p: Ptr): nat {
    |MappedTo(sh.fileToMaster, p)| + c.Refs(p)
  }

  /** Number of owners of slot x. */
  function Owners(sh: Shared, c: Claims, x: nat): nat {
    multiset(sh.freeList)[x] + |PublishedAt(sh, x)| + c.Slots(x)
  }

  ghost predicate ExactAt(sh: Shared, c: Claims, p: Ptr) {
    Refcount(sh, p) == References(sh, c, p) && (p in sh.heap ==> Refcount(sh, p) >= 1)
  }

  /** Refcounts are exact, and only referenced objects are alive. */
  ghost predicate RefsExact(sh: Shared, c: Claims) {
    forall p: Ptr :: ExactAt(sh, c, p)
  }

  ghost predicate HashLinked(sh: Shared, h: Hash) {
    h in sh.hashToMaster ==> sh.hashToMaster[h] in sh.heap && sh.heap[sh.hashToMaster[h]].hash == h
  }

  ghost predicate FileLinked(sh: Shared, k: Key) {
    k in sh.fileToMaster ==> Published(sh, sh.fileToMaster[k])
  }

  /** The hash index is keyed by the stored hashes; mapped infos are published. */
  ghost predicate Linked(sh: Shared) {
    (forall h :: HashLinked(sh, h)) && (forall k :: FileLinked(sh, k))
  }

  ghost predicate ApartAt(sh: Shared, c: Claims, p: Ptr) {
    c.Pending(p) > 0 ==> c.Pending(p) == 1 && c.Refs(p) > 0 && !Published(sh, p)
  }

  /** A pending info has one owner, who holds a reference on it, and is not published. */
  ghost predicate PendingApart(sh: Shared, c: Claims) {
    forall p: Ptr :: ApartAt(sh, c, p)
  }

  ghost predicate ConservedAt(sh: Shared, c: Claims, x: nat) {
    Owners(sh, c, x) == if x < sh.next then 1 else 0
  }

  /** Slot conservation: one owner for each slot below `next`, none above. */
  ghost predicate SlotsConserved(sh: Shared, c: Claims) {
    forall x: nat :: ConservedAt(sh, c, x)
  }

  predicate Backed(env: Env, disk: map<nat, Block>, x: nat, h: Hash) {
    x in disk && env.inPlay(disk[x]) && env.hash(disk[x]) == h
  }

  ghost predicate BackedAt(env: Env, sh: Shared, p: Ptr) {
    Published(sh, p) ==> Backed(env, sh.disk, sh.heap[p].slot, sh.heap[p].hash)
  }

  /** The slot of a published info holds a block that hashes to the stored hash. */
  ghost predicate Coherent(env: Env, sh: Shared) {
    && (forall p: Ptr :: BackedAt(env, sh, p))
    && (forall x :: x in sh.disk ==> x < sh.next)
  }

  /** The balance between the shared state and the claims of all threads. */
  ghost predicate Global(env: Env, sh: Shared, c: Claims) {
    && RefsExact(sh, c)
    && Linked(sh)
    && PendingApart(sh, c)
    && SlotsConserved(sh, c)
    && Coherent(env, sh)
  }

  ghost predicate ClosedAt(sh: Shared, c: Claims, p: Ptr) {
    c.Refs(p) > 0 ==> Published(sh, p) || c.Pending(p) > 0
  }

  /** Claimed references lead to published infos or to pending infos of the same claims. */
  ghost predicate Closed(sh: Shared, c: Claims) {
    forall p: Ptr :: ClosedAt(sh, c, p)
  }

  ghost predicate RefFramed(sh: Shared, sh': Shared, rest: Claims, p: Ptr) {
    rest.Refs(p) > 0 ==>
      && p in sh.heap && p in sh'.heap
      && sh'.heap[p].hash == sh.heap[p].hash && sh'.heap[p].slot == sh.heap[p].slot
      && Published(sh', p) == Published(sh, p)
  }

  ghost predicate SlotFramed(sh: Shared, sh': Shared, rest: Claims, x: nat) {
    rest.Slots(x) > 0 ==> (x in sh.disk <==> x in sh'.disk) && (x in sh.disk ==> sh'.disk[x] == sh.disk[x])
  }

  /** What a step of one thread guarantees to the claims of all others. */
  ghost predicate Framed(sh: Shared, sh': Shared, rest: Claims) {
    && (forall p: Ptr :: RefFramed(sh, sh', rest, p))
    && (forall x: nat :: SlotFramed(sh, sh', rest, x))
  }

  // ------------------------------------------------------------------------ thread state

  ghost predicate EntryOk(env: Env, sh: Shared, w: Job, i: nat)
    requires i < |w.plan| <= |w.buf|
  {
    var e := w.plan[i];
    e.Done? ||
    (&& e.info in sh.heap
     && sh.heap[e.info].hash == env.hash(w.buf[i])
     && (e.Hit? ==> Published(sh, e.info) || PlanPending(w.plan, e.info) > 0)
     && (e.Placed? ==> sh.heap[e.info].slot == e.slot))
  }

  /** The kinds of entry that each phase may contain. */
  predicate KindsOk(w: Job, i: nat)
    requires i < |w.plan|
  {
    var e := w.plan[i];
    match w.phase
    case Deciding => e.Hit? || e.Miss?
    case Draining => e.Hit? || e.Miss?
    case Appending => e.Hit? || e.Miss?
    case Placing => e.Hit? || if i < w.pos then e.Placed? else e.Miss?
    case Flushing => e.Hit? || e.Placed?
    case Publishing => e.Hit? || (e.Placed? && i >= w.pos)
    case Mapping => if i < w.pos then e.Done? else e.Hit?
    case Resizing => e.Done?
    case Releasing => e.Done?
    case UndoHits => e.Placed? || if i < w.pos then e.Done? else e.Hit?
    case ReleaseHits => e.Placed? || e.Done?
    case UndoMisses => e.Done? || (e.Placed? && i >= w.pos)
  }

  /** Entries whose block has reached the master. */
  predicate OnDisk(w: Job, i: nat) {
    w.phase.Publishing? || (w.phase.Flushing? && i < w.pos)
  }

  ghost predicate WrittenAt(sh: Shared, w: Job, i: nat)
    requires i < |w.plan| <= |w.buf|
  {
    w.plan[i].Placed? && OnDisk(w, i) ==> w.plan[i].slot in sh.disk && sh.disk[w.plan[i].slot] == w.buf[i]
  }

  ghost predicate HashPending(sh: Shared, w: Job, h: Hash) {
    h in w.pendingHashes ==>
      && PlanPending(w.plan, w.pendingHashes[h]) > 0
      && w.pendingHashes[h] in sh.heap && sh.heap[w.pendingHashes[h]].hash == h
  }

  ghost predicate InPlay(env: Env, w: Job) {
    forall b :: b in w.buf ==> env.inPlay(b)
  }

  ghost predicate JobOk(env: Env, sh: Shared, w: Job) {
    && ListsOk(w)
    && InPlay(env, w)
    && (forall i: nat :: i < |w.plan| ==> EntryOk(env, sh, w, i))
    && (forall i: nat :: i < |w.plan| ==> KindsOk(w, i))
    && (forall i: nat :: i < |w.plan| ==> WrittenAt(sh, w, i))
    && (w.phase.Deciding? ==> forall h :: HashPending(sh, w, h))
  }

  ghost predicate ThreadOk(env: Env, sh: Shared, t: Thread) {
    t.Writer? ==> JobOk(env, sh, t.job)
  }

  /** The state as one thread sees it: its own job, and the claims of all the others. */
  ghost predicate View(env: Env, sh: Shared, w: Job, rest: Claims) {
    && Global(env, sh, rest.Plus(JobClaims(w)))
    && Closed(sh, rest)
    && JobOk(env, sh, w)
  }

  // ------------------------------------------------------------------------ plan arithmetic

  lemma {:induction false} SamePrefix(plan: seq<Entry>, plan': seq<Entry>, n: nat, k: nat)
    requires n <= |plan| && n <= |plan'| && forall i :: 0 <= i < n ==> plan'[i] == plan[i]
    ensures RefsTo(plan', n, k) == RefsTo(plan, n, k) && PendingTo(plan', n, k) == PendingTo(plan, n, k)
    ensures SlotsTo(plan', n, k) == SlotsTo(plan, n, k) && MissesTo(plan', n) == MissesTo(plan, n)
  {
    if n > 0 { SamePrefix(plan, plan', n - 1, k); }
  }

  /** Counts after the replacement of entry i. */
  lemma {:induction false} UpdateTo(plan: seq<Entry>, i: nat, e: Entry, n: nat, k: nat)
    requires i < n <= |plan|
    ensures RefsTo(plan[i := e], n, k) + EntryRefs(plan[i], k) == RefsTo(plan, n, k) + EntryRefs(e, k)
    ensures PendingTo(plan[i := e], n, k) + EntryPending(plan[i], k) == PendingTo(plan, n, k) + EntryPending(e, k)
    ensures SlotsTo(plan[i := e], n, k) + EntrySlots(plan[i], k) == SlotsTo(plan, n, k) + EntrySlots(e, k)
    ensures MissesTo(plan[i := e], n) + (if plan[i].Miss? then 1 else 0)
            == MissesTo(plan, n) + if e.Miss? then 1 else 0
  {
    if i < n - 1 { UpdateTo(plan, i, e, n - 1, k); } else { SamePrefix(plan, plan[i := e], i, k); }
  }

  lemma {:induction false} PlanUpdate(plan: seq<Entry>, i: nat, e: Entry)
    requires i < |plan|
    ensures Same(OfPlan(plan[i := e]).With(plan[i]), OfPlan(plan).With(e))
    ensures Misses(plan[i := e]) + (if plan[i].Miss? then 1 else 0) == Misses(plan) + if e.Miss? then 1 else 0
  {
    UpdateTo(plan, i, e, |plan|, 0);
    var c, d := OfPlan(plan[i := e]).With(plan[i]), OfPlan(plan).With(e);
    forall k: nat ensures SameAt(c, d, k) {
      UpdateTo(plan, i, e, |plan|, k);
    }
  }

  lemma {:induction false} PlanAppend(plan: seq<Entry>, e: Entry)
    ensures Same(OfPlan(plan + [e]), OfPlan(plan).With(e))
    ensures Misses(plan + [e]) == Misses(plan) + if e.Miss? then 1 else 0
  {
    SamePrefix(plan, plan + [e], |plan|, 0);
    var c, d := OfPlan(plan + [e]), OfPlan(plan).With(e);
    forall k: nat ensures SameAt(c, d, k) {
      SamePrefix(plan, plan + [e], |plan|, k);
    }
  }

  lemma {:induction false} MemberTo(plan: seq<Entry>, i: nat, n: nat)
    requires i < n <= |plan|
    ensures !plan[i].Done? ==> RefsTo(plan, n, plan[i].info) > 0
    ensures plan[i].Miss? || plan[i].Placed? ==> PendingTo(plan, n, plan[i].info) > 0
    ensures plan[i].Placed? ==> SlotsTo(plan, n, plan[i].slot) > 0
    ensures plan[i].Miss? ==> MissesTo(plan, n) > 0
  {
    if i < n - 1 { MemberTo(plan, i, n - 1); }
  }

  lemma {:induction false} PlanMember(plan: seq<Entry>, i: nat)
    requires i < |plan|
    ensures !plan[i].Done? ==> RefsTo(plan, |plan|, plan[i].info) > 0
    ensures plan[i].Miss? || plan[i].Placed? ==> PlanPending(plan, plan[i].info) > 0
    ensures plan[i].Placed? ==> SlotsTo(plan, |plan|, plan[i].slot) > 0
    ensures plan[i].Miss? ==> Misses(plan) > 0
  {
    MemberTo(plan, i, |plan|);
  }

  lemma {:induction false} PlanWitness(plan: seq<Entry>, n: nat, p: Ptr) returns (i: nat)
    requires n <= |plan| && RefsTo(plan, n, p) > 0
    ensures i < n && !plan[i].Done? && plan[i].info == p
  {
    if EntryRefs(plan[n - 1], p) > 0 { i := n - 1; } else { i := PlanWitness(plan, n - 1, p); }
  }

  lemma {:induction false} PendingIsRef(plan: seq<Entry>, n: nat, p: Ptr)
    requires n <= |plan|
    ensures PendingTo(plan, n, p) <= RefsTo(plan, n, p)
  {
    if n > 0 { PendingIsRef(plan, n - 1, p); }
  }

  /** The references of a well-formed job are closed. */
  lemma {:induction false} JobClosed(env: Env, sh: Shared, w: Job)
    requires JobOk(env, sh, w)
    ensures Closed(sh, JobClaims(w))
  {
    forall p: Ptr ensures ClosedAt(sh, JobClaims(w), p) {
      if JobClaims(w).Refs(p) > 0 {
        var i := PlanWitness(w.plan, |w.plan|, p);
        assert EntryOk(env, sh, w, i);
        if !w.plan[i].Hit? { PlanMember(w.plan, i); }
      }
    }
  }

  lemma {:induction false} EntryFramed(env: Env, sh: Shared, sh': Shared, w: Job, i: nat)
    requires i < |w.plan| <= |w.buf| && EntryOk(env, sh, w, i) && WrittenAt(sh, w, i)
    requires Framed(sh, sh', JobClaims(w))
    ensures EntryOk(env, sh', w, i) && WrittenAt(sh', w, i)
  {
    PlanMember(w.plan, i);
    if !w.plan[i].Done? { assert RefFramed(sh, sh', JobClaims(w), w.plan[i].info); }
    if w.plan[i].Placed? { assert SlotFramed(sh, sh', JobClaims(w), w.plan[i].slot); }
  }

  /** A job keeps its invariant through a step that frames its claims. */
  lemma {:induction false} JobFramed(env: Env, sh: Shared, sh': Shared, w: Job)
    requires JobOk(env, sh, w) && Framed(sh, sh', JobClaims(w))
    ensures JobOk(env, sh', w)
  {
    forall i: nat | i < |w.plan| ensures EntryOk(env, sh', w, i) && WrittenAt(sh', w, i) {
      assert EntryOk(env, sh, w, i) && WrittenAt(sh, w, i);
      EntryFramed(env, sh, sh', w, i);
    }
    forall h ensures w.phase.Deciding? ==> HashPending(sh', w, h) {
      if w.phase.Deciding? && h in w.pendingHashes {
        var p := w.pendingHashes[h];
        assert HashPending(sh, w, h);
        PendingIsRef(w.plan, |w.plan|, p);
        assert RefFramed(sh, sh', JobClaims(w), p);
      }
    }
  }

  /** Pending infos of one party are invisible to the references of the others. */
  lemma {:induction false} PendingPrivate(sh: Shared, mine: Claims, rest: Claims, p: Ptr)
    requires PendingApart(sh, rest.Plus(mine)) && Closed(sh, rest)
    requires mine.Pending(p) > 0
    ensures rest.Pending(p) == 0 && rest.Refs(p) == 0 && !Published(sh, p)
  {
    assert ApartAt(sh, rest.Plus(mine), p) && ClosedAt(sh, rest, p);
  }

  // ------------------------------------------------------------------------ ledger equality

  lemma {:induction false} GlobalSame(env: Env, sh: Shared, c: Claims, d: Claims)
    requires Global(env, sh, c) && Same(c, d)
    ensures Global(env, sh, d)
  {
    forall p: Ptr ensures ExactAt(sh, d, p) { assert ExactAt(sh, c, p) && SameAt(c, d, p); }
    forall p: Ptr ensures ApartAt(sh, d, p) { assert ApartAt(sh, c, p) && SameAt(c, d, p); }
    forall x: nat ensures ConservedAt(sh, d, x) { assert ConservedAt(sh, c, x) && SameAt(c, d, x); }
  }
}
