/** How each primitive change of the shared state moves the balance of claims. Every lemma
    keeps `Global` for the new claims and frames the claims of everybody else. */
module Accounting {
  import opened Model
  import opened Steps
  import opened Invariant

  // ----------------------------------------------------------------------------- counting

  lemma {:induction false} MapInsert(files: map<Key, Ptr>, k: Key, q: Ptr, p: Ptr)
    requires k !in files
    ensures |MappedTo(files[k := q], p)| == |MappedTo(files, p)| + if p == q then 1 else 0
  {
    assert MappedTo(files[k := q], p) == MappedTo(files, p) + if p == q then {k} else {};
  }

  lemma {:induction false} MapRemove(files: map<Key, Ptr>, k: Key, p: Ptr)
    requires k in files
    ensures |MappedTo(files, p)| == |MappedTo(Remove(files, k), p)| + if p == files[k] then 1 else 0
  {
    assert MappedTo(files, p) == MappedTo(Remove(files, k), p) + if p == files[k] then {k} else {};
  }

  lemma {:induction false} MappedPositive(files: map<Key, Ptr>, k: Key)
    requires k in files
    ensures |MappedTo(files, files[k])| > 0
  {
    assert k in MappedTo(files, files[k]);
  }

  /** An object that nobody references is dead. */
  lemma {:induction false} Dead(sh: Shared, c: Claims, p: Ptr)
    requires RefsExact(sh, c) && p !in sh.heap
    ensures c.Refs(p) == 0 && |MappedTo(sh.fileToMaster, p)| == 0
  {
    assert ExactAt(sh, c, p);
  }

  /** Claimed references lead to live infos. */
  lemma {:induction false} Alive(sh: Shared, c: Claims, p: Ptr)
    requires RefsExact(sh, c) && c.Refs(p) > 0
    ensures p in sh.heap && Refcount(sh, p) >= c.Refs(p)
  {
    assert ExactAt(sh, c, p);
  }

  lemma {:induction false} HashIsPublished(sh: Shared, h: Hash)
    requires Linked(sh) && h in sh.hashToMaster
    ensures Published(sh, sh.hashToMaster[h])
  {
    assert HashLinked(sh, h);
  }

  // ------------------------------------------------------------- changes of the heap alone

  /** A change of the heap that keeps every indexed info, its hash and its slot. */
  ghost predicate KeepsInfo(sh: Shared, sh': Shared, p: Ptr) {
    p in sh.heap && p in sh'.heap && sh'.heap[p].hash == sh.heap[p].hash && sh'.heap[p].slot == sh.heap[p].slot
  }

  ghost predicate KeepsHash(sh: Shared, sh': Shared, h: Hash) {
    h in sh.hashToMaster ==> KeepsInfo(sh, sh', sh.hashToMaster[h])
  }

  ghost predicate SameTables(sh: Shared, sh': Shared) {
    && sh'.hashToMaster == sh.hashToMaster && sh'.fileToMaster == sh.fileToMaster
    && sh'.freeList == sh.freeList && sh'.next == sh.next && sh'.disk == sh.disk
  }

  ghost predicate KeepsIndexed(sh: Shared, sh': Shared) {
    SameTables(sh, sh') && forall h :: KeepsHash(sh, sh', h)
  }

  lemma {:induction false} SamePublished(sh: Shared, sh': Shared, p: Ptr)
    requires Linked(sh) && KeepsIndexed(sh, sh')
    ensures Published(sh', p) == Published(sh, p)
  {
    if Published(sh, p) {
      assert KeepsHash(sh, sh', sh.heap[p].hash);
    }
    if Published(sh', p) {
      assert KeepsHash(sh, sh', sh'.heap[p].hash) && HashLinked(sh, sh'.heap[p].hash);
    }
  }

  lemma {:induction false} SamePublishedAt(sh: Shared, sh': Shared, x: nat)
    requires KeepsIndexed(sh, sh')
    ensures PublishedAt(sh', x) == PublishedAt(sh, x)
  {
    forall h ensures h in PublishedAt(sh', x) <==> h in PublishedAt(sh, x) { assert KeepsHash(sh, sh', h); }
  }

  lemma {:induction false} SameLinks(env: Env, sh: Shared, sh': Shared)
    requires Linked(sh) && Coherent(env, sh) && KeepsIndexed(sh, sh')
    ensures Linked(sh') && Coherent(env, sh')
  {
    forall h ensures HashLinked(sh', h) { assert HashLinked(sh, h) && KeepsHash(sh, sh', h); }
    forall k ensures FileLinked(sh', k) {
      assert FileLinked(sh, k);
      if k in sh.fileToMaster { SamePublished(sh, sh', sh.fileToMaster[k]); }
    }
    forall p: Ptr ensures BackedAt(env, sh', p) {
      SamePublished(sh, sh', p);
      assert BackedAt(env, sh, p);
      if Published(sh, p) { assert KeepsHash(sh, sh', sh.heap[p].hash); }
    }
  }

  lemma {:induction false} SameOwners(sh: Shared, sh': Shared, c: Claims, c': Claims)
    requires KeepsIndexed(sh, sh') && SlotsConserved(sh, c)
    requires forall x: nat :: c'.Slots(x) == c.Slots(x)
    ensures SlotsConserved(sh', c')
  {
    forall x: nat ensures ConservedAt(sh', c', x) {
      assert ConservedAt(sh, c, x);
      SamePublishedAt(sh, sh', x);
    }
  }

  /** A change that keeps all live infos frames all claims. */
  lemma {:induction false} FramedIf(sh: Shared, sh': Shared, c: Claims)
    requires Linked(sh) && KeepsIndexed(sh, sh')
    requires forall p: Ptr :: c.Refs(p) > 0 ==> KeepsInfo(sh, sh', p)
    ensures Framed(sh, sh', c)
  {
    forall p: Ptr ensures RefFramed(sh, sh', c, p) {
      SamePublished(sh, sh', p);
      if c.Refs(p) > 0 { assert KeepsInfo(sh, sh', p); }
    }
    forall x: nat ensures SlotFramed(sh, sh', c, x) {}
  }

  /** Changing the refcount of one live info, or adding a new info. */
  ghost predicate KeepsHeap(sh: Shared, sh': Shared) {
    SameTables(sh, sh') && forall p: Ptr :: p in sh.heap ==> KeepsInfo(sh, sh', p)
  }

  lemma {:induction false} HeapIndexed(sh: Shared, sh': Shared)
    requires Linked(sh) && KeepsHeap(sh, sh')
    ensures KeepsIndexed(sh, sh')
  {
    forall h ensures KeepsHash(sh, sh', h) { assert HashLinked(sh, h); }
  }

  /** Once refcounts and pending infos are accounted for, such a change keeps the balance. */
  lemma {:induction false} Tweak(env: Env, sh: Shared, sh': Shared, c: Claims, c': Claims)
    requires Global(env, sh, c) && KeepsHeap(sh, sh')
    requires RefsExact(sh', c') && PendingApart(sh', c')
    requires forall x: nat :: c'.Slots(x) == c.Slots(x)
    ensures Global(env, sh', c') && Framed(sh, sh', c)
  {
    HeapIndexed(sh, sh');
    SameLinks(env, sh, sh');
    SameOwners(sh, sh', c, c');
    forall p: Ptr | c.Refs(p) > 0 ensures KeepsInfo(sh, sh', p) { Alive(sh, c, p); }
    FramedIf(sh, sh', c);
  }

  // --------------------------------------------------------------------------- references

  /** A HIT adds one reference to a live info. */
  lemma {:induction false} TakeRef(env: Env, sh: Shared, c: Claims, p: Ptr)
    requires Global(env, sh, c) && p in sh.heap
    ensures Global(env, sh.(heap := Bump(sh.heap, p)), c.Ref(p))
    ensures Framed(sh, sh.(heap := Bump(sh.heap, p)), c)
    ensures Published(sh.(heap := Bump(sh.heap, p)), p) == Published(sh, p)
  {
    var sh', c' := sh.(heap := Bump(sh.heap, p)), c.Ref(p);
    HeapIndexed(sh, sh');
    forall q: Ptr ensures ExactAt(sh', c', q) { assert ExactAt(sh, c, q); }
    forall q: Ptr ensures ApartAt(sh', c', q) {
      assert ApartAt(sh, c, q);
      SamePublished(sh, sh', q);
    }
    Tweak(env, sh, sh', c, c');
    SamePublished(sh, sh', p);
  }

  /** A MISS creates a pending info with refcount 1. */
  lemma {:induction false} NewPending(env: Env, sh: Shared, c: Claims, p: Ptr, h: Hash)
    requires Global(env, sh, c) && p !in sh.heap
    ensures Global(env, sh.(heap := sh.heap[p := MasterInfo(h, 0, 1)]), c.With(Miss(p)))
    ensures Framed(sh, sh.(heap := sh.heap[p := MasterInfo(h, 0, 1)]), c)
    ensures c.Refs(p) == 0
  {
    var sh', c' := sh.(heap := sh.heap[p := MasterInfo(h, 0, 1)]), c.With(Miss(p));
    Dead(sh, c, p);
    HeapIndexed(sh, sh');
    forall q: Ptr ensures ExactAt(sh', c', q) { assert ExactAt(sh, c, q); }
    forall q: Ptr ensures ApartAt(sh', c', q) {
      assert ApartAt(sh, c, q);
      SamePublished(sh, sh', q);
    }
    Tweak(env, sh, sh', c, c');
  }

  /** fetch_sub and the number of references fall together. */
  lemma {:induction false} DropRefs(sh: Shared, c: Claims, p: Ptr)
    requires RefsExact(sh, c.Ref(p))
    ensures RefsExact(Drop(sh, p).sh, c.Owns(Drop(sh, p).freed))
  {
    var sh', c' := Drop(sh, p).sh, c.Owns(Drop(sh, p).freed);
    forall q: Ptr ensures ExactAt(sh', c', q) { assert ExactAt(sh, c.Ref(p), q); }
  }

  lemma {:induction false} DropApart(sh: Shared, sh': Shared, c: Claims, p: Ptr, freed: seq<nat>)
    requires PendingApart(sh, c.Ref(p)) && (Published(sh, p) || c.Refs(p) > 0)
    requires forall q: Ptr :: Published(sh', q) ==> Published(sh, q)
    ensures PendingApart(sh', c.Owns(freed))
  {
    forall q: Ptr ensures ApartAt(sh', c.Owns(freed), q) { assert ApartAt(sh, c.Ref(p), q); }
  }

  /** Dropping a reference that is not the last. */
  lemma {:induction false} DropShared(env: Env, sh: Shared, c: Claims, p: Ptr)
    requires Global(env, sh, c.Ref(p)) && Refcount(sh, p) > 1
    requires Published(sh, p) || c.Refs(p) > 0
    ensures Global(env, Drop(sh, p).sh, c.Owns(Drop(sh, p).freed))
    ensures Framed(sh, Drop(sh, p).sh, c.Ref(p))
  {
    var d, c1 := Drop(sh, p), c.Ref(p);
    DropRefs(sh, c, p);
    HeapIndexed(sh, d.sh);
    forall q: Ptr ensures Published(d.sh, q) == Published(sh, q) { SamePublished(sh, d.sh, q); }
    DropApart(sh, d.sh, c, p, d.freed);
    Tweak(env, sh, d.sh, c1, c.Owns(d.freed));
  }

  lemma {:induction false} LastPublished(sh: Shared, p: Ptr, q: Ptr)
    requires Linked(sh) && Published(sh, p) && Refcount(sh, p) == 1
    ensures Published(Drop(sh, p).sh, q) == (q != p && Published(sh, q))
  {
    if q in sh.heap { assert HashLinked(sh, sh.heap[q].hash); }
  }

  lemma {:induction false} LastPublishedAt(sh: Shared, p: Ptr, x: nat)
    requires Linked(sh) && Published(sh, p) && Refcount(sh, p) == 1
    ensures |PublishedAt(sh, x)| == |PublishedAt(Drop(sh, p).sh, x)| + if x == sh.heap[p].slot then 1 else 0
  {
    var sh', h := Drop(sh, p).sh, sh.heap[p].hash;
    forall g ensures g in PublishedAt(sh', x) <==> g in PublishedAt(sh, x) && g != h { assert HashLinked(sh, g); }
    assert PublishedAt(sh, x) == PublishedAt(sh', x) + if x == sh.heap[p].slot then {h} else {};
  }

  lemma {:induction false} LastLinks(env: Env, sh: Shared, c: Claims, p: Ptr)
    requires RefsExact(sh, c) && Linked(sh) && Coherent(env, sh)
    requires Published(sh, p) && Refcount(sh, p) == 1 && c.Refs(p) > 0
    ensures Linked(Drop(sh, p).sh) && Coherent(env, Drop(sh, p).sh)
  {
    var sh' := Drop(sh, p).sh;
    assert ExactAt(sh, c, p);
    forall h ensures HashLinked(sh', h) { assert HashLinked(sh, h); }
    forall k ensures FileLinked(sh', k) {
      assert FileLinked(sh, k);
      if k in sh.fileToMaster {
        MappedPositive(sh.fileToMaster, k);
        LastPublished(sh, p, sh.fileToMaster[k]);
      }
    }
    forall q: Ptr ensures BackedAt(env, sh', q) {
      LastPublished(sh, p, q);
      assert BackedAt(env, sh, q);
    }
  }

  lemma {:induction false} LastOwners(sh: Shared, c: Claims, p: Ptr)
    requires Linked(sh) && SlotsConserved(sh, c.Ref(p)) && Published(sh, p) && Refcount(sh, p) == 1
    ensures SlotsConserved(Drop(sh, p).sh, c.Owns(Drop(sh, p).freed))
  {
    var d := Drop(sh, p);
    forall x: nat ensures ConservedAt(d.sh, c.Owns(d.freed), x) {
      assert ConservedAt(sh, c.Ref(p), x);
      LastPublishedAt(sh, p, x);
    }
  }

  lemma {:induction false} LastFramed(sh: Shared, c: Claims, p: Ptr)
    requires Linked(sh) && RefsExact(sh, c.Ref(p)) && Published(sh, p) && Refcount(sh, p) == 1
    ensures Framed(sh, Drop(sh, p).sh, c)
  {
    var sh' := Drop(sh, p).sh;
    assert ExactAt(sh, c.Ref(p), p);
    forall q: Ptr ensures RefFramed(sh, sh', c, q) {
      assert ExactAt(sh, c.Ref(p), q);
      LastPublished(sh, p, q);
    }
    forall x: nat ensures SlotFramed(sh, sh', c, x) {}
  }

  /** Dropping the last reference of a published info: it disappears and yields its slot. */
  lemma {:induction false} DropLast(env: Env, sh: Shared, c: Claims, p: Ptr)
    requires Global(env, sh, c.Ref(p)) && Refcount(sh, p) == 1 && Published(sh, p)
    ensures Global(env, Drop(sh, p).sh, c.Owns(Drop(sh, p).freed))
    ensures Framed(sh, Drop(sh, p).sh, c)
  {
    var d := Drop(sh, p);
    DropRefs(sh, c, p);
    LastOwners(sh, c, p);
    LastLinks(env, sh, c.Ref(p), p);
    forall q: Ptr ensures Published(d.sh, q) == (q != p && Published(sh, q)) { LastPublished(sh, p, q); }
    DropApart(sh, d.sh, c, p, d.freed);
    LastFramed(sh, c, p);
  }

  lemma {:induction false} FramedSub(sh: Shared, sh': Shared, c: Claims, rest: Claims)
    requires Framed(sh, sh', c)
    requires forall k: nat :: rest.Refs(k) <= c.Refs(k) && rest.Slots(k) <= c.Slots(k)
    ensures Framed(sh, sh', rest)
  {
    forall p: Ptr ensures RefFramed(sh, sh', rest, p) { assert RefFramed(sh, sh', c, p); }
    forall x: nat ensures SlotFramed(sh, sh', rest, x) { assert SlotFramed(sh, sh', c, x); }
  }

  /** Dropping one claimed reference: the info survives while it is referenced elsewhere,
      and its slot passes to the caller with the last reference. */
  lemma {:induction false} DropRef(env: Env, sh: Shared, c: Claims, p: Ptr)
    requires Global(env, sh, c.Ref(p))
    requires Published(sh, p) || c.Refs(p) > 0
    ensures Global(env, Drop(sh, p).sh, c.Owns(Drop(sh, p).freed))
    ensures Framed(sh, Drop(sh, p).sh, c)
  {
    assert ExactAt(sh, c.Ref(p), p);
    if Refcount(sh, p) == 1 {
      DropLast(env, sh, c, p);
    } else {
      DropShared(env, sh, c, p);
      FramedSub(sh, Drop(sh, p).sh, c.Ref(p), c);
    }
  }

  /** The hash index and the heap are untouched, so the published infos are the same. */
  lemma {:induction false} IndexOnly(env: Env, sh: Shared, sh': Shared)
    requires sh'.heap == sh.heap && sh'.hashToMaster == sh.hashToMaster && sh'.disk == sh.disk
    requires Linked(sh) && Coherent(env, sh) && sh.next <= sh'.next
    ensures forall h :: HashLinked(sh', h)
    ensures Coherent(env, sh')
    ensures forall x: nat :: PublishedAt(sh', x) == PublishedAt(sh, x)
    ensures forall p: Ptr :: Published(sh', p) == Published(sh, p)
  {
    forall h ensures HashLinked(sh', h) { assert HashLinked(sh, h); }
    forall p: Ptr ensures BackedAt(env, sh', p) { assert BackedAt(env, sh, p); }
  }

  /** Removing a mapping turns its reference into a claim. */
  lemma {:induction false} Detach(env: Env, sh: Shared, c: Claims, k: Key)
    requires Global(env, sh, c) && k in sh.fileToMaster
    ensures Global(env, sh.(fileToMaster := Remove(sh.fileToMaster, k)), c.Ref(sh.fileToMaster[k]))
  {
    var sh', c' := sh.(fileToMaster := Remove(sh.fileToMaster, k)), c.Ref(sh.fileToMaster[k]);
    IndexOnly(env, sh, sh');
    forall q: Ptr ensures ExactAt(sh', c', q) {
      assert ExactAt(sh, c, q);
      MapRemove(sh.fileToMaster, k, q);
    }
    forall j ensures FileLinked(sh', j) { assert FileLinked(sh, j); }
    forall q: Ptr ensures ApartAt(sh', c', q) { assert ApartAt(sh, c, q); }
    forall x: nat ensures ConservedAt(sh', c', x) { assert ConservedAt(sh, c, x); }
  }

  /** Adding a mapping consumes a claimed reference on a published info. */
  lemma {:induction false} Attach(env: Env, sh: Shared, c: Claims, k: Key, p: Ptr)
    requires Global(env, sh, c.Ref(p)) && k !in sh.fileToMaster && Published(sh, p)
    ensures Global(env, sh.(fileToMaster := sh.fileToMaster[k := p]), c)
  {
    var sh', c1 := sh.(fileToMaster := sh.fileToMaster[k := p]), c.Ref(p);
    IndexOnly(env, sh, sh');
    forall q: Ptr ensures ExactAt(sh', c, q) {
      assert ExactAt(sh, c1, q);
      MapInsert(sh.fileToMaster, k, p, q);
    }
    forall j ensures FileLinked(sh', j) { assert FileLinked(sh, j); }
    forall q: Ptr ensures ApartAt(sh', c, q) { assert ApartAt(sh, c1, q); }
    forall x: nat ensures ConservedAt(sh', c, x) { assert ConservedAt(sh, c1, x); }
  }

  // --------------------------------------------------------------------------------- slots

  /** Slots leave the free list for a claim. */
  lemma {:induction false} MoveSlotsOut(env: Env, sh: Shared, c: Claims, xs: seq<nat>, free: seq<nat>)
    requires sh.freeList == xs + free && Global(env, sh, c)
    ensures Global(env, sh.(freeList := free), c.Owns(xs))
  {
    var sh', c' := sh.(freeList := free), c.Owns(xs);
    IndexOnly(env, sh, sh');
    forall q: Ptr ensures ExactAt(sh', c', q) { assert ExactAt(sh, c, q); }
    forall j ensures FileLinked(sh', j) { assert FileLinked(sh, j); }
    forall q: Ptr ensures ApartAt(sh', c', q) { assert ApartAt(sh, c, q); }
    assert multiset(sh.freeList) == multiset(xs) + multiset(free);
    forall x: nat ensures ConservedAt(sh', c', x) { assert ConservedAt(sh, c, x); }
  }

  /** Claimed slots return to the head of the free list. */
  lemma {:induction false} MoveSlotsIn(env: Env, sh: Shared, c: Claims, xs: seq<nat>)
    requires Global(env, sh, c.Owns(xs))
    ensures Global(env, sh.(freeList := xs + sh.freeList), c)
  {
    var sh', c1 := sh.(freeList := xs + sh.freeList), c.Owns(xs);
    IndexOnly(env, sh, sh');
    forall q: Ptr ensures ExactAt(sh', c, q) { assert ExactAt(sh, c1, q); }
    forall j ensures FileLinked(sh', j) { assert FileLinked(sh, j); }
    forall q: Ptr ensures ApartAt(sh', c, q) { assert ApartAt(sh, c1, q); }
    assert multiset(sh'.freeList) == multiset(xs) + multiset(sh.freeList);
    forall x: nat ensures ConservedAt(sh', c, x) { assert ConservedAt(sh, c1, x); }
  }

  lemma {:induction false} CountLast(xs: seq<nat>, y: nat, x: nat)
    ensures multiset(xs + [y])[x] == multiset(xs)[x] + if x == y then 1 else 0
  {}

  lemma {:induction false} ConsecutiveCount(xs: seq<nat>, base: nat, x: nat)
    requires forall i :: 0 <= i < |xs| ==> xs[i] == base + i
    ensures multiset(xs)[x] == if base <= x < base + |xs| then 1 else 0
  {
    if xs != [] {
      var n := |xs| - 1;
      ConsecutiveCount(xs[..n], base, x);
      assert xs == xs[..n] + [xs[n]];
      CountLast(xs[..n], xs[n], x);
    }
  }

  /** fetch_add reserves slots that nobody owns. */
  lemma {:induction false} Reserve(env: Env, sh: Shared, c: Claims, n: nat)
    requires Global(env, sh, c)
    ensures Global(env, sh.(next := sh.next + n), c.Owns(Range(sh.next, n)))
  {
    var sh', c' := sh.(next := sh.next + n), c.Owns(Range(sh.next, n));
    IndexOnly(env, sh, sh');
    forall q: Ptr ensures ExactAt(sh', c', q) { assert ExactAt(sh, c, q); }
    forall j ensures FileLinked(sh', j) { assert FileLinked(sh, j); }
    forall q: Ptr ensures ApartAt(sh', c', q) { assert ApartAt(sh, c, q); }
    forall x: nat ensures ConservedAt(sh', c', x) {
      assert ConservedAt(sh, c, x);
      ConsecutiveCount(Range(sh.next, n), sh.next, x);
    }
  }

  /** A claimed slot is below `next` and belongs to nobody else. */
  lemma {:induction false} SlotPrivate(sh: Shared, c: Claims, x: nat)
    requires Linked(sh) && SlotsConserved(sh, c) && c.Slots(x) > 0
    ensures x < sh.next && c.Slots(x) == 1 && x !in sh.freeList
    ensures forall p: Ptr :: Published(sh, p) ==> sh.heap[p].slot != x
  {
    assert ConservedAt(sh, c, x);
    forall p: Ptr | Published(sh, p) ensures sh.heap[p].slot != x {
      assert sh.heap[p].hash in PublishedAt(sh, sh.heap[p].slot);
    }
  }

  // --------------------------------------------------------------------------- pending infos

  /** Storing the slot in a pending info is invisible outside. */
  lemma {:induction false} SetSlot(env: Env, sh: Shared, c: Claims, p: Ptr, x: nat)
    requires Global(env, sh, c) && c.Pending(p) > 0 && p in sh.heap
    ensures var sh' := sh.(heap := sh.heap[p := sh.heap[p].(slot := x)]);
            && Global(env, sh', c)
            && forall q: Ptr :: Published(sh', q) == Published(sh, q)
  {
    var sh' := sh.(heap := sh.heap[p := sh.heap[p].(slot := x)]);
    assert ApartAt(sh, c, p);
    forall h ensures KeepsHash(sh, sh', h) { assert HashLinked(sh, h); }
    SameLinks(env, sh, sh');
    SameOwners(sh, sh', c, c);
    forall q: Ptr ensures ExactAt(sh', c, q) { assert ExactAt(sh, c, q); }
    forall q: Ptr ensures Published(sh', q) == Published(sh, q) { SamePublished(sh, sh', q); }
    forall q: Ptr ensures ApartAt(sh', c, q) { assert ApartAt(sh, c, q); }
  }

  lemma {:induction false} FreeIndexed(sh: Shared, p: Ptr)
    requires Linked(sh) && !Published(sh, p)
    ensures KeepsIndexed(sh, sh.(heap := Remove(sh.heap, p)))
  {
    forall h ensures KeepsHash(sh, sh.(heap := Remove(sh.heap, p)), h) { assert HashLinked(sh, h); }
  }

  /** Freeing a pending info that only its owner references. */
  lemma {:induction false} FreePending(env: Env, sh: Shared, c: Claims, p: Ptr)
    requires Global(env, sh, c.With(Miss(p))) && Refcount(sh, p) == 1
    ensures Global(env, sh.(heap := Remove(sh.heap, p)), c)
    ensures Framed(sh, sh.(heap := Remove(sh.heap, p)), c)
    ensures !Published(sh, p)
  {
    var c1, sh' := c.With(Miss(p)), sh.(heap := Remove(sh.heap, p));
    assert ExactAt(sh, c1, p) && ApartAt(sh, c1, p);
    FreeIndexed(sh, p);
    SameLinks(env, sh, sh');
    SameOwners(sh, sh', c1, c);
    forall q: Ptr ensures ExactAt(sh', c, q) { assert ExactAt(sh, c1, q); }
    forall q: Ptr ensures ApartAt(sh', c, q) {
      assert ApartAt(sh, c1, q);
      SamePublished(sh, sh', q);
    }
    forall q: Ptr | c.Refs(q) > 0 ensures KeepsInfo(sh, sh', q) { assert ExactAt(sh, c1, q); }
    FramedIf(sh, sh', c);
  }

  lemma {:induction false} WinPublished(sh: Shared, p: Ptr, q: Ptr)
    requires p in sh.heap && sh.heap[p].hash !in sh.hashToMaster
    ensures Published(sh.(hashToMaster := sh.hashToMaster[sh.heap[p].hash := p]), q) == (q == p || Published(sh, q))
  {}

  lemma {:induction false} WinPublishedAt(sh: Shared, p: Ptr, x: nat)
    requires p in sh.heap && sh.heap[p].hash !in sh.hashToMaster
    ensures |PublishedAt(sh.(hashToMaster := sh.hashToMaster[sh.heap[p].hash := p]), x)|
            == |PublishedAt(sh, x)| + if x == sh.heap[p].slot then 1 else 0
  {
    var h := sh.heap[p].hash;
    var sh' := sh.(hashToMaster := sh.hashToMaster[h := p]);
    forall g ensures g in PublishedAt(sh', x) <==> g in PublishedAt(sh, x) || (g == h && x == sh.heap[p].slot) {}
    assert h !in PublishedAt(sh, x);
    assert PublishedAt(sh', x) == PublishedAt(sh, x) + if x == sh.heap[p].slot then {h} else {};
  }

  /** Publishing a pending info whose block is on disk. */
  lemma {:induction false} PublishPending(env: Env, sh: Shared, c: Claims, p: Ptr)
    requires p in sh.heap && sh.heap[p].hash !in sh.hashToMaster
    requires Global(env, sh, c.With(Placed(p, sh.heap[p].slot)))
    requires Backed(env, sh.disk, sh.heap[p].slot, sh.heap[p].hash)
    ensures Global(env, sh.(hashToMaster := sh.hashToMaster[sh.heap[p].hash := p]), c.Ref(p))
  {
    var c1, c', sh' := c.With(Placed(p, sh.heap[p].slot)), c.Ref(p),
        sh.(hashToMaster := sh.hashToMaster[sh.heap[p].hash := p]);
    assert ApartAt(sh, c1, p);
    forall q: Ptr ensures ExactAt(sh', c', q) { assert ExactAt(sh, c1, q); }
    forall h ensures HashLinked(sh', h) { assert HashLinked(sh, h); }
    forall k ensures FileLinked(sh', k) {
      assert FileLinked(sh, k);
      if k in sh.fileToMaster { WinPublished(sh, p, sh.fileToMaster[k]); }
    }
    forall q: Ptr ensures ApartAt(sh', c', q) {
      assert ApartAt(sh, c1, q);
      WinPublished(sh, p, q);
    }
    forall x: nat ensures ConservedAt(sh', c', x) {
      assert ConservedAt(sh, c1, x);
      WinPublishedAt(sh, p, x);
    }
    forall q: Ptr ensures BackedAt(env, sh', q) {
      assert BackedAt(env, sh, q);
      WinPublished(sh, p, q);
    }
  }

  // ----------------------------------------------------------------------------------- disk

  /** Writing claimed slots disturbs no published info. */
  lemma {:induction false} WriteClaimed(env: Env, sh: Shared, c: Claims, disk': map<nat, Block>)
    requires Global(env, sh, c) && sh.disk.Keys <= disk'.Keys
    requires forall x :: x in disk' ==> c.Slots(x) > 0 || (x in sh.disk && disk'[x] == sh.disk[x])
    ensures Global(env, sh.(disk := disk'), c)
  {
    var sh' := sh.(disk := disk');
    forall q: Ptr ensures ExactAt(sh', c, q) { assert ExactAt(sh, c, q); }
    forall h ensures HashLinked(sh', h) { assert HashLinked(sh, h); }
    forall k ensures FileLinked(sh', k) { assert FileLinked(sh, k); }
    forall q: Ptr ensures ApartAt(sh', c, q) { assert ApartAt(sh, c, q); }
    forall x: nat ensures ConservedAt(sh', c, x) {
      assert ConservedAt(sh, c, x);
      assert PublishedAt(sh', x) == PublishedAt(sh, x);
    }
    forall q: Ptr ensures BackedAt(env, sh', q) {
      assert BackedAt(env, sh, q);
      if Published(sh, q) {
        var x := sh.heap[q].slot;
        assert x in disk';
        if c.Slots(x) > 0 { SlotPrivate(sh, c, x); }
      }
    }
    forall x | x in disk' ensures x < sh.next {
      if c.Slots(x) > 0 { SlotPrivate(sh, c, x); }
    }
  }
}
