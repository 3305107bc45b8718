/** index_destroy followed by index_init: what a clean unmount and mount preserves, and when
    the slot allocator survives it. */
module Restart {
  import opened Model
  import opened Steps
  import opened Invariant
  import opened Accounting
  import opened Safety
  import opened Solo
  import opened Quiescence
  import opened Bytes
  import opened Framing
  import opened Codecs
  import opened Tables
  import opened PairFiles

  /** The metadata files. The master stays where it is. */
  datatype Saved = Saved(pair: Files, sizes: Data, free: Data)

  /** The order in which each table happens to be enumerated. */
  datatype Orders = Orders(hashes: seq<Hash>, keys: seq<Key>, paths: seq<Path>)

  ghost predicate Enumerated(sh: Shared, o: Orders) {
    Enumerates(o.hashes, sh.hashToMaster) && Enumerates(o.keys, sh.fileToMaster) && Enumerates(o.paths, sh.sizes)
  }

  /** The live infos as they lie in memory; the padding may hold anything. */
  ghost predicate Images(sh: Shared, image: map<Ptr, Data>) {
    forall p :: p in sh.heap ==>
      p in image && |image[p]| < INT_LIMIT && DecodeMasterInfo(image[p]) == Some(sh.heap[p])
  }

  /** Everything fits its field, and counts fit an int. */
  ghost predicate Fits(sh: Shared) {
    && |sh.hashToMaster| < INT_LIMIT && |sh.fileToMaster| < INT_LIMIT && |sh.sizes| < INT_LIMIT
        && |sh.freeList| < INT_LIMIT
    && (forall h :: h in sh.hashToMaster ==> |h| == HASH_SIZE)
    && (forall k :: k in sh.fileToMaster ==> KeyFits(k))
    && (forall p :: p in sh.sizes ==> PathFits(p) && sh.sizes[p] < Pow256(WIDTH_SIZE))
    && (forall x :: x in sh.freeList ==> x < Pow256(WIDTH_SIZE))
  }

  ghost predicate Covers(sh: Shared, o: Orders) {
    (forall h :: h in o.hashes ==> h in sh.hashToMaster) && (forall k :: k in o.keys ==> k in sh.fileToMaster)
  }

  function Values(sh: Shared, o: Orders): seq<Ptr>
    requires Covers(sh, o)
  {
    PairValues(o.hashes, sh.hashToMaster, o.keys, sh.fileToMaster)
  }

  /** Every object that a table leads to is in the array and has an image. */
  ghost predicate Collected(sh: Shared, values: seq<Ptr>, image: map<Ptr, Data>) {
    && (forall h :: h in sh.hashToMaster ==> sh.hashToMaster[h] in values)
    && (forall k :: k in sh.fileToMaster ==> sh.fileToMaster[k] in values)
    && (forall p :: p in values ==> p in image)
  }

  function PairFilesOf(sh: Shared, o: Orders, values: seq<Ptr>, image: map<Ptr, Data>): Files
    requires Covers(sh, o) && Collected(sh, values, image)
  {
    PairFormat(o.hashes, sh.hashToMaster, EncodeHash, o.keys, sh.fileToMaster, EncodeKey, values, image)
  }

  function SizesFile(sizes: map<Path, nat>, order: seq<Path>): Data
    requires forall p :: p in order ==> p in sizes
  {
    TableFile(SaveRows(order, sizes, EncodeStr, EncodeSize))
  }

  function EncodeAll(xs: seq<nat>): (es: seq<Data>)
    ensures |es| == |xs| && forall i: nat :: i < |es| ==> es[i] == EncodeSize(xs[i])
  {
    seq(|xs|, i requires 0 <= i < |xs| => EncodeSize(xs[i]))
  }

  /** index_destroy. */
  function Destroy(sh: Shared, o: Orders, values: seq<Ptr>, image: map<Ptr, Data>): Saved
    requires Covers(sh, o) && Collected(sh, values, image) && forall p :: p in o.paths ==> p in sh.sizes
  {
    Saved(PairFilesOf(sh, o, values, image), SizesFile(sh.sizes, o.paths), ListFile(EncodeAll(sh.freeList)))
  }

  /** The length of the master in blocks. */
  ghost function EndOf(slots: set<nat>): (n: nat)
    ensures forall x :: x in slots ==> x < n
    ensures n == 0 || n - 1 in slots
  {
    if slots == {} then 0
    else
      var x :| x in slots;
      var n := EndOf(slots - {x});
      assert forall y :: y in slots ==> y == x || y in slots - {x};
      if x < n then n else x + 1
  }

  /** The loaded objects at their new addresses. */
  function HeapOf(place: seq<Ptr>, objects: seq<MasterInfo>): map<Ptr, MasterInfo> {
    map q | q in place && IndexOf(place, q) < |objects| :: objects[IndexOf(place, q)]
  }

  function Place<K>(m: map<K, nat>, place: seq<Ptr>): map<K, Ptr> {
    map k | k in m && m[k] < |place| :: place[m[k]]
  }

  /** index_init and xmp_init. The i-th loaded object gets address place[i]. */
  ghost function Init(saved: Saved, disk: map<nat, Block>, place: seq<Ptr>): Shared {
    var p := LoadPair(saved.pair, DecodeHash, DecodeKey, DecodeMasterInfo);
    Shared(Place(p.first, place), Place(p.second, place),
        LoadInto(map[], ParseTable(saved.sizes), DecodeStr, DecodeSize),
           HeapOf(place, p.objects), DecodeAll(ParseList(saved.free), DecodeSize), EndOf(disk.Keys), disk)
  }

  /** Unmount, then mount: what the tables, the list and the counter are afterwards. */
  ghost function Remount(sh: Shared, o: Orders, image: map<Ptr, Data>, place: seq<Ptr>): Shared
    requires Covers(sh, o) && Collected(sh, Values(sh, o), image) && forall p :: p in o.paths ==> p in sh.sizes
  {
    Init(Destroy(sh, o, Values(sh, o), image), sh.disk, place)
  }

  // ------------------------------------------------------------------- the renamed state

  /** The new address of the object at p. */
  function NewAddress(values: seq<Ptr>, place: seq<Ptr>, p: Ptr): Ptr
    requires p in values && |values| <= |place|
  {
    place[IndexOf(values, p)]
  }

  /** The table leads from the same keys to the new addresses. */
  ghost predicate TableMoved<K(!new)>(t: map<K, Ptr>, t': map<K, Ptr>, values: seq<Ptr>, place: seq<Ptr>)
    requires |values| <= |place|
  {
    && (forall k :: k in t' <==> k in t)
    && (forall k :: k in t ==> t[k] in values && t'[k] == NewAddress(values, place, t[k]))
  }

  /** The heap holds the same objects at the new addresses, and nothing else. */
  ghost predicate HeapMoved(heap: map<Ptr, MasterInfo>, heap': map<Ptr, MasterInfo>, values: seq<Ptr>, place: seq<Ptr>)
    requires |values| <= |place|
  {
    && (forall q :: q in heap' <==> exists p :: p in values && q == NewAddress(values, place, p))
    && (forall p :: p in values ==> p in heap && heap'[NewAddress(values, place, p)] == heap[p])
  }

  /** sh' is sh with every object moved to a new address, and `next` read off the master. */
  ghost predicate Relocated(sh: Shared, sh': Shared, values: seq<Ptr>, place: seq<Ptr>) {
    && Distinct(values) && Distinct(place) && |values| <= |place|
    && TableMoved(sh.hashToMaster, sh'.hashToMaster, values, place)
    && TableMoved(sh.fileToMaster, sh'.fileToMaster, values, place)
    && HeapMoved(sh.heap, sh'.heap, values, place)
    && sh'.sizes == sh.sizes && sh'.freeList == sh.freeList && sh'.disk == sh.disk
    && sh'.next == EndOf(sh.disk.Keys)
  }

  lemma {:induction false} SameAddress(values: seq<Ptr>, place: seq<Ptr>, p: Ptr, q: Ptr)
    requires Distinct(place) && |values| <= |place| && p in values && q in values
    ensures NewAddress(values, place, p) == NewAddress(values, place, q) <==> p == q
  {
    var i, j := IndexOf(values, p), IndexOf(values, q);
    if i < j { assert place[i] != place[j]; } else if j < i { assert place[j] != place[i]; }
  }

  lemma {:induction false} MovedMappings(sh: Shared, sh': Shared, values: seq<Ptr>, place: seq<Ptr>, p: Ptr)
    requires Relocated(sh, sh', values, place) && p in values
    ensures MappedTo(sh'.fileToMaster, NewAddress(values, place, p)) == MappedTo(sh.fileToMaster, p)
  {
    forall k
      ensures k in MappedTo(sh'.fileToMaster, NewAddress(values, place, p)) <==> k in MappedTo(sh.fileToMaster, p)
    {
      if k in sh.fileToMaster { SameAddress(values, place, sh.fileToMaster[k], p); }
    }
  }

  lemma {:induction false} MovedExact(env: Env, sh: Shared, sh': Shared, values: seq<Ptr>, place: seq<Ptr>, q: Ptr)
    requires Quiet(env, sh) && Relocated(sh, sh', values, place)
    ensures ExactAt(sh', Nothing, q)
  {
    if q in sh'.heap {
      var p :| p in values && q == NewAddress(values, place, p);
      assert ExactAt(sh, Nothing, p);
      MovedMappings(sh, sh', values, place, p);
    } else {
      forall k | k in sh'.fileToMaster ensures sh'.fileToMaster[k] != q {}
      assert MappedTo(sh'.fileToMaster, q) == {};
    }
  }

  lemma {:induction false} MovedLinked(env: Env, sh: Shared, sh': Shared, values: seq<Ptr>, place: seq<Ptr>)
    requires Quiet(env, sh) && Relocated(sh, sh', values, place)
    ensures Linked(sh')
  {
    forall h ensures HashLinked(sh', h) { assert HashLinked(sh, h); }
    forall k ensures FileLinked(sh', k) { assert FileLinked(sh, k); }
  }

  lemma {:induction false} MovedPublished(sh: Shared, sh': Shared, values: seq<Ptr>, place: seq<Ptr>, x: nat)
    requires Relocated(sh, sh', values, place) && Linked(sh)
    ensures PublishedAt(sh', x) == PublishedAt(sh, x)
  {
    forall h ensures h in PublishedAt(sh', x) <==> h in PublishedAt(sh, x) { assert HashLinked(sh, h); }
  }

  lemma {:induction false} MovedCoherent(env: Env, sh: Shared, sh': Shared, values: seq<Ptr>, place: seq<Ptr>)
    requires Quiet(env, sh) && Relocated(sh, sh', values, place)
    ensures Coherent(env, sh')
  {
    forall q: Ptr ensures BackedAt(env, sh', q) {
      if Published(sh', q) {
        var h := sh'.heap[q].hash;
        HashIsPublished(sh, h);
        assert HashLinked(sh, h) && BackedAt(env, sh, sh.hashToMaster[h]);
      }
    }
  }

  /** A slot below `next` that is not free lies inside the master. */
  lemma {:induction false} UsedIsInside(env: Env, sh: Shared, x: nat)
    requires Quiet(env, sh) && x < sh.next && x !in sh.freeList
    ensures x in sh.disk
  {
    assert ConservedAt(sh, Nothing, x);
    var h :| h in PublishedAt(sh, x);
    HashIsPublished(sh, h);
    assert BackedAt(env, sh, sh.hashToMaster[h]);
  }

  /** The exact condition: the restarted store is balanced if and only if every free slot
      lies below the physical end of the master. */
  lemma {:induction false} BalancedIff(env: Env, sh: Shared, sh': Shared, values: seq<Ptr>, place: seq<Ptr>)
    requires Quiet(env, sh) && Relocated(sh, sh', values, place)
    ensures Quiet(env, sh') <==> forall x :: x in sh.freeList ==> x < EndOf(sh.disk.Keys)
  {
    forall q: Ptr ensures ExactAt(sh', Nothing, q) { MovedExact(env, sh, sh', values, place, q); }
    forall q: Ptr ensures ApartAt(sh', Nothing, q) {}
    MovedLinked(env, sh, sh', values, place);
    MovedCoherent(env, sh, sh', values, place);
    if forall x :: x in sh.freeList ==> x < sh'.next {
      forall x: nat ensures ConservedAt(sh', Nothing, x) {
        assert ConservedAt(sh, Nothing, x);
        MovedPublished(sh, sh', values, place, x);
        if x < sh.next && x !in sh.freeList { UsedIsInside(env, sh, x); }
      }
    } else {
      var x :| x in sh.freeList && x >= sh'.next;
      assert multiset(sh'.freeList)[x] > 0;
      assert !ConservedAt(sh', Nothing, x);
    }
  }

  // ------------------------------------------------------------------- the round trip

  lemma {:induction false} ValuesAreLive(env: Env, sh: Shared, o: Orders, image: map<Ptr, Data>)
    requires Quiet(env, sh) && Enumerated(sh, o) && Images(sh, image)
    ensures Distinct(Values(sh, o)) && Collected(sh, Values(sh, o), image)
    ensures forall p :: p in Values(sh, o) ==> p in sh.heap
  {
    CollectedPair(o.hashes, sh.hashToMaster, o.keys, sh.fileToMaster);
    forall p | p in Values(sh, o) ensures p in sh.heap {
      if p in sh.hashToMaster.Values {
        var h :| h in sh.hashToMaster && sh.hashToMaster[h] == p;
        assert HashLinked(sh, h);
      } else {
        var k :| k in sh.fileToMaster && sh.fileToMaster[k] == p;
        assert FileLinked(sh, k);
      }
    }
  }

  lemma {:induction false} KeysDecode(sh: Shared, o: Orders)
    requires Enumerated(sh, o) && Fits(sh) && |o.hashes| < INT_LIMIT && |o.keys| < INT_LIMIT
    ensures KeysOk(o.hashes, EncodeHash, DecodeHash) && KeysOk(o.keys, EncodeKey, DecodeKey)
  {
    IntFitsSize();
    assert Pow256(8) > Pow256(4) + 16 by { assert Pow256(8) == 0x1_0000_0000 * Pow256(4) by { Pow8(); } }
    forall k | k in o.keys ensures Framable(EncodeKey(k)) && DecodeKey(EncodeKey(k)) == Some(k) { KeyRoundTrip(k); }
  }

  lemma {:induction false} Pow8()
    ensures Pow256(4) == 0x1_0000_0000 && Pow256(8) == 0x1_0000_0000_0000_0000
  {
    assert Pow256(2) == 0x1_0000 && Pow256(4) == 0x1_0000_0000 && Pow256(6) == 0x1_0000_0000_0000;
  }

  lemma {:induction false} SizeRowsFramable(sizes: map<Path, nat>, order: seq<Path>)
    requires Enumerates(order, sizes) && forall p :: p in sizes ==> PathFits(p)
    ensures RowsFramable(SaveRows(order, sizes, EncodeStr, EncodeSize))
  {
    var rows := SaveRows(order, sizes, EncodeStr, EncodeSize);
    Pow8();
    forall r | r in rows ensures Framable(r.key) && Framable(r.val) {
      var i: nat :| i < |rows| && rows[i] == r;
      assert order[i] in order;
    }
  }

  lemma {:induction false} SizesCode(sizes: map<Path, nat>, order: seq<Path>)
    requires Enumerates(order, sizes) && forall p :: p in sizes ==> PathFits(p) && sizes[p] < Pow256(WIDTH_SIZE)
    ensures Codes(order, sizes, EncodeStr, EncodeSize, DecodeStr, DecodeSize)
  {
    forall p | p in order
      ensures DecodeStr(EncodeStr(p)) == Some(p) && DecodeSize(EncodeSize(sizes[p])) == Some(sizes[p])
    {
      StrRoundTrip(p);
      SizeRoundTrip(sizes[p]);
    }
  }

  lemma {:induction false} WholeOrder<K(!new), V(!new)>(order: seq<K>, table: map<K, V>, r: map<K, V>)
    requires Enumerates(order, table) && forall k :: k in r <==> k in order[..|order|]
    requires forall k :: k in r ==> r[k] == if k in order[..|order|] then table[k] else r[k]
    ensures r == table
  {
    assert order[..|order|] == order;
  }

  /** A whole table comes back. */
  lemma {:induction false} TableComesBack<K(!new), V(!new)>(
      order: seq<K>, table: map<K, V>, ek: K -> Data, ev: V -> Data, dk: Data -> Option<K>,
      dv: Data -> Option<V>)
    requires Enumerates(order, table) && Codes(order, table, ek, ev, dk, dv)
    ensures LoadInto(map[], SaveRows(order, table, ek, ev), dk, dv) == table
  {
    var rows := SaveRows(order, table, ek, ev);
    LoadSaved(map[], order, table, ek, ev, dk, dv, |order|);
    assert rows[..|order|] == rows;
    WholeOrder(order, table, LoadInto(map[], rows, dk, dv));
  }

  /** The size table survives. */
  lemma {:induction false} SizesRoundTrip(sizes: map<Path, nat>, order: seq<Path>)
    requires Enumerates(order, sizes) && |order| < INT_LIMIT
    requires forall p :: p in sizes ==> PathFits(p) && sizes[p] < Pow256(WIDTH_SIZE)
    ensures LoadInto(map[], ParseTable(SizesFile(sizes, order)), DecodeStr, DecodeSize) == sizes
  {
    SizeRowsFramable(sizes, order);
    SizesCode(sizes, order);
    TableRoundTrip(SaveRows(order, sizes, EncodeStr, EncodeSize));
    TableComesBack(order, sizes, EncodeStr, EncodeSize, DecodeStr, DecodeSize);
  }

  /** The free list survives, in its LIFO order. */
  lemma {:induction false} FreeListRoundTrip(xs: seq<nat>)
    requires |xs| < INT_LIMIT && forall x :: x in xs ==> x < Pow256(WIDTH_SIZE)
    ensures DecodeAll(ParseList(ListFile(EncodeAll(xs))), DecodeSize) == xs
  {
    var es := EncodeAll(xs);
    Pow8();
    forall e | e in es ensures Framable(e) {}
    ListRoundTrip(es);
    forall i: nat | i < |es| ensures DecodeSize(es[i]) == Some(xs[i]) {
      assert xs[i] in xs;
      SizeRoundTrip(xs[i]);
    }
    AllDecode(es, xs, DecodeSize);
  }

  /** All counts fit an int. */
  ghost predicate CountsFit(sh: Shared, o: Orders)
    requires Covers(sh, o)
  {
    |o.hashes| < INT_LIMIT && |o.keys| < INT_LIMIT && |o.paths| < INT_LIMIT && |Values(sh, o)| < INT_LIMIT
  }

  /** There is also an address for every object. */
  ghost predicate RoomFor(sh: Shared, o: Orders, place: seq<Ptr>)
    requires Covers(sh, o)
  {
    CountsFit(sh, o) && Distinct(place) && |Values(sh, o)| <= |place|
  }

  lemma {:induction false} PairComesBack(sh: Shared, o: Orders, values: seq<Ptr>, image: map<Ptr, Data>)
    requires Enumerated(sh, o) && Fits(sh) && Images(sh, image) && Collected(sh, values, image)
    requires Distinct(values) && |values| < INT_LIMIT && (forall p :: p in values ==> p in sh.heap)
    requires |o.hashes| < INT_LIMIT && |o.keys| < INT_LIMIT
    ensures LoadPair(PairFilesOf(sh, o, values, image), DecodeHash, DecodeKey, DecodeMasterInfo)
            == Pair(IndexTable(sh.hashToMaster, values), IndexTable(sh.fileToMaster, values), InOrder(values, sh.heap))
  {
    KeysDecode(sh, o);
    IntFitsSize();
    assert Imaged(values, image, sh.heap, DecodeMasterInfo);
    PairRoundTrip(o.hashes, sh.hashToMaster, EncodeHash, DecodeHash, o.keys, sh.fileToMaster, EncodeKey, DecodeKey,
                  values, image, sh.heap, DecodeMasterInfo);
  }

  /** The state behind an unmount and mount, part by part. */
  function Rebuilt(sh: Shared, values: seq<Ptr>, place: seq<Ptr>, next: nat): Shared
    requires (forall h :: h in sh.hashToMaster ==> sh.hashToMaster[h] in values)
    requires forall k :: k in sh.fileToMaster ==> sh.fileToMaster[k] in values
    requires forall p :: p in values ==> p in sh.heap
  {
    Shared(Place(IndexTable(sh.hashToMaster, values), place), Place(IndexTable(sh.fileToMaster, values), place),
           sh.sizes, HeapOf(place, InOrder(values, sh.heap)), sh.freeList, next, sh.disk)
  }

  lemma {:induction false} InitIsRebuilt(sh: Shared, saved: Saved, values: seq<Ptr>, place: seq<Ptr>)
    requires (forall h :: h in sh.hashToMaster ==> sh.hashToMaster[h] in values)
    requires forall k :: k in sh.fileToMaster ==> sh.fileToMaster[k] in values
    requires forall p :: p in values ==> p in sh.heap
    requires LoadPair(saved.pair, DecodeHash, DecodeKey, DecodeMasterInfo)
             == Pair(IndexTable(sh.hashToMaster, values), IndexTable(sh.fileToMaster, values), InOrder(values, sh.heap))
    requires LoadInto(map[], ParseTable(saved.sizes), DecodeStr, DecodeSize) == sh.sizes
    requires DecodeAll(ParseList(saved.free), DecodeSize) == sh.freeList
    ensures Init(saved, sh.disk, place) == Rebuilt(sh, values, place, EndOf(sh.disk.Keys))
  {}

  lemma {:induction false} TableMoves<K(!new)>(t: map<K, Ptr>, values: seq<Ptr>, place: seq<Ptr>)
    requires |values| <= |place| && forall k :: k in t ==> t[k] in values
    ensures TableMoved(t, Place(IndexTable(t, values), place), values, place)
  {}

  lemma {:induction false} HeapMoves(heap: map<Ptr, MasterInfo>, values: seq<Ptr>, place: seq<Ptr>)
    requires Distinct(values) && Distinct(place) && |values| <= |place| && forall p :: p in values ==> p in heap
    ensures HeapMoved(heap, HeapOf(place, InOrder(values, heap)), values, place)
  {
    var heap' := HeapOf(place, InOrder(values, heap));
    forall p | p in values
      ensures NewAddress(values, place, p) in heap' && heap'[NewAddress(values, place, p)] == heap[p]
    {
      FirstIndex(place, IndexOf(values, p));
    }
    forall q | q in heap' ensures exists p :: p in values && q == NewAddress(values, place, p) {
      var p := values[IndexOf(place, q)];
      FirstIndex(values, IndexOf(place, q));
      assert p in values && q == NewAddress(values, place, p);
    }
  }

  lemma {:induction false} RebuiltRelocates(sh: Shared, values: seq<Ptr>, place: seq<Ptr>, next: nat)
    requires Distinct(values) && Distinct(place) && |values| <= |place| && forall p :: p in values ==> p in sh.heap
    requires forall h :: h in sh.hashToMaster ==> sh.hashToMaster[h] in values
    requires forall k :: k in sh.fileToMaster ==> sh.fileToMaster[k] in values
    requires next == EndOf(sh.disk.Keys)
    ensures Relocated(sh, Rebuilt(sh, values, place, next), values, place)
  {
    HeapMoves(sh.heap, values, place);
    TableMoves(sh.hashToMaster, values, place);
    TableMoves(sh.fileToMaster, values, place);
  }

  /** Nothing but addresses changes in an unmount and mount. */
  lemma {:induction false} RestartRelocates(env: Env, sh: Shared, o: Orders, image: map<Ptr, Data>, place: seq<Ptr>)
    requires Quiet(env, sh) && Enumerated(sh, o) && Fits(sh) && Images(sh, image) && RoomFor(sh, o, place)
    ensures Collected(sh, Values(sh, o), image)
    ensures Relocated(sh, Remount(sh, o, image, place), Values(sh, o), place)
  {
    var values := Values(sh, o);
    ValuesAreLive(env, sh, o, image);
    PairComesBack(sh, o, values, image);
    SizesRoundTrip(sh.sizes, o.paths);
    FreeListRoundTrip(sh.freeList);
    InitIsRebuilt(sh, Destroy(sh, o, values, image), values, place);
    RebuiltRelocates(sh, values, place, EndOf(sh.disk.Keys));
  }

  lemma {:induction false} FirstIndex(xs: seq<Ptr>, i: nat)
    requires Distinct(xs) && i < |xs|
    ensures IndexOf(xs, xs[i]) == i
  {
    assert xs[IndexOf(xs, xs[i])] == xs[i];
  }

  /** The info behind k is the same up to its address, refcount included. */
  ghost predicate SameObject(sh: Shared, sh': Shared, k: Key) {
    k in sh.fileToMaster ==>
      && k in sh'.fileToMaster && sh.fileToMaster[k] in sh.heap && sh'.fileToMaster[k] in sh'.heap
      && sh'.heap[sh'.fileToMaster[k]] == sh.heap[sh.fileToMaster[k]]
  }

  /** Two keys, each of its own table, lead to one object after the restart exactly if they
      did before. */
  ghost predicate SameSharing<K(!new), L(!new)>(t: map<K, Ptr>, t': map<K, Ptr>, u: map<L, Ptr>, u': map<L, Ptr>) {
    forall k, l :: k in t && l in u ==> k in t' && l in u' && (t'[k] == u'[l] <==> t[k] == u[l])
  }

  /** What a restart preserves: what the files show, sizes, infos with their refcounts, all
      sharing within and across the two tables, and the order of the free list. */
  ghost predicate Restarted(sh: Shared, sh': Shared) {
    && (forall k :: SameView(sh, sh', k))
    && (forall k :: ContentAt(sh', k) == ContentAt(sh, k))
    && (forall k :: SameObject(sh, sh', k))
    && SameSharing(sh.fileToMaster, sh'.fileToMaster, sh.fileToMaster, sh'.fileToMaster)
    && SameSharing(sh.hashToMaster, sh'.hashToMaster, sh.fileToMaster, sh'.fileToMaster)
    && SameSharing(sh.hashToMaster, sh'.hashToMaster, sh.hashToMaster, sh'.hashToMaster)
    && sh'.hashToMaster.Keys == sh.hashToMaster.Keys && sh'.fileToMaster.Keys == sh.fileToMaster.Keys
    && sh'.sizes == sh.sizes && sh'.freeList == sh.freeList && sh'.disk == sh.disk
  }

  lemma {:induction false} MovedSharing<K(!new), L(!new)>(
      t: map<K, Ptr>, t': map<K, Ptr>, u: map<L, Ptr>, u': map<L, Ptr>, values: seq<Ptr>, place: seq<Ptr>)
    requires Distinct(place) && |values| <= |place|
    requires TableMoved(t, t', values, place) && TableMoved(u, u', values, place)
    ensures SameSharing(t, t', u, u')
  {
    forall k, l | k in t && l in u ensures t'[k] == u'[l] <==> t[k] == u[l] {
      SameAddress(values, place, t[k], u[l]);
    }
  }

  lemma {:induction false} RelocatedMeans(env: Env, sh: Shared, sh': Shared, values: seq<Ptr>, place: seq<Ptr>)
    requires Quiet(env, sh) && Relocated(sh, sh', values, place)
    ensures Restarted(sh, sh')
  {
    forall k ensures SameView(sh, sh', k) && ContentAt(sh', k) == ContentAt(sh, k) && SameObject(sh, sh', k) {
      if k in sh.fileToMaster {
        assert sh'.heap[NewAddress(values, place, sh.fileToMaster[k])] == sh.heap[sh.fileToMaster[k]];
      }
    }
    MovedSharing(sh.fileToMaster, sh'.fileToMaster, sh.fileToMaster, sh'.fileToMaster, values, place);
    MovedSharing(sh.hashToMaster, sh'.hashToMaster, sh.fileToMaster, sh'.fileToMaster, values, place);
    MovedSharing(sh.hashToMaster, sh'.hashToMaster, sh.hashToMaster, sh'.hashToMaster, values, place);
  }

  /** Restart: an unmount and mount yields the same visible map with the same contents, the
      same sizes, the same refcounts and sharing, and the same free list in the same order;
      and slot conservation is re-established if and only if every free slot lies below the
      physical end of the master. */
  lemma {:induction false} RestartPreserves(env: Env, sh: Shared, o: Orders, image: map<Ptr, Data>, place: seq<Ptr>)
    requires Quiet(env, sh) && Enumerated(sh, o) && Fits(sh) && Images(sh, image) && RoomFor(sh, o, place)
    ensures Collected(sh, Values(sh, o), image)
    ensures Restarted(sh, Remount(sh, o, image, place))
    ensures Quiet(env, Remount(sh, o, image, place)) <==> forall x :: x in sh.freeList ==> x < EndOf(sh.disk.Keys)
  {
    RestartRelocates(env, sh, o, image, place);
    RelocatedMeans(env, sh, Remount(sh, o, image, place), Values(sh, o), place);
    BalancedIff(env, sh, Remount(sh, o, image, place), Values(sh, o), place);
  }
}
