/** Saving and loading of tables, with shared values through an index array. */
module Tables {
  import opened Model
  import opened Bytes
  import opened Framing
  import opened Codecs

  // ------------------------------------------------------------------------- single tables

  /** ghash_save: one row for each key, in the order in which the table is enumerated. */
  function SaveRows<K, V>(order: seq<K>, table: map<K, V>, ek: K -> Data, ev: V -> Data): (rows: seq<Row>)
    requires forall k :: k in order ==> k in table
    ensures |rows| == |order|
    ensures forall i: nat :: i < |order| ==> rows[i] == Row(ek(order[i]), ev(table[order[i]]))
  {
    seq(|order|, i requires 0 <= i < |order| => Row(ek(order[i]), ev(table[order[i]])))
  }

  /** ghash_load: decoded rows are inserted one after the other; loading stops at the first
      row that does not decode. */
  function LoadInto<K, V>(m: map<K, V>, rows: seq<Row>, dk: Data -> Option<K>, dv: Data -> Option<V>): map<K, V>
    decreases |rows|
  {
    if rows == [] then m
    else
      var k, v := dk(rows[0].key), dv(rows[0].val);
      if k.Some? && v.Some? then LoadInto(m[k.value := v.value], rows[1..], dk, dv) else m
  }

  /** Encoding and decoding fit together on everything that is saved. */
  ghost predicate Codes<K(!new), V(!new)>(
      order: seq<K>, table: map<K, V>, ek: K -> Data, ev: V -> Data, dk: Data -> Option<K>,
      dv: Data -> Option<V>) {
    forall k :: k in order ==> k in table && dk(ek(k)) == Some(k) && dv(ev(table[k])) == Some(table[k])
  }

  /** Loading the first n saved rows binds exactly their keys, each to its saved value. */
  lemma {:induction false} LoadSaved<K(!new), V(!new)>(
      m: map<K, V>, order: seq<K>, table: map<K, V>, ek: K -> Data, ev: V -> Data, dk: Data -> Option<K>,
      dv: Data -> Option<V>, n: nat)
    requires Codes(order, table, ek, ev, dk, dv) && n <= |order|
    requires forall k :: k in m && k in table ==> m[k] == table[k]
    ensures var r := LoadInto(m, SaveRows(order, table, ek, ev)[..n], dk, dv);
            && (forall k :: k in r <==> k in m || k in order[..n])
            && (forall k :: k in r ==> r[k] == if k in order[..n] then table[k] else m[k])
    decreases n
  {
    var rows := SaveRows(order, table, ek, ev)[..n];
    if n > 0 {
      var k, more := order[0], order[1..];
      assert k in order && Codes(more, table, ek, ev, dk, dv) by { forall j | j in more ensures j in order {} }
      assert rows[1..] == SaveRows(more, table, ek, ev)[..n - 1];
      LoadSaved(m[k := table[k]], more, table, ek, ev, dk, dv, n - 1);
      assert order[..n] == [k] + more[..n - 1];
    }
  }

  // ------------------------------------------------------------------------- shared values

  /** The values of a table in the order of enumeration. */
  function ValuesOf<K>(order: seq<K>, table: map<K, Ptr>): (ps: seq<Ptr>)
    requires forall k :: k in order ==> k in table
    ensures |ps| == |order| && forall i: nat :: i < |ps| ==> ps[i] == table[order[i]]
  {
    seq(|order|, i requires 0 <= i < |order| => table[order[i]])
  }

  /** Repeated get_or_create_value_index: every object enters the array once, when first met. */
  function Collect(values: seq<Ptr>, ps: seq<Ptr>): seq<Ptr>
    decreases |ps|
  {
    if ps == [] then values
    else Collect(if ps[0] in values then values else values + [ps[0]], ps[1..])
  }

  ghost predicate Distinct(values: seq<Ptr>) {
    forall i: nat, j: nat :: i < j < |values| ==> values[i] != values[j]
  }

  lemma {:induction false} CollectFacts(values: seq<Ptr>, ps: seq<Ptr>)
    requires Distinct(values)
    ensures var r := Collect(values, ps);
            Distinct(r) && values <= r && forall p :: p in r <==> p in values || p in ps
    decreases |ps|
  {
    if ps != [] { CollectFacts(if ps[0] in values then values else values + [ps[0]], ps[1..]); }
  }

  /** The index under which an object is stored. */
  function IndexOf(values: seq<Ptr>, p: Ptr): (i: nat)
    requires p in values
    ensures i < |values| && values[i] == p
  {
    if values[0] == p then 0 else 1 + IndexOf(values[1..], p)
  }

  function IndexTable<K>(table: map<K, Ptr>, values: seq<Ptr>): (m: map<K, nat>)
    requires forall k :: k in table ==> table[k] in values
    ensures m.Keys == table.Keys
  {
    map k | k in table :: IndexOf(values, table[k])
  }

  /** The collection of the shared values, with the identity table of the source: it maps an
      object to its index plus one. */
  method CollectValues(
      ps: seq<Ptr>, values0: seq<Ptr>, ids0: map<Ptr, nat>) returns (values: seq<Ptr>, ids: map<Ptr, nat>)
    requires Distinct(values0) && Identified(values0, ids0)
    ensures values == Collect(values0, ps) && Distinct(values) && Identified(values, ids)
  {
    values, ids := values0, ids0;
    var i := 0;
    while i < |ps|
      invariant i <= |ps| && Distinct(values) && Identified(values, ids)
      invariant Collect(values, ps[i..]) == Collect(values0, ps)
    {
      assert ps[i..][1..] == ps[i + 1..];
      if ps[i] !in ids {
        ids := ids[ps[i] := |values| + 1];
        values := values + [ps[i]];
      }
      i := i + 1;
    }
  }

  /** The identity table holds index plus one for exactly the collected objects. */
  ghost predicate Identified(values: seq<Ptr>, ids: map<Ptr, nat>) {
    && (forall p :: p in ids <==> p in values)
    && (forall p :: p in ids ==> 0 < ids[p] <= |values| && values[ids[p] - 1] == p)
  }

  lemma {:induction false} IdIsIndex(values: seq<Ptr>, ids: map<Ptr, nat>, p: Ptr)
    requires Distinct(values) && Identified(values, ids) && p in ids
    ensures p in values && ids[p] - 1 == IndexOf(values, p)
  {
    assert values[ids[p] - 1] == values[IndexOf(values, p)];
  }

  // ------------------------------------------------------------------------------- the pair

  /** The three files of a pair of tables. */
  datatype Files = Files(first: Data, second: Data, values: Data)

  /** A loaded pair: keys lead to positions in the array of loaded objects; two keys share an
      object exactly if they lead to the same position. */
  datatype Pair<K, L, V> = Pair(first: map<K, nat>, second: map<L, nat>, objects: seq<V>)

  /** Decoded elements up to the first one that does not decode. */
  function DecodeAll<V>(xs: seq<Data>, dv: Data -> Option<V>): seq<V> {
    if xs == [] || dv(xs[0]).None? then [] else [dv(xs[0]).value] + DecodeAll(xs[1..], dv)
  }

  lemma {:induction false} AllDecode<V>(xs: seq<Data>, vs: seq<V>, dv: Data -> Option<V>)
    requires |xs| == |vs| && forall i: nat :: i < |xs| ==> dv(xs[i]) == Some(vs[i])
    ensures DecodeAll(xs, dv) == vs
    decreases |xs|
  {
    if xs != [] {
      AllDecode(xs[1..], vs[1..], dv);
      assert vs == [vs[0]] + vs[1..];
    }
  }

  /** Keys whose index lies outside the values array are dropped. */
  function Resolve<K(!new)>(m: map<K, nat>, n: nat): (r: map<K, nat>)
    ensures forall k :: k in r <==> k in m && m[k] < n
    ensures forall k :: k in r ==> r[k] == m[k]
  {
    map k | k in m && m[k] < n :: m[k]
  }

  function LoadPair<K(!new), L(!new), V>(
      files: Files, dk: Data -> Option<K>, dl: Data -> Option<L>, dv: Data -> Option<V>): Pair<K, L, V>
  {
    var objects := DecodeAll(ParseList(files.values), dv);
    Pair(Resolve(LoadInto(map[], ParseTable(files.first), dk, DecodeSize), |objects|),
         Resolve(LoadInto(map[], ParseTable(files.second), dl, DecodeSize), |objects|), objects)
  }

  /** What the objects hold, in the order of their indices. */
  function InOrder<V>(values: seq<Ptr>, of: map<Ptr, V>): (os: seq<V>)
    requires forall p :: p in values ==> p in of
    ensures |os| == |values| && forall i: nat :: i < |os| ==> os[i] == of[values[i]]
  {
    seq(|values|, i requires 0 <= i < |values| => of[values[i]])
  }

  ghost predicate Enumerates<K(!new), V>(order: seq<K>, table: map<K, V>) { forall k :: k in order <==> k in table }

  ghost predicate CollectsAll<K(!new), L(!new)>(table1: map<K, Ptr>, table2: map<L, Ptr>, values: seq<Ptr>) {
    && Distinct(values) && |values| < INT_LIMIT
    && (forall k :: k in table1 ==> table1[k] in values) && (forall l :: l in table2 ==> table2[l] in values)
  }

  /** The values array of a pair, collected over both tables in any enumeration order, holds
      every object once. */
  lemma {:induction false} CollectedPair<K(!new), L(!new)>(
      order1: seq<K>, table1: map<K, Ptr>, order2: seq<L>, table2: map<L, Ptr>)
    requires Enumerates(order1, table1) && Enumerates(order2, table2)
    ensures var values := Collect(Collect([], ValuesOf(order1, table1)), ValuesOf(order2, table2));
            && Distinct(values)
            && (forall k :: k in table1 ==> table1[k] in values) && (forall l :: l in table2 ==> table2[l] in values)
            && (forall p :: p in values ==> p in table1.Values || p in table2.Values)
  {
    var ps1, ps2 := ValuesOf(order1, table1), ValuesOf(order2, table2);
    var values1 := Collect([], ps1);
    CollectFacts([], ps1);
    CollectFacts(values1, ps2);
    var values := Collect(values1, ps2);
    forall k | k in table1 ensures table1[k] in values {
      var i: nat :| i < |order1| && order1[i] == k;
      assert ps1[i] in values1;
    }
    forall l | l in table2 ensures table2[l] in values {
      var i: nat :| i < |order2| && order2[i] == l;
      assert ps2[i] in values;
    }
  }

  /** Keys that can be saved: they frame, decode to themselves, and are not too many. */
  ghost predicate KeysOk<K(!new)>(order: seq<K>, ek: K -> Data, dk: Data -> Option<K>) {
    |order| < INT_LIMIT && forall k :: k in order ==> Framable(ek(k)) && dk(ek(k)) == Some(k)
  }

  /** The file of one table of a pair: keys with the indices of their objects. */
  function IndexFile<K>(order: seq<K>, table: map<K, Ptr>, values: seq<Ptr>, ek: K -> Data): Data
    requires forall k :: k in order ==> k in table
    requires forall k :: k in table ==> table[k] in values
  {
    TableFile(SaveRows(order, IndexTable(table, values), ek, EncodeSize))
  }

  /** What a cut table file of a pair still says, resolved against the first n objects. */
  ghost predicate CutTable<K(!new)>(r: map<K, nat>, table: map<K, Ptr>, values: seq<Ptr>, n: nat)
    requires forall k :: k in table ==> table[k] in values
  {
    forall k :: k in r ==> k in table && r[k] == IndexOf(values, table[k]) && r[k] < n
  }

  lemma {:induction false} IndicesCode<K(!new)>(
      order: seq<K>, table: map<K, Ptr>, values: seq<Ptr>, ek: K -> Data, dk: Data -> Option<K>)
    requires Enumerates(order, table) && KeysOk(order, ek, dk) && |values| < INT_LIMIT
    requires forall k :: k in table ==> table[k] in values
    ensures var rows := SaveRows(order, IndexTable(table, values), ek, EncodeSize);
            Codes(order, IndexTable(table, values), ek, EncodeSize, dk, DecodeSize) && RowsFramable(rows)
  {
    var m := IndexTable(table, values);
    var rows := SaveRows(order, m, ek, EncodeSize);
    IntFitsSize();
    forall k | k in order ensures DecodeSize(EncodeSize(m[k])) == Some(m[k]) { SizeRoundTrip(m[k]); }
    forall r | r in rows ensures Framable(r.key) && Framable(r.val) {
      var i: nat :| i < |rows| && rows[i] == r;
      assert order[i] in order;
    }
  }

  lemma {:induction false} IntFitsSize()
    ensures INT_LIMIT < Pow256(WIDTH_SIZE)
  {
    assert Pow256(8) == 0x1_0000_0000_0000_0000 by {
      assert Pow256(2) == 0x1_0000 && Pow256(4) == 0x1_0000_0000 && Pow256(6) == 0x1_0000_0000_0000;
    }
  }

  /** Loading a cut table file binds the keys of its whole rows to their saved indices. */
  lemma {:induction false} LoadCut<K(!new)>(
      order: seq<K>, m: map<K, nat>, ek: K -> Data, dk: Data -> Option<K>, c: nat) returns (w: nat)
    requires Codes(order, m, ek, EncodeSize, dk, DecodeSize) && |order| < INT_LIMIT
    requires RowsFramable(SaveRows(order, m, ek, EncodeSize)) && c <= |TableFile(SaveRows(order, m, ek, EncodeSize))|
    ensures w <= |order| && (c == |TableFile(SaveRows(order, m, ek, EncodeSize))| ==> w == |order|)
    ensures var r := LoadInto(map[], ParseTable(TableFile(SaveRows(order, m, ek, EncodeSize))[..c]), dk, DecodeSize);
            (forall k :: k in r <==> k in order[..w]) && (forall k :: k in r ==> r[k] == m[k])
  {
    var rows := SaveRows(order, m, ek, EncodeSize);
    TablePrefix(rows, c);
    AllRowsWhole(rows);
    w := if c < WIDTH_INT then 0 else WholeRows(rows, c - WIDTH_INT);
    LoadSaved(map[], order, m, ek, EncodeSize, dk, DecodeSize, w);
  }

  lemma {:induction false} TableCut<K(!new)>(
      order: seq<K>, table: map<K, Ptr>, values: seq<Ptr>, ek: K -> Data, dk: Data -> Option<K>, c: nat, n: nat)
    requires Enumerates(order, table) && KeysOk(order, ek, dk) && |values| < INT_LIMIT
    requires forall k :: k in table ==> table[k] in values
    requires c <= |IndexFile(order, table, values, ek)|
    ensures var r := Resolve(LoadInto(map[], ParseTable(IndexFile(order, table, values, ek)[..c]), dk, DecodeSize), n);
            && CutTable(r, table, values, n)
            && (c == |IndexFile(order, table, values, ek)| && n >= |values| ==> r.Keys == table.Keys)
  {
    IndicesCode(order, table, values, ek, dk);
    var w := LoadCut(order, IndexTable(table, values), ek, dk, c);
    forall k | k in order[..w] ensures k in order {}
  }

  /** Each loaded key has the object it was saved with, and two keys share one object exactly
      if they did before. */
  ghost predicate Shares<K(!new), L(!new), V>(
      p: Pair<K, L, V>, table1: map<K, Ptr>, table2: map<L, Ptr>, content: map<Ptr, V>)
  {
    && (forall k :: k in p.first ==> k in table1 && table1[k] in content && p.first[k] < |p.objects|
                                     && p.objects[p.first[k]] == content[table1[k]])
    && (forall l :: l in p.second ==> l in table2 && table2[l] in content && p.second[l] < |p.objects|
                                      && p.objects[p.second[l]] == content[table2[l]])
    && (forall k, l :: k in p.first && l in p.second ==> (p.first[k] == p.second[l] <==> table1[k] == table2[l]))
    && (forall k, j :: k in p.first && j in p.first ==> (p.first[k] == p.first[j] <==> table1[k] == table1[j]))
    && (forall k, j :: k in p.second && j in p.second ==> (p.second[k] == p.second[j] <==> table2[k] == table2[j]))
  }

  lemma {:induction false} CutShares<K(!new), L(!new), V>(
      p: Pair<K, L, V>, table1: map<K, Ptr>, table2: map<L, Ptr>, values: seq<Ptr>, content: map<Ptr, V>)
    requires CollectsAll(table1, table2, values) && forall v :: v in values ==> v in content
    requires CutTable(p.first, table1, values, |p.objects|) && CutTable(p.second, table2, values, |p.objects|)
    requires p.objects <= InOrder(values, content)
    ensures Shares(p, table1, table2, content)
  {}

  /** The objects are saved as images that decode to their contents. */
  ghost predicate Imaged<V>(values: seq<Ptr>, image: map<Ptr, Data>, content: map<Ptr, V>, dv: Data -> Option<V>) {
    forall v :: v in values ==> v in image && v in content && Framable(image[v]) && dv(image[v]) == Some(content[v])
  }

  /** Loading a cut values file yields the contents of the first objects. */
  lemma {:induction false} ObjectsCut<V>(
      values: seq<Ptr>, image: map<Ptr, Data>, content: map<Ptr, V>, dv: Data -> Option<V>, c: nat)
    requires Imaged(values, image, content, dv) && |values| < INT_LIMIT && c <= |ListFile(InOrder(values, image))|
    ensures var objects := DecodeAll(ParseList(ListFile(InOrder(values, image))[..c]), dv);
            && objects <= InOrder(values, content)
            && (c == |ListFile(InOrder(values, image))| ==> objects == InOrder(values, content))
  {
    var os := InOrder(values, image);
    forall o | o in os ensures Framable(o) {}
    ListPrefix(os, c);
    AllWhole(os);
    var w := if c < WIDTH_INT then 0 else WholeElems(os, c - WIDTH_INT);
    AllDecode(os[..w], InOrder(values, content)[..w], dv);
  }

  /** Prefix safety of a pair: however the three files are cut, no key is ever bound to a value
      other than its saved one, and sharing among the surviving keys is what it was. With all
      three files complete no key is lost. */
  lemma {:induction false} PairCut<K(!new), L(!new), V>(
      order1: seq<K>, table1: map<K, Ptr>, ek: K -> Data, dk: Data -> Option<K>,
      order2: seq<L>, table2: map<L, Ptr>, el: L -> Data, dl: Data -> Option<L>,
      values: seq<Ptr>, image: map<Ptr, Data>, content: map<Ptr, V>, dv: Data -> Option<V>, c1: nat, c2: nat, cv: nat)
    requires Enumerates(order1, table1) && Enumerates(order2, table2) && KeysOk(order1, ek, dk)
        && KeysOk(order2, el, dl)
    requires CollectsAll(table1, table2, values) && Imaged(values, image, content, dv)
    requires c1 <= |IndexFile(order1, table1, values, ek)| && c2 <= |IndexFile(order2, table2, values, el)|
    requires cv <= |ListFile(InOrder(values, image))|
    ensures var f1, f2, fv := IndexFile(order1, table1, values, ek), IndexFile(order2, table2, values, el),
        ListFile(InOrder(values, image));
            var p := LoadPair(Files(f1[..c1], f2[..c2], fv[..cv]), dk, dl, dv);
            && Shares(p, table1, table2, content)
            && (c1 == |f1| && c2 == |f2| && cv == |fv| ==>
                  p.first.Keys == table1.Keys && p.second.Keys == table2.Keys && p.objects == InOrder(values, content))
  {
    var fv := ListFile(InOrder(values, image));
    var objects := DecodeAll(ParseList(fv[..cv]), dv);
    ObjectsCut(values, image, content, dv, cv);
    TableCut(order1, table1, values, ek, dk, c1, |objects|);
    TableCut(order2, table2, values, el, dl, c2, |objects|);
    var f1, f2 := IndexFile(order1, table1, values, ek), IndexFile(order2, table2, values, el);
    CutShares(LoadPair(Files(f1[..c1], f2[..c2], fv[..cv]), dk, dl, dv), table1, table2, values, content);
  }

  /** A complete table file of a pair gives back every key with the index of its object. */
  lemma {:induction false} TableWhole<K(!new)>(
      order: seq<K>, table: map<K, Ptr>, values: seq<Ptr>, ek: K -> Data, dk: Data -> Option<K>)
    requires Enumerates(order, table) && KeysOk(order, ek, dk) && |values| < INT_LIMIT
    requires forall k :: k in table ==> table[k] in values
    ensures Resolve(LoadInto(map[], ParseTable(IndexFile(order, table, values, ek)), dk, DecodeSize), |values|)
        == IndexTable(table, values)
  {
    var f := IndexFile(order, table, values, ek);
    TableCut(order, table, values, ek, dk, |f|, |values|);
    assert f[..|f|] == f;
    assert Resolve(LoadInto(map[], ParseTable(f), dk, DecodeSize), |values|).Keys == IndexTable(table, values).Keys;
  }

  lemma {:induction false} ObjectsWhole<V>(
      values: seq<Ptr>, image: map<Ptr, Data>, content: map<Ptr, V>, dv: Data -> Option<V>)
    requires Imaged(values, image, content, dv) && |values| < INT_LIMIT
    ensures DecodeAll(ParseList(ListFile(InOrder(values, image))), dv) == InOrder(values, content)
  {
    var f := ListFile(InOrder(values, image));
    ObjectsCut(values, image, content, dv, |f|);
    assert f[..|f|] == f;
  }

  /** Round trip of a pair, for any enumeration order of both tables: the same keys, each with
      the index of its own object, and the same objects; so values and sharing are as before. */
  lemma {:induction false} PairRoundTrip<K(!new), L(!new), V>(
      order1: seq<K>, table1: map<K, Ptr>, ek: K -> Data, dk: Data -> Option<K>,
      order2: seq<L>, table2: map<L, Ptr>, el: L -> Data, dl: Data -> Option<L>,
      values: seq<Ptr>, image: map<Ptr, Data>, content: map<Ptr, V>, dv: Data -> Option<V>)
    requires Enumerates(order1, table1) && Enumerates(order2, table2) && KeysOk(order1, ek, dk)
        && KeysOk(order2, el, dl)
    requires CollectsAll(table1, table2, values) && Imaged(values, image, content, dv)
    ensures var files := Files(IndexFile(order1, table1, values, ek), IndexFile(order2, table2, values, el),
        ListFile(InOrder(values, image)));
            var p := LoadPair(files, dk, dl, dv);
            && p == Pair(IndexTable(table1, values), IndexTable(table2, values), InOrder(values, content))
            && Shares(p, table1, table2, content)
  {
    ObjectsWhole(values, image, content, dv);
    TableWhole(order1, table1, values, ek, dk);
    TableWhole(order2, table2, values, el, dl);
    CutShares(Pair(IndexTable(table1, values), IndexTable(table2, values), InOrder(values, content)), table1, table2,
        values, content);
  }
}
