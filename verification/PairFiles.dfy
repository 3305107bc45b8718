/** ghash_save_indexed_pair and ghash_load_indexed_pair over the buffered files. */
module PairFiles {
  import opened Model
  import opened Bytes
  import opened Framing
  import opened Codecs
  import opened Tables
  import opened BufferedIO

  const BUFFER_SIZE := 10485760

  /** The rows of one table, with the indices looked up in the identity table. */
  method IndexRows<K(==, !new)>(
      order: seq<K>, table: map<K, Ptr>, ids: map<Ptr, nat>, ek: K -> Data, ghost values: seq<Ptr>)
    returns (rows: seq<Row>)
    requires Enumerates(order, table) && Distinct(values) && Identified(values, ids)
    requires forall k :: k in table ==> table[k] in values
    ensures rows == SaveRows(order, IndexTable(table, values), ek, EncodeSize)
  {
    ghost var all := SaveRows(order, IndexTable(table, values), ek, EncodeSize);
    hide SaveRows, IndexTable, Identified;
    rows := [];
    var i := 0;
    while i < |order|
      invariant i <= |order| == |all| && rows == all[..i]
    {
      RowOfKey(order, table, ids, ek, values, i);
      rows := rows + [Row(ek(order[i]), EncodeSize(ids[table[order[i]]] - 1))];
      i := i + 1;
    }
  }

  /** The row of one key. */
  lemma {:induction false} RowOfKey<K(!new)>(
      order: seq<K>, table: map<K, Ptr>, ids: map<Ptr, nat>, ek: K -> Data, values: seq<Ptr>, i: nat)
    requires Enumerates(order, table) && Distinct(values) && Identified(values, ids) && i < |order|
    requires forall k :: k in table ==> table[k] in values
    ensures order[i] in table && table[order[i]] in ids && ids[table[order[i]]] > 0
    ensures SaveRows(order, IndexTable(table, values), ek, EncodeSize)[i]
         == Row(ek(order[i]), EncodeSize(ids[table[order[i]]] - 1))
  {
    assert order[i] in order;
    IdIsIndex(values, ids, table[order[i]]);
  }

  /** Writes one table file. `ok` says that no copy left the buffer; the file then holds a
      beginning of the table, and all of it if every pwrite is complete. */
  method WriteTableFile(rows: seq<Row>, pwrites: Results) returns (ok: bool, file: Data)
    requires RowsFramable(rows)
    ensures file <= TableFile(rows)
    ensures Complete(pwrites, BUFFER_SIZE) ==> ok && file == TableFile(rows)
  {
    var io := new Writer(BUFFER_SIZE, pwrites);
    ok := io.SaveTable(rows);
    file := io.file;
  }

  method WriteListFile(xs: seq<Data>, pwrites: Results) returns (ok: bool, file: Data)
    requires AllFramable(xs)
    ensures file <= ListFile(xs)
    ensures Complete(pwrites, BUFFER_SIZE) ==> ok && file == ListFile(xs)
  {
    var io := new Writer(BUFFER_SIZE, pwrites);
    ok := io.SaveList(xs);
    file := io.file;
  }

  /** What the pwrites of the three files of a pair return. */
  datatype PairResults = PairResults(first: Results, second: Results, values: Results)

  ghost predicate PairComplete(pwrites: PairResults) {
    Complete(pwrites.first, BUFFER_SIZE) && Complete(pwrites.second, BUFFER_SIZE)
        && Complete(pwrites.values, BUFFER_SIZE)
  }

  /** Each file is a beginning of the file it should be. */
  ghost predicate CutOf(files: Files, whole: Files) {
    files.first <= whole.first && files.second <= whole.second && files.values <= whole.values
  }

  /** The three files of a pair in the defined format. */
  function PairFormat<K(!new), L(!new)>(
      order1: seq<K>, table1: map<K, Ptr>, ek: K -> Data, order2: seq<L>, table2: map<L, Ptr>, el: L -> Data,
      values: seq<Ptr>, image: map<Ptr, Data>): Files
    requires (forall k :: k in order1 ==> k in table1) && (forall l :: l in order2 ==> l in table2)
    requires (forall k :: k in table1 ==> table1[k] in values) && (forall l :: l in table2 ==> table2[l] in values)
    requires forall p :: p in values ==> p in image
  {
    Files(IndexFile(order1, table1, values, ek), IndexFile(order2, table2, values, el),
        ListFile(InOrder(values, image)))
  }

  /** The array of shared values of a pair. */
  function PairValues<K, L>(order1: seq<K>, table1: map<K, Ptr>, order2: seq<L>, table2: map<L, Ptr>): seq<Ptr>
    requires (forall k :: k in order1 ==> k in table1) && (forall l :: l in order2 ==> l in table2)
  {
    Collect(Collect([], ValuesOf(order1, table1)), ValuesOf(order2, table2))
  }

  /** Saves two tables that share values: one file with every object once, two with indices. */
  method SavePair<K(==, !new), L(==, !new)>(
      order1: seq<K>, table1: map<K, Ptr>, ek: K -> Data, order2: seq<L>, table2: map<L, Ptr>, el: L -> Data,
      image: map<Ptr, Data>, pwrites: PairResults)
    returns (ok: bool, files: Files)
    requires Enumerates(order1, table1) && Enumerates(order2, table2)
    requires (forall k :: k in table1 ==> Framable(ek(k))) && (forall l :: l in table2 ==> Framable(el(l)))
    requires forall p :: p in PairValues(order1, table1, order2, table2) ==> p in image && Framable(image[p])
    ensures var values := PairValues(order1, table1, order2, table2);
            && (forall k :: k in table1 ==> table1[k] in values) && (forall l :: l in table2 ==> table2[l] in values)
            && CutOf(files, PairFormat(order1, table1, ek, order2, table2, el, values, image))
            && (PairComplete(pwrites) ==>
                  ok && files == PairFormat(order1, table1, ek, order2, table2, el, values, image))
  {
    var values, ids := CollectValues(ValuesOf(order1, table1), [], map[]);
    values, ids := CollectValues(ValuesOf(order2, table2), values, ids);
    CollectedPair(order1, table1, order2, table2);
    var objects := InOrder(values, image);
    forall o | o in objects ensures Framable(o) {}
    var okv, fv := WriteListFile(objects, pwrites.values);
    var ok1, f1 := WriteIndexFile(order1, table1, ids, ek, values, pwrites.first);
    var ok2, f2 := WriteIndexFile(order2, table2, ids, el, values, pwrites.second);
    ok, files := okv && ok1 && ok2, Files(f1, f2, fv);
  }

  /** One table of the pair. */
  method WriteIndexFile<K(==, !new)>(
      order: seq<K>, table: map<K, Ptr>, ids: map<Ptr, nat>, ek: K -> Data, ghost values: seq<Ptr>, pwrites: Results)
    returns (ok: bool, file: Data)
    requires Enumerates(order, table) && Distinct(values) && Identified(values, ids)
    requires forall k :: k in table ==> table[k] in values && Framable(ek(k))
    ensures file <= IndexFile(order, table, values, ek)
    ensures Complete(pwrites, BUFFER_SIZE) ==> ok && file == IndexFile(order, table, values, ek)
  {
    var rows := IndexRows(order, table, ids, ek, values);
    FramableRows(order, IndexTable(table, values), ek);
    ok, file := WriteTableFile(rows, pwrites);
  }

  lemma {:induction false} FramableRows<K(!new)>(order: seq<K>, m: map<K, nat>, ek: K -> Data)
    requires forall k :: k in order ==> k in m && Framable(ek(k))
    ensures RowsFramable(SaveRows(order, m, ek, EncodeSize))
  {
    var rows := SaveRows(order, m, ek, EncodeSize);
    IntFitsSize();
    forall r | r in rows ensures Framable(r.key) && Framable(r.val) {
      var i: nat :| i < |rows| && rows[i] == r;
      assert order[i] in order;
    }
  }

  // -------------------------------------------------------------------------------- loading

  method DecodeList<V>(xs: seq<Data>, dv: Data -> Option<V>) returns (vs: seq<V>)
    ensures vs == DecodeAll(xs, dv)
  {
    vs := [];
    var i := 0;
    while i < |xs|
      invariant i <= |xs| && vs + DecodeAll(xs[i..], dv) == DecodeAll(xs, dv)
    {
      assert xs[i..][0] == xs[i] && xs[i..][1..] == xs[i + 1..];
      var v := dv(xs[i]);
      if v.None? { return; }
      vs := vs + [v.value];
      i := i + 1;
    }
  }

  method BuildTable<K(==), V>(rows: seq<Row>, dk: Data -> Option<K>, dv: Data -> Option<V>) returns (m: map<K, V>)
    ensures m == LoadInto(map[], rows, dk, dv)
  {
    m := map[];
    var i := 0;
    while i < |rows|
      invariant i <= |rows| && LoadInto(m, rows[i..], dk, dv) == LoadInto(map[], rows, dk, dv)
    {
      assert rows[i..][0] == rows[i] && rows[i..][1..] == rows[i + 1..];
      var k, v := dk(rows[i].key), dv(rows[i].val);
      if k.None? || v.None? { return; }
      m := m[k.value := v.value];
      i := i + 1;
    }
  }

  /** No pread of a file fails. */
  ghost predicate Readable(preads: Results) { forall n: nat :: !PreadFails(preads, n) }

  /** Reads one table file. A load that a failing pread ends early is the load of a cut file. */
  method ReadTableFile<K(==), V>(file: Data, dk: Data -> Option<K>, dv: Data -> Option<V>, preads: Results)
    returns (m: map<K, V>)
    ensures Readable(preads) ==> m == LoadInto(map[], ParseTable(file), dk, dv)
    ensures exists cut: Data :: cut <= file && m == LoadInto(map[], ParseTable(cut), dk, dv)
  {
    var io := new Reader(BUFFER_SIZE, file, preads);
    var rows := io.LoadTable();
    ghost var c := TableStops(file, rows);
    m := BuildTable(rows, dk, dv);
    assert file[..c] <= file && m == LoadInto(map[], ParseTable(file[..c]), dk, dv);
  }

  method ReadListFile<V>(file: Data, dv: Data -> Option<V>, preads: Results) returns (vs: seq<V>)
    ensures Readable(preads) ==> vs == DecodeAll(ParseList(file), dv)
    ensures exists cut: Data :: cut <= file && vs == DecodeAll(ParseList(cut), dv)
  {
    var io := new Reader(BUFFER_SIZE, file, preads);
    var xs := io.LoadList();
    ghost var c := ListStops(file, xs);
    vs := DecodeList(xs, dv);
    assert file[..c] <= file && vs == DecodeAll(ParseList(file[..c]), dv);
  }

  ghost predicate PairReadable(preads: PairResults) {
    Readable(preads.first) && Readable(preads.second) && Readable(preads.values)
  }

  /** Loads the pair: the objects, both index tables, then every key with a valid index. */
  method OpenPair<K(==, !new), L(==, !new), V>(
      files: Files, dk: Data -> Option<K>, dl: Data -> Option<L>, dv: Data -> Option<V>, preads: PairResults)
    returns (p: Pair<K, L, V>)
    ensures PairReadable(preads) ==> p == LoadPair(files, dk, dl, dv)
    ensures exists cut: Files :: CutOf(cut, files) && p == LoadPair(cut, dk, dl, dv)
  {
    var objects := ReadListFile(files.values, dv, preads.values);
    var first := ReadTableFile(files.first, dk, DecodeSize, preads.first);
    var second := ReadTableFile(files.second, dl, DecodeSize, preads.second);
    p := Pair(Resolve(first, |objects|), Resolve(second, |objects|), objects);
    ghost var cv :| cv <= files.values && objects == DecodeAll(ParseList(cv), dv);
    ghost var c1 :| c1 <= files.first && first == LoadInto(map[], ParseTable(c1), dk, DecodeSize);
    ghost var c2 :| c2 <= files.second && second == LoadInto(map[], ParseTable(c2), dl, DecodeSize);
    ghost var cut := Files(c1, c2, cv);
    assert CutOf(cut, files) && p == LoadPair(cut, dk, dl, dv);
  }

  /** A save and a load, for any results of the pwrites and preads: no key is bound to a value
      other than its saved one, and sharing among the keys that come back is what it was; with
      complete pwrites and no failing pread all keys come back. */
  method SaveThenOpen<K(==, !new), L(==, !new), V>(
      order1: seq<K>, table1: map<K, Ptr>, ek: K -> Data, dk: Data -> Option<K>,
      order2: seq<L>, table2: map<L, Ptr>, el: L -> Data, dl: Data -> Option<L>,
      image: map<Ptr, Data>, ghost content: map<Ptr, V>, dv: Data -> Option<V>,
      pwrites: PairResults, preads: PairResults)
    returns (p: Pair<K, L, V>)
    requires Enumerates(order1, table1) && Enumerates(order2, table2) && KeysOk(order1, ek, dk)
        && KeysOk(order2, el, dl)
    requires Imaged(PairValues(order1, table1, order2, table2), image, content, dv)
    requires |PairValues(order1, table1, order2, table2)| < INT_LIMIT
    ensures Shares(p, table1, table2, content)
    ensures PairComplete(pwrites) && PairReadable(preads) ==>
              p.first.Keys == table1.Keys && p.second.Keys == table2.Keys
  {
    hide LoadPair, Shares, Imaged, KeysOk, CutOf, PairFormat, PairValues, CollectsAll;
    ghost var values := PairValues(order1, table1, order2, table2);
    Saveable(order1, table1, ek, dk, order2, table2, el, dl, values, image, content, dv);
    var ok, files := SavePair(order1, table1, ek, order2, table2, el, image, pwrites);
    p := OpenPair(files, dk, dl, dv, preads);
    ghost var cut :| CutOf(cut, files) && p == LoadPair(cut, dk, dl, dv);
    CutOfCut(cut, files, PairFormat(order1, table1, ek, order2, table2, el, values, image));
    CutLoads(order1, table1, ek, dk, order2, table2, el, dl, values, image, content, dv, cut);
    if PairComplete(pwrites) && PairReadable(preads) {
      assert CutOf(files, files) by { CutOfSelf(files); }
      CutLoads(order1, table1, ek, dk, order2, table2, el, dl, values, image, content, dv, files);
    }
  }

  lemma {:induction false} Saveable<K(!new), L(!new), V>(
      order1: seq<K>, table1: map<K, Ptr>, ek: K -> Data, dk: Data -> Option<K>,
      order2: seq<L>, table2: map<L, Ptr>, el: L -> Data, dl: Data -> Option<L>,
      values: seq<Ptr>, image: map<Ptr, Data>, content: map<Ptr, V>, dv: Data -> Option<V>)
    requires Enumerates(order1, table1) && Enumerates(order2, table2) && KeysOk(order1, ek, dk)
        && KeysOk(order2, el, dl)
    requires values == PairValues(order1, table1, order2, table2) && |values| < INT_LIMIT
    requires Imaged(values, image, content, dv)
    ensures (forall k :: k in table1 ==> Framable(ek(k))) && (forall l :: l in table2 ==> Framable(el(l)))
    ensures forall p :: p in values ==> p in image && Framable(image[p])
    ensures CollectsAll(table1, table2, values)
  {
    CollectedPair(order1, table1, order2, table2);
  }

  lemma {:induction false} CutOfSelf(a: Files)
    ensures CutOf(a, a)
  {}

  lemma {:induction false} CutOfCut(a: Files, b: Files, c: Files)
    requires CutOf(a, b) && CutOf(b, c)
    ensures CutOf(a, c)
  {}

  /** What a load makes of files that were cut. */
  lemma {:induction false} CutLoads<K(!new), L(!new), V>(
      order1: seq<K>, table1: map<K, Ptr>, ek: K -> Data, dk: Data -> Option<K>,
      order2: seq<L>, table2: map<L, Ptr>, el: L -> Data, dl: Data -> Option<L>,
      values: seq<Ptr>, image: map<Ptr, Data>, content: map<Ptr, V>, dv: Data -> Option<V>, files: Files)
    requires Enumerates(order1, table1) && Enumerates(order2, table2) && KeysOk(order1, ek, dk)
        && KeysOk(order2, el, dl)
    requires CollectsAll(table1, table2, values) && Imaged(values, image, content, dv)
    requires CutOf(files, PairFormat(order1, table1, ek, order2, table2, el, values, image))
    ensures var p := LoadPair(files, dk, dl, dv);
            && Shares(p, table1, table2, content)
            && (files == PairFormat(order1, table1, ek, order2, table2, el, values, image) ==>
                  p.first.Keys == table1.Keys && p.second.Keys == table2.Keys)
  {
    hide LoadPair, Shares, IndexFile, InOrder, ListFile;
    var whole := PairFormat(order1, table1, ek, order2, table2, el, values, image);
    var c1, c2, cv := |files.first|, |files.second|, |files.values|;
    assert files == Files(whole.first[..c1], whole.second[..c2], whole.values[..cv]);
    PairCut(order1, table1, ek, dk, order2, table2, el, dl, values, image, content, dv, c1, c2, cv);
  }
}
