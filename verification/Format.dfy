/** The metadata files byte by byte, written down independently of the encoders: little-endian
    numbers, terminated names, and the memory layout of a MasterInfo on x86-64. */
module Format {
  import opened Model
  import opened Quiescence
  import opened Bytes
  import opened Framing
  import opened Codecs
  import opened Tables
  import opened PairFiles
  import opened Restart

  /** An int and a size_t in memory. */
  function Int4(n: nat): Data {
    [(n % 256) as Byte, (n / 256 % 256) as Byte, (n / 65536 % 256) as Byte, (n / 16777216 % 256) as Byte]
  }

  function Long8(n: nat): Data { Int4(n) + Int4(n / 4294967296) }

  lemma {:induction false} LeIsInt4(n: nat)
    ensures Le(n, 4) == Int4(n)
  {
    var a, b, c := n / 256, n / 256 / 256, n / 256 / 256 / 256;
    assert b == n / 65536 && c == n / 16777216;
    assert Le(c, 1) == [(c % 256) as Byte];
    assert Le(b, 2) == [(b % 256) as Byte, (c % 256) as Byte];
    assert Le(a, 3) == [(a % 256) as Byte, (b % 256) as Byte, (c % 256) as Byte];
  }

  lemma {:induction false} LeIsLong8(n: nat)
    ensures Le(n, 8) == Long8(n)
  {
    var a, b, c, d := n / 256, n / 256 / 256, n / 256 / 256 / 256, n / 256 / 256 / 256 / 256;
    assert b == n / 65536 && c == n / 16777216 && d == n / 4294967296;
    assert Le(c, 5) == [(c % 256) as Byte] + Le(d, 4);
    assert Le(b, 6) == [(b % 256) as Byte, (c % 256) as Byte] + Le(d, 4);
    assert Le(a, 7) == [(a % 256) as Byte, (b % 256) as Byte, (c % 256) as Byte] + Le(d, 4);
    LeIsInt4(d);
  }

  // ------------------------------------------------------------------------------ elements

  /** A name: its bytes and one zero byte behind them. */
  lemma {:induction false} NameBytes(path: Path)
    ensures |EncodeStr(path)| == |path| + 1 && EncodeStr(path)[..|path|] == path && EncodeStr(path)[|path|] == 0
  {}

  /** Only terminated names are accepted. */
  lemma {:induction false} NameMeans(s: Data, path: Path)
    ensures DecodeStr(s) == Some(path) <==> 0 !in path && path + [0] <= s
  {
    if DecodeStr(s) == Some(path) { CStringCuts(s); }
    if 0 !in path && path + [0] <= s {
      CStringRoundTrip(path, s[|path| + 1..]);
      assert s == path + [0] + s[|path| + 1..];
      assert s[|path|] == 0;
    }
  }

  lemma {:induction false} CStringCuts(s: Data)
    requires 0 in s
    ensures 0 !in CString(s) && CString(s) + [0] <= s
  {
    if s[0] != 0 {
      CStringCuts(s[1..]);
      assert s == [s[0]] + s[1..];
    }
  }

  /** A key element: the length of the name with its terminator, the name, the block number. */
  lemma {:induction false} KeyMeans(s: Data, k: Key)
    requires DecodeKey(s) == Some(k)
    ensures var n := FromLe(s[..4]);
            && |s| >= 12 + n && 0 !in k.path && k.path + [0] <= s[4..4 + n]
            && s[4 + n..12 + n] == Long8(k.block)
  {
    var n := FromLe(s[..4]);
    CStringCuts(s[4..4 + n]);
    NumberBytes(s[4 + n..12 + n]);
    LeIsLong8(k.block);
  }

  lemma {:induction false} NumberBytes(s: Data)
    ensures Le(FromLe(s), |s|) == s
  {
    if s != [] {
      NumberBytes(s[1..]);
      LowByte(s[0], FromLe(s[1..]));
      assert s == [s[0]] + s[1..];
    }
  }

  lemma {:induction false} LowByte(b: Byte, m: nat)
    ensures (b as int + 256 * m) % 256 == b as int && (b as int + 256 * m) / 256 == m
  {}

  /** The image of a MasterInfo: 64 bytes of hash, 8 of slot, 4 of refcount, 4 of padding. */
  lemma {:induction false} ImageBytes(s: Data, i: MasterInfo)
    requires DecodeMasterInfo(s) == Some(i)
    ensures |s| == 80 && s[..64] == i.hash && i.slot >= 0 && s[64..72] == Long8(i.slot)
    ensures i.refcount >= 0 && s[72..76] == Int4(i.refcount)
  {
    NumberBytes(s[64..72]);
    NumberBytes(s[72..76]);
    LeIsLong8(i.slot);
    LeIsInt4(i.refcount);
  }

  // --------------------------------------------------------------------------------- files

  function HashRows(order: seq<Hash>, table: map<Hash, Ptr>, values: seq<Ptr>): Data
    requires forall h :: h in order ==> h in table && table[h] in values
  {
    if order == [] then []
    else
      var h := order[0];
      Long8(64) + h + Long8(8) + Long8(IndexOf(values, table[h])) + HashRows(order[1..], table, values)
  }

  function KeyRows(order: seq<Key>, table: map<Key, Ptr>, values: seq<Ptr>): Data
    requires forall k :: k in order ==> k in table && table[k] in values
  {
    if order == [] then []
    else
      var k := order[0];
      Long8(|k.path| + 13) + Int4(|k.path| + 1) + k.path + [0] + Long8(k.block)
      + Long8(8) + Long8(IndexOf(values, table[k])) + KeyRows(order[1..], table, values)
  }

  function InfoElems(values: seq<Ptr>, image: map<Ptr, Data>): Data
    requires forall p :: p in values ==> p in image
  {
    if values == [] then [] else Long8(80) + image[values[0]] + InfoElems(values[1..], image)
  }

  function SizeRows(order: seq<Path>, sizes: map<Path, nat>): Data
    requires forall p :: p in order ==> p in sizes
  {
    if order == [] then []
    else
      var p := order[0];
      Long8(|p| + 1) + p + [0] + Long8(8) + Long8(sizes[p]) + SizeRows(order[1..], sizes)
  }

  function SlotElems(xs: seq<nat>): Data { if xs == [] then [] else Long8(8) + Long8(xs[0]) + SlotElems(xs[1..]) }

  /** All rows of a table are as `row` says. */
  lemma {:induction false} RowsUnfold<K, V>(order: seq<K>, m: map<K, V>, ek: K -> Data, ev: V -> Data)
    requires order != [] && forall k :: k in order ==> k in m
    ensures Rows(SaveRows(order, m, ek, ev))
            == Frame(ek(order[0])) + Frame(ev(m[order[0]])) + Rows(SaveRows(order[1..], m, ek, ev))
  {
    assert SaveRows(order, m, ek, ev)[1..] == SaveRows(order[1..], m, ek, ev);
  }

  lemma {:induction false} FrameBytes(b: Data)
    ensures Frame(b) == Long8(|b|) + b
  {
    LeIsLong8(|b|);
  }

  lemma {:induction false} NumberFrame(n: nat)
    ensures Frame(EncodeSize(n)) == Long8(8) + Long8(n)
  {
    FrameBytes(EncodeSize(n));
    LeIsLong8(n);
  }

  lemma {:induction false} HashRowsAre(order: seq<Hash>, table: map<Hash, Ptr>, values: seq<Ptr>)
    requires forall h :: h in order ==> h in table && |h| == 64
    requires forall h :: h in table ==> table[h] in values
    ensures Rows(SaveRows(order, IndexTable(table, values), EncodeHash, EncodeSize)) == HashRows(order, table, values)
  {
    if order != [] {
      RowsUnfold(order, IndexTable(table, values), EncodeHash, EncodeSize);
      var h, i := order[0], IndexOf(values, table[order[0]]);
      FrameBytes(EncodeHash(h));
      NumberFrame(i);
      HashRowsAre(order[1..], table, values);
      Regroup4(Long8(64) + h, Long8(8), Long8(i), HashRows(order[1..], table, values));
    }
  }

  lemma {:induction false} KeyElement(k: Key)
    ensures Frame(EncodeKey(k)) == Long8(|k.path| + 13) + Int4(|k.path| + 1) + k.path + [0] + Long8(k.block)
  {
    FrameBytes(EncodeKey(k));
    LeIsInt4(|k.path| + 1);
    LeIsLong8(k.block);
    Regroup5(Long8(|k.path| + 13), Int4(|k.path| + 1), k.path, [0], Long8(k.block));
  }

  lemma {:induction false} Regroup5(a: Data, b: Data, c: Data, d: Data, e: Data)
    ensures a + (b + c + d + e) == a + b + c + d + e
  {}

  lemma {:induction false} KeyRowsAre(order: seq<Key>, table: map<Key, Ptr>, values: seq<Ptr>)
    requires forall k :: k in order ==> k in table
    requires forall k :: k in table ==> table[k] in values
    ensures Rows(SaveRows(order, IndexTable(table, values), EncodeKey, EncodeSize)) == KeyRows(order, table, values)
  {
    if order != [] {
      var k, i := order[0], IndexOf(values, table[order[0]]);
      RowsUnfold(order, IndexTable(table, values), EncodeKey, EncodeSize);
      KeyElement(k);
      NumberFrame(i);
      KeyRowsAre(order[1..], table, values);
      Regroup4(Frame(EncodeKey(k)), Long8(8), Long8(i), KeyRows(order[1..], table, values));
    }
  }

  lemma {:induction false} Regroup4(a: Data, b: Data, c: Data, d: Data)
    ensures a + (b + c) + d == a + b + c + d
  {}

  lemma {:induction false} NameElement(p: Path)
    ensures Frame(EncodeStr(p)) == Long8(|p| + 1) + p + [0]
  {
    FrameBytes(EncodeStr(p));
    assert Long8(|p| + 1) + (p + [0]) == Long8(|p| + 1) + p + [0];
  }

  lemma {:induction false} SizeRowsAre(order: seq<Path>, sizes: map<Path, nat>)
    requires forall p :: p in order ==> p in sizes
    ensures Rows(SaveRows(order, sizes, EncodeStr, EncodeSize)) == SizeRows(order, sizes)
  {
    if order != [] {
      var p := order[0];
      RowsUnfold(order, sizes, EncodeStr, EncodeSize);
      NameElement(p);
      NumberFrame(sizes[p]);
      SizeRowsAre(order[1..], sizes);
      Regroup4(Frame(EncodeStr(p)), Long8(8), Long8(sizes[p]), SizeRows(order[1..], sizes));
    }
  }

  lemma {:induction false} SlotElemsAre(xs: seq<nat>)
    ensures Elems(EncodeAll(xs)) == SlotElems(xs)
  {
    if xs != [] {
      assert EncodeAll(xs)[1..] == EncodeAll(xs[1..]);
      NumberFrame(xs[0]);
      SlotElemsAre(xs[1..]);
    }
  }

  lemma {:induction false} InfoElemsAre(values: seq<Ptr>, image: map<Ptr, Data>)
    requires forall p :: p in values ==> p in image && |image[p]| == 80
    ensures Elems(InOrder(values, image)) == InfoElems(values, image)
  {
    if values != [] {
      assert InOrder(values, image)[1..] == InOrder(values[1..], image);
      FrameBytes(image[values[0]]);
      InfoElemsAre(values[1..], image);
    }
  }

  /** The bytes of the three files of the two indices. */
  lemma {:induction false} PairInBytes(sh: Shared, o: Orders, values: seq<Ptr>, image: map<Ptr, Data>)
    requires Covers(sh, o) && Collected(sh, values, image)
    requires (forall h :: h in o.hashes ==> |h| == 64) && forall p :: p in values ==> |image[p]| == 80
    ensures PairFilesOf(sh, o, values, image)
            == Files(Int4(|o.hashes|) + HashRows(o.hashes, sh.hashToMaster, values),
                     Int4(|o.keys|) + KeyRows(o.keys, sh.fileToMaster, values),
                     Int4(|values|) + InfoElems(values, image))
  {
    LeIsInt4(|o.hashes|);
    LeIsInt4(|o.keys|);
    LeIsInt4(|values|);
    HashRowsAre(o.hashes, sh.hashToMaster, values);
    KeyRowsAre(o.keys, sh.fileToMaster, values);
    InfoElemsAre(values, image);
  }

  /** All bytes that an unmount writes. */
  lemma {:induction false} FilesInBytes(env: Env, sh: Shared, o: Orders, image: map<Ptr, Data>)
    requires Quiet(env, sh) && Enumerated(sh, o) && Fits(sh) && Images(sh, image)
    ensures Collected(sh, Values(sh, o), image)
    ensures var values := Values(sh, o);
            Destroy(sh, o, values, image)
            == Saved(Files(Int4(|o.hashes|) + HashRows(o.hashes, sh.hashToMaster, values),
                           Int4(|o.keys|) + KeyRows(o.keys, sh.fileToMaster, values),
                           Int4(|values|) + InfoElems(values, image)),
                     Int4(|o.paths|) + SizeRows(o.paths, sh.sizes),
                     Int4(|sh.freeList|) + SlotElems(sh.freeList))
  {
    var values := Values(sh, o);
    ValuesAreLive(env, sh, o, image);
    assert forall h :: h in o.hashes ==> |h| == 64;
    assert forall p :: p in values ==> |image[p]| == 80;
    hide Quiet, Images, Fits, PairFilesOf, Values;
    PairInBytes(sh, o, values, image);
    LeIsInt4(|o.paths|);
    LeIsInt4(|sh.freeList|);
    SizeRowsAre(o.paths, sh.sizes);
    SlotElemsAre(sh.freeList);
  }
}
