/** The encodings of keys and values (src/metaindex.c) and the loading of decoded tables. */
module Codecs {
  import opened Model
  import opened Bytes
  import opened Framing

  const HASH_SIZE := 64
  const MASTER_INFO_SIZE := 80

  // ------------------------------------------------------------------------------- values

  /** A MasterInfo as it lies in memory: hash, slot, refcount and four bytes of padding. */
  function EncodeMasterInfo(i: MasterInfo, padding: Data): Data
    requires i.refcount >= 0
  {
    i.hash + Le(i.slot, WIDTH_SIZE) + Le(i.refcount, WIDTH_INT) + padding
  }

  function DecodeMasterInfo(s: Data): Option<MasterInfo> {
    if |s| != MASTER_INFO_SIZE then None
    else Some(MasterInfo(s[..HASH_SIZE], FromLe(s[HASH_SIZE..HASH_SIZE + 8]), FromLe(s[HASH_SIZE + 8..HASH_SIZE + 12])))
  }

  predicate InfoFits(i: MasterInfo) {
    |i.hash| == HASH_SIZE && i.slot < Pow256(WIDTH_SIZE) && 0 <= i.refcount < Pow256(WIDTH_INT)
  }

  /** Whatever the padding holds, the info comes back. */
  lemma {:induction false} MasterInfoRoundTrip(i: MasterInfo, padding: Data)
    requires InfoFits(i) && |padding| == 4
    ensures DecodeMasterInfo(EncodeMasterInfo(i, padding)) == Some(i)
  {
    var s := EncodeMasterInfo(i, padding);
    LeRoundTrip(i.slot, WIDTH_SIZE);
    LeRoundTrip(i.refcount, WIDTH_INT);
    var head := i.hash + Le(i.slot, WIDTH_SIZE);
    TakeApart(i.hash, Le(i.slot, WIDTH_SIZE), Le(i.refcount, WIDTH_INT) + padding);
    TakeApart(head, Le(i.refcount, WIDTH_INT), padding);
    assert s == i.hash + Le(i.slot, WIDTH_SIZE) + (Le(i.refcount, WIDTH_INT) + padding);
    assert s[..HASH_SIZE] == i.hash && s[HASH_SIZE..HASH_SIZE + 8] == Le(i.slot, WIDTH_SIZE);
  }

  /** encode_size, encode_free_block and encode_size_elem. */
  function EncodeSize(n: nat): Data { Le(n, WIDTH_SIZE) }

  function DecodeSize(s: Data): Option<nat> { if |s| != WIDTH_SIZE then None else Some(FromLe(s)) }

  lemma {:induction false} SizeRoundTrip(n: nat)
    requires n < Pow256(WIDTH_SIZE)
    ensures DecodeSize(EncodeSize(n)) == Some(n)
  {
    LeRoundTrip(n, WIDTH_SIZE);
  }

  // --------------------------------------------------------------------------------- keys

  function EncodeHash(h: Hash): Data { h }

  function DecodeHash(s: Data): Option<Hash> { if |s| != HASH_SIZE then None else Some(s) }

  /** The bytes of a C string before its terminator. */
  function CString(s: Data): Data { if s == [] || s[0] == 0 then [] else [s[0]] + CString(s[1..]) }

  lemma {:induction false} CStringRoundTrip(path: Path, rest: Data)
    requires 0 !in path
    ensures CString(path + [0] + rest) == path
  {
    if path != [] {
      assert (path + [0] + rest)[1..] == path[1..] + [0] + rest;
      CStringRoundTrip(path[1..], rest);
    } else {
      assert (path + [0] + rest)[0] == 0;
    }
  }

  function EncodeStr(path: Path): Data { path + [0] }

  /** Names are terminated inside their element. */
  function DecodeStr(s: Data): Option<Path> { if 0 in s then Some(CString(s)) else None }

  /** A logical block: path length with terminator, path, terminator, block number. */
  function EncodeKey(k: Key): Data { Le(|k.path| + 1, WIDTH_INT) + k.path + [0] + Le(k.block, WIDTH_SIZE) }

  /** Elements too short for the fields they announce, or with a name that is not terminated,
      do not occur in saved files. */
  function DecodeKey(s: Data): Option<Key> {
    if |s| < WIDTH_INT then None
    else
      var n := FromLe(s[..WIDTH_INT]);
      if |s| < WIDTH_INT + n + WIDTH_SIZE || 0 !in s[WIDTH_INT..WIDTH_INT + n] then None
      else Some(Key(CString(s[WIDTH_INT..WIDTH_INT + n]), FromLe(s[WIDTH_INT + n..WIDTH_INT + n + WIDTH_SIZE])))
  }

  predicate PathFits(path: Path) { 0 !in path && |path| + 1 < Pow256(WIDTH_INT) }

  predicate KeyFits(k: Key) { PathFits(k.path) && k.block < Pow256(WIDTH_SIZE) }

  lemma {:induction false} KeyRoundTrip(k: Key)
    requires KeyFits(k)
    ensures DecodeKey(EncodeKey(k)) == Some(k)
  {
    var s, n := EncodeKey(k), |k.path| + 1;
    LeRoundTrip(n, WIDTH_INT);
    LeRoundTrip(k.block, WIDTH_SIZE);
    var head, name, tail := Le(n, WIDTH_INT), k.path + [0], Le(k.block, WIDTH_SIZE);
    TakeApart(head, name, tail);
    assert s == head + name + tail;
    assert s[WIDTH_INT + n..WIDTH_INT + n + WIDTH_SIZE] == s[WIDTH_INT + n..];
    assert name == k.path + [0] + [];
    CStringRoundTrip(k.path, []);
  }

  lemma {:induction false} StrRoundTrip(path: Path)
    requires 0 !in path
    ensures DecodeStr(EncodeStr(path)) == Some(path)
  {
    CStringRoundTrip(path, []);
    assert path + [0] + [] == path + [0];
  }
}
