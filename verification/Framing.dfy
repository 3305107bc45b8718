/** The stream format of the metadata files: a 4-byte count, then elements that each carry an
    8-byte length prefix. Loading stops quietly at the first element that is not complete. */
module Framing {
  import opened Model
  import opened Bytes

  type Data = seq<Byte>

  /** Elements whose length the prefix can hold. */
  predicate Framable(b: Data) { |b| < Pow256(WIDTH_SIZE) }

  function Frame(b: Data): Data { Le(|b|, WIDTH_SIZE) + b }

  datatype Parsed = Truncated | Parsed(elem: Data, rest: Data)

  /** read_elem_buffered without the decoding: nothing unless the element is complete. */
  function ReadElem(s: Data): (p: Parsed)
    ensures p.Parsed? ==> |p.rest| < |s|
  {
    if |s| < WIDTH_SIZE then Truncated
    else
      var n := FromLe(s[..WIDTH_SIZE]);
      if |s| < WIDTH_SIZE + n then Truncated else Parsed(s[WIDTH_SIZE..WIDTH_SIZE + n], s[WIDTH_SIZE + n..])
  }

  /** A complete frame is read back; a proper prefix of one is not read at all. */
  lemma {:induction false} ReadFrame(b: Data, rest: Data, c: nat)
    requires Framable(b)
    ensures ReadElem(Frame(b) + rest) == Parsed(b, rest)
    ensures c < |Frame(b)| ==> ReadElem(Frame(b)[..c]) == Truncated
  {
    var s := Frame(b) + rest;
    LeRoundTrip(|b|, WIDTH_SIZE);
    assert s[..WIDTH_SIZE] == Le(|b|, WIDTH_SIZE);
    assert s[WIDTH_SIZE..WIDTH_SIZE + |b|] == b && s[WIDTH_SIZE + |b|..] == rest;
    if WIDTH_SIZE <= c < |Frame(b)| { assert Frame(b)[..c][..WIDTH_SIZE] == Le(|b|, WIDTH_SIZE); }
  }

  lemma {:induction false} PrefixOfSum(f: Data, rest: Data, c: nat)
    requires c <= |f + rest|
    ensures (f + rest)[..c] == if c < |f| then f[..c] else f + rest[..c - |f|]
  {}

  lemma {:induction false} TakeCons<T>(x: T, more: seq<T>, k: nat)
    requires k <= |more|
    ensures ([x] + more)[..1 + k] == [x] + more[..k]
  {}

  const INT_LIMIT := 0x8000_0000

  /** The element count as the loader sees it: a negative int means no elements. */
  function Count(s: Data): nat
    requires |s| >= WIDTH_INT
  {
    var n := FromLe(s[..WIDTH_INT]);
    if n < INT_LIMIT then n else 0
  }

  lemma {:induction false} CountRoundTrip(n: nat, rest: Data)
    requires n < INT_LIMIT
    ensures Count(Le(n, WIDTH_INT) + rest) == n && (Le(n, WIDTH_INT) + rest)[WIDTH_INT..] == rest
  {
    assert Pow256(4) == 0x1_0000_0000 by {
      assert Pow256(1) == 256 && Pow256(2) == 0x1_0000 && Pow256(3) == 0x100_0000;
    }
    LeRoundTrip(n, WIDTH_INT);
    assert (Le(n, WIDTH_INT) + rest)[..WIDTH_INT] == Le(n, WIDTH_INT);
  }

  // ---------------------------------------------------------------------------------- lists

  /** A list file: the values array of a table pair, and the free list. */
  function Elems(xs: seq<Data>): Data { if xs == [] then [] else Frame(xs[0]) + Elems(xs[1..]) }

  function ListFile(xs: seq<Data>): Data { Le(|xs|, WIDTH_INT) + Elems(xs) }

  function ParseElems(s: Data, n: nat): seq<Data> {
    if n == 0 then []
    else match ReadElem(s)
      case Truncated => []
      case Parsed(x, rest) => [x] + ParseElems(rest, n - 1)
  }

  function ParseList(s: Data): seq<Data> {
    if |s| < WIDTH_INT then [] else ParseElems(s[WIDTH_INT..], Count(s))
  }

  /** How many elements lie wholly inside the first c bytes. */
  function WholeElems(xs: seq<Data>, c: nat): (k: nat)
    ensures k <= |xs|
  {
    if xs == [] || c < |Frame(xs[0])| then 0 else 1 + WholeElems(xs[1..], c - |Frame(xs[0])|)
  }

  ghost predicate AllFramable(xs: seq<Data>) { forall x :: x in xs ==> Framable(x) }

  /** One turn of the loading loop on a cut list. */
  lemma {:induction false} ElemsStep(x: Data, more: Data, c: nat, n: nat)
    requires Framable(x) && c <= |Frame(x) + more| && n > 0
    ensures ParseElems((Frame(x) + more)[..c], n)
            == if c < |Frame(x)| then [] else [x] + ParseElems(more[..c - |Frame(x)|], n - 1)
  {
    PrefixOfSum(Frame(x), more, c);
    if c < |Frame(x)| { ReadFrame(x, [], c); } else { ReadFrame(x, more[..c - |Frame(x)|], 0); }
  }

  lemma {:induction false} ElemsPrefix(xs: seq<Data>, c: nat)
    requires AllFramable(xs) && c <= |Elems(xs)|
    ensures ParseElems(Elems(xs)[..c], |xs|) == xs[..WholeElems(xs, c)]
  {
    if xs != [] {
      var x, more := xs[0], xs[1..];
      assert x in xs && xs == [x] + more;
      assert Elems(xs) == Frame(x) + Elems(more);
      ElemsStep(x, Elems(more), c, |xs|);
      if c >= |Frame(x)| {
        var k := WholeElems(more, c - |Frame(x)|);
        ElemsPrefix(more, c - |Frame(x)|);
        TakeCons(x, more, k);
        assert WholeElems(xs, c) == 1 + k;
      }
    }
  }

  /** Prefix-safe loading of a list: exactly the elements wholly contained in the prefix. */
  lemma {:induction false} ListPrefix(xs: seq<Data>, c: nat)
    requires AllFramable(xs) && |xs| < INT_LIMIT && c <= |ListFile(xs)|
    ensures ParseList(ListFile(xs)[..c]) == if c < WIDTH_INT then [] else xs[..WholeElems(xs, c - WIDTH_INT)]
  {
    if c >= WIDTH_INT {
      var d := c - WIDTH_INT;
      assert ListFile(xs)[..c] == Le(|xs|, WIDTH_INT) + Elems(xs)[..d];
      CountRoundTrip(|xs|, Elems(xs)[..d]);
      ElemsPrefix(xs, d);
    }
  }

  lemma {:induction false} AllWhole(xs: seq<Data>)
    ensures WholeElems(xs, |Elems(xs)|) == |xs|
  {
    if xs != [] { AllWhole(xs[1..]); }
  }

  /** A list file that is complete gives back the list, in order. */
  lemma {:induction false} ListRoundTrip(xs: seq<Data>)
    requires AllFramable(xs) && |xs| < INT_LIMIT
    ensures ParseList(ListFile(xs)) == xs
  {
    ListPrefix(xs, |ListFile(xs)|);
    AllWhole(xs);
    assert ListFile(xs)[..|ListFile(xs)|] == ListFile(xs);
  }

  // --------------------------------------------------------------------------------- tables

  datatype Row = Row(key: Data, val: Data)

  function RowBytes(r: Row): Data { Frame(r.key) + Frame(r.val) }

  function Rows(rows: seq<Row>): Data { if rows == [] then [] else RowBytes(rows[0]) + Rows(rows[1..]) }

  function TableFile(rows: seq<Row>): Data { Le(|rows|, WIDTH_INT) + Rows(rows) }

  datatype NextRow = NoRow | NextRow(row: Row, rest: Data)

  /** One turn of the loop of ghash_load before decoding: a key, then its value. */
  function ReadRow(s: Data): NextRow {
    match ReadElem(s)
    case Truncated => NoRow
    case Parsed(key, s1) =>
      match ReadElem(s1)
      case Truncated => NoRow
      case Parsed(val, s2) => NextRow(Row(key, val), s2)
  }

  /** The loop stops at a missing key or value. */
  function ParseRows(s: Data, n: nat): seq<Row> {
    if n == 0 then []
    else match ReadRow(s)
      case NoRow => []
      case NextRow(r, rest) => [r] + ParseRows(rest, n - 1)
  }

  function ParseTable(s: Data): seq<Row> {
    if |s| < WIDTH_INT then [] else ParseRows(s[WIDTH_INT..], Count(s))
  }

  function WholeRows(rows: seq<Row>, c: nat): (k: nat)
    ensures k <= |rows|
  {
    if rows == [] || c < |RowBytes(rows[0])| then 0 else 1 + WholeRows(rows[1..], c - |RowBytes(rows[0])|)
  }

  ghost predicate RowsFramable(rows: seq<Row>) { forall r :: r in rows ==> Framable(r.key) && Framable(r.val) }

  lemma {:induction false} RowRoundTrip(r: Row, rest: Data)
    requires Framable(r.key) && Framable(r.val)
    ensures ReadRow(RowBytes(r) + rest) == NextRow(r, rest)
  {
    var f, g := Frame(r.key), Frame(r.val);
    assert RowBytes(r) + rest == f + (g + rest);
    ReadFrame(r.key, g + rest, 0);
    ReadFrame(r.val, rest, 0);
  }

  lemma {:induction false} RowCut(r: Row, c: nat)
    requires Framable(r.key) && Framable(r.val) && c < |RowBytes(r)|
    ensures ReadRow(RowBytes(r)[..c]) == NoRow
  {
    var f, g := Frame(r.key), Frame(r.val);
    PrefixOfSum(f, g, c);
    if c < |f| {
      ReadFrame(r.key, [], c);
    } else {
      ReadFrame(r.key, g[..c - |f|], 0);
      ReadFrame(r.val, [], c - |f|);
    }
  }

  /** One turn of the loading loop on a cut table. */
  lemma {:induction false} RowsStep(r: Row, more: Data, c: nat, n: nat)
    requires Framable(r.key) && Framable(r.val) && c <= |RowBytes(r) + more| && n > 0
    ensures ParseRows((RowBytes(r) + more)[..c], n)
            == if c < |RowBytes(r)| then [] else [r] + ParseRows(more[..c - |RowBytes(r)|], n - 1)
  {
    PrefixOfSum(RowBytes(r), more, c);
    if c < |RowBytes(r)| { RowCut(r, c); } else { RowRoundTrip(r, more[..c - |RowBytes(r)|]); }
  }

  lemma {:induction false} RowsPrefix(rows: seq<Row>, c: nat)
    requires RowsFramable(rows) && c <= |Rows(rows)|
    ensures ParseRows(Rows(rows)[..c], |rows|) == rows[..WholeRows(rows, c)]
  {
    if rows != [] {
      var r, more := rows[0], rows[1..];
      assert r in rows && rows == [r] + more;
      assert Rows(rows) == RowBytes(r) + Rows(more);
      RowsStep(r, Rows(more), c, |rows|);
      if c >= |RowBytes(r)| {
        var k := WholeRows(more, c - |RowBytes(r)|);
        RowsPrefix(more, c - |RowBytes(r)|);
        TakeCons(r, more, k);
        assert WholeRows(rows, c) == 1 + k;
      }
    }
  }

  /** Prefix-safe loading of a table: exactly the entries wholly contained in the prefix. */
  lemma {:induction false} TablePrefix(rows: seq<Row>, c: nat)
    requires RowsFramable(rows) && |rows| < INT_LIMIT && c <= |TableFile(rows)|
    ensures ParseTable(TableFile(rows)[..c]) == if c < WIDTH_INT then [] else rows[..WholeRows(rows, c - WIDTH_INT)]
  {
    if c >= WIDTH_INT {
      var d := c - WIDTH_INT;
      assert TableFile(rows)[..c] == Le(|rows|, WIDTH_INT) + Rows(rows)[..d];
      CountRoundTrip(|rows|, Rows(rows)[..d]);
      RowsPrefix(rows, d);
    }
  }

  lemma {:induction false} AllRowsWhole(rows: seq<Row>)
    ensures WholeRows(rows, |Rows(rows)|) == |rows|
  {
    if rows != [] { AllRowsWhole(rows[1..]); }
  }

  lemma {:induction false} TableRoundTrip(rows: seq<Row>)
    requires RowsFramable(rows) && |rows| < INT_LIMIT
    ensures ParseTable(TableFile(rows)) == rows
  {
    TablePrefix(rows, |TableFile(rows)|);
    AllRowsWhole(rows);
    assert TableFile(rows)[..|TableFile(rows)|] == TableFile(rows);
  }

  // ---------------------------------------------------------------------- loads that stop early

  /** An element that lies inside a prefix is read from the prefix. */
  lemma {:induction false} ElemOfPrefix(s: Data, c: nat)
    requires ReadElem(s).Parsed? && |s| - |ReadElem(s).rest| <= c <= |s|
    ensures var k := |s| - |ReadElem(s).rest|;
            k >= 0 && s[k..] == ReadElem(s).rest && ReadElem(s[..c]) == Parsed(ReadElem(s).elem, s[k..c])
  {
    var n := FromLe(s[..WIDTH_SIZE]);
    assert s[..c][..WIDTH_SIZE] == s[..WIDTH_SIZE];
    assert s[..c][WIDTH_SIZE..WIDTH_SIZE + n] == s[WIDTH_SIZE..WIDTH_SIZE + n];
    assert s[..c][WIDTH_SIZE + n..] == s[WIDTH_SIZE + n..c];
  }

  lemma {:induction false} RowOfPrefix(s: Data, c: nat)
    requires ReadRow(s).NextRow? && |s| - |ReadRow(s).rest| <= c <= |s|
    ensures var k := |s| - |ReadRow(s).rest|;
            k >= 0 && s[k..] == ReadRow(s).rest && ReadRow(s[..c]) == NextRow(ReadRow(s).row, s[k..c])
  {
    var s1 := ReadElem(s).rest;
    var k1 := |s| - |s1|;
    ElemOfPrefix(s, c);
    ElemOfPrefix(s1, c - k1);
    var k2 := |s1| - |ReadElem(s1).rest|;
    assert s[k1..c] == s1[..c - k1] && s1[k2..] == s[k1 + k2..] && s1[k2..c - k1] == s[k1 + k2..c];
  }

  lemma {:induction false} NothingToRead(n: nat)
    ensures ParseRows([], n) == [] && ParseElems([], n) == []
  {}

  /** The first m rows that a load finds are those of some prefix of the bytes. */
  lemma {:induction false} RowsOfPrefix(s: Data, n: nat, m: nat) returns (c: nat)
    requires m <= |ParseRows(s, n)|
    ensures c <= |s| && ParseRows(s[..c], n) == ParseRows(s, n)[..m]
  {
    hide ReadRow;
    if m == 0 {
      c := 0;
      NothingToRead(n);
    } else {
      var row, rest := ReadRow(s).row, ReadRow(s).rest;
      RowOfPrefix(s, |s|);
      var d := RowsOfPrefix(rest, n - 1, m - 1);
      c := |s| - |rest| + d;
      RowOfPrefix(s, c);
      assert s[|s| - |rest|..c] == rest[..d];
      TakeCons(row, ParseRows(rest, n - 1), m - 1);
    }
  }

  lemma {:induction false} ElemsOfPrefix(s: Data, n: nat, m: nat) returns (c: nat)
    requires m <= |ParseElems(s, n)|
    ensures c <= |s| && ParseElems(s[..c], n) == ParseElems(s, n)[..m]
  {
    hide ReadElem;
    if m == 0 {
      c := 0;
      NothingToRead(n);
    } else {
      var elem, rest := ReadElem(s).elem, ReadElem(s).rest;
      ElemOfPrefix(s, |s|);
      var d := ElemsOfPrefix(rest, n - 1, m - 1);
      c := |s| - |rest| + d;
      ElemOfPrefix(s, c);
      assert s[|s| - |rest|..c] == rest[..d];
      TakeCons(elem, ParseElems(rest, n - 1), m - 1);
    }
  }

  /** A load that stops early does what a load of a shorter file does. */
  lemma {:induction false} TableStops(s: Data, rows: seq<Row>) returns (c: nat)
    requires rows <= ParseTable(s)
    ensures c <= |s| && ParseTable(s[..c]) == rows && (rows == ParseTable(s) ==> c == |s|)
  {
    if rows == ParseTable(s) {
      c := |s|;
      assert s[..c] == s;
    } else {
      var d := RowsOfPrefix(s[WIDTH_INT..], Count(s), |rows|);
      c := WIDTH_INT + d;
      assert s[..c][..WIDTH_INT] == s[..WIDTH_INT] && s[..c][WIDTH_INT..] == s[WIDTH_INT..][..d];
    }
  }

  lemma {:induction false} ListStops(s: Data, xs: seq<Data>) returns (c: nat)
    requires xs <= ParseList(s)
    ensures c <= |s| && ParseList(s[..c]) == xs && (xs == ParseList(s) ==> c == |s|)
  {
    if xs == ParseList(s) {
      c := |s|;
      assert s[..c] == s;
    } else {
      var d := ElemsOfPrefix(s[WIDTH_INT..], Count(s), |xs|);
      c := WIDTH_INT + d;
      assert s[..c][..WIDTH_INT] == s[..WIDTH_INT] && s[..c][WIDTH_INT..] == s[WIDTH_INT..][..d];
    }
  }
}
