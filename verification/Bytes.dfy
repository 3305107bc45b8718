/** Fixed-width little-endian numbers, as the C structures hold them on x86-64. */
module Bytes {
  import opened Model

  const WIDTH_INT := 4
  const WIDTH_SIZE := 8

  function Pow256(w: nat): (p: nat)
    ensures p > 0
  {
    if w == 0 then 1 else 256 * Pow256(w - 1)
  }

  /** The w low bytes of n, least significant first. */
  function Le(n: nat, w: nat): (s: seq<Byte>)
    ensures |s| == w
  {
    if w == 0 then [] else [(n % 256) as Byte] + Le(n / 256, w - 1)
  }

  function FromLe(s: seq<Byte>): nat {
    if s == [] then 0 else s[0] as int + 256 * FromLe(s[1..])
  }

  /** A number that fits survives the round trip. */
  lemma {:induction false} LeRoundTrip(n: nat, w: nat)
    requires n < Pow256(w)
    ensures FromLe(Le(n, w)) == n
  {
    if w > 0 {
      LeRoundTrip(n / 256, w - 1);
      assert Le(n, w)[1..] == Le(n / 256, w - 1);
    }
  }

  /** Taking a concatenation apart again. */
  lemma {:induction false} TakeApart<T>(a: seq<T>, b: seq<T>, c: seq<T>)
    ensures (a + b + c)[..|a|] == a
    ensures (a + b + c)[|a|..|a| + |b|] == b
    ensures (a + b + c)[|a| + |b|..] == c
  {}
}
