/** The batched read: sort the snapshotted slots, fetch each run of consecutive slots with one
    pread, and copy the blocks to their places in the output. */
module ReadPath {
  import opened Model

  datatype BlockPair = BlockPair(logical: nat, slot: nat)

  const INSERTION_SORT_THRESHOLD := 32

  function Zeros(): Block { seq(BLOCK_SIZE, i => 0) }

  // ------------------------------------------------------------------------------- sorting

  /** The first n elements are in order of their slots. */
  ghost predicate OrderedTo(s: seq<BlockPair>, n: nat)
    requires n <= |s|
  {
    forall i: nat, j: nat :: i < j < n ==> s[i].slot <= s[j].slot
  }

  ghost predicate Ordered(s: seq<BlockPair>) { OrderedTo(s, |s|) }

  /** Insertion sort by slot, in place, with the fast path for elements already in order. */
  method InsertionSort(a: array<BlockPair>)
    modifies a
    ensures Ordered(a[..])
    ensures multiset(a[..]) == multiset(old(a[..]))
  {
    var i := 1;
    while i < a.Length
      invariant a.Length == 0 || 1 <= i <= a.Length
      invariant i <= a.Length ==> OrderedTo(a[..], i)
      invariant multiset(a[..]) == multiset(old(a[..]))
    {
      if a[i - 1].slot <= a[i].slot {
        OrderedNext(a[..], i);
      } else {
        InsertLast(a, i);
      }
      i := i + 1;
    }
  }

  lemma OrderedNext(s: seq<BlockPair>, i: nat)
    requires 0 < i < |s| && OrderedTo(s, i) && s[i - 1].slot <= s[i].slot
    ensures OrderedTo(s, i + 1)
  {
    forall u: nat, v: nat | u < v < i + 1 ensures s[u].slot <= s[v].slot {
      if v == i && u < i - 1 { assert s[u].slot <= s[i - 1].slot; }
    }
  }

  /** Element i moved down to place j. */
  function Rotated(s: seq<BlockPair>, j: nat, i: nat): (r: seq<BlockPair>)
    requires j <= i < |s|
    ensures |r| == |s|
  {
    s[..j] + [s[i]] + s[j..i] + s[i + 1..]
  }

  lemma RotatedAt(s: seq<BlockPair>, j: nat, i: nat, k: nat)
    requires j <= i < |s| && k < |s|
    ensures Rotated(s, j, i)[k] == if k == j then s[i] else if j < k <= i then s[k - 1] else s[k]
  {}

  lemma RotatedPermutes(s: seq<BlockPair>, j: nat, i: nat)
    requires j <= i < |s|
    ensures multiset(Rotated(s, j, i)) == multiset(s)
  {
    assert s == s[..j] + s[j..i] + [s[i]] + s[i + 1..];
  }

  lemma RotatedStart(s: seq<BlockPair>, i: nat)
    requires i < |s|
    ensures Rotated(s, i, i) == s[i := s[i]]
  {}

  lemma RotatedOrdered(s: seq<BlockPair>, j: nat, i: nat)
    requires j <= i < |s| && OrderedTo(s, i)
    requires j > 0 ==> s[j - 1].slot <= s[i].slot
    requires forall k: nat :: j <= k < i ==> s[k].slot > s[i].slot
    ensures OrderedTo(Rotated(s, j, i), i + 1)
  {
    hide Rotated;
    var r := Rotated(s, j, i);
    forall u: nat, v: nat | u < v < i + 1 ensures r[u].slot <= r[v].slot {
      RotatedAt(s, j, i, u);
      RotatedAt(s, j, i, v);
      if v == j && u < j - 1 { assert s[u].slot <= s[j - 1].slot; }
    }
  }

  /** One shift of the insertion loop; the element being inserted is kept aside. */
  lemma ShiftStep(s: seq<BlockPair>, before: seq<BlockPair>, j: nat, i: nat)
    requires |s| == |before| && 0 < j <= i < |s| && s[j := before[i]] == Rotated(before, j, i)
    ensures s[j - 1] == before[j - 1]
    ensures s[j := s[j - 1]][j - 1 := before[i]] == Rotated(before, j - 1, i)
  {
    hide Rotated;
    var r, t, next := Rotated(before, j, i), s[j := s[j - 1]][j - 1 := before[i]], Rotated(before, j - 1, i);
    RotatedAt(before, j, i, j - 1);
    assert s[j - 1] == r[j - 1];
    forall k: nat | k < |s| ensures t[k] == next[k] {
      RotatedAt(before, j, i, k);
      RotatedAt(before, j - 1, i, k);
      assert s[j := before[i]][k] == r[k];
    }
  }

  method Put(a: array<BlockPair>, j: nat, p: BlockPair)
    requires j < a.Length
    modifies a
    ensures a[..] == old(a[..])[j := p]
  {
    a[j] := p;
  }

  /** The element that is being inserted belongs at j or before: the gap is at j. */
  ghost predicate Gap(before: seq<BlockPair>, s: seq<BlockPair>, j: nat, i: nat) {
    && |s| == |before| && j <= i < |s| && s[j := before[i]] == Rotated(before, j, i)
    && forall k: nat :: j <= k < i ==> before[k].slot > before[i].slot
  }

  lemma GapMoves(before: seq<BlockPair>, s: seq<BlockPair>, j: nat, i: nat)
    requires Gap(before, s, j, i) && j > 0 && s[j - 1].slot > before[i].slot
    ensures Gap(before, s[j := s[j - 1]], j - 1, i)
  {
    hide Rotated;
    ShiftStep(s, before, j, i);
  }

  /** When the loop ends the element fits where the gap is. */
  lemma GapCloses(before: seq<BlockPair>, s: seq<BlockPair>, j: nat, i: nat)
    requires Gap(before, s, j, i) && OrderedTo(before, i) && (j > 0 ==> s[j - 1].slot <= before[i].slot)
    ensures OrderedTo(s[j := before[i]], i + 1) && multiset(s[j := before[i]]) == multiset(before)
  {
    hide Rotated;
    if j > 0 { ShiftStep(s, before, j, i); }
    RotatedPermutes(before, j, i);
    RotatedOrdered(before, j, i);
  }

  /** Moves element i down past all larger elements before it. */
  method InsertLast(a: array<BlockPair>, i: nat)
    requires i < a.Length && OrderedTo(a[..], i)
    modifies a
    ensures OrderedTo(a[..], i + 1)
    ensures multiset(a[..]) == multiset(old(a[..]))
  {
    var tmp, j := a[i], i;
    ghost var before, s := a[..], a[..];
    RotatedStart(before, i);
    assert Gap(before, s, j, i);
    hide Gap, Rotated, OrderedTo;
    while j > 0 && a[j - 1].slot > tmp.slot
      invariant j <= i && a[..] == s && Gap(before, s, j, i)
    {
      assert s[j - 1] == a[j - 1];
      GapMoves(before, s, j, i);
      a[j] := a[j - 1];
      s := s[j := s[j - 1]];
      j := j - 1;
    }
    assert j > 0 ==> s[j - 1] == a[j - 1];
    GapCloses(before, s, j, i);
    a[j] := tmp;
    assert a[..] == s[j := tmp];
  }

  /** qsort: all that is known of its result is that it is an ordered permutation. */
  method QuickSort(a: array<BlockPair>)
    modifies a
    ensures Ordered(a[..])
    ensures multiset(a[..]) == multiset(old(a[..]))
  {
    InsertionSort(a);
  }

  // -------------------------------------------------------------------------------- groups

  /** What a read of one block of the master delivers: its content, or zeros in a hole. */
  function Fetch(disk: map<nat, Block>, x: nat): Block { if x in disk then disk[x] else Zeros() }

  /** The master is long enough for a full block at x. */
  predicate Reaches(disk: map<nat, Block>, x: nat) { exists y | y in disk :: x <= y }

  /** A pread of n blocks at slot x is full unless the device fails or the range leaves the
      master. */
  predicate Readable(disk: map<nat, Block>, x: nat, n: nat, fails: set<nat>) {
    n > 0 && x !in fails && Reaches(disk, x + n - 1)
  }

  /** pread into a buffer; a short or failed call leaves anything in the target range. */
  method Pread(disk: map<nat, Block>, x: nat, n: nat, fails: set<nat>, buf: array<Block>, at: nat) returns (ok: bool)
    requires at + n <= buf.Length
    modifies buf
    ensures ok == Readable(disk, x, n, fails)
    ensures ok ==> forall k: nat :: at <= k < at + n ==> buf[k] == Fetch(disk, x + (k - at))
    ensures forall k: nat :: k < buf.Length && !(at <= k < at + n) ==> buf[k] == old(buf[k])
  {
    ok := Readable(disk, x, n, fails);
    var k := 0;
    while k < n && ok
      invariant k <= n
      invariant ok ==> forall u: nat :: at <= u < at + k ==> buf[u] == Fetch(disk, x + (u - at))
      invariant forall u: nat :: u < buf.Length && !(at <= u < at + n) ==> buf[u] == old(buf[u])
    {
      buf[at + k] := Fetch(disk, x + k);
      k := k + 1;
    }
  }

  /** Slots i..j are consecutive. */
  ghost predicate Consecutive(s: seq<BlockPair>, i: nat, j: nat)
    requires j <= |s|
  {
    forall k: nat :: i <= k < j ==> s[k].slot == s[i].slot + (k - i)
  }

  /** The k-th pair is delivered: its block is at its place in the output. */
  ghost predicate DeliveredAt(s: seq<BlockPair>, disk: map<nat, Block>, out: seq<Block>, k: nat)
    requires k < |s|
  {
    s[k].logical < |out| && out[s[k].logical] == Fetch(disk, s[k].slot)
  }

  /** Pairs with the same place have the same slot. */
  ghost predicate Functional(s: seq<BlockPair>) {
    forall i: nat, j: nat :: i < |s| && j < |s| && s[i].logical == s[j].logical ==> s[i].slot == s[j].slot
  }

  ghost predicate Target(s: seq<BlockPair>, l: nat) { exists k: nat :: k < |s| && s[k].logical == l }

  /** Places that no pair points to keep their blocks. */
  ghost predicate Spared(s: seq<BlockPair>, before: seq<Block>, after: seq<Block>) {
    |after| == |before| && forall l: nat :: l < |before| && !Target(s, l) ==> after[l] == before[l]
  }

  ghost predicate PlacesExist(s: seq<BlockPair>, n: nat) { forall k: nat :: k < |s| ==> s[k].logical < n }

  ghost predicate Delivered(s: seq<BlockPair>, disk: map<nat, Block>, out: seq<Block>, n: nat)
    requires n <= |s|
  {
    forall k: nat :: k < n ==> DeliveredAt(s, disk, out, k)
  }

  /** Copies one fetched group from the staging buffer to the output. */
  method Scatter(
      pairs: array<BlockPair>, from: nat, to: nat, disk: map<nat, Block>, staging: array<Block>, out: array<Block>)
    requires from < to <= pairs.Length && Consecutive(pairs[..], from, to) && Functional(pairs[..])
    requires to - from <= staging.Length && staging != out
    requires forall k: nat :: k < to - from ==> staging[k] == Fetch(disk, pairs[from].slot + k)
    requires PlacesExist(pairs[..], out.Length) && Delivered(pairs[..], disk, out[..], from)
    modifies out
    ensures Delivered(pairs[..], disk, out[..], to) && Spared(pairs[..], old(out[..]), out[..])
  {
    ghost var s := pairs[..];
    var j := from;
    while j < to
      invariant from <= j <= to
      invariant Delivered(s, disk, out[..], j) && Spared(s, old(out[..]), out[..])
    {
      assert s[j].slot == s[from].slot + (j - from);
      ghost var before := out[..];
      out[pairs[j].logical] := staging[pairs[j].slot - pairs[from].slot];
      DeliverMore(s, disk, before, out[..], j);
      j := j + 1;
    }
  }

  lemma {:induction false} DeliverMore(
      s: seq<BlockPair>, disk: map<nat, Block>, before: seq<Block>, after: seq<Block>, j: nat)
    requires j < |s| && Functional(s) && PlacesExist(s, |before|) && Delivered(s, disk, before, j)
    requires after == before[s[j].logical := Fetch(disk, s[j].slot)]
    ensures Delivered(s, disk, after, j + 1) && Spared(s, before, after)
  {
    forall k: nat | k < j + 1 ensures DeliveredAt(s, disk, after, k) {
      if k < j { assert DeliveredAt(s, disk, before, k); }
    }
  }

  // ---------------------------------------------------------------------------- all groups

  /** End of the group that starts at i: the longest run of consecutive slots. */
  function GroupEnd(s: seq<BlockPair>, i: nat): (j: nat)
    requires i < |s|
    ensures i < j <= |s|
    decreases |s| - i
  {
    if i + 1 < |s| && s[i + 1].slot == s[i].slot + 1 then GroupEnd(s, i + 1) else i + 1
  }

  /** Every pread of the groups from i on is full. */
  predicate GroupsReadable(s: seq<BlockPair>, i: nat, disk: map<nat, Block>, fails: set<nat>)
    requires i <= |s|
    decreases |s| - i
  {
    i == |s| ||
    (Readable(disk, s[i].slot, GroupEnd(s, i) - i, fails) && GroupsReadable(s, GroupEnd(s, i), disk, fails))
  }

  lemma {:induction false} GroupEnds(s: seq<BlockPair>, i: nat, j: nat)
    requires i < j <= |s| && Consecutive(s, i, j) && (j < |s| ==> s[j].slot != s[j - 1].slot + 1)
    ensures GroupEnd(s, i) == j
    decreases j - i
  {
    if i + 1 < j {
      assert s[i + 1].slot == s[i].slot + 1;
      assert Consecutive(s, i + 1, j);
      GroupEnds(s, i + 1, j);
    }
  }

  lemma {:induction false} GroupIsRun(s: seq<BlockPair>, i: nat)
    requires i < |s|
    ensures Consecutive(s, i, GroupEnd(s, i))
    decreases |s| - i
  {
    if GroupEnd(s, i) > i + 1 { GroupIsRun(s, i + 1); }
  }

  /** Fetches the pairs [from, to), one group: a single block straight to its place, more
      blocks through the staging buffer. */
  method FetchGroup(pairs: array<BlockPair>, from: nat, to: nat, disk: map<nat, Block>, fails: set<nat>,
                    staging: array<Block>, out: array<Block>) returns (ok: bool)
    requires from < to <= pairs.Length <= staging.Length && staging != out
    requires Consecutive(pairs[..], from, to) && Functional(pairs[..])
    requires PlacesExist(pairs[..], out.Length) && Delivered(pairs[..], disk, out[..], from)
    modifies staging, out
    ensures ok == Readable(disk, pairs[from].slot, to - from, fails)
    ensures ok ==> Delivered(pairs[..], disk, out[..], to)
    ensures Spared(pairs[..], old(out[..]), out[..])
  {
    ghost var s, before := pairs[..], out[..];
    if to - from == 1 {
      ok := Pread(disk, pairs[from].slot, 1, fails, out, pairs[from].logical);
      assert Target(s, s[from].logical);
      if ok {
        assert out[..] == before[s[from].logical := Fetch(disk, s[from].slot)];
        DeliverMore(s, disk, before, out[..], from);
      }
    } else {
      ok := Pread(disk, pairs[from].slot, to - from, fails, staging, 0);
      assert out[..] == before;
      if ok { Scatter(pairs, from, to, disk, staging, out); }
    }
  }

  /** Fetches group after group; stops at the first pread that is not full. */
  method FetchGroups(
      pairs: array<BlockPair>, disk: map<nat, Block>, fails: set<nat>, out: array<Block>) returns (ok: bool)
    requires pairs.Length > 0 && Functional(pairs[..]) && PlacesExist(pairs[..], out.Length)
    modifies out
    ensures ok == GroupsReadable(pairs[..], 0, disk, fails)
    ensures ok ==> Delivered(pairs[..], disk, out[..], pairs.Length)
    ensures Spared(pairs[..], old(out[..]), out[..])
  {
    var staging := new Block[pairs.Length](i => []);
    ghost var s := pairs[..];
    var groupStart, i := 0, 1;
    while i <= pairs.Length
      invariant 1 <= i <= pairs.Length + 1
      invariant if i <= pairs.Length then groupStart < i && Consecutive(s, groupStart, i)
          else groupStart == pairs.Length
      invariant GroupsReadable(s, 0, disk, fails) == GroupsReadable(s, groupStart, disk, fails)
      invariant Delivered(s, disk, out[..], groupStart)
      invariant Spared(s, old(out[..]), out[..])
    {
      if i < pairs.Length && pairs[i].slot == pairs[i - 1].slot + 1 {
        assert s[i - 1].slot == s[groupStart].slot + (i - 1 - groupStart);
      } else {
        GroupEnds(s, groupStart, i);
        ok := FetchGroup(pairs, groupStart, i, disk, fails, staging, out);
        if !ok { return; }
        groupStart := i;
      }
      i := i + 1;
    }
    ok := true;
  }

  // ----------------------------------------------------------------------- the whole request

  /** The pairs of a request before sorting. */
  ghost predicate Requested(s: seq<BlockPair>, slots: seq<nat>) {
    |s| == |slots| && forall k: nat :: k < |s| ==> s[k] == BlockPair(k, slots[k])
  }

  lemma {:induction false} PermutedMember(s: seq<BlockPair>, t: seq<BlockPair>, k: nat) returns (j: nat)
    requires multiset(s) == multiset(t) && k < |t|
    ensures j < |s| && s[j] == t[k]
  {
    assert t[k] in multiset(t);
    assert t[k] in multiset(s);
    j :| j < |s| && s[j] == t[k];
  }

  /** Sorting loses no block of the request and invents none. */
  lemma {:induction false} SortedRequest(s: seq<BlockPair>, t: seq<BlockPair>, slots: seq<nat>)
    requires Requested(s, slots) && multiset(s) == multiset(t)
    ensures |t| == |slots| && Functional(t)
    ensures forall k: nat :: k < |t| ==> t[k].logical < |slots| && t[k].slot == slots[t[k].logical]
    ensures forall i: nat :: i < |slots| ==> BlockPair(i, slots[i]) in t
  {
    assert |s| == |multiset(s)| == |multiset(t)| == |t|;
    forall k: nat | k < |t| ensures t[k].logical < |slots| && t[k].slot == slots[t[k].logical] {
      var j := PermutedMember(s, t, k);
    }
    forall i: nat | i < |slots| ensures BlockPair(i, slots[i]) in t {
      var k := PermutedMember(t, s, i);
    }
  }

  /** Element k does not continue the run of its predecessor. */
  predicate StartsGroup(s: seq<BlockPair>, k: nat)
    requires k < |s|
  {
    k == 0 || s[k].slot != s[k - 1].slot + 1
  }

  lemma {:induction false} GroupEndStarts(s: seq<BlockPair>, i: nat)
    requires i < |s|
    ensures GroupEnd(s, i) < |s| ==> StartsGroup(s, GroupEnd(s, i))
    decreases |s| - i
  {
    if GroupEnd(s, i) > i + 1 { GroupEndStarts(s, i + 1); }
  }

  /** The preads of all groups are full if and only if every single slot lies inside the master
      and the device does not fail where a group starts. */
  lemma {:induction false} GroupsReach(s: seq<BlockPair>, i: nat, disk: map<nat, Block>, fails: set<nat>)
    requires i <= |s| && (i < |s| ==> StartsGroup(s, i))
    ensures GroupsReadable(s, i, disk, fails) <==>
              forall k: nat :: i <= k < |s| ==> Reaches(disk, s[k].slot) && (StartsGroup(s, k) ==> s[k].slot !in fails)
    decreases |s| - i
  {
    if i < |s| {
      var j := GroupEnd(s, i);
      GroupIsRun(s, i);
      GroupEndStarts(s, i);
      GroupsReach(s, j, disk, fails);
      assert s[j - 1].slot == s[i].slot + (j - i) - 1;
      forall k: nat | i < k < j ensures !StartsGroup(s, k) && s[k].slot <= s[j - 1].slot {
        assert s[k].slot == s[i].slot + (k - i) && s[k - 1].slot == s[i].slot + (k - 1 - i);
      }
      if Reaches(disk, s[j - 1].slot) {
        var y :| y in disk && s[j - 1].slot <= y;
        forall k: nat | i <= k < j ensures Reaches(disk, s[k].slot) { assert s[k].slot <= y; }
      }
    }
  }

  /** The slot occurs at two places of the request. */
  predicate Repeats(slots: seq<nat>, x: nat) {
    exists i: nat, j: nat :: i < j < |slots| && slots[i] == x && slots[j] == x
  }

  /** A pread of the batched read begins at slot x: the slot is requested, and its predecessor
      in the master is not, or it is requested twice. */
  predicate Begins(slots: seq<nat>, x: nat) {
    x in slots && ((forall y :: y in slots ==> y + 1 != x) || Repeats(slots, x))
  }

  /** The sorted request loses no repetition and invents none. */
  lemma {:induction false} SortedPlaces(s: seq<BlockPair>, t: seq<BlockPair>, slots: seq<nat>, k: nat, l: nat)
    requires Requested(s, slots) && multiset(s) == multiset(t) && k < l < |t|
    ensures t[k].logical != t[l].logical
  {
    SortedRequest(s, t, slots);
    if t[k].logical == t[l].logical {
      assert t[k] == t[l];
      assert t == t[..l] + t[l..] && t[k] in t[..l] && t[l] in t[l..];
      assert multiset(t)[t[k]] >= 2;
      CountOnce(s, t[k]);
    }
  }

  lemma {:induction false} CountOnce(s: seq<BlockPair>, p: BlockPair)
    requires forall i: nat, j: nat :: i < j < |s| ==> s[i] != s[j]
    ensures multiset(s)[p] <= 1
  {
    if s != [] {
      var n := |s| - 1;
      assert s == s[..n] + [s[n]];
      CountOnce(s[..n], p);
      if s[n] == p { assert p !in s[..n]; }
    }
  }

  /** Two elements of an ordered list with the same slot: the second of two neighbours starts
      a group. */
  lemma {:induction false} TwinStarts(t: seq<BlockPair>, k: nat, l: nat)
    requires Ordered(t) && k < l < |t| && t[k].slot == t[l].slot
    ensures StartsGroup(t, k + 1) && t[k + 1].slot == t[k].slot
  {
    assert t[k].slot <= t[k + 1].slot <= t[l].slot;
  }

  /** The first element with slot x. */
  lemma {:induction false} FirstWith(t: seq<BlockPair>, x: nat, n: nat) returns (k: nat)
    requires n < |t| && t[n].slot == x
    ensures k <= n && t[k].slot == x && forall l: nat :: l < k ==> t[l].slot != x
  {
    if l: nat :| l < n && t[l].slot == x { k := FirstWith(t, x, l); } else { k := n; }
  }

  /** Where groups of the sorted request start is where preads begin. */
  lemma {:induction false} StartIsBegin(s: seq<BlockPair>, t: seq<BlockPair>, slots: seq<nat>, k: nat)
    requires Requested(s, slots) && multiset(s) == multiset(t) && Ordered(t) && k < |t| && StartsGroup(t, k)
    ensures Begins(slots, t[k].slot)
  {
    var x := t[k].slot;
    SortedRequest(s, t, slots);
    assert slots[t[k].logical] == x;
    if y :| y in slots && y + 1 == x {
      var i: nat :| i < |slots| && slots[i] == y;
      assert BlockPair(i, slots[i]) in t;
      var l: nat :| l < |t| && t[l] == BlockPair(i, y);
      assert l < k;
      assert t[l].slot <= t[k - 1].slot by { if l < k - 1 { assert t[l].slot <= t[k - 1].slot; } }
      assert t[k - 1].slot <= t[k].slot;
      SortedPlaces(s, t, slots, k - 1, k);
      var a, b := t[k - 1].logical, t[k].logical;
      assert slots[a] == x && slots[b] == x && a != b;
      if a < b { assert Repeats(slots, x); } else { assert Repeats(slots, x); }
    }
  }

  /** Where the sorting has put the i-th block of the request. */
  lemma {:induction false} PlaceOf(s: seq<BlockPair>, t: seq<BlockPair>, slots: seq<nat>, i: nat) returns (k: nat)
    requires Requested(s, slots) && multiset(s) == multiset(t) && i < |slots|
    ensures k < |t| && t[k] == BlockPair(i, slots[i])
  {
    SortedRequest(s, t, slots);
    assert BlockPair(i, slots[i]) in t;
    k :| k < |t| && t[k] == BlockPair(i, slots[i]);
  }

  lemma {:induction false} BeginIsStart(s: seq<BlockPair>, t: seq<BlockPair>, slots: seq<nat>, x: nat) returns (k: nat)
    requires Requested(s, slots) && multiset(s) == multiset(t) && Ordered(t) && Begins(slots, x)
    ensures k < |t| && StartsGroup(t, k) && t[k].slot == x
  {
    if Repeats(slots, x) {
      var i: nat, j: nat :| i < j < |slots| && slots[i] == x && slots[j] == x;
      var l := PlaceOf(s, t, slots, i);
      var m := PlaceOf(s, t, slots, j);
      if l < m { TwinStarts(t, l, m); k := l + 1; } else { TwinStarts(t, m, l); k := m + 1; }
    } else {
      var i: nat :| i < |slots| && slots[i] == x;
      var l := PlaceOf(s, t, slots, i);
      k := FirstWith(t, x, l);
      SortedRequest(s, t, slots);
      if k > 0 { assert slots[t[k - 1].logical] == t[k - 1].slot && t[k - 1].slot in slots; }
      assert t[k].slot == x && StartsGroup(t, k);
    }
  }

  /** Batched read of the given slots: equal to reading them one by one, for repeated slots
      and any order of slots. It fails if and only if some slot lies beyond the master or the
      device fails at a slot where a pread begins. */
  method ReadSlots(slots: seq<nat>, disk: map<nat, Block>, fails: set<nat>, out: array<Block>) returns (ok: bool)
    requires 0 < |slots| <= out.Length
    modifies out
    ensures ok ==> forall i: nat :: i < |slots| ==> Reaches(disk, slots[i]) && out[i] == Fetch(disk, slots[i])
    ensures ok <==>
              && (forall i: nat :: i < |slots| ==> Reaches(disk, slots[i]))
              && forall x :: x in fails ==> !Begins(slots, x)
    ensures out[|slots|..] == old(out[|slots|..])
  {
    var pairs := new BlockPair[|slots|](i requires 0 <= i < |slots| => BlockPair(i, slots[i]));
    ghost var s := pairs[..];
    if |slots| <= INSERTION_SORT_THRESHOLD { InsertionSort(pairs); } else { QuickSort(pairs); }
    ghost var t := pairs[..];
    SortedRequest(s, t, slots);
    ok := FetchGroups(pairs, disk, fails, out);
    ReadFails(s, t, slots, disk, fails);
    ReadIsNaive(t, slots, disk, fails, old(out[..]), out[..], ok);
  }

  lemma {:induction false} ReadFails(
      s: seq<BlockPair>, t: seq<BlockPair>, slots: seq<nat>, disk: map<nat, Block>, fails: set<nat>)
    requires Requested(s, slots) && multiset(s) == multiset(t) && Ordered(t) && |t| > 0
    ensures GroupsReadable(t, 0, disk, fails) <==>
              && (forall i: nat :: i < |slots| ==> Reaches(disk, slots[i]))
              && forall x :: x in fails ==> !Begins(slots, x)
  {
    GroupsReach(t, 0, disk, fails);
    SortedRequest(s, t, slots);
    if GroupsReadable(t, 0, disk, fails) {
      forall i: nat | i < |slots| ensures Reaches(disk, slots[i]) {
        assert BlockPair(i, slots[i]) in t;
        var k: nat :| k < |t| && t[k] == BlockPair(i, slots[i]);
      }
      forall x | x in fails ensures !Begins(slots, x) {
        if Begins(slots, x) { var k := BeginIsStart(s, t, slots, x); }
      }
    } else {
      var k: nat :| k < |t| && !(Reaches(disk, t[k].slot) && (StartsGroup(t, k) ==> t[k].slot !in fails));
      assert slots[t[k].logical] == t[k].slot;
      if Reaches(disk, t[k].slot) { StartIsBegin(s, t, slots, k); }
    }
  }

  /** Delivered pairs of a sorted request are the blocks of the request, one by one. */
  lemma {:induction false} ReadIsNaive(
      t: seq<BlockPair>, slots: seq<nat>, disk: map<nat, Block>, fails: set<nat>,
      before: seq<Block>, after: seq<Block>, ok: bool)
    requires |slots| <= |before| && Spared(t, before, after) && ok == GroupsReadable(t, 0, disk, fails)
    requires ok ==> Delivered(t, disk, after, |t|)
    requires forall k: nat :: k < |t| ==> t[k].logical < |slots| && t[k].slot == slots[t[k].logical]
    requires forall i: nat :: i < |slots| ==> BlockPair(i, slots[i]) in t
    ensures ok ==> forall i: nat :: i < |slots| ==> Reaches(disk, slots[i]) && after[i] == Fetch(disk, slots[i])
    ensures after[|slots|..] == before[|slots|..]
  {
    GroupsReach(t, 0, disk, fails);
    if ok {
      forall i: nat | i < |slots| ensures Reaches(disk, slots[i]) && after[i] == Fetch(disk, slots[i]) {
        assert BlockPair(i, slots[i]) in t;
        var k: nat :| k < |t| && t[k] == BlockPair(i, slots[i]);
        assert DeliveredAt(t, disk, after, k);
      }
    }
    forall l: nat | |slots| <= l < |before| ensures after[l] == before[l] { assert !Target(t, l); }
  }
}
