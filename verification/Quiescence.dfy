/** What the balance says when no thread holds any claim: nothing leaks, and the space used
    is the space needed. */
module Quiescence {
  import opened Model
  import opened Steps
  import opened Invariant
  import opened Accounting
  import opened Protocol
  import opened Safety
  import opened Solo

  /** No operation is in progress. */
  ghost predicate Quiet(env: Env, sh: Shared) { Global(env, sh, Nothing) }

  /** Nothing leaks: an object is alive exactly while some block of some file maps to it, its
      refcount is the number of these blocks, and the hash index leads to it. */
  lemma {:induction false} NoLeak(env: Env, sh: Shared, p: Ptr)
    requires Quiet(env, sh)
    ensures p in sh.heap <==> exists k :: k in sh.fileToMaster && sh.fileToMaster[k] == p
    ensures p in sh.heap ==> Published(sh, p) && sh.heap[p].refcount == |MappedTo(sh.fileToMaster, p)|
  {
    assert ExactAt(sh, Nothing, p);
    if k :| k in sh.fileToMaster && sh.fileToMaster[k] == p {
      assert k in MappedTo(sh.fileToMaster, p) && FileLinked(sh, k);
    } else {
      assert MappedTo(sh.fileToMaster, p) == {};
    }
  }

  // --------------------------------------------------------------------------- set sizes

  function Elements(xs: seq<nat>): (s: set<nat>)
    ensures forall x: nat :: x in s <==> x in xs
  {
    set x | x in xs
  }

  lemma {:induction false} SeqSetSize(xs: seq<nat>)
    requires forall x: nat :: multiset(xs)[x] <= 1
    ensures |Elements(xs)| == |xs|
  {
    if xs != [] {
      var n := |xs| - 1;
      assert xs == xs[..n] + [xs[n]];
      forall x: nat ensures multiset(xs[..n])[x] + (if x == xs[n] then 1 else 0) == multiset(xs)[x] {
        CountLast(xs[..n], xs[n], x);
      }
      assert multiset(xs[..n])[xs[n]] == 0 && xs[n] !in xs[..n];
      SeqSetSize(xs[..n]);
      assert Elements(xs) == Elements(xs[..n]) + {xs[n]};
    } else {
      assert Elements(xs) == {};
    }
  }

  lemma {:induction false} ImageSize<K(!new), V>(m: map<K, V>)
    requires forall a, b :: a in m && b in m && m[a] == m[b] ==> a == b
    ensures |m.Values| == |m|
  {
    if |m| > 0 {
      var k :| k in m;
      var rest := Remove(m, k);
      assert rest.Keys == m.Keys - {k} && |rest.Keys| == |rest| && |m.Keys| == |m|;
      ImageSize(rest);
      assert m.Values == rest.Values + {m[k]};
      assert m[k] !in rest.Values;
    } else {
      assert m.Values == {};
    }
  }

  function Below(n: nat): (s: set<nat>)
    ensures |s| == n && forall x: nat :: x in s <==> x < n
  {
    if n == 0 then {} else Below(n - 1) + {n - 1}
  }

  lemma {:induction false} PartitionSize(a: set<nat>, b: set<nat>, n: nat)
    requires forall x: nat :: x < n <==> x in a || x in b
    requires forall x: nat :: !(x in a && x in b)
    ensures |a| + |b| == n
  {
    assert Below(n) == a + b && a * b == {};
  }

  // ----------------------------------------------------------------------- space accounting

  /** The slot behind each hash of the index. */
  function SlotOf(sh: Shared): (m: map<Hash, nat>)
    ensures m.Keys <= sh.hashToMaster.Keys
  {
    map h | h in sh.hashToMaster && sh.hashToMaster[h] in sh.heap :: sh.heap[sh.hashToMaster[h]].slot
  }

  lemma {:induction false} SlotOfInjective(sh: Shared, a: Hash, b: Hash)
    requires Linked(sh) && SlotsConserved(sh, Nothing) && a in SlotOf(sh) && b in SlotOf(sh)
        && SlotOf(sh)[a] == SlotOf(sh)[b]
    ensures a == b
  {
    HashIsPublished(sh, a);
    HashIsPublished(sh, b);
    assert HashLinked(sh, a) && HashLinked(sh, b);
    if a != b { SlotsApart(sh, Nothing, sh.hashToMaster[a], sh.hashToMaster[b]); }
  }

  lemma {:induction false} SlotOfAt(sh: Shared, x: nat)
    requires Linked(sh)
    ensures |PublishedAt(sh, x)| > 0 <==> x in SlotOf(sh).Values
  {
    if x in SlotOf(sh).Values {
      var h :| h in SlotOf(sh) && SlotOf(sh)[h] == x;
      assert h in PublishedAt(sh, x);
    }
    if |PublishedAt(sh, x)| > 0 {
      var h :| h in PublishedAt(sh, x);
      assert h in SlotOf(sh);
    }
  }

  lemma {:induction false} FreeOrUsed(env: Env, sh: Shared, x: nat)
    requires Quiet(env, sh)
    ensures multiset(sh.freeList)[x] <= 1
    ensures x < sh.next <==> x in Elements(sh.freeList) || x in SlotOf(sh).Values
    ensures !(x in Elements(sh.freeList) && x in SlotOf(sh).Values)
  {
    assert ConservedAt(sh, Nothing, x);
    SlotOfAt(sh, x);
    assert x in Elements(sh.freeList) <==> multiset(sh.freeList)[x] > 0;
  }

  lemma {:induction false} UsedSize(env: Env, sh: Shared)
    requires Quiet(env, sh)
    ensures |SlotOf(sh).Values| == |sh.hashToMaster|
  {
    var m := SlotOf(sh);
    forall a, b | a in m && b in m && m[a] == m[b] ensures a == b { SlotOfInjective(sh, a, b); }
    ImageSize(m);
    forall h | h in sh.hashToMaster ensures h in m { assert HashLinked(sh, h); }
    assert m.Keys == sh.hashToMaster.Keys;
    assert |m| == |m.Keys| && |sh.hashToMaster| == |sh.hashToMaster.Keys|;
  }

  /** Every slot below `next` is either free or holds a published block. */
  lemma {:induction false} SlotBudget(env: Env, sh: Shared)
    requires Quiet(env, sh)
    ensures |sh.freeList| + |sh.hashToMaster| == sh.next
  {
    forall x: nat ensures multiset(sh.freeList)[x] <= 1 { FreeOrUsed(env, sh, x); }
    SeqSetSize(sh.freeList);
    UsedSize(env, sh);
    forall x: nat ensures x < sh.next <==> x in Elements(sh.freeList) || x in SlotOf(sh).Values
                  ensures !(x in Elements(sh.freeList) && x in SlotOf(sh).Values)
    {
      FreeOrUsed(env, sh, x);
    }
    PartitionSize(Elements(sh.freeList), SlotOf(sh).Values, sh.next);
  }

  /** What a read of one logical block delivers. */
  function ContentAt(sh: Shared, k: Key): Option<Block> {
    if k in sh.fileToMaster && sh.fileToMaster[k] in sh.heap && sh.heap[sh.fileToMaster[k]].slot in sh.disk
    then Some(sh.disk[sh.heap[sh.fileToMaster[k]].slot]) else None
  }

  /** The distinct block contents of all files. */
  function Contents(sh: Shared): set<Block> {
    set k | k in sh.fileToMaster && ContentAt(sh, k).Some? :: ContentAt(sh, k).value
  }

  /** The content behind each hash of the index. */
  function BlockOf(sh: Shared): map<Hash, Block> {
    map h | h in SlotOf(sh) && SlotOf(sh)[h] in sh.disk :: sh.disk[SlotOf(sh)[h]]
  }

  lemma {:induction false} ContentIsBacked(env: Env, sh: Shared, k: Key)
    requires Quiet(env, sh) && k in sh.fileToMaster
    ensures VisibleAt(sh, k).Some? && ContentAt(sh, k).Some?
    ensures env.inPlay(ContentAt(sh, k).value) && env.hash(ContentAt(sh, k).value) == VisibleAt(sh, k).value
    ensures VisibleAt(sh, k).value in BlockOf(sh) && BlockOf(sh)[VisibleAt(sh, k).value] == ContentAt(sh, k).value
  {
    assert FileLinked(sh, k) && BackedAt(env, sh, sh.fileToMaster[k]);
  }

  lemma {:induction false} HashIsBacked(env: Env, sh: Shared, h: Hash)
    requires Quiet(env, sh) && h in sh.hashToMaster
    ensures h in BlockOf(sh) && env.hash(BlockOf(sh)[h]) == h && BlockOf(sh)[h] in Contents(sh)
  {
    var p := sh.hashToMaster[h];
    HashIsPublished(sh, h);
    assert HashLinked(sh, h) && BackedAt(env, sh, p);
    NoLeak(env, sh, p);
    var k :| k in sh.fileToMaster && sh.fileToMaster[k] == p;
    ContentIsBacked(env, sh, k);
  }

  /** Space optimality: as many physical copies as there are distinct contents, no more. */
  lemma {:induction false} OneCopyEach(env: Env, sh: Shared)
    requires Quiet(env, sh)
    ensures |sh.hashToMaster| == |Contents(sh)|
    ensures sh.next == |Contents(sh)| + |sh.freeList|
  {
    var b := BlockOf(sh);
    forall h | h in sh.hashToMaster ensures h in b && env.hash(b[h]) == h { HashIsBacked(env, sh, h); }
    assert b.Keys == sh.hashToMaster.Keys;
    ImageSize(b);
    assert |b| == |b.Keys| && |sh.hashToMaster| == |sh.hashToMaster.Keys|;
    forall c ensures c in Contents(sh) <==> c in b.Values {
      if c in Contents(sh) {
        var k :| k in sh.fileToMaster && ContentAt(sh, k) == Some(c);
        ContentIsBacked(env, sh, k);
      }
      if c in b.Values {
        var h :| h in b && b[h] == c;
        HashIsBacked(env, sh, h);
      }
    }
    assert Contents(sh) == b.Values;
    SlotBudget(env, sh);
  }

  /** Space optimality over all interleavings: whenever a run of any number of threads from
      the empty store comes to rest, each distinct content has one physical copy and every
      other slot is free. */
  lemma {:induction false} RunSpace(env: Env, repaired: bool, run: Run, n: nat)
    requires IsRun(env, repaired, run) && NoLostDups(repaired, run) && n <= |run.acts|
    requires run.states[0].sh == EMPTY && AllIdle(run.states[0].ts) && AllIdle(run.states[n].ts)
    ensures var sh := run.states[n].sh;
            && Quiet(env, sh) && |sh.hashToMaster| == |Contents(sh)| && sh.next == |Contents(sh)| + |sh.freeList|
  {
    EmptyInv(env, run.states[0].ts);
    RunInv(env, repaired, run, n);
    QuiescentInv(env, run.states[n].sh, run.states[n].ts);
    OneCopyEach(env, run.states[n].sh);
  }

  /** Where the hash is trusted, equal stored hashes mean equal contents. */
  lemma {:induction false} SameHashSameContent(env: Env, sh: Shared, sh': Shared, k: Key)
    requires Quiet(env, sh) && Quiet(env, sh') && CollisionFree(env) && VisibleAt(sh', k) == VisibleAt(sh, k)
    ensures ContentAt(sh', k) == ContentAt(sh, k)
  {
    assert FileLinked(sh, k) && FileLinked(sh', k);
    if k in sh.fileToMaster {
      ContentIsBacked(env, sh, k);
      ContentIsBacked(env, sh', k);
    }
  }

  // ------------------------------------------------------------------ an unseen operation

  lemma {:induction false} UnseenInfo(env: Env, sh0: Shared, sh: Shared, p: Ptr)
    requires Quiet(env, sh0) && Quiet(env, sh) && Unseen(sh0, sh)
    ensures p in sh.heap <==> p in sh0.heap
    ensures p in sh.heap ==> sh.heap[p] == sh0.heap[p]
  {
    NoLeak(env, sh0, p);
    NoLeak(env, sh, p);
    if p in sh.heap {
      var k :| k in sh.fileToMaster && sh.fileToMaster[k] == p;
      assert KeptAt(sh0, sh, k);
    }
  }

  /** An operation that left the mappings and the infos behind them alone left the hash
      index and all refcounts alone, and the free list gained exactly what was appended. */
  lemma {:induction false} UnseenIsInvisible(env: Env, sh0: Shared, sh: Shared)
    requires Quiet(env, sh0) && Quiet(env, sh) && Unseen(sh0, sh) && sh0.next <= sh.next
    ensures sh.heap == sh0.heap && sh.hashToMaster == sh0.hashToMaster
    ensures multiset(sh.freeList) == multiset(sh0.freeList) + multiset(Range(sh0.next, sh.next - sh0.next))
    ensures forall k :: ContentAt(sh, k) == ContentAt(sh0, k)
  {
    forall p: Ptr ensures (p in sh.heap <==> p in sh0.heap) && (p in sh.heap ==> sh.heap[p] == sh0.heap[p]) {
      UnseenInfo(env, sh0, sh, p);
    }
    assert sh.heap == sh0.heap;
    forall h ensures h in sh.hashToMaster <==> h in sh0.hashToMaster
             ensures h in sh.hashToMaster ==> sh.hashToMaster[h] == sh0.hashToMaster[h]
    {
      SameIndex(env, sh0, sh, h);
    }
    assert sh.hashToMaster == sh0.hashToMaster;
    FreeListGrows(env, sh0, sh);
    forall k ensures ContentAt(sh, k) == ContentAt(sh0, k) { UnseenContent(env, sh0, sh, k); }
  }

  lemma {:induction false} UnseenContent(env: Env, sh0: Shared, sh: Shared, k: Key)
    requires Quiet(env, sh0) && Unseen(sh0, sh)
    ensures ContentAt(sh, k) == ContentAt(sh0, k)
  {
    assert KeptAt(sh0, sh, k);
    if k in sh0.fileToMaster { ContentIsBacked(env, sh0, k); }
  }

  lemma {:induction false} SameIndex(env: Env, sh0: Shared, sh: Shared, h: Hash)
    requires Quiet(env, sh0) && Quiet(env, sh) && sh.heap == sh0.heap
    ensures h in sh.hashToMaster <==> h in sh0.hashToMaster
    ensures h in sh.hashToMaster ==> sh.hashToMaster[h] == sh0.hashToMaster[h]
  {
    assert HashLinked(sh, h) && HashLinked(sh0, h);
    if h in sh.hashToMaster { NoLeak(env, sh0, sh.hashToMaster[h]); }
    if h in sh0.hashToMaster { NoLeak(env, sh, sh0.hashToMaster[h]); }
  }

  lemma {:induction false} FreeListGrows(env: Env, sh0: Shared, sh: Shared)
    requires Quiet(env, sh0) && Quiet(env, sh) && sh.heap == sh0.heap && sh.hashToMaster == sh0.hashToMaster
        && sh0.next <= sh.next
    ensures multiset(sh.freeList) == multiset(sh0.freeList) + multiset(Range(sh0.next, sh.next - sh0.next))
  {
    var more: seq<nat> := Range(sh0.next, sh.next - sh0.next);
    forall x: nat ensures multiset(sh.freeList)[x] == multiset(sh0.freeList)[x] + multiset(more)[x] {
      assert ConservedAt(sh0, Nothing, x) && ConservedAt(sh, Nothing, x);
      assert PublishedAt(sh, x) == PublishedAt(sh0, x);
      ConsecutiveCount(more, sh0.next, x);
    }
  }
}
