/** The flush of a plan: runs of neighbouring MISSes share one pwrite. */
module Coalescing {
  import opened Model
  import opened Steps

  /** The naive flush: the MISSes among the first n entries, one pwrite each, in plan order. */
  function OneByOne(disk: map<nat, Block>, plan: seq<Entry>, buf: seq<Block>, n: nat): map<nat, Block>
    requires n <= |plan| == |buf|
  {
    if n == 0 then disk
    else
      var d := OneByOne(disk, plan, buf, n - 1);
      if plan[n - 1].Placed? then d[plan[n - 1].slot := buf[n - 1]] else d
  }

  /** The disk after the flush, its return code, and the number of pwrites issued. */
  datatype Flushed = Flushed(disk: map<nat, Block>, rc: int, calls: nat)

  function FlushFrom(disk: map<nat, Block>, plan: seq<Entry>, buf: seq<Block>, io: Device, i: nat): Flushed
    requires i <= |plan| == |buf|
    decreases |plan| - i
  {
    if i == |plan| then Flushed(disk, 0, 0)
    else if !plan[i].Placed? then FlushFrom(disk, plan, buf, io, i + 1)
    else
      var j, x := RunEnd(plan, i), plan[i].slot;
      if At(io, i).Full? then
        var rest := FlushFrom(Pwrite(disk, x, buf[i..j]), plan, buf, io, j);
        rest.(calls := rest.calls + 1)
      else Flushed(TornPwrite(disk, x, j - i, At(io, i).patch), Code(At(io, i)), 1)
  }

  lemma {:induction false} FlushFromStep(disk: map<nat, Block>, plan: seq<Entry>, buf: seq<Block>, io: Device, i: nat)
    requires i < |plan| == |buf|
    ensures var f := FlushFrom(disk, plan, buf, io, i);
            if !plan[i].Placed? then f == FlushFrom(disk, plan, buf, io, i + 1)
            else
              var j, x := RunEnd(plan, i), plan[i].slot;
              if At(io, i).Full? then
                var rest := FlushFrom(Pwrite(disk, x, buf[i..j]), plan, buf, io, j);
                f == Flushed(rest.disk, rest.rc, rest.calls + 1)
              else f == Flushed(TornPwrite(disk, x, j - i, At(io, i).patch), Code(At(io, i)), 1)
  {}

  lemma {:induction false} FlushFromEnd(disk: map<nat, Block>, plan: seq<Entry>, buf: seq<Block>, io: Device)
    requires |plan| == |buf|
    ensures FlushFrom(disk, plan, buf, io, |plan|) == Flushed(disk, 0, 0)
  {}

  lemma {:induction false} PwriteLast(disk: map<nat, Block>, slot: nat, blocks: seq<Block>)
    requires blocks != []
    ensures var n := |blocks| - 1; Pwrite(disk, slot, blocks) == Pwrite(disk, slot, blocks[..n])[slot + n := blocks[n]]
  {}

  /** A run written at once is the run written block by block. */
  lemma {:induction false} RunIsOneByOne(disk: map<nat, Block>, plan: seq<Entry>, buf: seq<Block>, i: nat, k: nat)
    requires i < |plan| == |buf| && plan[i].Placed? && i <= k <= RunEnd(plan, i)
    ensures Pwrite(OneByOne(disk, plan, buf, i), plan[i].slot, buf[i..k]) == OneByOne(disk, plan, buf, k)
    decreases k
  {
    hide Pwrite, OneByOne, RunEnd;
    if k > i {
      var blocks := buf[i..k];
      RunIsOneByOne(disk, plan, buf, i, k - 1);
      assert plan[k - 1].Placed? && plan[k - 1].slot == plan[i].slot + (k - 1 - i);
      assert blocks[..|blocks| - 1] == buf[i..k - 1] && blocks[|blocks| - 1] == buf[k - 1];
      PwriteLast(OneByOne(disk, plan, buf, i), plan[i].slot, blocks);
      OneByOneLast(disk, plan, buf, k);
    } else {
      PwriteNone(OneByOne(disk, plan, buf, i), plan[i].slot);
      assert buf[i..k] == [];
    }
  }

  lemma {:induction false} PwriteNone(disk: map<nat, Block>, slot: nat)
    ensures Pwrite(disk, slot, []) == disk
  {}

  lemma {:induction false} OneByOneLast(disk: map<nat, Block>, plan: seq<Entry>, buf: seq<Block>, n: nat)
    requires 0 < n <= |plan| == |buf| && plan[n - 1].Placed?
    ensures OneByOne(disk, plan, buf, n) == OneByOne(disk, plan, buf, n - 1)[plan[n - 1].slot := buf[n - 1]]
  {}

  lemma {:induction false} CoalescedFrom(disk: map<nat, Block>, plan: seq<Entry>, buf: seq<Block>, io: Device, i: nat)
    requires i <= |plan| == |buf|
    ensures var f := FlushFrom(OneByOne(disk, plan, buf, i), plan, buf, io, i);
            f.rc == 0 ==> f.disk == OneByOne(disk, plan, buf, |plan|)
    decreases |plan| - i
  {
    if i < |plan| {
      if plan[i].Placed? {
        RunIsOneByOne(disk, plan, buf, i, RunEnd(plan, i));
        CoalescedFrom(disk, plan, buf, io, RunEnd(plan, i));
      } else {
        CoalescedFrom(disk, plan, buf, io, i + 1);
      }
    }
  }

  /** The pwrite that the flush issues at position i is the first that is not complete, and rc
      reports it: minus its errno if it failed, -EIO if it was short. */
  ghost predicate BadPwrite(io: Device, plan: seq<Entry>, rc: int, i: nat) {
    && i in Starts(plan) && (forall k: nat :: k in Starts(plan) && k < i ==> k !in io || io[k].Full?)
    && i in io
    && match io[i]
       case Full => false
       case Short(_) => rc == -5
       case Failed(_, errno) => rc == 0 - errno
  }

  /** On success the coalesced flush leaves the disk exactly as one pwrite per MISS in plan
      order would, and it fails exactly with the code of the first pwrite that is not complete. */
  lemma {:induction false} CoalescedIsOneByOne(disk: map<nat, Block>, plan: seq<Entry>, buf: seq<Block>, io: Device)
    requires |plan| == |buf|
    ensures var f := FlushFrom(disk, plan, buf, io, 0);
            && f.rc <= 0
            && (f.rc == 0 ==> f.disk == OneByOne(disk, plan, buf, |plan|))
            && (f.rc == 0 <==> forall i: nat :: i in Starts(plan) ==> At(io, i).Full?)
            && (f.rc == 0 || exists i: nat :: BadPwrite(io, plan, f.rc, i))
  {
    CoalescedFrom(disk, plan, buf, io, 0);
    FailsAtStart(disk, plan, buf, io, 0);
    var rc := FlushFrom(disk, plan, buf, io, 0).rc;
    if rc != 0 {
      var i: nat :| BadFrom(io, plan, rc, 0, i);
      assert BadPwrite(io, plan, rc, i);
    }
  }

  // ------------------------------------------------------------------------ few pwrites

  /** Entry i continues the run of its predecessor. */
  predicate Continues(plan: seq<Entry>, i: nat)
    requires i < |plan|
  {
    i > 0 && plan[i].Placed? && plan[i - 1].Placed? && plan[i].slot == plan[i - 1].slot + 1
  }

  /** Positions from n on where a new run has to start. */
  function StartsFrom(plan: seq<Entry>, n: nat): (s: set<nat>)
    ensures forall i: nat :: i in s <==> n <= i < |plan| && plan[i].Placed? && !Continues(plan, i)
  {
    set i: nat | n <= i < |plan| && plan[i].Placed? && !Continues(plan, i)
  }

  function Starts(plan: seq<Entry>): set<nat> { StartsFrom(plan, 0) }

  lemma {:induction false} StartsNext(plan: seq<Entry>, i: nat)
    requires i < |plan| && !Continues(plan, i)
    ensures !plan[i].Placed? ==> StartsFrom(plan, i) == StartsFrom(plan, i + 1)
    ensures plan[i].Placed? ==>
              var j := RunEnd(plan, i);
              StartsFrom(plan, i) == {i} + StartsFrom(plan, j) && i !in StartsFrom(plan, j)
                  && (j < |plan| ==> !Continues(plan, j))
  {
    if plan[i].Placed? {
      var j := RunEnd(plan, i);
      forall k: nat ensures k in StartsFrom(plan, i) <==> k in {i} + StartsFrom(plan, j) {
        if i < k < j {
          assert plan[k].slot == plan[i].slot + (k - i) && plan[k - 1].slot == plan[i].slot + (k - 1 - i);
        }
      }
    }
  }

  /** BadPwrite, seen from position n on. */
  ghost predicate BadFrom(io: Device, plan: seq<Entry>, rc: int, n: nat, i: nat) {
    && i in StartsFrom(plan, n) && (forall k: nat :: k in StartsFrom(plan, n) && k < i ==> At(io, k).Full?)
    && !At(io, i).Full? && rc == Code(At(io, i))
  }

  lemma {:induction false} FailsAtStart(disk: map<nat, Block>, plan: seq<Entry>, buf: seq<Block>, io: Device, i: nat)
    requires i <= |plan| == |buf| && (i < |plan| ==> !Continues(plan, i))
    ensures var f := FlushFrom(disk, plan, buf, io, i);
            && f.rc <= 0
            && (f.rc == 0 <==> forall k: nat :: k in StartsFrom(plan, i) ==> At(io, k).Full?)
            && (f.rc == 0 ==> f.calls == |StartsFrom(plan, i)|)
            && (f.rc == 0 || exists k: nat :: BadFrom(io, plan, f.rc, i, k))
    decreases |plan| - i
  {
    if i < |plan| {
      StartsNext(plan, i);
      if !plan[i].Placed? {
        FailsAtStart(disk, plan, buf, io, i + 1);
        var f := FlushFrom(disk, plan, buf, io, i);
        if f.rc != 0 {
          var k: nat :| BadFrom(io, plan, f.rc, i + 1, k);
          assert BadFrom(io, plan, f.rc, i, k);
        }
      } else {
        var j, f := RunEnd(plan, i), FlushFrom(disk, plan, buf, io, i);
        FailsAtStart(Pwrite(disk, plan[i].slot, buf[i..j]), plan, buf, io, j);
        assert i in StartsFrom(plan, i);
        if !At(io, i).Full? {
          assert BadFrom(io, plan, f.rc, i, i);
        } else if f.rc != 0 {
          var k: nat :| BadFrom(io, plan, f.rc, j, k);
          assert BadFrom(io, plan, f.rc, i, k);
        }
      }
    } else {
      assert StartsFrom(plan, i) == {};
    }
  }

  /** A grouping of the MISSes into pwrites, given by the positions where a pwrite begins:
      every other MISS must continue its predecessor in the buffer and in the master. */
  ghost predicate Grouping(plan: seq<Entry>, begins: set<nat>) {
    forall i: nat :: i < |plan| && plan[i].Placed? && i !in begins ==> Continues(plan, i)
  }

  /** No grouping into contiguous pwrites needs fewer calls than the flush issues. */
  lemma {:induction false} FewestPwrites(
      disk: map<nat, Block>, plan: seq<Entry>, buf: seq<Block>, io: Device, begins: set<nat>)
    requires |plan| == |buf| && Grouping(plan, begins) && FlushFrom(disk, plan, buf, io, 0).rc == 0
    ensures FlushFrom(disk, plan, buf, io, 0).calls == |Starts(plan)| <= |begins| && Grouping(plan, Starts(plan))
  {
    FailsAtStart(disk, plan, buf, io, 0);
    assert Starts(plan) <= begins;
    SubsetSize(Starts(plan), begins);
  }
}
