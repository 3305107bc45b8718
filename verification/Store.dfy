/** The sequential store as it is: tables, counters and lists updated in place. Every method
    is tied to the specification step by step; `On` carries the outcome of the operation. */
module Store {
  import opened Model
  import opened Steps
  import opened Invariant
  import opened StepProofs
  import opened Lifecycle
  import opened Protocol
  import opened Sequential
  import opened Solo
  import opened Quiescence
  import opened Laws
  import opened Following
  import opened Operations
  import opened Histories
  import opened Safety
  import opened ReadPath
  import opened Coalescing

  class Index {
    ghost const env: Env
    const hash: Block -> Hash
    const malloc: Malloc

    var hashToMaster: map<Hash, Ptr>
    var fileToMaster: map<Key, Ptr>
    var fileToSizes: map<Path, nat>
    var infos: map<Ptr, MasterInfo>
    var freeBlockList: seq<nat>
    var nextBlockIndex: nat
    var master: map<nat, Block>

    ghost function State(): Shared
      reads this
    {
      Shared(hashToMaster, fileToMaster, fileToSizes, infos, freeBlockList, nextBlockIndex, master)
    }

    /** No operation is in progress and everything balances. */
    ghost predicate Valid()
      reads this
    {
      Fresh(malloc) && hash == env.hash && Quiet(env, State())
    }

    constructor (env: Env, malloc: Malloc)
      requires Fresh(malloc)
      ensures Valid() && State() == EMPTY && this.env == env && this.malloc == malloc
    {
      this.env, this.hash, this.malloc := env, env.hash, malloc;
      hashToMaster, fileToMaster, fileToSizes, infos := map[], map[], map[], map[];
      freeBlockList, nextBlockIndex, master := [], 0, map[];
      new;
      EmptyGlobal(env);
    }

    /** An index with loaded contents; whether it balances depends on them. */
    constructor Loaded(
        env: Env, malloc: Malloc, hashToMaster: map<Hash, Ptr>, fileToMaster: map<Key, Ptr>,
        fileToSizes: map<Path, nat>, infos: map<Ptr, MasterInfo>, freeBlockList: seq<nat>, nextBlockIndex: nat,
        master: map<nat, Block>)
      ensures this.env == env && this.malloc == malloc && hash == env.hash
      ensures State() == Shared(hashToMaster, fileToMaster, fileToSizes, infos, freeBlockList, nextBlockIndex, master)
    {
      this.env, this.hash, this.malloc := env, env.hash, malloc;
      this.hashToMaster, this.fileToMaster, this.fileToSizes, this.infos :=
          hashToMaster, fileToMaster, fileToSizes, infos;
      this.freeBlockList, this.nextBlockIndex, this.master := freeBlockList, nextBlockIndex, master;
    }

    // ----------------------------------------------------------------------- references

    method AddRef(p: Ptr)
      requires p in infos
      modifies this`infos
      ensures infos == Bump(old(infos), p)
    {
      infos := infos[p := infos[p].(refcount := infos[p].refcount + 1)];
    }

    /** fetch_sub and, for the last reference, the complete cleanup. */
    method DropRef(p: Ptr, release: seq<nat>) returns (release': seq<nat>)
      requires p in infos
      modifies this`infos, this`hashToMaster
      ensures var d := Drop(old(State()), p); State() == d.sh && release' == d.freed + release
    {
      release' := release;
      if infos[p].refcount == 1 {
        release' := [infos[p].slot] + release;
        hashToMaster := Remove(hashToMaster, infos[p].hash);
        infos := Remove(infos, p);
      } else {
        infos := infos[p := infos[p].(refcount := infos[p].refcount - 1)];
      }
    }

    // ------------------------------------------------------------------------ write_dedup

    ghost predicate On(io: Device, w: Job, goal: Ended)
      reads this
    {
      hash == env.hash && Following.On(env, malloc, io, State(), w, goal)
    }

    /** Pass 1: every block becomes a HIT or a MISS. */
    method DecideBlocks(buf: seq<Block>, plan: array<Entry>, ghost io: Device, ghost w0: Job, ghost goal: Ended)
      returns (missCount: nat, ghost w: Job)
      requires plan.Length == |buf| && w0 == Begin(w0.path, w0.start, buf) && On(io, w0, goal)
      modifies this`infos, plan
      ensures On(io, w, goal) && plan[..] == w.plan && missCount == Misses(w.plan)
      ensures w == w0.(plan := w.plan, pendingHashes := w.pendingHashes)
    {
      var pendingHashes: map<Hash, Ptr>, i := map[], 0;
      missCount, w := 0, w0;
      while i < |buf|
        invariant i <= |buf| && On(io, w, goal)
        invariant w == Job(Deciding, w0.path, w0.start, buf, plan[..i], pendingHashes, 0, [], [], 0)
        invariant missCount == Misses(w.plan)
      {
        var h := hash(buf[i]);
        ghost var s := Decide(env, State(), w, malloc(infos.Keys));
        FollowDecide(env, malloc, io, State(), w, goal);
        PlanAppend(w.plan, s.w.plan[i]);
        if h in hashToMaster {
          plan[i] := Hit(hashToMaster[h]);
          AddRef(hashToMaster[h]);
        } else if h in pendingHashes {
          plan[i] := Hit(pendingHashes[h]);
          AddRef(pendingHashes[h]);
        } else {
          var info := malloc(infos.Keys);
          infos := infos[info := MasterInfo(h, 0, 1)];
          plan[i] := Miss(info);
          pendingHashes := pendingHashes[h := info];
          missCount := missCount + 1;
        }
        assert State() == s.sh;
        assert plan[..i + 1] == plan[..i] + [plan[i]];
        w := s.w;
        i := i + 1;
      }
      assert plan[..] == plan[..i];
    }

    /** Pops slots from the head of the free list while some are left and needed. */
    method DrainFreeList(out: array<nat>) returns (taken: nat)
      modifies this`freeBlockList, out
      ensures taken == Min(out.Length, |old(freeBlockList)|)
      ensures freeBlockList == old(freeBlockList)[taken..] && out[..taken] == old(freeBlockList)[..taken]
    {
      ghost var free := freeBlockList;
      taken := 0;
      while taken < out.Length && freeBlockList != []
        invariant taken <= Min(out.Length, |free|)
        invariant freeBlockList == free[taken..] && out[..taken] == free[..taken]
      {
        out[taken] := freeBlockList[0];
        assert out[..taken + 1] == out[..taken] + [free[taken]];
        freeBlockList := freeBlockList[1..];
        taken := taken + 1;
      }
    }

    /** Free slots first, in LIFO order; the rest from the end of the master. */
    method AllocateBatchStorageFirst(missCount: nat) returns (out: array<nat>)
      modifies this`freeBlockList, this`nextBlockIndex
      ensures fresh(out) && out.Length == missCount
      ensures var taken := Min(missCount, |old(freeBlockList)|);
              && freeBlockList == old(freeBlockList)[taken..]
              && nextBlockIndex == old(nextBlockIndex) + (missCount - taken)
              && out[..] == old(freeBlockList)[..taken] + Range(old(nextBlockIndex), missCount - taken)
    {
      out := new nat[missCount];
      var taken := DrainFreeList(out);
      var remaining, base := missCount - taken, nextBlockIndex;
      nextBlockIndex := nextBlockIndex + remaining;
      FillRange(out, taken, base);
      assert out[..] == out[..taken] + out[taken..];
    }

    /** Numbers the MISSes of the plan. */
    method PlaceMisses(plan: array<Entry>, out: array<nat>, ghost io: Device, ghost w0: Job, ghost goal: Ended)
      returns (ghost w: Job)
      requires On(io, w0, goal) && w0.phase.Placing? && w0.pos == 0 && plan[..] == w0.plan && out[..] == w0.out
      modifies this`infos, plan
      ensures On(io, w, goal) && w == w0.(plan := w.plan, pos := |w.plan|, out := w.out) && plan[..] == w.plan
    {
      var m, i := 0, 0;
      w := w0;
      while i < plan.Length
        invariant i <= plan.Length && m <= out.Length && On(io, w, goal)
        invariant w == w0.(plan := plan[..], pos := i, out := out[m..])
      {
        ghost var s := Place(State(), w);
        FollowPlace(env, malloc, io, State(), w, goal);
        if plan[i].Miss? {
          var info := plan[i].info;
          infos := infos[info := infos[info].(slot := out[m])];
          plan[i] := Placed(info, out[m]);
          m := m + 1;
        }
        assert State() == s.sh;
        w := s.w;
        i := i + 1;
      }
    }

    /** One pwrite to the master. */
    method PwriteRun(slot: nat, blocks: seq<Block>, outcome: Outcome)
      modifies this`master
      ensures master == if outcome.Full? then Pwrite(old(master), slot, blocks)
                        else TornPwrite(old(master), slot, |blocks|, outcome.patch)
    {
      master := if outcome.Full? then Pwrite(master, slot, blocks)
          else TornPwrite(master, slot, |blocks|, outcome.patch);
    }

    /** Writes the run that starts at entry i. */
    method FlushRun(plan: array<Entry>, buf: seq<Block>, io: Device, i: nat) returns (end: nat, ok: bool)
      requires i < plan.Length == |buf| && plan[i].Placed?
      modifies this`master
      ensures i < end <= plan.Length && ok == At(io, i).Full?
      ensures var f := FlushFrom(old(master), plan[..], buf, io, i);
              if ok then
                var rest := FlushFrom(master, plan[..], buf, io, end);
                f == Flushed(rest.disk, rest.rc, rest.calls + 1)
              else f == Flushed(master, Code(At(io, i)), 1)
    {
      hide FlushFrom;
      FlushFromStep(master, plan[..], buf, io, i);
      end := RunFrom(plan, i);
      ok := At(io, i).Full?;
      PwriteRun(plan[i].slot, buf[i..end], At(io, i));
    }

    /** flush_plan: groups neighbouring MISSes with neighbouring slots into one pwrite each. */
    method FlushPlan(plan: array<Entry>, buf: seq<Block>, io: Device) returns (rc: int, ghost calls: nat)
      requires plan.Length == |buf|
      modifies this`master
      ensures FlushFrom(old(master), plan[..], buf, io, 0) == Flushed(master, rc, calls)
      ensures rc == 0 ==> master == OneByOne(old(master), plan[..], buf, |buf|)
      ensures rc == 0 || exists i: nat :: BadPwrite(io, plan[..], rc, i)
    {
      hide FlushFrom;
      ghost var p, goal := plan[..], FlushFrom(master, plan[..], buf, io, 0);
      CoalescedIsOneByOne(master, p, buf, io);
      var i := 0;
      calls := 0;
      while i < plan.Length
        invariant i <= plan.Length
        invariant var f := FlushFrom(master, p, buf, io, i); goal == Flushed(f.disk, f.rc, f.calls + calls)
      {
        if !plan[i].Placed? {
          FlushFromStep(master, p, buf, io, i);
          i := i + 1;
        } else {
          var end, ok := FlushRun(plan, buf, io, i);
          calls := calls + 1;
          if !ok { return Code(At(io, i)), calls; }
          i := end;
        }
      }
      FlushFromEnd(master, p, buf, io);
      rc := 0;
    }

    /** rollback_allocations, first half: drops the references of the HITs. */
    method ReturnHits(
        plan: array<Entry>, ghost io: Device, ghost w0: Job, ghost goal: Ended)
      returns (release: seq<nat>, ghost w: Job)
      requires On(io, w0, goal) && w0.phase.UndoHits? && w0.pos == 0 && w0.release == [] && plan[..] == w0.plan
      modifies this`infos, this`hashToMaster
      ensures On(io, w, goal) && w == w0.(plan := BlankHits(plan[..], |w0.plan|), pos := |w0.plan|, release := release)
    {
      var i := 0;
      release, w := [], w0;
      assert BlankHits(plan[..], 0) == plan[..];
      while i < plan.Length
        invariant i <= plan.Length && On(io, w, goal)
        invariant w == w0.(plan := BlankHits(plan[..], i), pos := i, release := release)
      {
        ghost var s := UndoHit(State(), w);
        FollowUndoHit(env, malloc, io, State(), w, goal);
        assert BlankHits(plan[..], i + 1) == if plan[i].Hit? then BlankHits(plan[..], i)[i := Done]
            else BlankHits(plan[..], i);
        if plan[i].Hit? { release := DropRef(plan[i].info, release); }
        assert State() == s.sh;
        w := s.w;
        i := i + 1;
      }
    }

    /** rollback_allocations, second half: frees the pending infos and returns their slots. */
    method FreeMisses(plan: array<Entry>, ghost io: Device, ghost w0: Job, ghost goal: Ended)
      requires On(io, w0, goal) && w0.phase.UndoMisses? && w0.pos == 0 && w0.plan == BlankHits(plan[..], |w0.plan|)
      modifies this`infos, this`freeBlockList
      ensures Quiet(env, State()) && goal == Ended(State(), w0.rc)
    {
      var i := 0;
      ghost var w := w0;
      while i < plan.Length
        invariant i <= plan.Length && On(io, w, goal)
        invariant w == w0.(plan := BlankMisses(w0.plan, i), pos := i)
      {
        ghost var s := UndoMiss(State(), w);
        FollowUndoMiss(env, malloc, io, State(), w, goal);
        assert w.plan[i] == BlankHits(plan[..], |w0.plan|)[i];
        assert BlankMisses(w0.plan, i + 1) == if plan[i].Placed? then BlankMisses(w0.plan, i)[i := Done]
            else BlankMisses(w0.plan, i);
        if plan[i].Placed? {
          freeBlockList := [plan[i].slot] + freeBlockList;
          infos := Remove(infos, plan[i].info);
        }
        assert State() == s.sh;
        w := s.w;
        i := i + 1;
      }
      FollowFinish(env, malloc, io, State(), w, goal);
    }

    /** rollback_allocations. */
    method RollbackAllocations(plan: array<Entry>, ghost io: Device, ghost w0: Job, ghost goal: Ended)
      requires On(io, w0, goal) && w0.phase.UndoHits? && w0.pos == 0 && w0.release == [] && plan[..] == w0.plan
      modifies this`infos, this`hashToMaster, this`freeBlockList
      ensures Quiet(env, State()) && goal == Ended(State(), w0.rc)
    {
      var release;
      ghost var w;
      release, w := ReturnHits(plan, io, w0, goal);
      FollowAdvance(env, malloc, io, State(), w, goal);
      w := w.(phase := ReleaseHits);
      FollowReleaseHits(env, malloc, io, State(), w, goal);
      freeBlockList := release + freeBlockList;
      FreeMisses(plan, io, w.(phase := UndoMisses, pos := 0, release := []), goal);
    }

    /** Pass 3, first loop: the double-check insert. */
    method PublishPlan(
        plan: array<Entry>, ghost io: Device, ghost w0: Job, ghost goal: Ended)
      returns (release: seq<nat>, ghost w: Job)
      requires On(io, w0, goal) && w0.phase.Publishing? && w0.pos == 0 && w0.release == [] && plan[..] == w0.plan
      modifies this`infos, this`hashToMaster, plan
      ensures On(io, w, goal) && w == w0.(plan := plan[..], pos := |w0.plan|, release := release)
    {
      var i := 0;
      release, w := [], w0;
      while i < plan.Length
        invariant i <= plan.Length && On(io, w, goal)
        invariant w == w0.(plan := plan[..], pos := i, release := release)
      {
        ghost var s := Publish(State(), w);
        FollowPublish(env, malloc, io, State(), w, goal);
        if plan[i].Placed? {
          var info, slot := plan[i].info, plan[i].slot;
          var h := infos[info].hash;
          if h in hashToMaster {
            var winner := hashToMaster[h];
            release := [slot] + release;
            infos := Remove(infos, info);
            plan[i] := Hit(winner);
            AddRef(winner);
          } else {
            plan[i] := Hit(info);
            hashToMaster := hashToMaster[h := info];
          }
        }
        assert State() == s.sh;
        w := s.w;
        i := i + 1;
      }
    }

    /** Redirects one block to an info; the old mapping is overwritten in place. */
    method MapTo(key: Key, p: Ptr, release0: seq<nat>) returns (release: seq<nat>)
      requires key in fileToMaster ==> fileToMaster[key] in infos
      modifies this`infos, this`hashToMaster, this`fileToMaster
      ensures var d := Redirect(old(State()), key, p); State() == d.sh && release == d.freed + release0
    {
      ghost var sh := State();
      RedirectIs(sh, key, p);
      release := release0;
      if key in fileToMaster { release := DropRef(fileToMaster[key], release); }
      fileToMaster := fileToMaster[key := p];
      assert [] + release0 == release0;
    }

    /** Pass 3, second loop: redirects every block of the request. */
    method MapPlan(
        plan: array<Entry>, path: Path, start: nat, release0: seq<nat>, ghost io: Device, ghost w0: Job,
        ghost goal: Ended)
      returns (release: seq<nat>, ghost w: Job)
      requires On(io, w0, goal) && w0.phase.Mapping? && w0.pos == 0 && plan[..] == w0.plan
      requires w0.path == path && w0.start == start && w0.release == release0
      modifies this`infos, this`hashToMaster, this`fileToMaster
      ensures On(io, w, goal) && w == w0.(plan := Blank(plan[..], |w0.plan|), pos := |w0.plan|, release := release)
    {
      var i := 0;
      release, w := release0, w0;
      assert Blank(plan[..], 0) == plan[..];
      while i < plan.Length
        invariant i <= plan.Length && On(io, w, goal)
        invariant w == w0.(plan := Blank(plan[..], i), pos := i, release := release)
      {
        ghost var s := MapBlock(State(), w);
        FollowMap(env, malloc, io, State(), w, goal);
        release := MapTo(Key(path, start + i), plan[i].info, release);
        assert State() == s.sh;
        assert Blank(plan[..], i + 1) == Blank(plan[..], i)[i := Done];
        w := s.w;
        i := i + 1;
      }
    }

    /** The end of pass 3: update the size, return the slots that became free. */
    method Conclude(path: Path, newEnd: nat, release: seq<nat>, ghost io: Device, ghost w: Job, ghost goal: Ended)
      requires On(io, w, goal) && w.phase.Resizing? && w.path == path && w.release == release
      requires newEnd == (w.start + |w.buf|) * BLOCK_SIZE
      modifies this`fileToSizes, this`freeBlockList
      ensures Quiet(env, State()) && goal == Ended(State(), |w.buf| * BLOCK_SIZE)
    {
      FollowResize(env, malloc, io, State(), w, goal);
      if path !in fileToSizes || newEnd > fileToSizes[path] { fileToSizes := fileToSizes[path := newEnd]; }
      FollowRelease(env, malloc, io, State(), w.(phase := Releasing), goal);
      freeBlockList := release + freeBlockList;
    }

    /** Pass 3: publish, map, conclude. */
    method Commit(
        plan: array<Entry>, path: Path, start: nat, ghost io: Device, ghost w0: Job, ghost goal: Ended)
      returns (rc: int)
      requires On(io, w0, goal) && w0.phase.Publishing? && w0.pos == 0 && w0.release == [] && plan[..] == w0.plan
      requires w0.path == path && w0.start == start && plan.Length == |w0.buf|
      modifies this`infos, this`hashToMaster, this`fileToMaster, this`fileToSizes, this`freeBlockList, plan
      ensures Quiet(env, State()) && goal == Ended(State(), rc)
    {
      var release;
      ghost var w;
      release, w := PublishPlan(plan, io, w0, goal);
      FollowAdvance(env, malloc, io, State(), w, goal);
      release, w := MapPlan(plan, path, start, release, io, Advance(w), goal);
      FollowAdvance(env, malloc, io, State(), w, goal);
      Conclude(path, (start + plan.Length) * BLOCK_SIZE, release, io, Advance(w), goal);
      rc := plan.Length * BLOCK_SIZE;
    }

    /** Passes 1.5 and 2 for a plan with MISSes: slots, then the flush. */
    method AllocateAndFlush(
        plan: array<Entry>, buf: seq<Block>, missCount: nat, io: Device, ghost w0: Job, ghost goal: Ended)
      returns (rc: int, ghost w: Job)
      requires On(io, w0, goal) && w0.phase.Draining? && plan[..] == w0.plan && plan.Length == |buf| && buf == w0.buf
      requires missCount == Misses(w0.plan) && w0.pos == 0 && w0.out == [] && w0.release == []
      modifies this`infos, this`freeBlockList, this`nextBlockIndex, this`master, plan
      ensures On(io, w, goal) && w.pos == 0 && w.release == [] && plan[..] == w.plan
      ensures w.buf == buf && w.path == w0.path && w.start == w0.start
      ensures if rc == 0 then w.phase.Publishing? else w.phase.UndoHits? && w.rc == rc < 0
    {
      ghost var sh := State();
      var out := AllocateBatchStorageFirst(missCount);
      w := w0.(phase := Placing, pos := 0, out := out[..]);
      FollowAllocation(env, malloc, io, sh, w0, goal, State(), w);
      w := PlaceMisses(plan, out, io, w, goal);
      FollowAdvance(env, malloc, io, State(), w, goal);
      w := w.(phase := Flushing, pos := 0);
      sh := State();
      ghost var calls;
      rc, calls := FlushPlan(plan, buf, io);
      CoalescedIsOneByOne(sh.disk, plan[..], buf, io);
      ghost var after := if rc == 0 then w.(phase := Publishing, pos := 0)
          else w.(phase := UndoHits, pos := 0, rc := rc);
      FollowFlushPlan(env, malloc, io, sh, w, goal, State(), after);
      w := after;
    }

    /** write_dedup: in all cases the state and the return value that the specification
        gives, and a balanced store. */
    method WriteDedup(path: Path, data: seq<Byte>, offset: nat, io: Device) returns (rc: int)
      requires Valid() && TrustedData(env, data)
      modifies this
      ensures Valid() && Ended(State(), rc) == Write(env, malloc, io, old(State()), path, data, offset)
    {
      if |data| == 0 { return 0; }
      if |data| % BLOCK_SIZE != 0 { return -EOPNOTSUPP; }
      var buf, start := Blocks(data), offset / BLOCK_SIZE;
      ghost var goal := Drive(env, malloc, io, State(), Begin(path, start, buf));
      FollowBegin(env, malloc, io, State(), path, start, buf);
      rc := WriteBlocks(path, start, buf, io, goal);
    }

    method WriteBlocks(path: Path, start: nat, buf: seq<Block>, io: Device, ghost goal: Ended) returns (rc: int)
      requires On(io, Begin(path, start, buf), goal)
      modifies this`infos, this`hashToMaster, this`fileToMaster, this`fileToSizes, this`freeBlockList,
          this`nextBlockIndex, this`master
      ensures Quiet(env, State()) && goal == Ended(State(), rc)
    {
      var plan, missCount := new Entry[|buf|](i => Done), 0;
      ghost var w;
      missCount, w := DecideBlocks(buf, plan, io, Begin(path, start, buf), goal);
      FollowAdvance(env, malloc, io, State(), w, goal);
      if missCount > 0 {
        rc, w := AllocateAndFlush(plan, buf, missCount, io, Advance(w), goal);
        if rc < 0 {
          RollbackAllocations(plan, io, w, goal);
          return;
        }
      } else {
        w := Advance(w);
      }
      rc := Commit(plan, path, start, io, w, goal);
    }

    // --------------------------------------------------------------------------- removals

    /** Removes one mapping; the info it leads to is alive in a balanced store. */
    method Unmap(key: Key, release0: seq<nat>, ghost c: Claims) returns (release: seq<nat>)
      requires Global(env, State(), c)
      modifies this`infos, this`hashToMaster, this`fileToMaster
      ensures var d := Steps.Unmap(old(State()), key); State() == d.sh && release == d.freed + release0
    {
      release := release0;
      assert FileLinked(State(), key);
      if key in fileToMaster {
        var info := fileToMaster[key];
        fileToMaster := Remove(fileToMaster, key);
        release := DropRef(info, release);
      }
      assert [] + release0 == release0;
    }

    /** remove_block_dedup. */
    method RemoveBlockDedup(path: Path, block: nat)
      requires Valid()
      modifies this`infos, this`hashToMaster, this`fileToMaster, this`freeBlockList
      ensures Valid() && State() == RemoveBlock(old(State()), path, block)
    {
      RemoveKeepsQuiet(env, State(), path, block);
      var freed := Unmap(Key(path, block), [], Nothing);
      UnmapKeepsList(old(State()), Key(path, block));
      assert Steps.Unmap(old(State()), Key(path, block)).freed + []
          == Steps.Unmap(old(State()), Key(path, block)).freed;
      freeBlockList := freed + freeBlockList;
    }

    /** remove_blocks_dedup_batch: exactly what the loop over single blocks would do. */
    method RemoveBlocksDedupBatch(path: Path, start: nat, end: nat)
      requires Valid()
      modifies this`infos, this`hashToMaster, this`fileToMaster, this`freeBlockList
      ensures Valid() && State() == RemoveLoop(old(State()), path, start, end)
    {
      if start >= end { return; }
      var i, release: seq<nat> := start, [];
      assert [] + freeBlockList == freeBlockList;
      StartClear(env, State());
      while i < end
        invariant start <= i <= end
        invariant Global(env, State(), Nothing.Plus(OfSlots(release)))
        invariant RemoveLoop(GiveBack(State(), release), path, i, end) == RemoveLoop(old(State()), path, start, end)
      {
        LoopStep(env, State(), path, i, end, release);
        release := Unmap(Key(path, i), release, Nothing.Plus(OfSlots(release)));
        i := i + 1;
      }
      ReleaseAll(env, State(), release);
      freeBlockList := release + freeBlockList;
    }

    /** The metadata part of xmp_unlink. */
    method Unlink(path: Path)
      requires Valid()
      modifies this
      ensures Valid() && State() == Sequential.Unlink(old(State()), path)
    {
      if path in fileToSizes {
        var numBlocks := BlocksOf(fileToSizes[path]);
        BatchMeets(State(), path, 0, numBlocks, None);
        UnlinkLaw(env, State(), path);
        RemoveBlocksDedupBatch(path, 0, numBlocks);
        fileToSizes := Remove(fileToSizes, path);
      }
    }

    /** The metadata part of xmp_truncate. */
    method Truncate(path: Path, size: int) returns (rc: int)
      requires Valid()
      modifies this
      ensures Valid() && Ended(State(), rc) == Sequential.Truncate(old(State()), path, size)
    {
      if size < 0 || size % BLOCK_SIZE != 0 { return -EOPNOTSUPP; }
      if path in fileToSizes && size < fileToSizes[path] {
        BatchMeets(State(), path, BlocksOf(size), BlocksOf(fileToSizes[path]), Some(size));
        TruncateLaw(env, State(), path, size);
        RemoveBlocksDedupBatch(path, BlocksOf(size), BlocksOf(fileToSizes[path]));
        if path in fileToSizes && size < fileToSizes[path] { fileToSizes := fileToSizes[path := size]; }
      }
      rc := 0;
    }

    /** The size that xmp_getattr reports: in a store that any history has led to, the size
        that the plain file system records, which covers every mapped block of the path. */
    method GetSize(path: Path) returns (size: Option<nat>)
      requires Valid()
      ensures CollisionFree(env) ==>
                forall ops: seq<Op>, done: seq<bool>, n: nat ::
                  LedTo(env, malloc, State(), ops, done, n) ==> size == PlainSize(ops, done, n, path)
      ensures SizesOk(State()) ==>
                && (size.Some? ==> size.value % BLOCK_SIZE == 0)
                && forall b: nat :: Mapped(State(), path, b) ==> size.Some? && (b + 1) * BLOCK_SIZE <= size.value
    {
      size := if path in fileToSizes then Some(fileToSizes[path]) else None;
      if CollisionFree(env) {
        forall ops: seq<Op>, done: seq<bool>, n: nat | LedTo(env, malloc, State(), ops, done, n)
          ensures size == PlainSize(ops, done, n, path)
        {
          HistoryRefines(env, malloc, ops, done, n, Key(path, 0));
        }
      }
      if SizesOk(State()) {
        forall b: nat | Mapped(State(), path, b) ensures size.Some? && (b + 1) * BLOCK_SIZE <= size.value {
          assert CoveredAt(State(), Key(path, b));
        }
      }
    }

    // ------------------------------------------------------------------------------ reads

    /** read_dedup: delivers the longest mapped prefix of the request, each block as the files
        show it; it fails if and only if the device fails at a slot where a pread begins. */
    method ReadDedup(path: Path, size: nat, offset: nat, fails: set<nat>, out: array<Block>) returns (rc: int)
      requires Valid() && out.Length == size / BLOCK_SIZE
      modifies out
      ensures size == 0 || size % 4096 != 0 ==> rc == -95
      ensures size > 0 && size % 4096 == 0 ==>
                var start := offset / 4096;
                var n := MappedPrefix(State(), path, start, size / 4096);
                && rc == (if exists i: nat :: i < n && FaultAt(State(), path, start, n, i, fails) then -5 else n * 4096)
                && (rc >= 0 ==> forall i: nat :: i < n ==> ContentAt(State(), Key(path, start + i)) == Some(out[i]))
                && (rc >= 0 ==> out[n..] == old(out[n..]))
    {
      if size == 0 || size % BLOCK_SIZE != 0 { return -EOPNOTSUPP; }
      var start := offset / BLOCK_SIZE;
      var slots := SnapshotSlots(path, start, size / BLOCK_SIZE);
      if slots == [] { return 0; }
      SlotsReach(env, State(), path, start, slots);
      var ok := ReadSlots(slots, master, fails, out);
      FaultsAre(State(), path, start, slots, fails);
      if !ok { return -EIO; }
      rc := |slots| * BLOCK_SIZE;
      forall i: nat | i < |slots| ensures ContentAt(State(), Key(path, start + i)) == Some(out[i]) {
        assert SlotBehind(State(), path, start, slots, i);
      }
    }

    /** Phase 1 of a read: the slots of consecutive blocks up to the first hole. */
    method SnapshotSlots(path: Path, start: nat, count: nat) returns (slots: seq<nat>)
      requires Valid()
      ensures |slots| == MappedPrefix(State(), path, start, count)
      ensures forall i: nat :: i < |slots| ==> SlotBehind(State(), path, start, slots, i)
    {
      slots := [];
      var i := 0;
      while i < count
        invariant i <= count && |slots| == i
        invariant i + MappedPrefix(State(), path, start + i, count - i) == MappedPrefix(State(), path, start, count)
        invariant forall j: nat :: j < |slots| ==> SlotBehind(State(), path, start, slots, j)
      {
        var key := Key(path, start + i);
        assert FileLinked(State(), key);
        if key !in fileToMaster { return; }
        ghost var before := slots;
        slots := slots + [infos[fileToMaster[key]].slot];
        forall j: nat | j < |slots| ensures SlotBehind(State(), path, start, slots, j) {
          if j < i { assert SlotBehind(State(), path, start, before, j); }
        }
        i := i + 1;
      }
    }
  }

  /** The first n operations of a history lead from the empty store to sh. */
  ghost predicate LedTo(env: Env, malloc: Malloc, sh: Shared, ops: seq<Op>, done: seq<bool>, n: nat) {
    n <= |ops| && AllTrusted(env, ops) && Reported(env, malloc, ops, done) && sh == After(env, malloc, EMPTY, ops, n)
  }

  predicate Mapped(sh: Shared, path: Path, b: nat) { Key(path, b) in sh.fileToMaster }

  /** Length of the longest prefix of the blocks [start, start + count) that is mapped. */
  function MappedPrefix(sh: Shared, path: Path, start: nat, count: nat): (n: nat)
    ensures n <= count
    ensures forall b: nat :: start <= b < start + n ==> Mapped(sh, path, b)
    ensures n < count ==> !Mapped(sh, path, start + n)
    decreases count
  {
    if count == 0 || !Mapped(sh, path, start) then 0 else MappedPrefix(sh, path, start + 1, count - 1) + 1
  }

  /** The slot behind the i-th block of a request. */
  function SlotOfBlock(sh: Shared, path: Path, start: nat, i: nat): Option<nat> {
    var key := Key(path, start + i);
    if key in sh.fileToMaster && sh.fileToMaster[key] in sh.heap then Some(sh.heap[sh.fileToMaster[key]].slot) else None
  }

  /** Two of the first n blocks of a request lie in the same slot. */
  predicate Twins(sh: Shared, path: Path, start: nat, n: nat, i: nat) {
    exists j: nat :: j < n && j != i && SlotOfBlock(sh, path, start, j) == SlotOfBlock(sh, path, start, i)
  }

  /** A pread of the first n blocks of a request begins with the i-th: none of them lies in the
      slot before, or another one lies in the same slot. The device fails there. */
  ghost predicate FaultAt(sh: Shared, path: Path, start: nat, n: nat, i: nat, fails: set<nat>) {
    var x := SlotOfBlock(sh, path, start, i);
    && x.Some? && x.value in fails
    && (Twins(sh, path, start, n, i)
        || forall j: nat :: j < n && SlotOfBlock(sh, path, start, j).Some? ==>
             SlotOfBlock(sh, path, start, j).value + 1 != x.value)
  }

  /** The i-th snapshotted slot is the one behind the i-th block of the request. */
  ghost predicate SlotBehind(sh: Shared, path: Path, start: nat, slots: seq<nat>, i: nat)
    requires i < |slots|
  {
    var key := Key(path, start + i);
    && key in sh.fileToMaster && sh.fileToMaster[key] in sh.heap
    && slots[i] == sh.heap[sh.fileToMaster[key]].slot
  }

  lemma {:induction false} FaultsAre(sh: Shared, path: Path, start: nat, slots: seq<nat>, fails: set<nat>)
    requires forall i: nat :: i < |slots| ==> SlotBehind(sh, path, start, slots, i)
    ensures (exists x :: x in fails && Begins(slots, x))
            <==> exists i: nat :: i < |slots| && FaultAt(sh, path, start, |slots|, i, fails)
  {
    forall i: nat | i < |slots| ensures SlotOfBlock(sh, path, start, i) == Some(slots[i]) {
      assert SlotBehind(sh, path, start, slots, i);
    }
    if x :| x in fails && Begins(slots, x) {
      var i: nat :| i < |slots| && slots[i] == x;
      if Repeats(slots, x) {
        var a: nat, b: nat :| a < b < |slots| && slots[a] == x && slots[b] == x;
        assert SlotOfBlock(sh, path, start, b) == SlotOfBlock(sh, path, start, a);
        assert Twins(sh, path, start, |slots|, a);
        assert FaultAt(sh, path, start, |slots|, a, fails);
      } else {
        forall j: nat | j < |slots| ensures SlotOfBlock(sh, path, start, j).value + 1 != x { assert slots[j] in slots; }
        assert FaultAt(sh, path, start, |slots|, i, fails);
      }
    }
    if i: nat :| i < |slots| && FaultAt(sh, path, start, |slots|, i, fails) {
      if Twins(sh, path, start, |slots|, i) {
        var j: nat :| j < |slots| && j != i && SlotOfBlock(sh, path, start, j) == SlotOfBlock(sh, path, start, i);
        var a, b := if i < j then i else j, if i < j then j else i;
        assert a < b < |slots| && slots[a] == slots[i] && slots[b] == slots[i];
      } else {
        forall y | y in slots ensures y + 1 != slots[i] {
          var j: nat :| j < |slots| && slots[j] == y;
          assert SlotOfBlock(sh, path, start, j) == Some(y);
        }
      }
      assert Begins(slots, slots[i]);
    }
  }

  /** In a balanced store every snapshotted slot lies inside the master. */
  lemma {:induction false} SlotsReach(env: Env, sh: Shared, path: Path, start: nat, slots: seq<nat>)
    requires Quiet(env, sh) && forall i: nat :: i < |slots| ==> SlotBehind(sh, path, start, slots, i)
    ensures forall i: nat :: i < |slots| ==> slots[i] in sh.disk && Reaches(sh.disk, slots[i])
  {
    forall i: nat | i < |slots| ensures slots[i] in sh.disk {
      var key := Key(path, start + i);
      assert SlotBehind(sh, path, start, slots, i);
      assert FileLinked(sh, key) && BackedAt(env, sh, sh.fileToMaster[key]);
    }
  }

  lemma {:induction false} UnmapKeepsList(sh: Shared, key: Key)
    ensures Steps.Unmap(sh, key).sh.freeList == sh.freeList
  {
    UnmapElsewhere(sh, key);
  }

  lemma {:induction false} ReleaseAll(env: Env, sh: Shared, release: seq<nat>)
    requires Global(env, sh, Nothing.Plus(OfSlots(release)))
    ensures Quiet(env, GiveBack(sh, release))
  {
    forall k: nat ensures SameAt(Nothing.Plus(OfSlots(release)), Nothing.Owns(release), k) {}
    GlobalSame(env, sh, Nothing.Plus(OfSlots(release)), Nothing.Owns(release));
    GiveBackGlobal(env, sh, Nothing, release);
  }

  lemma {:induction false} RemoveKeepsQuiet(env: Env, sh: Shared, path: Path, block: nat)
    requires Quiet(env, sh)
    ensures Quiet(env, RemoveBlock(sh, path, block))
  {
    UnmapGlobal(env, sh, Nothing, Key(path, block));
    GiveBackGlobal(env, Steps.Unmap(sh, Key(path, block)).sh, Nothing, Steps.Unmap(sh, Key(path, block)).freed);
  }

  /** One turn of the batch loop is one turn of the naive loop with the local list given back. */
  lemma {:induction false} LoopStep(env: Env, sh: Shared, path: Path, i: nat, end: nat, release: seq<nat>)
    requires i < end && Global(env, sh, Nothing.Plus(OfSlots(release)))
    ensures var d := Steps.Unmap(sh, Key(path, i));
            && Global(env, d.sh, Nothing.Plus(OfSlots(d.freed + release)))
            && RemoveLoop(GiveBack(sh, release), path, i, end)
                == RemoveLoop(GiveBack(d.sh, d.freed + release), path, i + 1, end)
  {
    var key := Key(path, i);
    var d := Steps.Unmap(sh, key);
    RemoverBalanced(env, sh, Removal(path, i, end, release, None), Nothing);
    UnmapCommutes(sh, key, release + sh.freeList);
    UnmapElsewhere(sh, key);
    assert (d.freed + release) + d.sh.freeList == d.freed + (release + sh.freeList);
    assert RemoveBlock(GiveBack(sh, release), path, i) == GiveBack(d.sh, d.freed + release);
  }

  /** The batch as the specification of unlink and truncate uses it. */
  lemma {:induction false} BatchMeets(sh: Shared, path: Path, a: nat, b: nat, newSize: Option<nat>)
    ensures var looped := RemoveLoop(sh, path, a, b);
            && Clear(sh, Removal(path, a, b, [], newSize)) == looped.(sizes := Shrink(looped.sizes, path, newSize))
  {
    assert [] + sh.freeList == sh.freeList;
    BatchIsLoop(sh, path, a, b, [], newSize);
  }

  /** The plan with its first n entries used up: all of them, or the HITs, or the MISSes. */
  ghost function Blank(plan: seq<Entry>, n: nat): seq<Entry> {
    seq(|plan|, k requires 0 <= k < |plan| => if k < n then Done else plan[k])
  }

  ghost function BlankHits(plan: seq<Entry>, n: nat): seq<Entry> {
    seq(|plan|, k requires 0 <= k < |plan| => if k < n && plan[k].Hit? then Done else plan[k])
  }

  ghost function BlankMisses(plan: seq<Entry>, n: nat): seq<Entry> {
    seq(|plan|, k requires 0 <= k < |plan| => if k < n && plan[k].Placed? then Done else plan[k])
  }

  /** Redirecting a block in place: the old mapping is overwritten, not removed first. */
  lemma {:induction false} RedirectIs(sh: Shared, key: Key, p: Ptr)
    ensures var d, files := Redirect(sh, key, p), sh.fileToMaster[key := p];
            if key in sh.fileToMaster then
              d == Dropped(Drop(sh, sh.fileToMaster[key]).sh.(fileToMaster := files),
                  Drop(sh, sh.fileToMaster[key]).freed)
            else d == Dropped(sh.(fileToMaster := files), [])
  {
    assert Remove(sh.fileToMaster, key)[key := p] == sh.fileToMaster[key := p];
  }

  /** The end of the run that starts with the MISS at `start`. */
  method RunFrom(plan: array<Entry>, start: nat) returns (i: nat)
    requires start < plan.Length && plan[start].Placed?
    ensures i == RunEnd(plan[..], start)
  {
    i := start + 1;
    while i < plan.Length && plan[i].Placed? && plan[i].slot == plan[i - 1].slot + 1
      invariant start < i <= plan.Length && plan[i - 1].Placed?
      invariant RunEnd(plan[..], start) == RunEnd(plan[..], i - 1)
    {
      i := i + 1;
    }
  }

  /** Fills out[from..] with consecutive numbers. */
  method FillRange(out: array<nat>, from: nat, base: nat)
    requires from <= out.Length
    modifies out
    ensures out[..from] == old(out[..from]) && out[from..] == Range(base, out.Length - from)
  {
    var i, n := 0, out.Length - from;
    while i < n
      invariant i <= n && out[..from] == old(out[..from])
      invariant out[from..from + i] == Range(base, i)
    {
      out[from + i] := base + i;
      assert out[from..from + i + 1] == out[from..from + i] + [base + i];
      i := i + 1;
    }
    assert out[from..] == out[from..from + n];
  }
}
