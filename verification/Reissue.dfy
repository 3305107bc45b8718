/** What follows from a free slot beyond the physical end of the master: the counter gives it
    out a second time, and the file that got it first shows foreign content. */
module Reissue {
  import opened Model
  import opened Steps
  import opened Invariant
  import opened Protocol
  import opened Safety
  import opened Sequential
  import opened Quiescence
  import opened Laws
  import opened Operations
  import opened Tables
  import opened Framing
  import opened Restart
  import opened RestartGap

  /** The job of a one-block write in a given phase. */
  function Single(
      path: Path, start: nat, b: Block, h: Hash, addr: Ptr, phase: Phase, e: Entry, pos: nat, out: seq<nat>): Job
  {
    Job(phase, path, start, [b], [e], map[h := addr], pos, out, [], 0)
  }

  /** One step of the machine. */
  lemma {:induction false} DriveStep(env: Env, malloc: Malloc, io: Device, sh: Shared, w: Job, sh': Shared, w': Job)
    requires ListsOk(w) && WriterStep(env, false, sh, w, ChoiceFor(malloc, io, sh, w)) == Moved(sh', Writer(w'))
    ensures Drive(env, malloc, io, sh, w) == Drive(env, malloc, io, sh', w')
  {}

  /** The slot that the next single allocation takes. */
  function NextSlot(sh: Shared): nat { if sh.freeList != [] then sh.freeList[0] else sh.next }

  /** The state after pass 1 and the allocation: one pending info with its slot. */
  function Allocated(sh: Shared, h: Hash, addr: Ptr): Shared {
    var sh1 := sh.(heap := sh.heap[addr := MasterInfo(h, NextSlot(sh), 1)]);
    if sh.freeList != [] then sh1.(freeList := sh.freeList[1..]) else sh1.(next := sh.next + 1)
  }

  /** The store after a write of one new block to a key that was not mapped. */
  function Stored(sh: Shared, key: Key, b: Block, h: Hash, addr: Ptr): Shared {
    Allocated(sh, h, addr).(
      hashToMaster := sh.hashToMaster[h := addr], fileToMaster := sh.fileToMaster[key := addr],
      sizes := Grow(sh.sizes, key.path, (key.block + 1) * BLOCK_SIZE), disk := sh.disk[NextSlot(sh) := b])
  }

  lemma {:induction false} Decides(env: Env, malloc: Malloc, sh: Shared, path: Path, start: nat, b: Block)
    requires env.hash(b) !in sh.hashToMaster
    ensures var h, addr := env.hash(b), malloc(sh.heap.Keys);
            Drive(env, malloc, map[], sh, Begin(path, start, [b]))
            == Drive(env, malloc, map[], sh.(heap := sh.heap[addr := MasterInfo(h, 0, 1)]),
                     Single(path, start, b, h, addr, Draining, Miss(addr), 0, []))
  {
    var h, addr := env.hash(b), malloc(sh.heap.Keys);
    var sh1 := sh.(heap := sh.heap[addr := MasterInfo(h, 0, 1)]);
    var w1 := Single(path, start, b, h, addr, Deciding, Miss(addr), 0, []);
    var s := Decide(env, sh, Begin(path, start, [b]), addr);
    assert s.w.plan == w1.plan && s.w.pendingHashes == w1.pendingHashes;
    DriveStep(env, malloc, map[], sh, Begin(path, start, [b]), sh1, w1);
    assert MissesTo(w1.plan, 1) == 1;
    DriveStep(env, malloc, map[], sh1, w1, sh1, w1.(phase := Draining));
  }

  lemma {:induction false} Reuses(env: Env, malloc: Malloc, sh: Shared, w: Job)
    requires sh.freeList != [] && w.phase.Draining? && w.out == [] && w.pos == 0 && ListsOk(w) && Misses(w.plan) == 1
    ensures Drive(env, malloc, map[], sh, w)
            == Drive(env, malloc, map[], sh.(freeList := sh.freeList[1..]),
                w.(phase := Placing, out := [sh.freeList[0]]))
  {
    var sh1, w1 := sh.(freeList := sh.freeList[1..]), w.(phase := Appending, out := [sh.freeList[0]]);
    assert sh.freeList[..1] == w1.out && Min(1, |sh.freeList|) == 1;
    DriveStep(env, malloc, map[], sh, w, sh1, w1);
    assert w1.out + Range(sh1.next, 0) == w1.out && sh1.(next := sh1.next + 0) == sh1;
    assert Append(sh1, w1) == Stepped(sh1, w1.(phase := Placing));
    DriveStep(env, malloc, map[], sh1, w1, sh1, w1.(phase := Placing));
  }

  lemma {:induction false} Appends(env: Env, malloc: Malloc, sh: Shared, w: Job)
    requires sh.freeList == [] && w.phase.Draining? && w.out == [] && w.pos == 0 && ListsOk(w) && Misses(w.plan) == 1
    ensures Drive(env, malloc, map[], sh, w)
            == Drive(env, malloc, map[], sh.(next := sh.next + 1), w.(phase := Placing, out := [sh.next]))
  {
    var sh1, w1 := sh.(next := sh.next + 1), w.(phase := Appending);
    assert sh.freeList[..0] == [] && sh.freeList[0..] == sh.freeList && Min(1, 0) == 0;
    assert Drain(sh, w) == Stepped(sh, w1);
    DriveStep(env, malloc, map[], sh, w, sh, w1);
    assert Range(sh.next, 1) == [sh.next] && [] + Range(sh.next, 1) == [sh.next];
    assert Append(sh, w1) == Stepped(sh1, w1.(phase := Placing, out := [sh.next]));
    DriveStep(env, malloc, map[], sh, w1, sh1, w1.(phase := Placing, out := [sh.next]));
  }

  lemma {:induction false} Allocates(
      env: Env, malloc: Malloc, sh: Shared, path: Path, start: nat, b: Block, h: Hash, addr: Ptr)
    ensures Drive(env, malloc, map[], sh, Single(path, start, b, h, addr, Draining, Miss(addr), 0, []))
            == Drive(env, malloc, map[], Allocated(sh, h, addr).(heap := sh.heap),
                     Single(path, start, b, h, addr, Placing, Miss(addr), 0, [NextSlot(sh)]))
  {
    hide Drive;
    var w := Single(path, start, b, h, addr, Draining, Miss(addr), 0, []);
    assert MissesTo(w.plan, 1) == 1 && Misses(w.plan) == 1;
    if sh.freeList != [] { Reuses(env, malloc, sh, w); } else { Appends(env, malloc, sh, w); }
  }

  lemma {:induction false} Flushes(
      env: Env, malloc: Malloc, sh: Shared, path: Path, start: nat, b: Block, h: Hash, addr: Ptr, x: nat)
    requires addr in sh.heap && sh.heap[addr] == MasterInfo(h, 0, 1)
    ensures Drive(env, malloc, map[], sh, Single(path, start, b, h, addr, Placing, Miss(addr), 0, [x]))
            == Drive(env, malloc, map[], sh.(heap := sh.heap[addr := MasterInfo(h, x, 1)], disk := sh.disk[x := b]),
                     Single(path, start, b, h, addr, Publishing, Placed(addr, x), 0, []))
  {
    var w0 := Single(path, start, b, h, addr, Placing, Miss(addr), 0, [x]);
    var sh1, w1 := sh.(heap := sh.heap[addr := MasterInfo(h, x, 1)]),
        Single(path, start, b, h, addr, Placing, Placed(addr, x), 1, []);
    assert MissesTo(w0.plan, 1) == 1 && MissesTo(w1.plan, 1) == 0;
    assert Steps.Place(sh, w0).w.plan == w1.plan && Steps.Place(sh, w0).w.out == [];
    DriveStep(env, malloc, map[], sh, w0, sh1, w1);
    DriveStep(env, malloc, map[], sh1, w1, sh1, w1.(phase := Flushing, pos := 0));
    var sh2 := sh1.(disk := sh.disk[x := b]);
    assert RunEnd(w1.plan, 0) == 1 && w1.buf[0..1] == [b] && Pwrite(sh.disk, x, [b]) == sh.disk[x := b];
    assert Flush(sh1, w1.(phase := Flushing, pos := 0), Full) == Stepped(sh2, w1.(phase := Flushing, pos := 1));
    DriveStep(env, malloc, map[], sh1, w1.(phase := Flushing, pos := 0), sh2, w1.(phase := Flushing, pos := 1));
    DriveStep(env, malloc, map[], sh2, w1.(phase := Flushing, pos := 1), sh2, w1.(phase := Publishing, pos := 0));
  }

  lemma {:induction false} Publishes(
      env: Env, malloc: Malloc, sh: Shared, path: Path, start: nat, b: Block, h: Hash, addr: Ptr, x: nat)
    requires addr in sh.heap && sh.heap[addr] == MasterInfo(h, x, 1) && h !in sh.hashToMaster
    ensures Drive(env, malloc, map[], sh, Single(path, start, b, h, addr, Publishing, Placed(addr, x), 0, []))
            == Drive(env, malloc, map[], sh.(hashToMaster := sh.hashToMaster[h := addr]),
                     Single(path, start, b, h, addr, Mapping, Hit(addr), 0, []))
  {
    var w0 := Single(path, start, b, h, addr, Publishing, Placed(addr, x), 0, []);
    var sh1, w1 := sh.(hashToMaster := sh.hashToMaster[h := addr]),
        Single(path, start, b, h, addr, Publishing, Hit(addr), 1, []);
    assert Publish(sh, w0).w.plan == w1.plan;
    DriveStep(env, malloc, map[], sh, w0, sh1, w1);
    DriveStep(env, malloc, map[], sh1, w1, sh1, w1.(phase := Mapping, pos := 0));
  }

  lemma {:induction false} Maps(
      env: Env, malloc: Malloc, sh: Shared, path: Path, start: nat, b: Block, h: Hash, addr: Ptr)
    requires Key(path, start) !in sh.fileToMaster
    ensures Drive(env, malloc, map[], sh, Single(path, start, b, h, addr, Mapping, Hit(addr), 0, []))
            == Ended(sh.(fileToMaster := sh.fileToMaster[Key(path, start) := addr],
                         sizes := Grow(sh.sizes, path, (start + 1) * BLOCK_SIZE)), BLOCK_SIZE)
  {
    var w0 := Single(path, start, b, h, addr, Mapping, Hit(addr), 0, []);
    var sh1 := sh.(fileToMaster := sh.fileToMaster[Key(path, start) := addr]);
    var w1 := Single(path, start, b, h, addr, Mapping, Done, 1, []);
    assert MapBlock(sh, w0).w.plan == w1.plan && [] + w0.release == [];
    DriveStep(env, malloc, map[], sh, w0, sh1, w1);
    Ends(env, malloc, sh1, w1);
  }

  lemma {:induction false} Ends(env: Env, malloc: Malloc, sh1: Shared, w1: Job)
    requires w1.phase.Mapping? && w1.pos == |w1.plan| == |w1.buf| && w1.release == [] && w1.out == []
    ensures Drive(env, malloc, map[], sh1, w1)
            == Ended(sh1.(sizes := Grow(sh1.sizes, w1.path, (w1.start + |w1.buf|) * BLOCK_SIZE)), |w1.buf| * BLOCK_SIZE)
  {
    DriveStep(env, malloc, map[], sh1, w1, sh1, w1.(phase := Resizing));
    var sh2 := sh1.(sizes := Grow(sh1.sizes, w1.path, (w1.start + |w1.buf|) * BLOCK_SIZE));
    DriveStep(env, malloc, map[], sh1, w1.(phase := Resizing), sh2, w1.(phase := Releasing));
    assert GiveBack(sh2, []) == sh2;
    DriveUnfolds(env, malloc, map[], sh2, w1.(phase := Releasing));
  }

  /** Pass 1 to pass 2. */
  lemma {:induction false} FirstHalf(env: Env, malloc: Malloc, sh: Shared, path: Path, start: nat, b: Block)
    requires env.hash(b) !in sh.hashToMaster
    ensures var h, addr := env.hash(b), malloc(sh.heap.Keys);
            Drive(env, malloc, map[], sh, Begin(path, start, [b]))
            == Drive(env, malloc, map[], Allocated(sh, h, addr).(disk := sh.disk[NextSlot(sh) := b]),
                     Single(path, start, b, h, addr, Publishing, Placed(addr, NextSlot(sh)), 0, []))
  {
    hide Drive;
    var h, addr, x := env.hash(b), malloc(sh.heap.Keys), NextSlot(sh);
    var sh1 := sh.(heap := sh.heap[addr := MasterInfo(h, 0, 1)]);
    var sh2 := Allocated(sh1, h, addr).(heap := sh1.heap);
    Decides(env, malloc, sh, path, start, b);
    Allocates(env, malloc, sh1, path, start, b, h, addr);
    Flushes(env, malloc, sh2, path, start, b, h, addr, x);
    assert sh1.heap[addr := MasterInfo(h, x, 1)] == sh.heap[addr := MasterInfo(h, x, 1)];
    assert sh2.(heap := sh2.heap[addr := MasterInfo(h, x, 1)], disk := sh2.disk[x := b])
        == Allocated(sh, h, addr).(disk := sh.disk[x := b]);
  }

  /** A write of one block with a new hash to a key that is not mapped, in any state. */
  lemma {:induction false} OneBlock(env: Env, malloc: Malloc, sh: Shared, path: Path, data: seq<Byte>, offset: nat)
    requires |data| == BLOCK_SIZE && env.hash(data) !in sh.hashToMaster
        && Key(path, offset / BLOCK_SIZE) !in sh.fileToMaster
    ensures Write(env, malloc, map[], sh, path, data, offset)
            == Ended(Stored(sh, Key(path, offset / BLOCK_SIZE), data, env.hash(data), malloc(sh.heap.Keys)), BLOCK_SIZE)
  {
    hide Drive;
    var start, h, addr, x := offset / BLOCK_SIZE, env.hash(data), malloc(sh.heap.Keys), NextSlot(sh);
    WholeBlock(data);
    var sh3 := Allocated(sh, h, addr).(disk := sh.disk[x := data]);
    FirstHalf(env, malloc, sh, path, start, data);
    Publishes(env, malloc, sh3, path, start, data, h, addr, x);
    Maps(env, malloc, sh3.(hashToMaster := sh.hashToMaster[h := addr]), path, start, data, h, addr);
  }

  lemma {:induction false} WholeBlock(data: seq<Byte>)
    requires |data| == BLOCK_SIZE
    ensures Blocks(data) == [data]
  {
    assert data[0..BLOCK_SIZE] == data && BlockAt(data, 0) == data;
  }

  /** In a store whose only free slot is the one that the counter hands out next, two writes
      of one new block each get the same slot, and the first file then shows the content of
      the second, although nothing was written to it. */
  lemma {:induction false} SlotIssuedTwice(
      env: Env, malloc: Malloc, sh: Shared, path1: Path, data1: seq<Byte>, path2: Path, data2: seq<Byte>)
    requires Fresh(malloc) && sh.freeList == [sh.next] && path1 != path2
    requires |data1| == BLOCK_SIZE && |data2| == BLOCK_SIZE && env.hash(data1) != env.hash(data2)
    requires env.hash(data1) !in sh.hashToMaster && env.hash(data2) !in sh.hashToMaster
    requires Key(path1, 0) !in sh.fileToMaster && Key(path2, 0) !in sh.fileToMaster
    ensures var r1 := Write(env, malloc, map[], sh, path1, data1, 0);
            var r2 := Write(env, malloc, map[], r1.sh, path2, data2, 0);
            && r1.rc == BLOCK_SIZE && r2.rc == BLOCK_SIZE
            && ContentAt(r1.sh, Key(path1, 0)) == Some(data1)
            && ContentAt(r2.sh, Key(path1, 0)) == Some(data2) && ContentAt(r2.sh, Key(path2, 0)) == Some(data2)
  {
    hide Write;
    var k1, k2, addr1 := Key(path1, 0), Key(path2, 0), malloc(sh.heap.Keys);
    OneBlock(env, malloc, sh, path1, data1, 0);
    var sh1 := Stored(sh, k1, data1, env.hash(data1), addr1);
    OneBlock(env, malloc, sh1, path2, data2, 0);
    assert addr1 in sh1.heap.Keys;
    StoredTwice(sh, k1, data1, env.hash(data1), addr1, k2, data2, env.hash(data2), malloc(sh1.heap.Keys));
  }

  lemma {:induction false} StoredTwice(
      sh: Shared, k1: Key, b1: Block, h1: Hash, addr1: Ptr, k2: Key, b2: Block, h2: Hash, addr2: Ptr)
    requires sh.freeList == [sh.next] && k1 != k2 && addr1 != addr2
    ensures var sh1 := Stored(sh, k1, b1, h1, addr1);
            var sh2 := Stored(sh1, k2, b2, h2, addr2);
            ContentAt(sh1, k1) == Some(b1) && ContentAt(sh2, k1) == Some(b2) && ContentAt(sh2, k2) == Some(b2)
  {}

  lemma {:induction false} SingletonList(xs: seq<nat>, x: nat)
    requires multiset(xs) == multiset{x}
    ensures xs == [x]
  {
    assert |xs| == |multiset(xs)| == 1;
    assert xs[0] in multiset(xs);
  }

  /** A failed append of one block on an empty store leaves exactly slot 0 on the free list. */
  lemma {:induction false} FailedBlock(env: Env, malloc: Malloc, io: Device, path: Path, data: seq<Byte>, offset: nat)
    requires Fresh(malloc) && TrustedData(env, data) && |data| == BLOCK_SIZE && Dead(io, 1)
    ensures var r := Write(env, malloc, io, EMPTY, path, data, offset);
            && r.rc < 0 && Quiet(env, r.sh) && r.sh.disk == map[] && r.sh.freeList == [0]
            && r.sh.fileToMaster == map[] && r.sh.hashToMaster == map[]
  {
    hide Write;
    WholeBlock(data);
    EmptyGlobal(env);
    WriteLaw(env, malloc, io, EMPTY, path, data, offset);
    DeadWrite(env, malloc, io, path, data, offset);
    DeadFails(env, malloc, io, path, data, offset);
    FailedWrite(env, malloc, io, EMPTY, path, data, offset);
    WriteSpace(env, malloc, io, EMPTY, path, data, offset);
    var sh := Write(env, malloc, io, EMPTY, path, data, offset).sh;
    assert NewTo(env, EMPTY, [data], 1) == {env.hash(data)};
    assert sh.next == 1 && Range(0, 1) == [0];
    SingletonList(sh.freeList, 0);
  }

  /** The whole scenario: an append fails before anything reaches the master, the store is
      unmounted and mounted, and two successful writes to two files then end in one slot. */
  lemma {:induction false} RestartLosesContent(
      env: Env, malloc: Malloc, io: Device, path: Path, data: seq<Byte>, offset: nat,
      o: Orders, image: map<Ptr, Data>, place: seq<Ptr>, path1: Path, data1: seq<Byte>, path2: Path, data2: seq<Byte>)
    requires Fresh(malloc) && TrustedData(env, data) && |data| == BLOCK_SIZE && Dead(io, 1)
    requires var sh := Write(env, malloc, io, EMPTY, path, data, offset).sh;
             Enumerated(sh, o) && Fits(sh) && Images(sh, image) && RoomFor(sh, o, place)
    requires |data1| == BLOCK_SIZE && |data2| == BLOCK_SIZE && env.hash(data1) != env.hash(data2) && path1 != path2
    ensures var sh := Write(env, malloc, io, EMPTY, path, data, offset).sh;
            && Collected(sh, Values(sh, o), image)
            && var r1 := Write(env, malloc, map[], Remount(sh, o, image, place), path1, data1, 0);
               var r2 := Write(env, malloc, map[], r1.sh, path2, data2, 0);
               && r1.rc == BLOCK_SIZE && r2.rc == BLOCK_SIZE
               && ContentAt(r1.sh, Key(path1, 0)) == Some(data1) && ContentAt(r2.sh, Key(path1, 0)) == Some(data2)
  {
    hide Write, Remount, Relocated, Fits, Images, RoomFor;
    var sh := Write(env, malloc, io, EMPTY, path, data, offset).sh;
    FailedBlock(env, malloc, io, path, data, offset);
    RestartRelocates(env, sh, o, image, place);
    StillGapped(sh, Remount(sh, o, image, place), Values(sh, o), place);
    SlotIssuedTwice(env, malloc, Remount(sh, o, image, place), path1, data1, path2, data2);
  }

  /** The restart keeps the free slot and resets the counter to it. */
  lemma {:induction false} StillGapped(sh: Shared, sh': Shared, values: seq<Ptr>, place: seq<Ptr>)
    requires Relocated(sh, sh', values, place) && sh.freeList == [0] && sh.disk == map[]
    requires sh.fileToMaster == map[] && sh.hashToMaster == map[]
    ensures sh'.freeList == [sh'.next] && sh'.fileToMaster == map[] && sh'.hashToMaster == map[]
  {
    assert EndOf(sh.disk.Keys) == 0;
  }
}
