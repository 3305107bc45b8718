/** index_destroy and index_init for the store as a class. */
module Mount {
  import opened Model
  import opened Sequential
  import opened Quiescence
  import opened Framing
  import opened Codecs
  import opened Tables
  import opened BufferedIO
  import opened PairFiles
  import opened Restart
  import opened Store

  /** What the pwrites of the five metadata files return. */
  datatype Pwrites = Pwrites(pair: PairResults, sizes: Results, free: Results)

  ghost predicate AllComplete(pwrites: Pwrites) {
    PairComplete(pwrites.pair) && Complete(pwrites.sizes, BUFFER_SIZE) && Complete(pwrites.free, BUFFER_SIZE)
  }

  /** Writes the three files of the two indices. */
  method SaveTables(
      index: Index, o: Orders, image: map<Ptr, Data>, pwrites: PairResults) returns (ok: bool, pair: Files)
    requires index.Valid() && Enumerated(index.State(), o) && Fits(index.State()) && Images(index.State(), image)
    requires CountsFit(index.State(), o)
    ensures Collected(index.State(), Values(index.State(), o), image)
    ensures var whole := PairFilesOf(index.State(), o, Values(index.State(), o), image);
            CutOf(pair, whole) && (PairComplete(pwrites) ==> ok && pair == whole)
  {
    ValuesAreLive(index.env, index.State(), o, image);
    KeysDecode(index.State(), o);
    ImagesFrame(index.State(), o, image);
    ok, pair := SavePair(o.hashes, index.hashToMaster, EncodeHash, o.keys, index.fileToMaster, EncodeKey, image,
        pwrites);
  }

  /** Writes the metadata files of a store at rest; each holds a beginning of its format, and
      all of it if every pwrite is complete. */
  method Unmount(index: Index, o: Orders, image: map<Ptr, Data>, pwrites: Pwrites) returns (ok: bool, saved: Saved)
    requires index.Valid() && Enumerated(index.State(), o) && Fits(index.State()) && Images(index.State(), image)
    requires CountsFit(index.State(), o)
    ensures Collected(index.State(), Values(index.State(), o), image)
    ensures var whole := Destroy(index.State(), o, Values(index.State(), o), image);
            && SavedCut(saved, whole)
            && (AllComplete(pwrites) ==> ok && saved == whole)
  {
    hide Images, Quiet;
    var okPair, pair := SaveTables(index, o, image, pwrites.pair);
    SizeRowsFramable(index.fileToSizes, o.paths);
    var okSizes, sizes := WriteTableFile(SaveRows(o.paths, index.fileToSizes, EncodeStr, EncodeSize), pwrites.sizes);
    var slots := EncodeAll(index.freeBlockList);
    SlotsFrame(index.freeBlockList);
    var okFree, free := WriteListFile(slots, pwrites.free);
    ok, saved := okPair && okSizes && okFree, Saved(pair, sizes, free);
  }

  lemma {:induction false} ImagesFrame(sh: Shared, o: Orders, image: map<Ptr, Data>)
    requires Covers(sh, o) && Images(sh, image) && forall p :: p in Values(sh, o) ==> p in sh.heap
    ensures forall p :: p in Values(sh, o) ==> p in image && Framable(image[p])
  {
    IntFitsSize();
  }

  lemma {:induction false} SlotsFrame(xs: seq<nat>)
    ensures AllFramable(EncodeAll(xs))
  {
    Pow8();
  }

  /** The number of whole blocks in the master. */
  method MasterLength(master: map<nat, Block>) returns (n: nat)
    ensures n == EndOf(master.Keys)
  {
    var left := master.Keys;
    n := 0;
    while left != {}
      invariant left <= master.Keys
      invariant forall x :: x in master.Keys ==> x in left || x < n
      invariant n == 0 || n - 1 in master.Keys
      decreases |left|
    {
      var x :| x in left;
      left := left - {x};
      if x >= n { n := x + 1; }
    }
    EndIsUnique(master.Keys, n);
  }

  lemma {:induction false} EndIsUnique(slots: set<nat>, n: nat)
    requires (forall x :: x in slots ==> x < n) && (n == 0 || n - 1 in slots)
    ensures n == EndOf(slots)
  {}

  /** What the preads of the five metadata files return. */
  datatype Preads = Preads(pair: PairResults, sizes: Results, free: Results)

  ghost predicate AllReadable(preads: Preads) {
    PairReadable(preads.pair) && Readable(preads.sizes) && Readable(preads.free)
  }

  ghost predicate SavedCut(cut: Saved, saved: Saved) {
    CutOf(cut.pair, saved.pair) && cut.sizes <= saved.sizes && cut.free <= saved.free
  }

  /** Reads the metadata files; the objects get the given addresses, the counter is read off
      the master. With failing preads the index is what cut files would give. */
  method Mount(env: Env, malloc: Malloc, saved: Saved, master: map<nat, Block>, place: seq<Ptr>, preads: Preads)
    returns (index: Index)
    ensures fresh(index) && index.env == env && index.malloc == malloc && index.hash == env.hash
    ensures AllReadable(preads) ==> index.State() == Init(saved, master, place)
    ensures exists cut: Saved :: SavedCut(cut, saved) && index.State() == Init(cut, master, place)
  {
    var p := OpenPair(saved.pair, DecodeHash, DecodeKey, DecodeMasterInfo, preads.pair);
    var sizes := ReadTableFile(saved.sizes, DecodeStr, DecodeSize, preads.sizes);
    var free := ReadListFile(saved.free, DecodeSize, preads.free);
    ghost var pair :| CutOf(pair, saved.pair) && p == LoadPair(pair, DecodeHash, DecodeKey, DecodeMasterInfo);
    ghost var s :| s <= saved.sizes && sizes == LoadInto(map[], ParseTable(s), DecodeStr, DecodeSize);
    ghost var f :| f <= saved.free && free == DecodeAll(ParseList(f), DecodeSize);
    var next := MasterLength(master);
    index := new Index.Loaded(env, malloc, Place(p.first, place), Place(p.second, place), sizes,
        HeapOf(place, p.objects), free, next, master);
    assert SavedCut(Saved(pair, s, f), saved) && index.State() == Init(Saved(pair, s, f), master, place);
  }

  /** Unmount, then mount: the same files, sizes, refcounts, sharing and free list; and a
      balanced store if and only if every free slot lies inside the master. */
  method Remount(index: Index, env: Env, o: Orders, image: map<Ptr, Data>, place: seq<Ptr>,
                 pwrites: Pwrites, preads: Preads)
    returns (index': Index)
    requires index.Valid() && index.env == env && Enumerated(index.State(), o) && Fits(index.State())
        && Images(index.State(), image)
    requires RoomFor(index.State(), o, place) && AllComplete(pwrites) && AllReadable(preads)
    ensures fresh(index') && Restarted(index.State(), index'.State())
    ensures index'.Valid() <==> forall x :: x in index.State().freeList ==> x < EndOf(index.State().disk.Keys)
  {
    var ok, saved := Unmount(index, o, image, pwrites);
    index' := Mount(env, index.malloc, saved, index.master, place, preads);
    RestartPreserves(env, index.State(), o, image, place);
  }
}
