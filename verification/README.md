# Verification of the deduplicating block store

A Dafny 4.11 model of the block-level deduplication layer: a refcounted, content-addressed
slot allocator behind a multi-pass write protocol, a batched reader, and a persistence format
that keeps shared values shared. `dafny verify dfyconfig.toml` checks the whole project.

## Layout

| files | content |
|---|---|
| `Model`, `Steps` | the shared state (indices, heap of MasterInfo objects, free list, counter, master) and the steps of a thread |
| `Invariant`, `Accounting` | the ledger of claims, the balance between shared state and claims, and how each primitive change moves it |
| `StepProofs`, `Lifecycle`, `Frames` | every step of a writer and of a removal keeps the balance; the exact guard of the publication step; its repair |
| `Protocol`, `Safety` | any number of threads, runs, and what every reachable state satisfies |
| `Timeline`, `SizeBound`, `Requests`, `Progress` | what concurrent runs do to contents and sizes, step by step and from each call to its return |
| `Locks`, `Snapshots`, `Counterexample` | the locks of the source; what holds under them; the run that breaks the store without the hypothesis on duplicates |
| `Sequential`, `Solo`, `Laws`, `Quiescence`, `Operations`, `Placement`, `Histories` | one operation at a time: the same state machine run alone, and the laws of single operations and of whole histories |
| `Following`, `Store` | the store as a class whose methods update tables, arrays and lists in place, tied to the specification step by step |
| `Coalescing`, `ReadPath` | the coalesced flush and the batched read |
| `Bytes`, `Framing`, `BufferedIO`, `Codecs`, `Tables`, `PairFiles`, `Format` | chunked I/O, framing, codecs, tables with shared values, the files byte by byte |
| `Restart`, `Mount`, `RestartGap`, `Reissue` | unmount and mount: the laws, the methods, the gap in them and what it leads to |

## How the model reads the source

* MasterInfo objects live in an explicit heap: `malloc` may return any address that is not in
  use, `free` removes the address, and freed addresses may be handed out again. A mapping to an
  address outside the heap is a use after free.
* The unit of concurrency is finer than the locks: inside a critical section every block is a
  step of its own, and no mutual exclusion is assumed between steps. Every schedule that the
  locks admit is therefore among the runs, and the theorems hold for more schedules than the
  locks admit. Reads of a group are split into blocks in the same way. Where a schedule is
  claimed to be possible, or where a theorem needs the locks, `Locks.Locked` states which
  orders of steps they admit.
* A pwrite is complete, short or failed; unless it is complete it may leave anything behind,
  but only inside its own range.
* A reference is claimed by the thread that holds it. `Claims` counts references, pending infos
  and slots per thread; the invariant balances the shared state against the sum of all claims.
* Blocks are sequences of bytes. The C buffers of a request are arrays with one block per cell.

## Hypotheses

* **Hash.** `env.hash` is opaque. Coherence, conservation and refcounts need nothing of it; the
  laws about contents assume that it is injective on the blocks in play (`CollisionFree`).
* **Duplicates in a lost race.** `NoLostDups`: no race loser has another reference on its
  pending info. The comment at `src/dedup.c:592` and `docs/ARQUITETURA.md:356-357` promise that
  a lost race causes no corruption; `Counterexample.LostDupReachable` is a schedule in which it
  does, `Protocol.RunInvIff` shows that the hypothesis is exact over whole runs and
  `Lifecycle.PublishKeepsIff` over one step, and `Lifecycle.RepairedKeeps` a
  publication step without the problem. Runs whose requests never repeat a block need no
  hypothesis (`Safety.DistinctRunInv`), and neither do sequential histories.
* **Alignment.** Only `size` is checked (`src/dedup.c:474`); the offset is floored to a block,
  in the model as in the code, although `docs/ARQUITETURA.md:43-46` says that unaligned writes
  are rejected.
* **Metadata writes.** The saving side takes a flush to have emptied the buffer
  (`src/persistence.c:83-84`). `BufferedIO.Writer.Write` gives the exact condition on the pwrites
  under which a call stays inside its buffer, `BufferedIO.OnlyTheLastMayBeShort` what it means,
  and `BufferedIO.ShortPwriteOverruns` a call that breaks it. Files that were cut short are
  loaded safely (`PairFiles.SaveThenOpen`); only the theorems that promise everything back
  require complete pwrites. The reading side tolerates short reads, and treats a failing pread as
  the end of the file.
* **Restart.** The counter is read off the length of the master (`src/passthrough.c:113`);
  `Restart.RestartPreserves` gives the exact condition under which the allocator survives,
  `RestartGap.FailedAppendBreaksRestart` a case in which it does not, and
  `Reissue.RestartLosesContent` the lost content that follows.
* **One path at a time.** Unlink and truncate take the lock several times, so the size bound
  over concurrent runs and the laws from call to return require that no two operations on one
  path overlap.
* **Ranges.** Counters are unbounded integers in the store; the persistence theorems require
  that numbers fit their fields and counts fit an `int`.

## Model

| member | source | states |
|---|---|---|
| `Protocol.RunInv` | src/dedup.c:461-683 | Safety over whole runs: for any number of threads, any interleaving of write, unlink, truncate and read steps and any outcome of every pwrite, each state of a run that starts balanced is balanced (exact refcounts, slot conservation, coherence, linked indices), as long as no race loser of the run has a duplicate in its own batch |
| `Protocol.NextInv` | src/dedup.c:221-683 | Every single enabled action of every thread keeps the invariant of all threads |
| `Protocol.EmptyInv` | src/metaindex.c:146-179 | The empty store with any number of idle threads satisfies the invariant |
| `Protocol.QuiescentInv` | src/dedup.c:461-683 | With all threads idle the invariant holds if and only if the shared state balances against no claims at all |
| `Protocol.RepairedRunInv` | src/dedup.c:595-619 | With the repaired publication step (not in the source) every run keeps the invariant, with no hypothesis on duplicates |
| `Safety.OneOwner` | src/dedup.c:292-322 | Slot conservation in every reachable state: for a slot below `next` the owners counted over the free list, the published infos, the writers in flight and the release lists add up to exactly one; above `next` to none |
| `Safety.ExactRefcount` | src/dedup.c:240-246 | In every reachable state the refcount of a live info is the number of blocks mapped to it plus the references held by plans, and at least 1 |
| `Safety.ReservedIsAlive` | src/dedup.c:518-523 | An info reserved by a writer is alive in every reachable state, carries the hash of the block, and is published when pass 3 maps it |
| `Safety.PublishedHolds` | src/dedup.c:348-385 | In every reachable state the slot of a published info holds a block that hashes to the stored hash, whatever pwrites failed before |
| `Safety.PublishedApart` | src/dedup.c:599-619 | Distinct published infos have distinct hashes and distinct slots |
| `Safety.DiskStep` | src/dedup.c:348-385 | If an action changes a slot of the master at all, it is a flush step of a writer whose own plan owns the slot; the slot is then unpublished, not free and not held by any other thread |
| `Safety.VisibleStep` | src/dedup.c:639-655 | The hash that a lookup shows for a block changes only when a writer maps exactly that block (then it shows the block written) or a removal unmaps exactly that block (then it shows nothing) |
| `Safety.SlotStable` | src/dedup.c:127-167 | Over any run, a slot that stays published from state i to state j holds the same block in both |
| `Safety.ReadNonInterference` | src/dedup.c:95-167 | A reader that looks a block up in state i and fetches it in state j gets the content the block had at the lookup, with the hash the index showed then, if its slot stayed published in between |
| `Safety.ReaderNeverShort` | src/dedup.c:120-167 | In every reachable state a reader can fetch every slot it has looked up: no pread runs past the end of the master |
| `Safety.DistinctRunInv` | src/dedup.c:525-537 | If no single request repeats a block, every run of the source as it is keeps the invariant, with no further hypothesis |
| `Quiescence.RunSpace` | src/dedup.c:597-655 | Whenever a run of any number of threads comes to rest, there are as many published infos as distinct block contents of all files, and every other slot is free |
| `Counterexample.LostDupReachable` | src/dedup.c:595-668 | Without the hypothesis on duplicates: a run of the source as it is with two threads from the empty store, in an order that its locks admit (`Locked`) and with no pwrite failing, in which both writes return and a block is then mapped to a freed info |
| `Locks.LocksExclude` | src/dedup.c:504-539 | The discipline under which such schedules are claimed: in every state of a locked run a thread inside a section of the write lock is alone, readers share, and the free-list mutex has one owner |
| `Locks.RollbackIsAtomic` | src/dedup.c:445-455 | While a rollback puts its slots back one by one, no other thread touches the free list |
| `Timeline.RunRefines` | src/dedup.c:639-655 | Refinement over all interleavings: in every state of a run each block of each file has the content that a plain map has in which every mapping and every removal of a block takes effect at once |
| `Snapshots.ReadIsAtomic` | src/dedup.c:94-106 | Under the locks a read takes effect at one point of the run: its lookups hold the slots of the longest mapped prefix of one and the same state, and while these stay published each fetched block is the one of the plain map in that state |
| `Snapshots.NoHalfWrite` | src/dedup.c:595-668 | No lookup falls between the blocks of a write or of a batch removal |
| `SizeBound.SizesCover` | src/passthrough.c:280-298 | Size bound over concurrent runs, with any overlap except on one path and without the hypothesis on duplicates: the recorded size of a path on which no operation is in progress is a multiple of 4096 and covers every mapped block of the path |
| `SizeBound.RemovalEnds` | src/passthrough.c:405-425 | When an unlink or a truncate of such a run ends, its path has no block mapped from the new size on, and after an unlink none at all |
| `Requests.ConcurrentRemoval` | src/passthrough.c:265-435 | Unlink and truncate from the call to the return, on the arguments of the call, while other threads do anything on other paths: a truncate to a smaller size takes away exactly the blocks from that size on and records it, a truncate to any other size changes nothing, an unlink leaves neither a block nor a size |
| `Requests.ConcurrentWrite` | src/dedup.c:461-683 | A write from the call to the return, on the arguments of the call, while other threads do anything on other paths: if all its pwrites were complete, exactly the requested blocks show its data and the recorded size reaches at least to its end; otherwise its path is as it was at the call |
| `Requests.ConcurrentRead` | src/dedup.c:77-171 | A read on the arguments of the call: its lookups hold the slots of the longest mapped prefix of the requested blocks in one state, and what it fetches from slots that stayed published is the content of that state |
| `Requests.ReadLooks` | src/dedup.c:94-106 | No read returns before it has ended its lookups |
| `Requests.AssignsRequest` | src/dedup.c:639-655 | Every block that a thread maps or unmaps is one that its request names, and it is mapped to the data that the request has for it |
| `Progress.RequestReturns` | src/dedup.c:461-683 | Every legal request to an idle thread of a store at rest is accepted and has a run in which it returns and no pwrite fails; a read then delivers the longest mapped prefix of the requested blocks with their contents |
| `Protocol.RunInvIff` | src/dedup.c:599-619 | Run-level form of the guard, in both directions: a run that starts balanced is balanced in every state if and only if none of its race losers shares its pending info with another entry of its plan |
| `Protocol.LostDupNext` | src/dedup.c:599-614 | A publication that violates the guard leaves a state that is out of balance, whatever the other threads hold |
| `Lifecycle.PublishKeepsIff` | src/dedup.c:599-619 | One publication step keeps the balance if and only if the refcount of a race loser is 1 |
| `Lifecycle.NoLostDupMeans` | src/dedup.c:599-614 | That guard holds if and only if no other plan entry shares the pending info of the loser |
| `Lifecycle.DistinctIsSafe` | src/dedup.c:525-537 | A request whose blocks hash differently always satisfies the guard |
| `Lifecycle.RepairedKeeps` | src/dedup.c:595-619 | The repaired publication step keeps the balance in every case, lost race with duplicates included |
| `Lifecycle.WriterBalanced` | src/dedup.c:461-683 | Every step of a writer, in every phase, keeps the balance against the claims of all other threads and frames those claims |
| `Lifecycle.RemoverBalanced` | src/dedup.c:221-256 | Every step of a batch removal keeps the balance and frames the claims of all other threads |
| `StepProofs.DecideKeeps` | src/dedup.c:506-538 | Pass 1, one block: a HIT takes a counted reference, a MISS creates a pending info, and everything still balances |
| `StepProofs.DrainKeeps` | src/dedup.c:297-309 | Draining the free list moves slots to the writer without losing or doubling one |
| `StepProofs.AppendKeeps` | src/dedup.c:311-321 | fetch_add hands out slots that nobody owned |
| `StepProofs.PlaceKeeps` | src/dedup.c:557-564 | Numbering a MISS moves one slot from the local array to the plan entry and its info |
| `StepProofs.FlushKeeps` | src/dedup.c:365-384 | A complete, short or failed pwrite of a run changes only slots of that writer; after a complete one every block of the run is in its slot |
| `StepProofs.PublishKeeps` | src/dedup.c:595-619 | The double-check insert keeps the balance under the guard |
| `StepProofs.MapKeeps` | src/dedup.c:639-655 | Redirecting one block, with the release of what it mapped before, keeps the balance, also when old and new info coincide |
| `StepProofs.UndoHitKeeps` | src/dedup.c:414-426 | Rollback of a HIT keeps the balance, also when it drops the last reference |
| `StepProofs.UndoMissKeeps` | src/dedup.c:445-455 | Rollback of a MISS frees an info with exactly one reference and returns its slot |
| `Laws.DriveFinishes` | src/dedup.c:461-683 | A write that runs alone ends balanced and has grown the master by exactly the shortfall; if all pwrites that the flush of its plan issues are complete, all its blocks are visible and it returns their size, otherwise everything visible is as it was and it reports the first of these pwrites that was not |
| `Laws.MissesAreNew` | src/dedup.c:506-538 | Pass 1 makes as many MISSes as the request has distinct hashes that the index does not know, in any state |
| `Solo.AloneNeverLoses` | src/dedup.c:599-614 | A writer that runs alone never loses the double-check race, so sequentially the guard always holds |
| `Solo.SoloStep` | src/dedup.c:461-683 | Every step of a lone writer keeps the balance without any hypothesis |
| `Operations.WriteLaw` | src/dedup.c:461-485 | write_dedup with its argument checks: size 0 returns 0, a size that is not a multiple of 4096 returns -EOPNOTSUPP, both without any effect; every other request finishes as above |
| `Operations.SuccessfulWrite` | src/dedup.c:461-683 | A positive return value is the number of bytes; then exactly the written blocks show their slices of the data, all other blocks the old content, and the size has grown to the end of the write if it was smaller |
| `Operations.WrittenBytes` | src/dedup.c:503-508 | The same byte by byte: after a positive return value byte j of the request is byte j % 4096 of block offset / 4096 + j / 4096 of the file, and the recorded size covers it |
| `Operations.FailedWrite` | src/dedup.c:403-455 | A failed or rejected write leaves mappings, infos, refcounts, hash index, sizes and all contents as they were; the free list gains exactly the appended slots as a multiset |
| `Operations.FailureIsReported` | src/dedup.c:348-385 | An aligned write returns its full size if and only if every pwrite that its flush issues, one per run of its plan, is complete; otherwise minus the errno of the first pwrite that is not, or -5 if that one was short |
| `Operations.WriteSpace` | src/dedup.c:292-322 | After a write, failed or not, `next` is the larger of its old value and (published infos + new distinct hashes) |
| `Operations.RetriesAreFree` | src/dedup.c:403-455 | After any number of failed attempts the next attempt leaves the master exactly as long as a single attempt would |
| `Placement.PlannedSlots` | src/dedup.c:540-564 | Exactly the first block of each new hash is written, and the r-th of them to the r-th slot of the free list or, when that is used up, to the end of the master in order |
| `Placement.OnePwrite` | src/dedup.c:365-384 | A request of new and distinct blocks on an empty free list needs one pwrite |
| `Placement.RollbackOrder` | src/dedup.c:445-455 | A rollback returns all slots that the write was given to the head of the free list, the last one first |
| `Operations.ClearLaw` | src/dedup.c:221-256 | A batch removal unmaps exactly the blocks of its range, leaves every other block as it reads, and ends balanced |
| `Operations.BatchIsLoop` | src/dedup.c:180-256 | remove_blocks_dedup_batch over [s, e) reaches the same tables, refcounts and free list, order included, as remove_block_dedup on s..e-1 in turn, in any state |
| `Quiescence.NoLeak` | src/dedup.c:221-256 | At rest an info is alive exactly while some block maps to it, its refcount is the number of these blocks, and the hash index leads to it |
| `Quiescence.OneCopyEach` | src/dedup.c:597-655 | At rest there is one physical copy of each distinct content and every other slot below `next` is free |
| `Quiescence.SlotBudget` | src/dedup.c:292-322 | At rest free slots and published infos together are exactly `next` |
| `Quiescence.UnseenIsInvisible` | src/dedup.c:403-455 | Two balanced states at rest with the same mappings have the same infos, refcounts and hash index, and free lists that differ by the appended slots |
| `Histories.HistoryRefines` | src/dedup.c:461-683 | Refinement over whole histories: after any sequence of writes, unlinks and truncates with any faults, every block reads and every size is recorded as in a plain file system in which the successful operations took effect |
| `Histories.HighWater` | src/dedup.c:311-321 | Over any history from the empty store `next` is the maximum over all writes, failed ones included, of published infos before the write plus its new distinct hashes |
| `Histories.MaxOfIsMax` | src/dedup.c:311-321 | The maximum used there is an upper bound of all needs and is reached by one of them |
| `Histories.HistorySpace` | src/dedup.c:597-655 | After any history there are as many published infos as distinct contents |
| `Histories.HistoryQuiet` | src/dedup.c:461-683 | Every history keeps the balance |
| `Histories.HistorySizes` | src/passthrough.c:265-425 | After any history each recorded size is a multiple of 4096 and covers every mapped block of its path |
| `Histories.UnlinkSizes` | src/passthrough.c:280-299 | Unlink leaves no mapping of the path and touches no block of any other path |
| `Histories.TruncateSizes` | src/passthrough.c:401-425 | Shrinking keeps exactly the blocks below the new size, each with its content |
| `Histories.TruncateLaw` | src/passthrough.c:392-435 | Truncate rejects negative and unaligned sizes, and changes nothing unless the path has a larger recorded size |
| `Coalescing.CoalescedIsOneByOne` | src/dedup.c:348-385 | On success the coalesced flush leaves the disk exactly as one pwrite per MISS in plan order; it fails exactly if the pwrite of some run is not complete, with minus the errno of the first such pwrite or -5 |
| `Coalescing.FewestPwrites` | src/dedup.c:360-373 | The flush issues one pwrite per maximal run, and no grouping into contiguous pwrites needs fewer |
| `Following.FollowFlushPlan` | src/dedup.c:574-584 | The flush of a whole plan is pass 2 of the state machine, with publication after it on success and rollback on failure |
| `Store.Index.constructor` | src/metaindex.c:146-179 | A new index is empty and balanced |
| `Store.Index.WriteDedup` | src/dedup.c:461-683 | Reaches the state and returns the value that the specification of a write gives, and leaves the store balanced |
| `Store.Index.DecideBlocks` | src/dedup.c:503-539 | Pass 1 over the plan array: the plan, the pending infos and the number of MISSes are those of the specification |
| `Store.Index.AllocateBatchStorageFirst` | src/dedup.c:292-322 | The slots are the head of the free list in order, then consecutive new slots; free list and counter move accordingly |
| `Store.Index.DrainFreeList` | src/dedup.c:297-309 | Takes as many slots as are needed and present from the head of the free list, in order |
| `Store.Index.PlaceMisses` | src/dedup.c:557-564 | Every MISS gets its slot, in the plan and in its info |
| `Store.Index.FlushPlan` | src/dedup.c:348-385 | Disk, return code and number of pwrites are those of the coalesced flush; on success the disk is that of one pwrite per MISS, on failure the code is minus the errno of the first pwrite that is not complete, or -5 |
| `Store.Index.RollbackAllocations` | src/dedup.c:403-455 | Reaches the outcome that the specification gives for a failed write, with everything balanced |
| `Store.Index.PublishPlan` | src/dedup.c:595-619 | The double-check insert over the plan array, with the slots of lost races on the release list |
| `Store.Index.MapPlan` | src/dedup.c:639-655 | Redirects every block of the request, with the slots of dropped infos on the release list |
| `Store.Index.Commit` | src/dedup.c:586-676 | Pass 3 as a whole reaches the outcome that the specification gives for a successful flush |
| `Store.Index.DropRef` | src/dedup.c:240-246 | Dropping a reference: with the last one the info is unpublished and freed and its slot is released |
| `Store.Index.RemoveBlockDedup` | src/dedup.c:180-206 | Removes one block and returns its slot to the head of the free list if it was the last reference |
| `Store.Index.RemoveBlocksDedupBatch` | src/dedup.c:221-256 | Reaches exactly the state of the loop over single blocks |
| `Store.Index.Unlink` | src/passthrough.c:280-299 | Reaches the state that the specification of unlink gives |
| `Store.Index.Truncate` | src/passthrough.c:396-425 | Reaches the state and returns the value that the specification of truncate gives |
| `Store.Index.GetSize` | src/passthrough.c:180-192 | In a store that any history has led to, the size that getattr reports is the one that the plain file system records; it is a multiple of 4096 and covers every mapped block of the path |
| `Store.Index.ReadDedup` | src/dedup.c:77-171 | Delivers the longest mapped prefix of the request, each block with the content the files show for it, and leaves the rest of the output alone; returns -5 if and only if the device fails at the slot of a block of that prefix at which a pread begins: no block of the prefix lies in the slot before, or another one in the same slot |
| `Store.Index.SnapshotSlots` | src/dedup.c:94-106 | The slots of consecutive blocks up to the first hole |
| `ReadPath.InsertionSort` | includes/dedup.h:15-33 | Sorts by slot in place: ordered, and a permutation, the fast path included |
| `ReadPath.InsertLast` | includes/dedup.h:23-31 | One insertion extends the ordered prefix and permutes the array |
| `ReadPath.FetchGroups` | src/dedup.c:127-167 | Groups of consecutive slots partition the sorted request; each is fetched with one pread and every block lands at its place; it stops at the first pread that is not full |
| `ReadPath.FetchGroup` | src/dedup.c:140-165 | One group: a single block straight into the output, more blocks through the staging buffer at the offsets of their slots |
| `ReadPath.ReadSlots` | src/dedup.c:114-170 | The batched read of any list of slots, repeated and in any order, equals reading them one by one; it fails if and only if a slot lies beyond the master or the device fails where a pread begins |
| `ReadPath.GroupsReach` | src/dedup.c:127-155 | All group reads are full if and only if every single slot lies inside the master and the device does not fail where a group starts |
| `BufferedIO.Writer.Flush` | src/persistence.c:45-62 | Exactly as many bytes as the pwrite returns move from the buffer to the file, none if it fails, and no byte of the stream is lost or reordered |
| `BufferedIO.Writer.Write` | src/persistence.c:78-93 | For any buffer capacity, any split into calls and any results of the pwrites: the call stays inside its buffer if and only if each flush frees enough for the copy that follows (`Roomy`); then the stream grows by exactly the data, otherwise by a beginning of them |
| `BufferedIO.OnlyTheLastMayBeShort` | src/persistence.c:78-93 | What that condition means for the pwrites of a call: all but the last must be complete, and the last must write at least what is still to be placed |
| `BufferedIO.ShortPwriteOverruns` | src/persistence.c:78-93 | Its failure on the code: for any capacity, two buffers of data and one short pwrite make the copy leave the buffer |
| `BufferedIO.Writer.SaveTable` | src/persistence.c:306-329 | For any results of the pwrites the file is a beginning of the count followed by all framed rows in the order of enumeration, and all of it if they are complete |
| `BufferedIO.Writer.SaveList` | src/persistence.c:480-501 | For any results of the pwrites the file is a beginning of the count followed by all framed elements in list order, and all of it if they are complete |
| `BufferedIO.Reader.Refill` | src/persistence.c:65-75 | One pread: it delivers some bytes unless the end of the file is reached or the pread fails, and changes nothing in what is still to be read |
| `BufferedIO.Reader.Read` | src/persistence.c:96-115 | For every pattern of short reads: the next bytes of the file; it fails if and only if fewer are left or one of its preads failed |
| `BufferedIO.Reader.ReadElem` | src/persistence.c:158-172 | The next complete element, if and only if there is one and none of the preads for it failed |
| `BufferedIO.Reader.LoadTable` | src/persistence.c:344-354 | The rows that the format defines for the bytes of the file; if one of its preads failed, the first of them |
| `Framing.TableStops` | src/persistence.c:331-359 | A load that stops early finds what a load of some beginning of the file finds |
| `BufferedIO.Reader.LoadList` | src/persistence.c:515-526 | The elements that the format defines for the bytes of the file, in order; if one of its preads failed, the first of them |
| `Framing.TablePrefix` | src/persistence.c:331-359 | Loading any prefix of a table file yields exactly the entries wholly contained in it |
| `Framing.ListPrefix` | src/persistence.c:275-304 | Loading any prefix of a list file yields exactly the elements wholly contained in it |
| `Framing.TableRoundTrip` | src/persistence.c:306-359 | A complete table file gives back the rows |
| `Framing.ListRoundTrip` | src/persistence.c:480-532 | A complete list file gives back the list, in order |
| `Codecs.MasterInfoRoundTrip` | src/metaindex.c:16-27 | A MasterInfo survives encoding and decoding, whatever its padding holds |
| `Codecs.KeyRoundTrip` | src/metaindex.c:40-76 | A (path, block) key survives encoding and decoding |
| `Codecs.StrRoundTrip` | src/metaindex.c:100-110 | A path survives encoding and decoding; the decoder takes only names that are terminated inside their element |
| `Format.NameMeans` | src/metaindex.c:100-110 | An element decodes to a path exactly if it begins with the path and one zero byte |
| `Format.NameBytes` | src/metaindex.c:100-104 | The element of a path is its bytes and one zero byte, strlen + 1 in all |
| `Format.KeyMeans` | src/metaindex.c:60-76 | A key decodes only from the length of its terminated name, the name, and eight bytes of block number |
| `Format.ImageBytes` | includes/metaindex.h:24-29 | The image of a MasterInfo is 80 bytes: 64 of hash, 8 of slot, 4 of refcount, 4 of padding |
| `Format.FilesInBytes` | src/metaindex.c:181-221 | All bytes that an unmount writes, written down independently of the encoders: little-endian counts and lengths, hashes, terminated names, block numbers, indices, images, sizes and slots |
| `Codecs.SizeRoundTrip` | src/metaindex.c:78-98 | Sizes, slots and indices survive encoding and decoding |
| `Bytes.LeRoundTrip` | src/persistence.c:137-148 | A number that fits its field survives the little-endian round trip |
| `Tables.CollectFacts` | src/persistence.c:217-233 | Collecting shared values stores each object once, at a stable index |
| `Tables.CollectValues` | src/persistence.c:217-233 | The collection loop with its identity table (index plus one) computes that array |
| `Tables.LoadSaved` | src/persistence.c:331-359 | Loading the first n saved rows binds exactly their keys, each to its saved value |
| `Tables.PairRoundTrip` | src/persistence.c:361-478 | For any enumeration order of both tables, saving and loading the pair gives the same keys and objects; each key has its own object, and two keys of either table share an object afterwards exactly if they did before |
| `Tables.PairCut` | src/persistence.c:425-478 | However the three files are cut, no key is bound to a value other than its saved one, and sharing among the surviving keys is as before |
| `PairFiles.SavePair` | src/persistence.c:361-423 | The three files hold every shared object once and, for each table, its keys with the indices of their objects; with incomplete pwrites each file is a beginning of that |
| `PairFiles.OpenPair` | src/persistence.c:425-478 | Loads the pair that the format defines for the three files, dropping keys whose index has no object; with failing preads the pair of files that were cut |
| `PairFiles.SaveThenOpen` | src/persistence.c:361-478 | A save followed by a load, for any results of the pwrites and preads: no key is bound to a value other than its saved one and sharing among the keys that come back is as before; with complete pwrites and no failing pread all keys come back |
| `Restart.RestartPreserves` | src/metaindex.c:146-221 | Unmount and mount preserve the visible map with its contents, sizes, refcounts, all sharing within and across the two indices, and the order of the free list; slot conservation is re-established if and only if every free slot lies below the physical end of the master |
| `Mount.Unmount` | src/metaindex.c:181-221 | index_destroy: for any enumeration order of the tables the five files hold the pair of tables, the sizes and the free list in the defined format; with incomplete pwrites each is a beginning of that |
| `Mount.Mount` | src/metaindex.c:146-179 | index_init: a new index holds what the format defines for the bytes of the five files; with failing preads for files that were cut |
| `Mount.MasterLength` | src/passthrough.c:106-113 | The counter is the physical length of the master in blocks: one past its last slot |
| `Mount.Remount` | src/metaindex.c:146-221 | Unmount followed by mount, as methods: the new index shows the same visible map, sizes, refcounts, sharing and free-list order, and is balanced if and only if every free slot lies below the physical end |
| `Restart.BalancedIff` | src/passthrough.c:106-113 | The exact condition for the counter read off the master length |
| `Restart.UsedIsInside` | src/passthrough.c:106-113 | A slot that is not free lies inside the master |
| `RestartGap.FailedAppendBreaksRestart` | src/passthrough.c:106-113 | An append on an empty store that fails before anything is written leaves a balanced store that is out of balance after the next restart |
| `Reissue.RestartLosesContent` | src/passthrough.c:106-113 | What follows: after such an append of one block and a restart, two successful writes of one new block each end in one slot, and the first file then shows the content of the second |
| `Reissue.SlotIssuedTwice` | src/dedup.c:292-322 | The same for any store whose only free slot is the one that the counter hands out next |

## Left out

* Lock operations, memory ordering and allocation failure: steps are sequentially consistent and `malloc` succeeds.
* Torn reads of a slot that is recycled under a reader: `docs/ARQUITETURA.md:352-354` accepts them; only the conditional non-interference property is stated.
* The size bound when operations on one path overlap: unlink and truncate take the lock several times and act on a size that may be out of date.
* What a copy beyond the end of the I/O buffer destroys: the model stops at it and reports it.
* Byte offsets inside a request: the model addresses buffers by block, and the slot times 4096 arithmetic of `off_t` is not bounded.
* SHA-512, the hash functions and ordering of GHashTable, and qsort: an opaque function, maps with any enumeration order, and any ordered permutation.
* FUSE callbacks that only forward to libc, and the libc half of unlink, truncate and getattr: no state of their own.
* rename and link: they do not touch the index, so renamed and hard-linked paths are outside the model.
* The unbuffered write_elem and read_elem, and failures of open and malloc in the persistence code.
* Elements that the encoders never write: a key that announces more bytes than it has, and a name without a terminator, do not decode in the model, where the C decoder would read past its buffer; a size value of a wrong width does not decode, where the C decoder ignores the width.
* A crash between mounts: metadata is written only on unmount.
- ReadPath.QuickSort: the source calls qsort, of which only an ordered permutation is known; the body here is the insertion sort, and no caller relies on more.
- Protocol.RepairedRunInv: about a step that the source does not have; it shows what a repair of the publication step would give.
