# Verification of the storage engine and the CICS runtime

This project models a small CICS-like transaction monitor and proves what its documentation and tests promise:
a copy-on-write B-tree in a page file, one writer beside many snapshot readers, commits that survive a crash at
any point, File Control on top of the tree, and tasks whose units of work are kept or undone as a whole. Check it
with `dafny verify dfyconfig.toml`.

## How the proof is layered

1. `Bytes`, `SortedList`: byte order on keys, and a store as a strictly sorted list of records (`SortedListIsItsMap`:
   such a list and its map determine each other).
2. `BTree`, `BTreePut`, `BTreeDelete`: the tree operations on values, same branches as the code. Put is list upsert and
   map update, delete is removal, depth stays uniform, every child stays between its separators.
3. `Capacity`, `CapacityLimit`: splits are triggered by bytes but cut by entry count. No run of puts and deletes can
   overflow a page if and only if stored keys have at most 75 bytes, or, where every key carries a four-byte file prefix,
   at most 113. `PageFit` and `RunLimit` carry this to the pages a commit flushes, over runs of the protocol.
4. `Pages`, `CtxModule`, `TreePut`, `TreeDelete`, `TreeRead`, `FreeList`, `PagerFile`: the imperative code over pages.
   A ghost *located tree* says which page every node and overflow chunk occupies. `Moved` is the ledger each operation
   must balance: the pages before, plus the pools, plus newly allocated ids, are the pages after plus the pools; nothing
   else was touched; and only pages the transaction owns were written.
5. `Protocol`: readers, the writer, every separate step of a commit, and crashes, as a transition system with one
   invariant; the theorems quantify over whole runs.
6. `Txn`: the classes `Environment`, `ReadTxn`, `WriteTxn`. Each appends the states it passes through to a ghost trace
   that is proved to be a run of `Protocol`, so every theorem about runs is a theorem about this code. The page file
   accepts a page write only where the running transaction may write, so a crash inside an operation is covered at
   every single write. A commit succeeds exactly when every node of the tree fits a page; otherwise `encode_page`
   panics, nothing is published, and the store is as before.
7. `Codec`: the byte layout of every page type, with round trips.
8. `FileControl`, `UnitsOfWork`, `StackMachine`, `RegionModule`: files as stretches of one record list; tasks, LINK, XCTL, START,
   SYNCPOINT and ABEND as a semantics over record lists; the same as a machine with a stack of callers, which agrees with
   it and never holds more than 64 open programs; and the real region, proved equal to the semantics, up to panics. `Growth` says which tree the units of work of a task grow, and so exactly when the region panics; `LongKeys`
   that no program can make it panic if and only if record keys have at most 109 bytes.
9. `Race`: every reader of every run reads its snapshot if and only if a copy of the meta page that was overtaken
   between the two halves of `begin_read` may not register.
10. `ProcessDeath`: crashes of two kinds, and the one sync that decides whether recovery survives every mix of them.

## What was found on the way

- `src/storage/txn.rs:58-62` says that any reader registered later snapshots at or after the writer's base, and that
  the base is never below the watermark. Neither holds. With no reader the watermark is `u64::MAX`, which is harmless.
  But `begin_read` copies the meta page (line 43) before it registers (line 44), and in between two commits and a third
  writer may come and go. The model keeps the two halves as two steps and counts how often a copy is overtaken: a
  writer begins on a younger version, under a watermark that lets it reuse what only this copy still needs.
  `Race.IsolationIsExact`: with registration allowed up to k overtakings, every registered reader of every run reads
  its snapshot if and only if k is 0. For k of 1 or more, `Race.OvertakenReaderMisreads` is a run in which a registered
  reader finds transaction 3's record under transaction 1's root. The other isolation theorems are for k = 0.
- `encode_page` panics on a node larger than a page (`src/storage/codec.rs:12-16`), so `commit` is not total. `put` does
  not check; the panic comes at the next SYNCPOINT or at the end of the task. `Txn.WriteTxn.Commit` and
  `RegionModule.Region.StartTask` say exactly when. `LongKeys.FillPanics` is a task that ends so, with record keys of 110
  bytes; with keys of at most 109 bytes none does, whatever the programs and the files (`LongKeys.PanicIsExact`).
- `open` does not sync (`src/storage/pager.rs:96-120`). If the process died between the write and the sync of a meta
  page, the store reopens on a meta page that is not durable, and the next writer may reuse pages the durable one
  still needs. `ProcessDeath.SurvivalIsExact`: recovery brings back a version that may be expected, complete, after every
  mix of process deaths and losses of power if and only if a sync comes before the next writer in that case.
- `src/runtime/file_control.rs:98` computes the upper bound of a browse from `id + 1`. For the last possible file id
  this wraps in a release build and the browse finds nothing; `FileControl.BrowseIsRightIff` gives the exact condition.
- The repository's own `README.md:157-159` only says that keys must stay well under a page. The exact limit of the
  storage engine is 75 bytes. Through File Control it is 113 bytes, file prefix included: stored keys then have at least
  four bytes, and fewer small records can come before the large ones that crowd a page.
- `src/storage/overflow.rs:11` refers to a function `write_overflow` that does not exist; `store_value` is what it means.

## Model

| member | source | states |
|---|---|---|
| SortedList.UpsertIsMapUpdate | src/storage/btree.rs:291-300 | inserting or overwriting in the sorted record list is exactly map update |
| SortedList.RemoveIsMapRemove | src/storage/btree.rs:430-438 | removing from the sorted record list is exactly map removal |
| SortedList.LookupIsMapRead | src/storage/btree.rs:86-91 | a search of the list answers what the map holds at the key |
| SortedList.FilterMembers | src/storage/btree.rs:99-101 | a range keeps exactly the records with start <= key < end and keeps them sorted |
| SortedList.SortedListIsItsMap | src/storage/btree.rs:99-101 | equal maps mean equal lists, so the map theorems lose nothing |
| BTree.EntriesSorted | src/storage/btree.rs:116-138 | the records of a valid tree, read left to right, are strictly sorted and within its bounds |
| BTree.ChildIndexBounds | src/storage/btree.rs:71-73 | the child chosen by the separators is the one whose half-open interval holds the key, and is valid within it |
| BTree.AroundChild | src/storage/btree.rs:71-73 | every record left of the chosen child is below the key and every record right of it above |
| BTree.LeafPosition | src/storage/btree.rs:291-300 | the binary-search position separates smaller from larger records, whether or not the key is present |
| BTree.WindowReplace | src/storage/btree.rs:326-338 | any forest with the same outer bounds may replace a window of children, and the records change only there |
| BTree.GetIsLookup | src/storage/btree.rs:82-97 | descending by separators finds exactly what a search of all records finds |
| BTree.RangeAgreesWithGet | src/storage/btree.rs:82-138 | a range pairs a key with a value iff the key is in range and get answers that value |
| BTreePut.DivideCorrect | src/storage/btree.rs:302-320 | a split keeps all records, and both halves are valid on their side of the promoted separator |
| BTreePut.InsertCorrect | src/storage/btree.rs:289-368 | an insertion at any depth yields one or two valid trees whose records are the upsert of the old ones |
| BTreePut.PutCorrect | src/storage/btree.rs:370-390 | put is map update, and the new root, grown or not, is again a valid tree of uniform depth |
| BTreePut.PutTrimmed | src/storage/btree.rs:370-390 | put never leaves a root without a key |
| BTreeDelete.MergedCorrect | src/storage/btree.rs:400-420 | merging siblings around their separator keeps order, bounds, depth and all records |
| BTreeDelete.RebalanceCorrect | src/storage/btree.rs:464-493 | right-then-left merging never changes the records or the bounds, whichever branch is taken |
| BTreeDelete.RebalanceMerges | src/storage/btree.rs:464-493 | a child under 768 bytes joins its right neighbour if both fit 3072 bytes, else its left one if they do, and otherwise nothing changes |
| BTreeDelete.DeleteMerges | src/storage/btree.rs:446-500 | at every level of a deletion two children have become one, or the child that lost the record is not both underfull and able to join a neighbour |
| BTreeDelete.OneMergeOnly | src/storage/btree.rs:464-493 | a concrete node where a second merge would still have been possible: only one is tried |
| BTreeDelete.DeleteRecCorrect | src/storage/btree.rs:426-503 | deletion at any depth removes exactly the key, says whether it existed, and leaves an untouched subtree as it was |
| BTreeDelete.FinalizeCorrect | src/storage/btree.rs:508-522 | root collapse keeps the records, goes on until the root has a key or there is none, lowers the tree, and leaves a root with keys alone |
| BTreeDelete.DeleteCorrect | src/storage/btree.rs:526-530 | delete is map removal, its flag is membership, and the result is again a valid tree |
| BTreeDelete.DeleteTrimmed | src/storage/btree.rs:502-530 | delete never leaves an empty leaf or a single child as the root, nor a taller tree; a one-leaf store loses its root exactly with its last record |
| Capacity.DivideLeafRoomy | src/storage/btree.rs:302-320 | a leaf split by count keeps the byte bound in both halves, and neither half is empty |
| Capacity.DivideNodeRoomy | src/storage/btree.rs:339-357 | an internal split keeps both halves under the split threshold, and neither half is without keys |
| Capacity.RebalanceRoomy | src/storage/btree.rs:464-493 | merging keeps every node within its byte bound |
| Capacity.PutRoomy | src/storage/btree.rs:370-390 | put with a key of its key space, at most 75 bytes or, with a file prefix, 4 to 113, keeps every node of a valid tree within its byte bound |
| Capacity.DeleteRoomy | src/storage/btree.rs:526-530 | delete keeps every node within its byte bound |
| Capacity.RunDenotesMap | src/storage/btree.rs:370-530 | after any run of puts and deletes the tree is valid and denotes the map the run describes |
| Capacity.RunTrimmed | src/storage/btree.rs:502-530 | after any run of puts and deletes the root has a key or there is none |
| Capacity.RunFits | src/storage/codec.rs:12-16 | after any run whose put keys are of such lengths every node fits a page |
| CapacityLimit.RunOverflows | src/storage/btree.rs:302-320 | in both key spaces a concrete run of 45 puts with keys one byte longer leaves a leaf of 4098 bytes |
| CapacityLimit.CapacityIsExact | src/storage/codec.rs:12-16 | every run with keys up to a limit fits its pages if and only if the limit is at most 75 bytes, or 113 where every key has the four bytes of a file prefix |
| PageFit.NodesFit | src/storage/codec.rs:38-40 | in a tree whose nodes fit, the page image of every node has an encoded length of at most one page |
| PageFit.RoomyStagesFit | src/storage/codec.rs:12-16 | a writer whose tree is within the byte bound stages only nodes that fit a page |
| PageFit.ShortRunRoomy | src/storage/btree.rs:370-530 | in every run whose puts have such keys, every tree ever committed and the writer's is within the byte bound |
| PageFit.StagedPagesFit | src/storage/txn.rs:163-165 | in every run whose puts have such keys, no page a commit flushes trips the assertion of encode_page |
| PageFit.CommittedFits | src/storage/codec.rs:12-16 | in every run, whatever the keys, every tree ever committed has only nodes that fit a page |
| PageFit.RunStaysTrimmed | src/storage/btree.rs:502-530 | in every run of the protocol every tree ever committed has a root with a key, or none |
| PageFit.StagedFitIff | src/storage/txn.rs:163-165 | at every moment of every run the pages a commit would flush all fit if and only if every node of the writer's tree does |
| RunLimit.RunStagesOversized | src/storage/txn.rs:163-165 | the 45 puts are a run of the protocol, at whose end a staged page is too large |
| RunLimit.StagedFitIsExact | src/storage/txn.rs:163-165 | in every run of the protocol with put keys up to a limit all staged pages fit at every moment if and only if the limit is 75, or 113 with a file prefix |
| Pages.JoinChunks | src/storage/btree.rs:251-259 | cutting a value into chunks loses nothing; all chunks but the last have 4000 bytes, and there are ceil(n/4000) |
| Pages.SwapRemoveAt | src/storage/btree.rs:191-194 | the entry taken out of the free list is replaced by the last one, and no other moves |
| Pages.AtKept | src/storage/btree.rs:200-205 | frame: a stored tree stays stored as long as its own pages are left alone |
| Pages.MovedTrans | src/storage/btree.rs:140-166 | two operations that each balance the page ledger balance it together |
| Pages.ReadyAfter | src/storage/btree.rs:140-166 | a balanced operation keeps the ledger in order and leaves bystander pages untouched |
| CtxModule.Ctx.FirstReclaimable | src/storage/btree.rs:191 | the first free entry no reader can need, or none |
| CtxModule.Ctx.Draw | src/storage/btree.rs:187-198 | exactly which id is handed out, and that only the pool it came from changes |
| CtxModule.DrawnMoves | src/storage/btree.rs:182-198 | that id is one the transaction may write and nothing else holds, and the ledger stays balanced |
| CtxModule.DrawReuses | src/storage/btree.rs:187-198 | while a scratch page or a free page old enough is left, one of these is handed out and the file does not grow |
| CtxModule.Ctx.Alloc | src/storage/btree.rs:187-198 | both of the above for one call |
| CtxModule.Ctx.MarkObsolete | src/storage/btree.rs:211-215 | a committed page joins the obsolete list, a page of this transaction changes nothing |
| CtxModule.Ctx.Retire | src/storage/btree.rs:228-234 | a staged page leaves the overlay for the scratch pool, a committed one becomes obsolete, nothing else changes |
| CtxModule.Ctx.PutNode | src/storage/btree.rs:236-238 | one staged page changes, only if it is the transaction's own, and the ledger stays balanced |
| CtxModule.Ctx.Read | src/storage/btree.rs:63-69 | the overlay's node if there is one, else the page on disk |
| CtxModule.Ctx.StoreValue | src/storage/btree.rs:247-260 | the value is stored inline or in a chain of pages of its own, and reads back as itself |
| CtxModule.Ctx.WriteChain | src/storage/btree.rs:251-258 | writing back to front leaves a finite chain of fresh pages holding the chunks in order |
| CtxModule.Ctx.RetireValue | src/storage/btree.rs:270-279 | exactly the pages of the value's chain, in order and once each, become obsolete |
| TreePut.StoredSize | src/storage/btree.rs:49-52 | the size of stored values is that of the values they stand for |
| TreePut.UpsertValue | src/storage/btree.rs:291-300 | overwriting retires the old value's pages, and the leaf's values end up stored |
| TreePut.FinishLeaf | src/storage/btree.rs:301-329 | a changed leaf lands on one page or two, the pages accounted for, as the split on values says |
| TreePut.FinishNode | src/storage/btree.rs:338-366 | the same for an internal node |
| TreePut.InsertRec | src/storage/btree.rs:287-368 | the pages hold exactly the tree the insertion on values yields; every page id is accounted for |
| TreePut.GrowRoot | src/storage/btree.rs:381-385 | a fresh page holds the new root over the two halves |
| TreePut.Put | src/storage/btree.rs:370-390 | over pages, put refines put on values, balances the ledger and touches no page it does not own |
| TreeDelete.SizeAgrees | src/storage/btree.rs:392-394 | the encoded length of a page image is the size of the subtree's top node |
| TreeDelete.MergeAgrees | src/storage/btree.rs:400-420 | merging page images agrees with merging on values and never meets mixed variants |
| TreeDelete.IsUnderfull | src/storage/btree.rs:422-424 | the byte test on the page decides as the test on values |
| TreeDelete.MergePair | src/storage/btree.rs:469-477 | two sibling pages become one, both old pages retired, exactly as the merge on values |
| TreeDelete.RebalanceNode | src/storage/btree.rs:464-493 | over pages, sibling merging refines rebalancing on values and balances the ledger |
| TreeDelete.DeleteRec | src/storage/btree.rs:426-503 | over pages, deletion refines deletion on values; when nothing was removed nothing at all changed |
| TreeDelete.FinalizeRoot | src/storage/btree.rs:508-522 | over pages: every discarded root is retired, and what is left is a root with a key or none, as the collapse on values says |
| TreeDelete.Delete | src/storage/btree.rs:526-530 | over pages, delete refines delete on values and balances the ledger; the root left has a key, and a one-leaf tree loses its root exactly with its last record |
| TreeRead.ReadChain | src/storage/overflow.rs:35-45 | walking a chain returns exactly the bytes that were stored |
| TreeRead.ResolveValue | src/storage/btree.rs:75-80 | an inline or chained value reads back as itself |
| TreeRead.Get | src/storage/btree.rs:82-97 | the descent over pages ends and answers what a search of the denoted records answers |
| TreeRead.Collect | src/storage/btree.rs:116-138 | the records of the subtree in range are appended, in order, and nothing else |
| TreeRead.Range | src/storage/btree.rs:102-114 | exactly the records of the tree in range, in key order |
| FreeList.BatchesCount | src/storage/freelist.rs:56-57 | n entries take ceil(n/200) pages, all but the last full, none empty |
| FreeList.Load | src/storage/freelist.rs:36-46 | loading walks the whole chain and yields its entries in chain order |
| FreeList.Store | src/storage/freelist.rs:50-63 | what is stored loads back as the same entries, last batch first, on exactly ceil(n/200) fresh pages at the end of the file |
| FreeList.BackToFrontAt | src/storage/freelist.rs:37-64 | where a load after a store finds each entry: the batch written last comes first |
| PagerFile.Pager.Open | src/storage/pager.rs:96-120 | an error exactly when neither slot decodes; otherwise the newest decodable meta page, slot 0 on a tie, and its slot active |
| PagerFile.Pager.WriteMetaSlot | src/storage/pager.rs:134-135 | the write alone: only the named slot changes, and it is not durable yet; the sync of line 136 is SyncData |
| PagerFile.Pager.SyncData | src/storage/pager.rs:136-164 | everything written so far is durable |
| Protocol.OursApart | src/storage/txn.rs:58-63 | no page the writer may reuse belongs to the committed tree, to a free-list chain, or to a snapshot at or above the watermark |
| Protocol.WatermarkIsLeast | src/storage/txn.rs:48-50 | the watermark is no later than any registered reader |
| Protocol.WatermarkIsOldest | src/storage/txn.rs:48-50 | the watermark is one of the registered readers, the oldest, and 2^64 - 1 when there is none |
| Protocol.OursIsReleased | src/storage/txn.rs:55-77 | a writer that begins may write exactly the pages past the end and those free entries whose transaction is past every registered reader |
| Protocol.BeginWriteInv | src/storage/txn.rs:55-77 | starting a writer keeps the system invariant: every pinned snapshot is guarded by its watermark |
| Protocol.ChangeInv | src/storage/txn.rs:144-157 | a put or delete keeps the committed version and every snapshot intact |
| Protocol.NewIntact | src/storage/txn.rs:163-194 | after flushing and storing the free list the new version is complete on disk and its pages are conserved |
| Protocol.HeldAcross | src/storage/txn.rs:178-183 | a page a guarded reader needs stays out of reach in the next version: still in its tree, or freed later than the reader |
| Protocol.PublishInv | src/storage/txn.rs:198-199 | publishing the new version keeps the invariant |
| Protocol.RollbackInv | src/storage/txn.rs:207-213 | dropping a writer keeps the invariant |
| Protocol.RecoverFinds | src/storage/pager.rs:100-118 | after any crash open finds a meta page, and it is the last published one or the one being written |
| Protocol.CrashRecovers | src/storage/pager.rs:96-120 | from any state satisfying the invariant, the version open finds is complete and not older than the last published one |
| Protocol.RunInv | src/storage/txn.rs:36-214 | the invariant holds at every point of every run |
| Protocol.HistoryGrows | src/storage/txn.rs:106-107 | what was committed as transaction t stays what t means |
| Protocol.ReadsOne | src/storage/btree.rs:63-97 | a root and a disk determine the records behind it: no reader can find two different stores |
| Protocol.SnapshotIsolation | src/storage/txn.rs:1-5 | in every run, a reader registered for transaction t finds exactly the records committed as t, and no others, whatever happened since |
| Protocol.CommittedReadable | src/storage/txn.rs:42-46 | at every point of every run the committed root leads to the committed records, and its pages are conserved |
| Protocol.CrashAtomicity | src/storage/pager.rs:19-22 | in every run, a crash anywhere recovers all of the last acknowledged version or all of the one being committed |
| Protocol.CrashMidOperation | src/storage/overflow.rs:9-17 | a crash inside a put, delete or flush is one a crash at its start could be: what it was writing is assumed arbitrary anyway |
| Protocol.CrashInsideOperation | src/storage/overflow.rs:9-17 | in every run, a crash inside a put, delete or flush recovers the whole committed version |
| Protocol.OwnWriteIsMid | src/storage/overflow.rs:9-17 | from any file such a crash covers, writing any page the transaction owns, with anything, leads to another |
| Protocol.LedgerStepIsMid | src/storage/btree.rs:253-257 | every ledger step, such as writing one overflow chunk, leaves a file that such a crash covers |
| Protocol.FlushStepIsMid | src/storage/txn.rs:163-165 | so does flushing one staged page |
| Protocol.BeyondIsMid | src/storage/freelist.rs:56-61 | so does writing free-list pages beyond the old end of the file |
| Protocol.RollbackLeavesNoTrace | src/storage/txn.rs:204-213 | after any puts and deletes and a rollback, version, history, meta slots, free list and all snapshots are as before |
| Protocol.PageConservation | src/storage/txn.rs:115-119 | during a transaction every id from 2 to next_page is in the tree, in one pool, or a chain page, exactly once |
| Protocol.CopyOnWriteExact | src/storage/txn.rs:163-165 | the pages staged for flushing are exactly the new tree's nodes that the committed tree lacks, and no live snapshot, committed tree or free-list chain reaches them |
| Protocol.WrittenPagesAreClear | src/storage/overflow.rs:9-17 | whatever a transaction wrote to disk before its commit, overflow pages included, no live snapshot, committed tree or free-list chain reaches |
| Race.OvertakenReaderMisreads | src/storage/txn.rs:42-46 | a concrete run in which a registered reader that was overtaken reads transaction 3's record as transaction 1's, and not its own |
| Race.IsolationIsExact | src/storage/txn.rs:42-63 | every registered reader of every run reads its snapshot if and only if no copy that was overtaken may register |
| ProcessDeath.DieSettled | src/storage/pager.rs:96-120 | a process death that leaves no unsynced meta page behind keeps the system invariant |
| ProcessDeath.CarefulSurvives | src/storage/pager.rs:96-147 | with a sync before the next writer, a loss of power after any mix of the two crashes brings back the committed version, the one in flight or, while unsettled, the one before, complete, with its own records, and none older than the last acknowledged one |
| ProcessDeath.CarelessLosesAVersion | src/storage/pager.rs:96-147 | without it, a concrete run of a process death and a loss of power ends with a meta page whose tree is gone |
| ProcessDeath.AcknowledgedStays | src/storage/pager.rs:96-147 | in a store with that sync no acknowledged transaction is ever lost or changed, over any mix of the two crashes |
| ProcessDeath.SurvivalIsExact | src/storage/pager.rs:96-147 | recovery brings back one of these versions, complete, after every mix of the two crashes if and only if that sync comes before the next writer |
| Txn.Environment.Open | src/storage/txn.rs:37-40 | reopening after any loss of power in any run succeeds with a recoverable version, continues the run, and keeps the byte bound |
| Txn.Environment.CopyMeta | src/storage/txn.rs:43 | the first half of begin_read: the committed meta page, and a step of the protocol |
| Txn.Environment.Register | src/storage/txn.rs:44-45 | the second half, any number of steps later: a copy that was not overtaken becomes a valid reader of its own transaction |
| Txn.Environment.BeginRead | src/storage/txn.rs:42-46 | both halves: the reader's root is that of the committed transaction it registers for |
| Txn.Environment.OldestReaderTxnId | src/storage/txn.rs:48-50 | the least of the registered ids, which is one of them, or the no-reader limit |
| Txn.Environment.BeginWrite | src/storage/txn.rs:55-77 | the writer starts on the committed tree with its free list; it may reuse exactly what every registered reader is past, and while there is any of that its first page is not a new one; copies it overtakes are counted |
| Txn.ReadTxn.Get | src/storage/txn.rs:88-90 | answers from the records of its own snapshot |
| Txn.ReadTxn.Range | src/storage/txn.rs:92-94 | the records of its own snapshot in range |
| Txn.ReadTxn.Drop | src/storage/txn.rs:97-104 | one registration of its id disappears, nothing else |
| Txn.WriteTxn.Get | src/storage/txn.rs:136-138 | answers from the transaction's own uncommitted records |
| Txn.WriteTxn.Range | src/storage/txn.rs:140-142 | the transaction's own uncommitted records in range |
| Txn.WriteTxn.Put | src/storage/txn.rs:144-148 | the transaction's records are upserted; nothing committed changes; a short key keeps the byte bound; a crash at its end is covered by one at its start |
| Txn.WriteTxn.AnyWriteIsMid | src/storage/overflow.rs:9-17 | at every moment of an operation, every write the page file accepts leads to a file that a crash at the operation's start covers |
| Txn.WriteTxn.Delete | src/storage/txn.rs:151-157 | the transaction's records lose the key, the flag is membership; nothing committed changes; the byte bound is kept |
| Txn.WriteTxn.FlushOverlay | src/storage/txn.rs:163-165 | succeeds exactly when every staged node fits a page, and then each is written as staged; if not, only staged pages have been touched |
| Txn.WriteTxn.StoreFreeList | src/storage/txn.rs:176-194 | what was left over, then what became obsolete, then unused scratch pages, in this order and tagged with the new transaction id, are stored beyond the old end of the file |
| Txn.WriteTxn.WriteData | src/storage/txn.rs:167-194 | after the flush: the new version is on disk, not yet durable, and the committed one untouched |
| Txn.PartialFlushIsNext | src/storage/txn.rs:163-165 | a flush that stopped half way is a step of the protocol, so every theorem about runs holds after it |
| Txn.WriteTxn.Unwind | src/storage/codec.rs:12-16 | after the panic the committed version is what it was and intact on disk, and the lock is free |
| Txn.WriteTxn.SwapMeta | src/storage/txn.rs:196-199 | sync, other slot, sync, publish, each a separate protocol step |
| Txn.WriteTxn.Commit | src/storage/txn.rs:162-202 | succeeds exactly when every node of the transaction's tree fits a page: then the tree is the next entry of the history; else nothing is published. Always succeeds within the byte bound |
| Txn.WriteTxn.Rollback | src/storage/txn.rs:207-213 | the committed version is what it was and still intact on disk, the lock is free |
| Codec.NodeRoundTrip | src/storage/codec.rs:28 | the node layout is decided by its prefix: whatever follows, parsing returns the node and the rest |
| Codec.MetaRoundTrip | src/storage/pager.rs:47-57 | the same for the meta page, magic included |
| Codec.EncodePage | src/storage/codec.rs:9-21 | the buffer is checksum, body, zero padding |
| Codec.PageRoundTrip | src/storage/codec.rs:23-34 | whatever is encoded into a page decodes to itself, despite the padding |
| Codec.DecodeChecks | src/storage/codec.rs:23-34 | what is accepted is what was parsed, fits, and has the stored checksum; a page whose checksum does not match is refused, and nothing else is |
| Codec.ByteOrder | src/storage/pager.rs:24-34 | integers stand least significant byte first: the bytes of the magic number and of a transaction id |
| Codec.LeafLayout | src/storage/btree.rs:42-58 | the bytes of a leaf with one inline record: variant words, lengths, key and value in their places |
| Codec.OverflowLayout | src/storage/btree.rs:42-58 | the bytes of a leaf with one overflowing record |
| Codec.InternalLayout | src/storage/btree.rs:42-58 | the bytes of an internal node with one separator and two children |
| Codec.OtherLayouts | src/storage/pager.rs:24-34 | the bytes of a meta page, an overflow page and a free-list page |
| Codec.EncodedLenIsExact | src/storage/codec.rs:38-40 | encoded_len is the length of the serialized body plus four |
| Codec.NodePageRoundTrip | src/storage/codec.rs:9-34 | every node whose encoded_len is within a page decodes from its page |
| Codec.MetaPageRoundTrip | src/storage/pager.rs:47-57 | every meta page fits and decodes from its page |
| Codec.OverflowPageRoundTrip | src/storage/btree.rs:253-256 | every chunk store_value cuts fits and decodes from its page |
| Codec.FreeListPageRoundTrip | src/storage/freelist.rs:56-59 | every batch of the free list fits and decodes from its page |
| FileControl.FileControlTable.Define | src/runtime/file_control.rs:25-30 | names keep distinct ids until the 32-bit counter wraps |
| FileControl.StorageOrder | src/runtime/file_control.rs:37-42 | byte order of storage keys is file order, then record-key order |
| FileControl.FileOf | src/runtime/file_control.rs:3-6 | every storage key belongs to exactly one file |
| FileControl.WriteIsLocal | src/runtime/file_control.rs:52-60 | storing a record upserts it in its own file and changes no other file |
| FileControl.DeleteIsLocal | src/runtime/file_control.rs:75-82 | deleting a record removes it from its own file and changes no other file |
| FileControl.ReadIsLocal | src/runtime/file_control.rs:45-48 | reading a storage key is reading the record in its file |
| FileControl.RangeIsFile | src/runtime/file_control.rs:96-99 | the range up to the next file's prefix is the file's own records from the start key on |
| FileControl.BrowseIsRightIff | src/runtime/file_control.rs:89-103 | a browse yields the first records of the file from the start key on, as many as there are up to the limit, exactly when the file is not the last possible one or there is nothing to return |
| FileControl.StoredKeyShort | src/runtime/file_control.rs:64-72 | a key already stored in a store within the byte bound is short, so REWRITE cannot break the bound |
| FileControl.LastFileBrowseFails | src/runtime/file_control.rs:98 | the concrete failing case of the wrapping bound |
| FileControl.ExecRead | src/runtime/file_control.rs:45-48 | the record of that file, or which error |
| FileControl.ExecWrite | src/runtime/file_control.rs:52-60 | duplicate keys are refused; otherwise one file gains one record; a record key of at most 109 bytes keeps the byte bound |
| FileControl.ExecRewrite | src/runtime/file_control.rs:64-72 | missing keys are refused; otherwise one file has one record replaced |
| FileControl.ExecDelete | src/runtime/file_control.rs:75-82 | missing keys are refused; otherwise one file loses one record |
| FileControl.ExecBrowse | src/runtime/file_control.rs:89-103 | the answer is a prefix of the file's records from the start key on, of length min(limit, how many there are), except that the last possible file answers nothing |
| UnitsOfWork.RunFaithful | src/runtime/region.rs:129-252 | whatever commands a program issues at any LINK level, only kept units reach the committed records |
| UnitsOfWork.ReadAnswers | src/runtime/file_control.rs:45-48 | READ answers a program with the file's record, or which error |
| UnitsOfWork.BrowseAnswers | src/runtime/file_control.rs:89-103 | BROWSE answers a program with the file's first records from the start key on, except for the one file whose bound wraps |
| UnitsOfWork.ProgramLaw | src/runtime/region.rs:129-140 | a name leads to the program its table entry yields for exactly the given COMMAREA, or to the error that names it, with the task unchanged |
| UnitsOfWork.LinkLaw | src/runtime/region.rs:177-195 | LINK at level 64 is an error the caller sees; below, the program runs one level deeper and the caller goes on with its answer |
| StackMachine.NeverDeeper | src/runtime/region.rs:177-182 | on a machine that steps through commands with a stack of callers, never more than 64 programs are open |
| StackMachine.MachineAgrees | src/runtime/region.rs:118-195 | a program ends with an answer in the recursive semantics if and only if the machine halts with it, and both leave the same task |
| StackMachine.ProgramAgrees | src/runtime/region.rs:129-140 | so does every program that a name and a COMMAREA lead to, or their absence |
| StackMachine.EchoAnswers | src/runtime/region.rs:129-148 | a program that returns its COMMAREA answers a LINK, an XCTL and a task of its own with the COMMAREA given |
| StackMachine.RunawayIsRefused | src/runtime/region.rs:177-182 | a program that LINKs itself without end is answered with the overflow error, on every fuel of at least 65, and leaves the store alone |
| StackMachine.EndsAtOnce | src/runtime/region.rs:57-108 | a task whose program ends at once, or is not defined, is answered with what it returns, its error, or that it is missing |
| StackMachine.FirstAnswer | src/runtime/region.rs:57-108 | whenever a dispatch ends, its first answer is the machine's answer to the request |
| UnitsOfWork.MoreFuel | src/runtime/region.rs:129-149 | a program that ended on some fuel ends the same way on more |
| UnitsOfWork.RunTaskFaithful | src/runtime/region.rs:68-93 | a task leaves the fold over its kept units, and its last unit is kept iff it returned normally |
| UnitsOfWork.DispatchIsFold | src/runtime/region.rs:57-108 | the store ends as the fold over all tasks' kept units in dispatch order; requests are served first come first served |
| UnitsOfWork.FuelIsUnobservable | src/runtime/region.rs:57-108 | a dispatch that worked off its queue has the same outcome for every larger number of tasks and commands |
| UnitsOfWork.NothingCommitted | src/runtime/region.rs:239-252 | programs that never issue a SYNCPOINT commit nothing, through any LINK or XCTL |
| UnitsOfWork.AbendLeavesNoTrace | src/runtime/region.rs:87-93 | a task that abends leaves the store as it was if no program in the table ever issues a SYNCPOINT |
| Growth.KeptDenoted | src/runtime/region.rs:68-93 | the tree that a series of units grows, put by put and delete by delete, denotes the records that the series leaves |
| Growth.RunShort | src/runtime/file_control.rs:52-72 | programs that WRITE only short keys put only short keys, through every LINK, XCTL, REWRITE and syncpoint |
| Growth.ShortDispatchFits | src/storage/codec.rs:12-16 | from any store within the byte bound, every dispatch of programs that WRITE record keys of at most 109 bytes grows only trees whose nodes fit at every commit |
| LongKeys.PanicIsExact | src/storage/codec.rs:12-16 | from an empty store, every dispatch of programs that WRITE keys up to a limit grows such trees if and only if the limit is at most 109 bytes |
| LongKeys.FillPanics | src/runtime/region.rs:80-86 | a concrete region, on a new store, panics in the task that writes empty keys into 38 files and seven keys of 110 bytes into the next |
| RegionModule.ExecCtx.Read | src/runtime/region.rs:207-210 | on the open transaction, the file's record or which error |
| RegionModule.ExecCtx.Write | src/runtime/region.rs:213-216 | on the open transaction, result and records equal to the semantics |
| RegionModule.ExecCtx.Rewrite | src/runtime/region.rs:219-222 | on the open transaction, result and records equal to the semantics |
| RegionModule.ExecCtx.Delete | src/runtime/region.rs:225-228 | on the open transaction, result and records equal to the semantics |
| RegionModule.ExecCtx.Browse | src/runtime/region.rs:232-235 | on the open transaction, the file's first records from the start key on, except for the one file whose bound wraps |
| RegionModule.ExecCtx.Start | src/runtime/region.rs:198-204 | the request joins the back of the queue |
| RegionModule.ExecCtx.Syncpoint | src/runtime/region.rs:239-244 | the unit is committed and a fresh transaction is open on it; or the commit panics, because the tree the unit grows has an oversized node, and the units closed before stay |
| RegionModule.ExecCtx.SyncpointRollback | src/runtime/region.rs:248-252 | the unit is discarded and a fresh transaction is open on the committed records |
| RegionModule.ExecCtx.Close | src/runtime/region.rs:80-93 | the end of a task: a normal one commits, or panics because the tree has an oversized node; an abend backs out |
| RegionModule.ExecCtx.LinkTo | src/runtime/region.rs:177-195 | one level deeper and never beyond 64; too deep is an error the caller sees |
| RegionModule.ExecCtx.RunProgramLoop | src/runtime/region.rs:118-149 | the XCTL loop on the real environment computes what the semantics says, or stops at a panic on the way there, at a unit whose tree does not fit |
| RegionModule.ExecCtx.Command | src/runtime/region.rs:198-252 | each File Control, START and SYNCPOINT ROLLBACK command leaves a program whose meaning on the new state is the meaning of the whole on the old, and keeps every node within its page |
| RegionModule.ExecCtx.Suspend | src/runtime/region.rs:177-244 | a LINK or SYNCPOINT comes back with the rest of the program as the semantics says, or not at all: out of fuel, or at a panic on the way |
| RegionModule.ExecCtx.Execute | src/runtime/region.rs:140-148 | a program's commands on the real environment compute what the semantics says, or stop at a panic on the way there, at a unit whose tree does not fit |
| RegionModule.Region.RunOne | src/runtime/region.rs:68-93 | one task on the real environment: a normal end commits, an abend backs out, a panic keeps exactly the units closed before and names the one that does not fit |
| RegionModule.Region.StartTask | src/runtime/region.rs:57-108 | an answer is the one the machine gives the request, and the store is the fold the semantics says; it panics if and only if the tree that the semantics' units grow has an oversized node at one of their commits, keeps the units closed before, and never does if programs WRITE keys of at most 109 bytes |

## Left out

- RegionModule.Region.StartTask: tasks and commands carry fuel, because XCTL and START can run forever; the contract
  speaks of runs that end within it, and `UnitsOfWork.FuelIsUnobservable` says that how much there was does not matter.
- Txn.Environment.Open: here a crash is a loss of power. The death of the process alone is treated on the protocol's
  states, in `ProcessDeath`, not on this class; there a write that a dying process had issued to a meta page is taken to
  be either done or not done.
- Txn.WriteTxn.Commit: an I/O error inside it is treated as a crash, after which nothing continues.
- PagerFile.Pager.Create: a file that does not exist yet is created complete; an interrupted creation, before both meta
  slots exist, is not modelled.
- BTreeDelete.DeleteCorrect: no root means no records; the converse is not claimed, since merging is best-effort.
- Codec.PageRoundTrip: CRC-32 is an arbitrary function. That a torn meta page does not decode, and that a page read back
  unharmed does, are assumptions; the page file therefore holds decoded pages, and the round trips justify it.
- FileControl.FileControlTable.Define: the wrap of the id counter is modelled as in a release build; a debug build panics.
- UnitsOfWork.DispatchIsFold: the semantics of programs has no panic of its own; exactly when the region panics, and
  what that leaves, is in the contract of `RegionModule.Region.StartTask`.
- Real file access, offsets, `io::Error`, `expect` on reads of pages that exist.
- Locks, atomics and Rust's lifetimes: at most one writer, one protocol step at a time.
- Wrap-around of transaction and page ids at 2^64, and `usize` limits.
- `binary_search_by` and `partition_point` are modelled by what they return, not by their bisection.
- Programs are trees of commands with arbitrary continuations, not Rust closures; they cannot loop without a command.
- `link_external`, the program table's locking, task ids, the EIB, error texts, `task_count_hint`.
- The bank demo, the measurements of file growth and the repository's own tests.
