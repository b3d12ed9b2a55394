# A verified model of the SampleDB engine

SampleDB is a small relational database engine in C++. This project models the parts of it that carry hard
promises and proves them with Dafny 4.11. `dafny verify dfyconfig.toml` checks everything.

**The B-tree index** (`BTreePages`, `BTreeDirectory`, `BTreeLeaves`, `BTreeIndexes`, `BTreeRuns`, `DeadSlots`,
`BTreeLookups`, `HiddenKeys`). The code works a block at a time on files (`class BlockFile`, `BTreeDir`, `BTreeLeaf`,
`BTreeIndex`). Next to it stands the index as a value: a tree of directory pages and leaves with overflow chains. The
methods are proved equal to functions on that value, and the functions to refine a plain multiset of (key, record
place). A lookup is the search as the code writes it, page by page over the directory file, which may go astray. Keys
are ranks, real numbers that order exactly as the integers or the strings of one column do (`Constants`).

**Transactional storage** (`Pages`, `LogFile`, `LogRecords`, `RecoveryLog`, `Recovery`, `RecoverySafety`,
`Commits`, `RecoveryMgrs`, `Locks`, `BufferPool`, `BufferMgrs`). The log is modelled down to its bytes. Recovery is a transition
system whose steps are small: an update is logged in one step and reaches the page in another; a buffer may be
written back, evicted or loaded, and the log saved, between any two; and the machine may stop between any two steps,
inside a commit, a rollback or a recovery too. A run is any sequence of enabled steps. The loops of the recovery manager, the
lock table and the buffer pool are classes proved against the functions the transition systems use.

**Query execution** (`Rows`, `Schemas`, `Sort`, `GroupBy`, `Predicates`, `Query`, `Plans`, `Typing`, `Planner`,
`PlannerFailures`, `Answers`). External merge sort with its lazy last merge, sort-based grouping, the cursor tree, predicate
pushdown and the planner. Where the source throws, goes through a null pointer or shows a row it does not have, the
methods have no result (`Option`), and their contracts say exactly when. `Answers` says what the answer to a query is in
terms of the stored rows and their values alone.

**Records and their indexes** (`Layouts`, `Storage`, `IndexUpdates`, `TableIndexes`), and **the query printer and parser**
(`QueryDatas`, `Tokens`, `Printing`, `Parsing`, `Conditions`, `RoundTrip`).

## Where the code departs from its intent, or the obvious claim is false

Each of these is stated exactly, with a condition a caller can check.

- `src/indexing/BTreeDir.cpp:65` reads the slot after the last live one. On a page the search is right exactly when that
  dead slot does not hold the key (`FindChildExact`), on its whole way exactly when none does (`Clean`, `WayExact`).
  After any run from a new index the root page alone tells (`RootTells`): the default key apart, at most one key can be
  hidden, the one in the root's first dead slot, and after insertions of new keys it is a separator
  (`HiddenIsSeparator`). Every other key is found (`RunLookup`, `NewKeysRefine`). It does happen: `FourthIsLost` inserts
  four ascending keys and the fourth cannot be looked up (`RootKeepsStaleSeparator` is the page); `ZeroGoesAstray` and
  `ZeroMeetsDeadSlot` do it to the default. The operations of an index require `Clean` of their key; runs that insert
  new keys always meet this (`NewKeysReady`), and `RunReadyExactly` says which others do.
- Removing from a leaf with an overflow chain can orphan the chain or leave an empty block that is still reported as
  a hit (`src/indexing/BTreeLeaf.cpp:30-37` and `:96-100`). `RemoveAnswers` says exactly when it does not.
- Page capacities (`src/indexing/BTreePage.cpp:27-29`): a directory page must not be full with two entries
  (`GrownRoot`, `TwoEntryPages`), nor a leaf with one record (`LeafCapacity`). `RoomFor` says what block sizes do.
- `src/logging/LogMgr.cpp:47-52` grows the log file and writes the new header in two steps. A crash between them
  leaves a zero block that the iterator reads as empty records (`AppendCrash`, `TornRecords`).
- `src/tx/ConcurrencyMgr.cpp:10-11` records a lock before it is granted. After a timeout the release can take
  somebody else's lock away (`UnlockAgrees`, `TimeoutSteals`).
- `src/scan/ProductScan.cpp:6` does not notice an empty left side (`CountProduct`). The product of several inputs is
  right exactly when the last one is empty or none is (`InputsMatch`, `ProductOf`).
- `src/materialize/SortScan.cpp:6` needs a first run, so whatever is sorted or grouped must have rows. And a sort on a
  field the rows do not have goes through exactly when the fields before it tell all rows apart (`Sortable`).
- `src/plan/BasicQueryPlanner.cpp:10` clears the list of aggregates for each subquery, and the subquery leaves its own
  behind (`KeepsAggregates`). Asking for a lost aggregate makes planning throw (`LostAggregates`); one left behind makes
  the query fail when its input does not have the field (`LeakedAggregates`).
- `src/materialize/GroupByPlan.cpp:13-15` gives every aggregate an integer column, and `src/record/Schema.cpp:17-20`
  gives a field of both sides of a product the right side's type although the left side's value is shown. Storing a
  string in an integer column goes through a null pointer (`StringMaximum`, `SharedColumn`). `RunQuery` says of every
  query exactly when no step fails, and `TypeSafety` what can be seen before it is run.
- Pushing a term down to the right side is right exactly when it has no field that both sides have (`PushdownExact`).
- `src/indexing/IndexUpdatePlanner.cpp:77-88`: an insert that leaves an indexed field out, or names it twice, puts
  index and table out of step (`InsertAgrees`).
- A rollback (`src/tx/RecoveryMgr.cpp:49-62`) gives a block back as it was when the transaction locked it. That is the
  block at the transaction's start exactly when the block was still so at the lock (`RollbackToStart`,
  `StartValueLost`), as it is when nobody else locks the block in between (`UnlockedStays`).
- `src/scan/Term.cpp:65` prints a condition without spaces around `=`, which the tokenizer needs: a query is
  read back exactly when it has no conditions (`PrintParse`), while with the spaces, and with strings in quotes, all of it is
  (`SpacedParse`).

## Model

| member | source | states |
|---|---|---|
| Constants.RankOrder | src/scan/Constant.cpp:4-26 | ranks order and identify the constants of one kind exactly as the operators do |
| BTreePages.BlockFile.IsFull | src/indexing/BTreePage.cpp:27-29 | the capacity test, equal to a bound on the record count |
| BTreePages.FullFrom | src/indexing/BTreePage.cpp:27-29 | a page is full exactly from one record count on |
| BTreePages.RoomFor | src/indexing/BTreePage.cpp:27-29 | from which block size on a page takes k records before it is full |
| BTreePages.CountBefore | src/indexing/BTreePage.cpp:10-17 | how many leading records are below the key |
| BTreePages.BlockFile.FindSlotBefore | src/indexing/BTreePage.cpp:10-17 | the search loop finds that position |
| BTreePages.BlockFile.AppendNew | src/indexing/BTreePage.cpp:52-66 | a formatted block is added at the end and no other block changes |
| BTreePages.BlockFile.Insert | src/indexing/BTreePage.cpp:161-166 | the shifting loop opens a slot and keeps every record; dead slots are described too |
| BTreePages.BlockFile.Remove | src/indexing/BTreePage.cpp:102-109 | the shifting loop closes a slot; the last record stays behind as a dead one |
| BTreePages.BlockFile.TransferRecs | src/indexing/BTreePage.cpp:175-187 | the records from a slot on move to the other page, in order |
| BTreePages.BlockFile.Split | src/indexing/BTreePage.cpp:31-38 | the new block holds the right part, the old one the left part, nothing else changes |
| BTreeDirectory.FindChildExact | src/indexing/BTreeDir.cpp:63-71 | findChildBlock follows the floor entry exactly when no dead slot holds the key |
| BTreeDirectory.FloorStep | src/indexing/BTreeDir.cpp:14-23 | the floor entry of a node is the floor entry of the child its page routes to |
| BTreeDirectory.BTreeDir.FindChildBlock | src/indexing/BTreeDir.cpp:63-71 | the code, with its read of the slot after the last key below |
| BTreeDirectory.WayExact | src/indexing/BTreeDir.cpp:14-23 | the search as written reads the pages the separators name, and no other, exactly when no dead slot misleads it |
| BTreeDirectory.SearchExact | src/indexing/BTreeDir.cpp:14-23 | when none misleads it above the last page, it ends, and at the leaf of the floor entry exactly when none on the last page does |
| BTreeDirectory.BTreeDir.Search | src/indexing/BTreeDir.cpp:14-23 | returns the block at which the search, page by page, ends, right or wrong, whenever it ends |
| BTreeDirectory.EntriesSorted | src/indexing/BTreeDir.cpp:14-70 | separators strictly increase over the whole tree, start at the first one and stay under the bound |
| BTreeDirectory.SplitShape | src/indexing/BTreeDir.cpp:54-60 | both halves of a full page are well formed, at least half full and separated by the new entry |
| BTreeDirectory.AddEntrySound | src/indexing/BTreeDir.cpp:46-61 | adding an entry to a page keeps the shape, with or without a split |
| BTreeDirectory.InsertSound | src/indexing/BTreeDir.cpp:35-44 | the recursive insert keeps the shape: levels fall by one, separators bound subtrees and equal the first keys below, no page is left full |
| BTreeDirectory.InsertEntries | src/indexing/BTreeDir.cpp:35-61 | insert adds exactly its entry to the sorted list of entries |
| BTreeDirectory.NewRootSound | src/indexing/BTreeDir.cpp:25-33 | a grown root is well formed, in the same block |
| BTreeDirectory.InsertRootCorrect | src/indexing/BTreeIndex.cpp:63-66 | insert at the root, with makeNewRoot if needed, keeps a well-formed directory in block 0 and adds exactly the entry |
| BTreeDirectory.GrownRoot | src/indexing/BTreeDir.cpp:25-33 | a root that has grown is below full exactly when pages are full at three entries or later |
| BTreeDirectory.TwoEntryPages | src/indexing/BTreeDir.cpp:25-33 | with pages of two entries a new directory is left with a full root and no slot at its first split |
| BTreeDirectory.InsertGrown | src/indexing/BTreeDir.cpp:35-61 | no block is used twice, and new pages go to new blocks only |
| BTreeDirectory.InsertRootBlocks | src/indexing/BTreeIndex.cpp:63-66 | the same at the root, after a root copy as well |
| BTreeDirectory.SubtreeSize | src/indexing/BTreeDir.cpp:46-61 | a subtree at level n has at least floor(full/2)^(n+1) entries |
| BTreeDirectory.HeightBound | src/indexing/BTreeDir.cpp:25-61 | a root at level L >= 1 has at least 2*floor(full/2)^L leaf blocks under it |
| BTreeDirectory.BTreeDir.InsertEntry | src/indexing/BTreeDir.cpp:46-61 | the page code equals the page-level specification |
| BTreeDirectory.BTreeDir.Insert | src/indexing/BTreeDir.cpp:35-44 | the code equals the tree specification and leaves blocks outside the tree alone |
| BTreeDirectory.BTreeDir.MakeNewRoot | src/indexing/BTreeDir.cpp:25-33 | the root page after copying itself down; the old root is the new last block |
| BTreeDirectory.BTreeDir.InsertAtRoot | src/indexing/BTreeIndex.cpp:63-67 | root insert and root growth on the file |
| BTreeLeaves.LookupExact | src/indexing/BTreeLeaf.cpp:15-24 | scanning a leaf and its overflow returns exactly the records with the key, in order |
| BTreeLeaves.SplitPos | src/indexing/BTreeLeaf.cpp:68-81 | the split position is a key boundary with records on both sides |
| BTreeLeaves.SmallerKeyCase | src/indexing/BTreeLeaf.cpp:40-49 | a key below an overflowing leaf: the old records move right under their own separator |
| BTreeLeaves.OverflowCase | src/indexing/BTreeLeaf.cpp:61-66 | a full leaf of one key: all but one record go to a new overflow block |
| BTreeLeaves.BoundaryCase | src/indexing/BTreeLeaf.cpp:67-86 | a full leaf of several keys is cut between two keys |
| BTreeLeaves.LeafInsertSound | src/indexing/BTreeLeaf.cpp:39-87 | insert loses no record and keeps equal keys in one leaf and its chain; chains hold only the first key; new pages are not empty |
| BTreeLeaves.LeafCapacity | src/indexing/BTreeLeaf.cpp:39-66 | an insert leaves all pages below full exactly when leaves are full at two records or later; at one record it starts an overflow chain with an empty block |
| BTreeLeaves.RemoveRecords | src/indexing/BTreeLeaf.cpp:30-37 | remove takes exactly one record with the key and the place, or nothing |
| BTreeLeaves.RemoveShape | src/indexing/BTreeLeaf.cpp:30-37 | a leaf stays well formed exactly when the remove is safe |
| BTreeLeaves.RemoveAnswers | src/indexing/BTreeLeaf.cpp:30-37 | all later lookups are right exactly when the remove is safe or takes the only primary record |
| BTreeLeaves.BTreeLeaf.constructor | src/indexing/BTreeLeaf.cpp:4-9 | positions before the first record of the key |
| BTreeLeaves.BTreeLeaf.TryOverflow | src/indexing/BTreeLeaf.cpp:89-101 | moves along the chain exactly when the key is the first key and a block is linked |
| BTreeLeaves.BTreeLeaf.Next | src/indexing/BTreeLeaf.cpp:15-24 | each call delivers the next matching record |
| BTreeLeaves.BTreeLeaf.FindSplitPos | src/indexing/BTreeLeaf.cpp:68-81 | the two loops find the key boundary |
| BTreeLeaves.BTreeLeaf.Insert | src/indexing/BTreeLeaf.cpp:39-87 | the code equals the leaf specification on the file, in all three outcomes |
| BTreeLeaves.BTreeLeaf.Remove | src/indexing/BTreeLeaf.cpp:30-37 | the code equals the removal specification on the file |
| BTreeIndexes.SearchReaches | src/indexing/BTreeIndex.cpp:40-47 | on a well-formed index that search ends at the leaf of the key exactly when no dead slot misleads it |
| BTreeIndexes.TreeLookup | src/indexing/BTreeIndex.cpp:40-55 | for a key whose search no dead slot misleads, the search as written and next until false give exactly the records of the key in the whole index, and no other answer |
| BTreeIndexes.TreeInsertContents | src/indexing/BTreeIndex.cpp:57-68 | insert adds one record to the contents |
| BTreeIndexes.TreeInsertShape | src/indexing/BTreeIndex.cpp:57-68 | insert keeps the invariant: all leaves at one depth, each bounded by its separators, no block shared |
| BTreeIndexes.TreeRemoveCorrect | src/indexing/BTreeIndex.cpp:70-74 | a safe remove takes one matching record out and keeps the invariant |
| BTreeIndexes.RunContents | src/indexing/BTreeIndex.cpp:40-74 | any run of ready inserts and removes has the contents of a plain multiset |
| BTreeIndexes.RunRefinesMultiset | src/indexing/BTreeIndex.cpp:40-74 | after any such run the lookup of a key that no dead slot hides, by the search as written, gives each record place as often as the multiset holds it |
| BTreeIndexes.BTreeIndex.constructor | src/indexing/BTreeIndex.cpp:8-38 | in empty files a new, empty, well-formed index; an index the files hold already is opened unchanged |
| BTreeIndexes.BTreeIndex.BeforeFirst | src/indexing/BTreeIndex.cpp:40-47 | opens the leaf of the key |
| BTreeIndexes.BTreeIndex.LookUp | src/indexing/BTreeIndex.cpp:40-55 | the loop on the two files returns exactly the matching record places |
| BTreeIndexes.BTreeIndex.Insert | src/indexing/BTreeIndex.cpp:57-68 | the code keeps the files equal to the tree after the insert |
| BTreeIndexes.BTreeIndex.Remove | src/indexing/BTreeIndex.cpp:70-74 | the code keeps the files equal to the tree after the remove |
| BTreeIndexes.ZeroGoesAstray | src/indexing/BTreeDir.cpp:65 | with negative separators only, a search for 0 meets the default in the dead slot and is sent to block 0 |
| BTreeIndexes.RootKeepsStaleSeparator | src/indexing/BTreeDir.cpp:25-33 | a root full at four entries keeps a stale separator behind its live ones after growing, and a search for it takes a leaf number for a directory block |
| BTreeRuns.NoDeadHit | src/indexing/BTreeDir.cpp:63-71 | a key that no slot of the directory holds, live or dead, is never misled |
| BTreeRuns.InsertRootKeys | src/indexing/BTreeDir.cpp:25-61 | an insertion writes no key into a slot but those there, its own and the default |
| BTreeRuns.NewKeysReady | src/indexing/BTreeIndex.cpp:57-68 | every run of insertions of new keys, other than the default of a slot, meets no dead slot, in any order and with any splits |
| BTreeRuns.ZeroMeetsDeadSlot | src/indexing/BTreeDir.cpp:65 | two insertions of negative keys after which the key 0 meets the dead slot of the root |
| DeadSlots.RootDecides | src/indexing/BTreeDir.cpp:63-71 | when the dead slots below the root hold defaults or keys beyond their page, a search for another key than the default is misled exactly by the root page |
| DeadSlots.InsertRootNeat | src/indexing/BTreeDir.cpp:25-61 | insertion keeps the dead slots below the root so, through every split and root copy |
| BTreeLookups.RootTells | src/indexing/BTreeIndex.cpp:40-74 | so after any run from a new index a search for any key but the default is right exactly when the first dead slot of the root does not hold the key |
| BTreeLookups.RunLookup | src/indexing/BTreeIndex.cpp:40-74 | and a lookup of any such key gives what a plain multiset holds under it |
| BTreeLookups.HiddenIsSeparator | src/indexing/BTreeDir.cpp:25-33 | the one key the root may hide is the separator in its first dead slot |
| BTreeLookups.NewKeysRefine | src/indexing/BTreeIndex.cpp:40-68 | after insertions of new keys a lookup by the search as written is right for every key but the default and a separator that the root hides |
| BTreeLookups.ReadyExactly | src/indexing/BTreeIndex.cpp:57-74 | an insertion or removal is ready exactly when the root does not hide its key and a removal is safe on its leaf |
| BTreeLookups.RunReadyExactly | src/indexing/BTreeIndex.cpp:57-74 | so which runs are ready can be told operation by operation |
| BTreeLookups.RunThin | src/indexing/BTreeLeaf.cpp:30-87 | with fewer insertions of each key than fill a leaf no leaf gets overflow, whatever is removed, so every removal is safe |
| BTreeLookups.SmallRunsReady | src/indexing/BTreeIndex.cpp:57-74 | such runs, duplicates and removals included, are all ready as long as the directory has one page |
| HiddenKeys.FourthIsLost | src/indexing/BTreeDir.cpp:65 | four insertions of ascending keys after which the index holds the fourth and its search asks for a directory block that does not exist |
| Pages.IntRoundTrip | src/file/Page.cpp:26-38 | an integer is read back from its bytes |
| Pages.BytesRoundTrip | src/file/Page.cpp:26-38 | and its bytes from the integer |
| Pages.ByteOrder | src/file/Page.cpp:26-38 | the least significant byte is first and the sign is in the last |
| Pages.GetPut | src/file/Page.cpp:26-38 | setInt then getInt at one place |
| Pages.PutBack | src/file/Page.cpp:26-38 | writing the old value back undoes a write byte for byte |
| Pages.GetPutBytes | src/file/Page.cpp:8-24 | setBytes then getBytes |
| Pages.PageBuffer.SetInt | src/file/Page.cpp:34-38 | the in-place write equals the specification on the whole buffer |
| Pages.PageBuffer.SetBytes | src/file/Page.cpp:18-24 | the same for length-prefixed bytes |
| LogFile.PrependedIs | src/logging/LogMgr.cpp:40-43 | a record placed before the boundary becomes the newest and the others stay |
| LogFile.SavedPart | src/logging/LogMgr.cpp:54-57 | the log on disk is exactly the records up to lastSaveLsn |
| LogFile.LogMgr.constructor | src/logging/LogMgr.cpp:4-16 | a new file gets a block; an existing log is read back whole |
| LogFile.LogMgr.Append | src/logging/LogMgr.cpp:28-45 | append adds one record at the newest end across block boundaries, numbers it, writes earlier blocks never again, and makes exactly the disk writes of AppendWrites |
| LogFile.LogMgr.AppendNewBlock | src/logging/LogMgr.cpp:47-52 | the file grows by one block with an empty record area |
| LogFile.LogMgr.Flush | src/logging/LogMgr.cpp:18-21 | afterwards lastSaveLsn is at least lsn; no record is lost |
| LogFile.LogMgr.Iterator | src/logging/LogMgr.cpp:23-26 | the iterator starts with all records |
| LogFile.LogIterator.constructor | src/logging/LogIterator.cpp:7-11 | stands before all records of the blocks up to its own |
| LogFile.LogIterator.HasNext | src/logging/LogIterator.cpp:13-15 | true exactly while records are left |
| LogFile.LogIterator.Next | src/logging/LogIterator.cpp:17-26 | delivers the next older record, moving to the previous block when needed |
| LogFile.ReadAll | src/logging/LogIterator.cpp:7-32 | iterating to the end returns every appended record once, newest first |
| LogFile.AppendCrash | src/logging/LogMgr.cpp:28-52 | a crash between those writes of an append leaves a well-formed log exactly unless it falls between growing the file and writing the header |
| LogFile.TornRecords | src/logging/LogIterator.cpp:17-32 | in that case the iterator returns an empty record for every four bytes of the zero block |
| LogRecords.RecordRoundTrip | src/tx/LogRecord/LogRecord.cpp:9-29 | every record is decoded to the record that was encoded |
| LogRecords.RecordBytes | src/tx/LogRecord/SetIntRecord.cpp:30-46 | which bytes hold the kind, the transaction and the fields of each record |
| LogRecords.WriteSetInt | src/tx/LogRecord/SetIntRecord.cpp:30-46 | the field-by-field write gives the encoding |
| LogRecords.SetIntRoundTrip | src/tx/LogRecord/SetIntRecord.cpp:5-17 | the decoding constructor finds every field |
| LogRecords.HistoryRoundTrip | src/tx/LogRecord/LogRecord.cpp:9-29 | a log of encoded records gives the history back, in order |
| RecoveryLog.UndoRestores | src/tx/RecoveryMgr.cpp:49-62 | undoing a transaction restores a block whichever of its logged updates are on the page |
| RecoveryLog.RollbackUndoesAll | src/tx/RecoveryMgr.cpp:49-62 | stopping at the START record loses no update |
| RecoveryLog.RecoveryIsRollback | src/tx/RecoveryMgr.cpp:64-78 | on a block with one unfinished writer recovery undoes exactly that writer |
| RecoveryLog.NothingUndone | src/tx/RecoveryMgr.cpp:64-78 | recovery leaves a block alone whose writers are all finished |
| RecoveryLog.ReplayLast | src/tx/RecoveryMgr.cpp:64-78 | a replay leaves the last committed write at its place |
| RecoverySafety.MgrStep | src/tx/RecoveryMgr.cpp:13-78 | every step keeps what the log holds of each transaction in its phase |
| RecoverySafety.FlushBlk | src/buffer/Buffer.cpp:29-35 | flushing a buffer, log first, keeps the write-ahead rule |
| RecoverySafety.LogSetBlk | src/tx/Transaction.cpp:64-70 | logging an update before the page changes keeps the invariant |
| RecoverySafety.WriteSetBlk | src/tx/Transaction.cpp:72-75 | so does the later write of the page |
| RecoverySafety.UndoBlk | src/tx/RecoveryMgr.cpp:49-62 | each undo of a rollback takes the page back by one update |
| RecoverySafety.EndForceBlk | src/tx/RecoveryMgr.cpp:17-28 | COMMIT and ROLLBACK are appended only when no buffer holds a page of the transaction |
| RecoverySafety.FinishBlk | src/tx/Transaction.cpp:20-34 | a finished block needs no owner: the log stands for its page |
| RecoverySafety.CrashBlk | src/tx/RecoveryMgr.cpp:64-78 | losing buffers and the unwritten log tail keeps the invariant at any point |
| RecoverySafety.RecoverBlk | src/tx/RecoveryMgr.cpp:64-78 | each step of a recovery keeps it, so a recovery may itself be cut short |
| RecoverySafety.StepKeeps | src/tx/RecoveryMgr.cpp:13-78 | every step of every interleaving keeps the invariant |
| RecoverySafety.CrashSafety | src/tx/RecoveryMgr.cpp:30-35 | in every reachable state, restart and recovery leave on every block exactly the durably committed updates |
| RecoverySafety.LastCommittedValue | src/tx/RecoveryMgr.cpp:64-78 | at one place: the value of the last durably committed write |
| RecoverySafety.UntouchedValue | src/tx/RecoveryMgr.cpp:64-78 | and where no durably committed update went, the value of the last checkpoint |
| RecoverySafety.RecoverTwice | src/tx/RecoveryMgr.cpp:64-78 | recovering again changes nothing |
| RecoverySafety.WriteAhead | src/buffer/Buffer.cpp:29-35 | a byte on disk is the committed one unless an unfinished transaction has a durable record of changing it; covers the write-ahead rule and forced commit |
| RecoverySafety.RecoveryDelivers | src/tx/RecoveryMgr.cpp:30-35 | when the checkpoint is written the committed state is on disk |
| RecoverySafety.RollbackRestores | src/tx/RecoveryMgr.cpp:23-28 | whatever interleaves, rollback gives back each locked block as the transaction found it, in buffer and on disk |
| RecoverySafety.RollbackToStart | src/tx/RecoveryMgr.cpp:23-28 | the block is as at the start of the transaction exactly when it was still so at the lock |
| RecoverySafety.UnlockedStays | src/tx/Transaction.cpp:64-75 | a block nobody locks keeps its contents, so then it was still so |
| RecoverySafety.StartValueLost | src/tx/RecoveryMgr.cpp:23-28 | a run in which another transaction commits a change between start and lock, and rollback rightly keeps it |
| RecoverySafety.OwnBlocksOnly | src/tx/Transaction.cpp:64-75 | no step of a transaction changes a block it has not locked |
| Commits.CommitKeeps | src/tx/RecoveryMgr.cpp:17-21 | whatever interleaves, when a commit is done each locked block is, in buffer and on disk, as found with the updates of the transaction in order, the COMMIT record is durable, and a crash at any later time leaves it so until somebody locks it |
| RecoverySafety.RollbackLoop | src/tx/RecoveryMgr.cpp:49-62 | the rollback loop on a reachable state restores exactly the own blocks |
| RecoveryMgrs.RecoveryMgr.SetInt | src/tx/Transaction.cpp:64-75 | log the old value, then write |
| RecoveryMgrs.RecoveryMgr.DoRollback | src/tx/RecoveryMgr.cpp:49-62 | the loop equals the block-wise rollback |
| RecoveryMgrs.RecoveryMgr.DoRecover | src/tx/RecoveryMgr.cpp:64-78 | the loop with its list of finished transactions equals the block-wise recovery |
| Locks.LockTable.SLock | src/tx/LockTable.cpp:7-21 | granted exactly without an exclusive lock; one holder more |
| Locks.LockTable.XLock | src/tx/LockTable.cpp:23-36 | granted exactly without other shared locks; the counter is -1 |
| Locks.LockTable.Unlock | src/tx/LockTable.cpp:38-48 | one holder less, or the entry is erased |
| Locks.ConcurrencyMgr.SLock | src/tx/ConcurrencyMgr.cpp:8-13 | a lock recorded already is granted and nothing changes; otherwise it is recorded, also when it is refused |
| Locks.ConcurrencyMgr.XLock | src/tx/ConcurrencyMgr.cpp:15-21 | shared first, then the upgrade, with all refused cases |
| Locks.ConcurrencyMgr.Release | src/tx/ConcurrencyMgr.cpp:23-29 | each recorded lock is given back once and no other counter changes |
| Locks.StepAgrees | src/tx/LockTable.cpp:7-48 | the counter stays true under every granted step |
| Locks.LockSafety | src/tx/LockTable.cpp:7-48 | over all interleavings of granted requests the counter is -1 exactly for a lone exclusive holder, else the number of shared ones; holders never conflict |
| Locks.UnlockAgrees | src/tx/ConcurrencyMgr.cpp:10-11 | giving back a recorded lock keeps the counter true exactly when it was granted or nobody holds the block |
| Locks.TimeoutSteals | src/tx/ConcurrencyMgr.cpp:10-11 | after a refused shared lock and a release two transactions hold the block exclusively |
| Locks.SharedSteps | src/tx/ConcurrencyMgr.cpp:8-13 | sLock is no step for a block recorded already, else one granted or refused step, and is granted exactly when its steps are |
| Locks.ExclusiveSteps | src/tx/ConcurrencyMgr.cpp:15-21 | xLock is up to two steps, all granted exactly when the call is |
| Locks.ReleaseSteps | src/tx/ConcurrencyMgr.cpp:23-29 | release is one unlock step on each recorded block and none elsewhere |
| Locks.CallAgrees | src/tx/ConcurrencyMgr.cpp:8-29 | granted calls keep the counter of every block true |
| Locks.ManagersSafe | src/tx/ConcurrencyMgr.cpp:8-29 | over all sequences of granted calls of all managers, conflicting locks on a block never coexist |
| BufferPool.FindBlock | src/buffer/BufferMgr.cpp:74-81 | the first frame with the block, or none |
| BufferPool.FindFree | src/buffer/BufferMgr.cpp:83-90 | the first unpinned frame, or none |
| BufferPool.AssignKeeps | src/buffer/Buffer.cpp:22-27 | taking over a frame writes its page back first, so no block changes its contents |
| BufferPool.TryToPinCorrect | src/buffer/BufferMgr.cpp:57-72 | a pin finds or loads the block and moves no pinned frame; it fails exactly when all frames are pinned |
| BufferPool.FlushAllCorrect | src/buffer/BufferMgr.cpp:16-23 | exactly the pages with the mark of the transaction are written and lose it; contents and other frames stay |
| BufferPool.FlushForces | src/buffer/BufferMgr.cpp:16-23 | after a write of a block by a transaction, and any steps in which nobody else writes the block, its flushAll leaves on disk exactly what it wrote there |
| BufferPool.WaitingIsNumbered | src/buffer/Buffer.cpp:9-12 | as long as a logged write waits in a buffer the buffer has its mark and the number of its log record |
| BufferPool.WriteCorrect | src/buffer/Buffer.cpp:9-12 | a write through a buffer changes that block only |
| BufferPool.StepKeeps | src/buffer/BufferMgr.cpp:16-90 | every step keeps: no block in two frames, clean frames equal disk, pins are the sum over all lists, numAvailable counts unpinned frames |
| BufferPool.PoolIsTransparent | src/buffer/BufferMgr.cpp:16-90 | over all runs a block shows exactly the writes made to it, whatever was evicted |
| BufferPool.StaysPut | src/tx/BufferList.cpp:6-31 | a block a transaction has pinned stays in its frame |
| BufferPool.UnpinAllCorrect | src/tx/BufferList.cpp:33-40 | unpinAll gives back every pin of the transaction and no other |
| BufferPool.NewPoolOk | src/buffer/BufferMgr.cpp:4-9 | a new pool is coherent |
| BufferMgrs.Buffer.Flush | src/buffer/Buffer.cpp:29-35 | a modified page is written and the mark removed |
| BufferMgrs.Buffer.AssignToBlock | src/buffer/Buffer.cpp:22-27 | flush, then read the new block |
| BufferMgrs.Buffer.SetModified | src/buffer/Buffer.cpp:9-12 | the mark, and the record number unless it is negative |
| BufferMgrs.BufferMgr.WriteAt | src/tx/Transaction.cpp:64-75 | writing through a pinned buffer equals the pool specification |
| BufferMgrs.BufferMgr.TryToPin | src/buffer/BufferMgr.cpp:57-72 | the code equals the pool specification |
| BufferMgrs.BufferMgr.Unpin | src/buffer/BufferMgr.cpp:25-32 | the same for unpin and the count of available frames |
| BufferMgrs.BufferMgr.FlushAll | src/buffer/BufferMgr.cpp:16-23 | the same for the flushing loop |
| Rows.CompareRows | src/materialize/RecordComparator.cpp:6-15 | the loop computes the lexicographic comparison, and fails exactly when a value it comes to is missing or of the other kind |
| Rows.CompareBefore | src/materialize/RecordComparator.cpp:6-15 | negative exactly when the first row has the smaller value on the first field on which they differ, positive when the second one has |
| Rows.BeforeValues | src/materialize/RecordComparator.cpp:6-15 | there the values are of one kind and the first is less by operator<, and before it all values are the same |
| Rows.CompareTrans | src/materialize/RecordComparator.cpp:6-15 | the comparison is transitive |
| Rows.CompareZero | src/materialize/RecordComparator.cpp:6-15 | rows compare equal exactly when they agree on all fields compared |
| Schemas.SubTypes | src/record/Schema.cpp:34-44 | fields copied from a schema keep their types |
| Schemas.BothTypes | src/record/Schema.cpp:17-20 | of two fields of one name the type added last counts |
| Schemas.CopyRow | src/materialize/SortPlan.cpp:109-116 | copying a row into a temporary table goes through exactly when each field is there and fits its column |
| Sort.RunsMaximal | src/materialize/SortPlan.cpp:40-60 | the initial runs concatenate to the source and are cut exactly where a row is smaller than its predecessor |
| Sort.SplitIntoRuns | src/materialize/SortPlan.cpp:40-60 | the loop computes these runs, and fails exactly on a row that cannot be stored or a neighbour it cannot be compared with |
| Sort.MergedSorted | src/materialize/SortPlan.cpp:77-107 | merging sorted runs gives a sorted run |
| Sort.MergedRows | src/materialize/SortPlan.cpp:77-107 | and keeps all rows |
| Sort.MergedTies | src/materialize/SortPlan.cpp:77-107 | of rows that compare equal those of the second run come first, each run keeping its order |
| Sort.MergeTwoRuns | src/materialize/SortPlan.cpp:77-107 | the code merges so; of equal rows the second run is first; it fails exactly when two candidates cannot be compared |
| Sort.MergeTold | src/materialize/SortPlan.cpp:77-107 | a merge of two sorted runs compares enough rows to tell all apart, and no others need to be |
| Sort.SortTells | src/materialize/SortPlan.cpp:11-21 | the comparisons of a whole sort all go through exactly when any two rows differ on the sort fields before the first unknown one |
| Sort.MergePassCorrect | src/materialize/SortPlan.cpp:62-75 | a pass keeps the runs sorted and the rows |
| Sort.DoAMergeIteration | src/materialize/SortPlan.cpp:62-75 | the loop merges neighbours and keeps an odd last run |
| Sort.CeilLogIs | src/materialize/SortPlan.cpp:16-18 | the pass count is the exact ceiling of the logarithm |
| Sort.MakeRuns | src/materialize/SortPlan.cpp:11-20 | from n > 2 runs exactly ceil(log2 n) - 1 passes leave two |
| Sort.SortScan.constructor | src/materialize/SortScan.cpp:4-13 | the lazy merge stands before the merge of its two runs |
| Sort.SortScan.Next | src/materialize/SortScan.cpp:26-50 | each call delivers the next row of the merge, or fails when the two candidates cannot be compared |
| Sort.SortScan.BeforeFirst | src/materialize/SortScan.cpp:15-24 | starts over |
| Sort.SortedRows | src/materialize/SortPlan.cpp:11-21 | opening and reading to the end goes through exactly when there are rows, each can be stored and any two can be told apart; it gives the result of the sort |
| Sort.SortOfCorrect | src/materialize/SortPlan.cpp:11-21 | the result is a permutation of the source in which no row comes before an earlier one |
| Sort.SortedByValue | src/materialize/SortPlan.cpp:11-21 | of two rows of a sort that went through the earlier has, in the first field in which they differ, the value that is less by operator< |
| GroupBy.CountIs | src/materialize/CountFn.cpp:6-12 | count is the size of the group |
| GroupBy.SumIs | src/materialize/SumFn.cpp:6-13 | sum is the sum over the group |
| GroupBy.MaxIs | src/materialize/MaxFn.cpp:6-15 | max is the value of a row and no row has a greater one |
| GroupBy.MinIs | src/materialize/MinFn.cpp:6-15 | min is the value of a row and no row has a smaller one |
| GroupBy.GroupsCorrect | src/materialize/GroupByScan.cpp:16-30 | over a sorted source there is one group per distinct value, made of all source rows with it |
| GroupBy.CountsAddUp | src/materialize/GroupByScan.cpp:16-30 | the group sizes add up to the source size |
| GroupBy.GroupByScan.SameAsCurrent | src/materialize/GroupValue.cpp:4-16 | equality of group values |
| GroupBy.GroupByScan.Next | src/materialize/GroupByScan.cpp:16-30 | each call delivers the next group with the folds over exactly its rows; it fails exactly when an aggregate has no field to read |
| GroupBy.GroupByScan.GetValue | src/materialize/GroupByScan.cpp:36-48 | a group field, else the first aggregate of that name, else nothing |
| Predicates.IsSatisfied | src/scan/Predicate.cpp:22-29 | all terms hold; evaluation stops at the first that does not and fails exactly when it comes to a missing field or to values of two kinds |
| Predicates.SelectSubPredicate | src/scan/Predicate.cpp:41-50 | the terms over one schema |
| Predicates.JoinSubPredicate | src/scan/Predicate.cpp:52-65 | the terms that need both schemas |
| Predicates.CrossAssoc | src/plan/BasicQueryPlanner.cpp:49-54 | products do not depend on their nesting |
| Predicates.Pushdown | src/scan/Predicate.cpp:41-65 | filtering the sides and the product by their parts gives the same rows in the same order as the whole predicate |
| Predicates.PushdownExact | src/scan/Predicate.cpp:41-65 | a term may be pushed down, on all inputs, exactly when it is not over the right side alone with a field both sides have |
| Predicates.SharedField | src/scan/Predicate.cpp:41-65 | two rows on which any other term goes wrong |
| Query.BeforeFirst | src/scan/ProductScan.cpp:9-13 | any tree of scans starts before exactly its rows, or a condition cannot be evaluated |
| Query.Next | src/scan/ProductScan.cpp:15-20 | any tree of scans delivers exactly its rows, one per call; it fails only on a condition that cannot be evaluated; a product of tables never fails, in whatever state it is asked |
| Query.NextProduct | src/scan/ProductScan.cpp:15-20 | the product: right side, then start over with the next left row; without left rows it announces rows it does not have |
| Query.NextSelect | src/scan/SelectScan.cpp:12-18 | the filtering loop; reaching the end means that every condition could be evaluated |
| Query.ReadAll | src/scan/ProductScan.cpp:15-20 | reading to the first false gives all rows, or fails |
| Query.ProductScan.Next | src/scan/ProductScan.cpp:15-20 | the two positions after a call, also with an empty left side |
| Query.CountProduct | src/scan/ProductScan.cpp:4-20 | the number of rows announced is right exactly when the left side has rows or the right side has none |
| Query.CountSelected | src/scan/SelectScan.cpp:12-18 | over a product without left rows a condition keeps exactly the announced rows whose right fields alone satisfy it, and cannot be evaluated where it comes to a left field |
| Plans.PlanShows | src/plan/ProjectPlan.cpp:4-9 | the rows of a plan have exactly the fields of its schema |
| Plans.GroupRows | src/materialize/GroupByPlan.cpp:19-22 | sort, group and read; fails exactly when the sort does or an aggregate has no field to read |
| Plans.Open | src/plan/ProductPlan.cpp:10-15 | opening goes through exactly when everything it puts into temporary tables, sorts and groups does, and gives a scan of exactly the rows |
| Plans.OpenAndRead | src/materialize/MaterializePlan.cpp:8-25 | opening and reading goes through exactly when no step of the plan fails, and gives exactly its rows |
| Typing.TypeSafety | src/materialize/GroupByPlan.cpp:10-16 | a plan whose conditions compare one kind and whose temporary tables fit the values fails exactly for want of rows; its rows have the types |
| Planner.ProductOf | src/plan/BasicQueryPlanner.cpp:49-54 | the product of all inputs from the left is the ordered cross product; it announces a row it does not have exactly when the last input has rows and another has none |
| Planner.CreatePlan | src/plan/BasicQueryPlanner.cpp:9-75 | there is a plan exactly when the named fields exist; it means project(group(filter(predicate, cross product))), then sorted, subqueries included |
| Planner.RunQuery | src/plan/BasicQueryPlanner.cpp:9-75 | rows come back exactly when the query can be planned and meets no failing step, and then they are the answer; what the answer is, is in module Answers |
| Planner.KeepsAggregates | src/plan/BasicQueryPlanner.cpp:10-45 | a grouped query keeps the aggregates of its own tables exactly when it has no subquery |
| Answers.AllPicksAre | src/plan/BasicQueryPlanner.cpp:49-54 | the combinations of one row of each input, each once, the first input changing slowest |
| Answers.CrossAllCombines | src/plan/BasicQueryPlanner.cpp:49-54 | the product has a row for each combination, in that order, with the value of the first input that has the field |
| Answers.SelectedAre | src/plan/BasicQueryPlanner.cpp:57-58 | what is selected are exactly the combinations with the same value on both sides of each condition |
| Answers.UngroupedAnswer | src/plan/BasicQueryPlanner.cpp:57-67 | an answer without grouping has a row for each such combination, with exactly the fields asked for and the values they have there |
| Answers.GroupedAnswer | src/plan/BasicQueryPlanner.cpp:57-67 | a grouped answer has a row for each group of them, in order: the values of the group fields, the size of the group as count, and under max, min and sum of a field its greatest and least value and the sum of its integers |
| Answers.SortedAnswer | src/plan/BasicQueryPlanner.cpp:69-72 | of two rows of a sorted answer the earlier has the lesser value in the first sort field in which they differ |
| Answers.TableAggregates | src/plan/BasicQueryPlanner.cpp:25-39 | a grouped query over tables has max and min of each of their fields and sum of each integer field |
| PlannerFailures.LostAggregates | src/plan/BasicQueryPlanner.cpp:10 | a query that cannot be planned because a subquery lost the aggregate it asks for |
| PlannerFailures.LeakedAggregates | src/plan/BasicQueryPlanner.cpp:10 | a query that fails because the aggregates a subquery left behind have no field in its input |
| PlannerFailures.CountOnly | src/plan/BasicQueryPlanner.cpp:10 | a grouped query over an ungrouped subquery on tables cannot be planned when it asks for more than its group fields and the count |
| PlannerFailures.WrongAggregate | src/materialize/GroupByPlan.cpp:13-15 | sorting a grouped table by any aggregate whose values are no integers fails, whatever its rows |
| PlannerFailures.StringMaximum | src/materialize/GroupByPlan.cpp:13-15 | sorting by the maximum of a string column fails on every table |
| PlannerFailures.SharedColumn | src/record/Schema.cpp:17-20 | so does sorting a product by a field its sides have with different types |
| PlannerFailures.UnselectedSort | src/materialize/RecordComparator.cpp:6-15 | sorting by a field that is not selected goes through exactly for one row |
| Storage.TableScan.SearchAfter | src/record/RecordPage.cpp:72-82 | the first slot with the flag after the current one, or none |
| Storage.TableScan.Next | src/record/TableScan.cpp:27-37 | moves to the first used slot after the position, over block boundaries |
| Storage.TableScan.Insert | src/record/TableScan.cpp:85-96 | takes the first free slot after the position, in a new block if there is none; ends when a slot fits a block; no other slot changes |
| Storage.TableScan.Remove | src/record/TableScan.cpp:98-100 | only the flag of the slot changes |
| Storage.UsedSlots | src/record/TableScan.cpp:23-37 | a scan visits each used slot once, in file order |
| Layouts.NewLayout | src/record/Layout.cpp:5-12 | the loop computes offsets and slot size; of two fields of one name the last counts |
| Layouts.NoGaps | src/record/Layout.cpp:5-12 | every byte of a slot belongs to the flag or to a field |
| Layouts.ColumnRoom | src/record/Layout.cpp:42-53 | a value fits its column exactly when its bytes fit the room of the field |
| Layouts.PartsApart | src/record/RecordPage.cpp:88-90 | flags and fields of all slots do not overlap |
| Layouts.PartInBlock | src/record/RecordPage.cpp:84-86 | a valid slot lies in the block |
| Layouts.ValidSlots | src/record/RecordPage.cpp:84-86 | the valid slots are those below blockSize / slotSize |
| Layouts.SetIntLocal | src/record/RecordPage.cpp:19-22 | writing an integer field or flag changes no other field, slot or flag |
| Layouts.SetStringLocal | src/record/RecordPage.cpp:24-27 | nor does a string within the declared length |
| IndexUpdates.InsertAgrees | src/indexing/IndexUpdatePlanner.cpp:66-92 | index and table agree on a field after an insert exactly when the insert names it once |
| IndexUpdates.AssignIs | src/indexing/IndexUpdatePlanner.cpp:77-88 | after setting fields in order each has the value it was last given, or the one it had |
| IndexUpdates.ExecuteInsert | src/indexing/IndexUpdatePlanner.cpp:66-92 | a free slot gets the values, stale fields stay, and each named indexed field gets an entry, up to the first field that the record does not have or that is of the other kind, where it fails |
| IndexUpdates.ExecuteDelete | src/indexing/IndexUpdatePlanner.cpp:8-33 | exactly the satisfying records go, the count is theirs, and the indexes stay in step, also when a record stops the loop |
| IndexUpdates.ExecuteModify | src/indexing/IndexUpdatePlanner.cpp:35-64 | exactly the satisfying records change, each from its own old values, and the indexes stay in step, also when a record stops the loop; it fails exactly when the predicate or the new value cannot be evaluated on one or does not fit the field |
| IndexUpdates.ExecuteAll | src/indexing/IndexUpdatePlanner.cpp:8-92 | any sequence of such updates, up to the first that fails and past it unless it is an insert, keeps each index equal to the values and places of the used records |
| TableIndexes.LookupFindsRecords | src/indexing/IndexUpdatePlanner.cpp:8-92 | after any such sequence a lookup in the B-tree, by the search as written, gives the place of each used record with the value once, and no other, when its operations were ready and no dead slot hides the value |
| Tokens.WordLexes | src/parse/StreamTokenizer.cpp:8-12 | a word without separators is one token |
| Tokens.TextLexes | src/parse/StreamTokenizer.cpp:8-12 | any text keeps its tokens when something separated follows |
| Tokens.CommasLex | src/parse/StreamTokenizer.cpp:8-12 | a list printed with commas has the tokens of its items with comma tokens between |
| Tokens.CapitalsSame | src/parse/StreamTokenizer.cpp:44-46 | capitals make no difference to keywords and identifiers |
| Printing.ToString | src/parse/QueryData.cpp:41-81 | the appending loops and cuts compute the text |
| Printing.QueryLexes | src/parse/QueryData.cpp:41-81 | the tokens of a text, nested subqueries included |
| Parsing.Parser.Fields | src/parse/Parser.cpp:172-183 | the recursive list rule |
| Parsing.Parser.Tables | src/parse/Parser.cpp:95-120 | the loop over tables and parenthesised subqueries |
| Parsing.Parser.QueryRule | src/parse/Parser.cpp:56-78 | the query rule equals its grammar function, errors included |
| Parsing.ParseText | src/parse/Parser.cpp:4-6 | parsing a text from its start |
| Conditions.PlaceValue | src/parse/StreamTokenizer.cpp:36-42 | a digit of a number counts as many times ten as there are digits after it |
| Conditions.NumberDigits | src/scan/Constant.cpp:73-75 | the text of a number is its decimal digits |
| Conditions.NumbersApart | src/scan/Constant.cpp:73-75 | different integers, negative ones too, have different texts |
| Conditions.NumberToken | src/parse/Parser.cpp:12-26 | a number is read back from its digits, for every number |
| Conditions.TruthToken | src/parse/Parser.cpp:12-26 | true and false are read as 1 and 0, in capitals or not |
| Conditions.SideRead | src/parse/Parser.cpp:28-36 | a name, a number or a string in quotes is read as what it is |
| Conditions.ConditionsRead | src/parse/Parser.cpp:38-54 | conditions with spaces around the equals sign are read as exactly these terms, in order, with their sides |
| RoundTrip.ListParses | src/parse/Parser.cpp:80-93 | a list is read back |
| RoundTrip.ItemsParse | src/parse/Parser.cpp:95-120 | tables and subqueries are read back, up to the first subquery with illegible conditions; as printed all conditions are illegible |
| RoundTrip.TablesAreSet | src/parse/Parser.cpp:95-120 | the tables of a query are a set in order, in whatever order and how often they are named |
| RoundTrip.GroupWithoutBy | src/parse/Parser.cpp:185-198 | the word group without by behind it is dropped, and the query is read without groups |
| RoundTrip.NotReadBack | src/scan/Term.cpp:65-67 | the first token of any condition is never read as the left side of the condition |
| RoundTrip.QueryParses | src/parse/Parser.cpp:56-78 | a query is read back from its tokens when its conditions are legible, and as printed exactly when it has none |
| RoundTrip.PrintParse | src/parse/QueryData.cpp:41-81 | parsing the text of a query gives the query back exactly when it holds no condition, whatever the conditions are; plain ones make the parser fail |
| RoundTrip.SpacedParse | src/parse/Parser.cpp:4-78 | written with spaces around the equals sign and strings in quotes it is read back with all conditions, subqueries included |

## Left out

- RecoverySafety.CrashSafety: integer updates through logged setInt only; the string record writes its value at another offset than it reads (`src/tx/LogRecord/SetStringRecord.cpp:15` and `:35`), and unlogged formatting has no undo. The log is saved in one step: a crash inside an append, between growing the log file and writing its header, leaves the torn log of `LogFile.AppendCrash`, whose empty records the source's recovery cannot decode.
- RecoverySafety.StepKeeps: transaction numbers are new since the last checkpoint, every transaction ends by commit, rollback or a crash, and locks are taken per block with exclusive access for writing; that the lock table provides this is module Locks.
- BTreeIndexes.RunRefinesMultiset: removals on leaves with overflow only where they are safe (`RemoveAnswers`), and lookups only of keys that no dead slot hides, which `RootTells` reduces to the root's first dead slot and the default key.
- BTreeDirectory.BTreeDir.Insert: only where no dead slot on the path holds the key; the same for `BTreeDir.InsertAtRoot` and the methods of `BTreeIndex`. Elsewhere the source goes to a block that need not be a directory page.
- BTreeIndexes.TreeRemoveCorrect: only removals that are safe on their leaf; what the others lose is in `RemoveShape` and `RemoveAnswers`.
- LogRecords.RecordRoundTrip: the string update record, for the reason given under CrashSafety.
- Planner.CreatePlan: views and the reparsing of their definitions, so the inputs of a product are stored or temporary tables.
- Plans.Open: a temporary table takes any number of rows, so a slot must fit a block; the objects that compute aggregates are new for each grouping, while the source uses those a subquery left behind again, and one that held an integer keeps it beside a string of a later field of the same name. A product that announces a right row without a left one counts as failed in a plan as soon as that row is used; when a condition on right fields alone would still drop it is `Query.CountSelected`.
- Query.Next: scans of different classes are one datatype and next returns the new scan, so sharing of scan objects is not modelled; the product of two table scans is also a class. A table asked again after its last answer may be anywhere in its rows.
- IndexUpdates.ExecuteAll: string lengths; a string that an insert or a modification stores is taken to fit its column (`Layouts.SetStringLocal`).
- Schemas.CopyRow: a string longer than its column is a failing copy; the source writes over the bytes behind it.
- TableIndexes.LookupFindsRecords: only when the calls made on the index are ready on the B-tree and no dead slot hides the value, as under RunRefinesMultiset.
- BufferMgrs.Buffer.Flush: the log flush before the page write is in module Recovery.
- BufferPool.PoolIsTransparent: the log-before-page order of a flush is in module Recovery; the pool model has the pages only.
- GroupBy.SumIs: sums are mathematical integers.
- Storage.TableScan.Next: two scans of one table at the same time, and calls after the first false.
- Pages.IntRoundTrip: little-endian machines.
- Real files: a file is a sequence of blocks or a map, and one block is written atomically; the padding of short reads never matters then.
- Threads, condition variables and timeouts: a step that has to wait is not enabled, or answers that it was refused.
- Block allocation and the end-of-file lock inside the recovery transition system.
- Merge join, UPDATE parsing, catalog managers, cost estimates and the command-line programs.
- Parsing.Parser.QueryRule: numbers are mathematical integers; the source reads them as floating-point numbers and cuts them to 32 bits (`src/parse/Lexer.cpp:50-57`).
- Parsing of commands other than queries: the same rules over lists.
