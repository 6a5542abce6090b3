# The storage engine in Dafny

A model of the database's storage engine and proofs about it, from the bytes of a B+tree node up to
secondary indexes: a copy-on-write B+tree on pages, the versioned free list that recycles those pages,
the two-phase commit to disk, optimistic transactions over snapshots, cursors and merged scans, the
order-preserving key codec, and tables with indexes.

`dafny verify dfyconfig.toml` checks the whole project.

The model has the form of the source. The store, the tree, the cursors, the transaction, the database and the
node buffer are classes whose methods update their fields (`PageStore`, `BTree`, `BIter`, `CombinedIter`,
`KVTX`, `KV`, `BNode`); loops are loops. What they promise is stated against ghost views: a tree of pages whose
leaves, read left to right, are a sorted sequence and so a map; the list of all pages ever queued, by sequence
number; the set of writes that a crash may drop; the run of committed transactions.

| files | what they model |
|---|---|
| `bytes`, `seqs`, `sortedseq` | byte order; sorted entry sequences and the maps they stand for |
| `nodes`, `trees`, `treeops`, `treefits`, `treeupdates`, `deleteops`, `treedeletes`, `btrees` | nodes with their size in bytes, splits, merges, when a page overflows and the tree grows, the tree as an object |
| `nodebytes` | the byte layout of a node, refining a sequence of entries |
| `positions`, `cursors` | cursors as paths of slots, at any height |
| `pagestate`, `pagesteps`, `pagestore`, `epochs` | page map, pending updates, free list, page roles |
| `disk`, `snapshots`, `fileupdates` | unsynced writes, crashes, versions on disk, reopening |
| `readers`, `conflicts`, `serial`, `slices`, `transactions`, `transfer`, `commits`, `histories`, `kv` | snapshots of ongoing transactions, conflict detection, shared dependency arrays, transactions and their save points, what the recorded history means, Begin, Commit, Abort |
| `merged`, `combined` | the scan that merges pending updates with the snapshot |
| `codec`, `keys` | cells, tuples, keys, partial keys |
| `rows`, `tables`, `scans`, `statements` | rows, index maintenance, range and point queries, statements that are undone on an error |
| `overflows` | inputs for which a node does not fit its page |
| `deepruns` | two runs from a new database: a small commit that succeeds, and one of many long keys that does not end |

## Main results

* **Safety of every run.** `KV.Valid` holds after `New` and `Open` and is kept by `Begin`, `Commit` and `Abort`, whatever
  the transactions do in between. While it holds, every ongoing transaction reads its snapshot unchanged
  (`SnapshotStable`, `ReaderPage`), every page has exactly one role (`PagesConserved`), the history knows every
  change that an ongoing transaction has not seen (`ChangeRecorded`), the current map is the result of a
  serial run of the committed transactions with all their reads right (`Serializable`), and a crash leaves
  a file that opens (`CrashNow`).
* **Crash atomicity.** A commit records each state the file goes through. At each of them, whatever subset of the
  unsynced writes survives, the file opens to the whole old map or the whole new one, or, after an earlier
  failed update, to the map of that update (`Commit`). A file never opens to two maps (`OpensOne`).
* **The tree is a map.** Update and delete change exactly one key of the map, in all modes, keep order, separators and
  depth, and leave every page of every older root as it was. When they run out of page space, and when the tree
  gains or loses a level, is decided exactly by the nodes on the search path (`TreeFits.UpdateFits`, `DeleteFits`).
* **No conflict missed, none invented.** A commit reports a conflict if and only if some version committed after the
  transaction began changed a key inside one of its dependency ranges (`Commit`, `ConflictExact`); each entry of the
  history holds exactly the keys that its version changed (`HistoryExact`). The commit loop applies the transaction's net effect to the current map; the
  source's assertions `deleted == modified` and `updated == modified` hold while every pending entry is met once.
* **Nothing fails without a cause.** A commit that reaches the file ends in an error if and only if one of the calls it makes
  fails (`UpdateFile`, `FileEnd` in `Commit`), and it runs out of page space only where the tree has no room for the next
  entry (`Stopped`). A row is rejected if and only if it is incomplete, a duplicate or too large (`DbUpdate`, `ExecInsert`), and
  deleting a row by its primary key never is (`DbDelete`).
* **Free pages are used again.** The allocator gets nothing if and only if every queued page is held back by an ongoing
  transaction that began before the page was released (`QueueOpen`, `AllOpen`), and the file only grows then (`PageAlloc`).
* **Indexes agree with rows.** After any `DbUpdate`, and any `DbDelete` on a suitable table, each index holds exactly one
  key per row, and other tables are as they were. A statement that fails is undone as a whole (`ExecStmt`). A range
  query yields the keys and values of exactly the rows between its typed bounds, in order (`ScanYields`).

Where a property does not hold for all inputs, the exact condition is proved.

* Splitting a node in three succeeds if and only if one of three cuts fits (`NodeSplit3`; `SplitFails` is an insertion
  for which none does). A parent overflows on deletion if and only if its new separator leaves no room (`PlaceKid`,
  `MergeKid`; `SeparatorOverflows`).
* Moving past the last key ends exactly in trees of at most two levels; from the last entry of a deeper tree the cursor
  turns back (`BIter.Next`, `LastTurn`). So a commit carries everything over and ends if and only if the pending tree has
  at most two levels (`Commit`). In a deeper one the assertion fails at the first entry met again that modifies
  something; if none does, the loop goes on forever. A caller can count: writes whose keys, with 14 bytes more for each,
  take at most 4078 bytes stay within two levels (`Shallow`), and pending values for more than n * n keys, n of which do
  not fit a page, do not (`Deep`). `LongCommit` is a run that ends so: a new database, 300 insertions, commit.
* An upward scan ends if and only if no cursor in a deep tree has the last entry within the end bound (`Collect`,
  `CaughtForever`).
* A scan agrees with point queries if and only if no deletion is pending in its bounds (`ScanIsOverlay`, `ScanYields`).
* A save point still has its dependencies exactly as long as none of them has been overwritten through the backing array
  it shares (`AppendExact`). Reverting keeps those that reach no further in the array; a later one can be lost
  (`LaterSaveLost`). A statement's own save point never is (`ExecStmt`).
* Deletion keeps the indexes for every row if and only if the table lists its primary key first, in its order, or has
  no secondary index (`DeleteExact`), and for one row if and only if the rebuilt index keys are those of the row.

## Model

| member | source | states |
|---|---|---|
| Bytes.ComparePrefix | db/btree_iter.go:119-133 | A common prefix never influences the order of two keys. |
| SortedSeq.LECorrect | db/btree.go:208-227 | The lookup position is the last one whose key is at most the key sought; -1 only if there is none. |
| SortedSeq.PutMiddle | db/btree.go:357-375 | A lookup, insertion or removal of a key that falls inside a middle stretch of a sorted sequence leaves the outer stretches alone. |
| SortedSeq.PutIsMapUpdate | db/btree.go:535-579 | Insertion into the sorted leaf sequence is insertion into the map it stands for. |
| SortedSeq.RemoveIsMapRemoval | db/btree.go:582-605 | Removal from the sorted leaf sequence is removal from the map. |
| SortedSeq.HasInMap | db/btree.go:608-613 | The sorted sequence and its map have the same keys with the same values. |
| Nodes.NodeLookupLE | db/btree.go:208-227 | The binary search finds the last key at most the given one; on a miss to the left its 16-bit position wraps to 65535. |
| Nodes.CutInside | db/btree.go:232-259 | For any node of two or more entries within the entry limits the cut leaves entries on both sides. |
| Nodes.NodeSplit2 | db/btree.go:232-259 | Two non-empty nodes that concatenate to the original; the right one always fits its page, and the cut is the first from the middle on for which it does. |
| Nodes.NodeSplit3 | db/btree.go:265-284 | One to three non-empty nodes of the original's kind that concatenate to it and each fit a page; this succeeds exactly when the original or one of the two left parts fits. |
| Nodes.SmallEntriesSplit | db/btree.go:265-284 | With entries of at most 256 bytes a page grown by two entries always splits into pages that fit. |
| Trees.GoodFirst | db/btree.go:287-298 | The separator of a subtree is the first key of its leaves. |
| Trees.SepsSorted | db/btree.go:287-298 | The separators of a node are sorted if its leaves are. |
| Trees.Descend | db/btree.go:357-375 | Following the separators leads to the only kid that can hold a key. |
| TreeFits.BareSplit | db/btree.go:265-284 | Whether a node splits, and where, does not depend on its page pointers. |
| TreeFits.StepUpdated | db/btree.go:287-298 | The rebuilt parent of a split kid has, up to pointers, exactly the entries that the search path says. |
| TreeFits.StepDeleted | db/btree.go:473-491 | The same for a parent whose kid was stored, dropped or merged after a deletion. |
| TreeFits.DeletedSize | db/btree.go:473-491 | How much room the rebuilt parent takes after a deletion. |
| TreeFits.LevelGrown | db/btree.go:566-573 | A tree gains its third level only when its keys would not fit one page as separators. |
| TreeFits.SameLevelGrown | db/btree.go:357-375 | Updates never take separators away, so a tree that was only updated keeps a root of two or more kids. |
| TreeUpdates.LeafStep | db/btree.go:324-354 | At a leaf the mode, the presence of the key and the old value decide between no change, overwriting and inserting; the outputs report which. |
| TreeUpdates.TreeUpdate | db/btree.go:324-354 | Below any node, in all modes: the leaves change by one insertion or overwrite, or not at all; depth, separators and page accounting are kept; all earlier pages keep their content; it overflows exactly if some node on the way up cannot be split; small entries never overflow. |
| TreeUpdates.NodeUpdate | db/btree.go:357-375 | The same for an internal node, through the kid that the separators lead to. |
| TreeUpdates.StoreUpdated | db/btree.go:357-375 | Splitting and storing the changed kid: the pages used change by the old kid's page and the new kids' pages, the parent grows by at most two separators, and it fails exactly if the split fails. |
| TreeUpdates.NodeReplaceKidN | db/btree.go:287-298 | The kid's separator is replaced by one entry per new page, each with the first key of its page, and every new page holds its node. |
| DeleteOps.NodeMerged | db/btree.go:460-494 | Replacing two neighbours by their merge removes exactly the deleted key from the leaves and keeps separators, depth and page accounting. |
| DeleteOps.FirstAfterRemove | db/btree.go:460-494 | After a removal a subtree's first key is the old one or the removed key's successor, so it is not longer unless the successor is. |
| TreeDeletes.ShouldMerge | db/btree.go:403-424 | A merge is proposed only where the merged node fits a page; none is proposed only if the node is large, or no neighbour has room, and an empty node is left unmerged only if it has no neighbour. |
| TreeDeletes.TreeDelete | db/btree.go:439-457 | Below any node: the leaves lose exactly the key, whose value is reported, or nothing changes if it is absent; depth, separators and page accounting are kept; it overflows exactly if some parent on the way up leaves its page, and never if the next key is not longer. |
| TreeDeletes.NodeDelete | db/btree.go:460-494 | The same for an internal node, whichever of the four ways of putting the changed kid back is taken. |
| TreeDeletes.MergeKid | db/btree.go:473-485 | After a merge left or right the parent's leaves have lost exactly the key; the parent overflows exactly if the merged page's separator leaves no room; it never does on the left. |
| TreeDeletes.PlaceKid | db/btree.go:486-491 | Without a merge the kid is stored again, or the parent becomes empty with it; the parent overflows exactly if the kid's new separator leaves no room. |
| Overflows.SplitFails | db/btree.go:232-284 | A leaf that fits its page and one insertion, within the key and value limits, that three pages cannot hold. |
| Overflows.SeparatorOverflows | db/btree.go:460-494 | A tree of two levels, sorted, with its sentinel and within all limits, and a deletion that makes a separator longer and the parent larger than its page. |
| BTrees.UniqueTree | db/btree.go:511-526 | A root page stands for one tree and so for one map. |
| BTrees.NodeGetKey | db/btree.go:511-526 | The descent finds the key exactly if the leaves have it, with its value. |
| BTrees.BTree.Get | db/btree.go:608-613 | Lookup is lookup in the map; an empty tree has no keys. |
| BTrees.BTree.Update | db/btree.go:535-579 | Limits are checked first; then the map gains exactly the key and value, or nothing changes if the mode or an equal value says so; `added` and the old value match the map; the tree is valid again and no old page has changed; it runs out of room exactly if a node on the search path, or the root, cannot be split; it grows by a level exactly if the root leaves its page. The first key of an empty tree ignores the mode. |
| BTrees.BTree.UpdateRoot | db/btree.go:557-578 | The same on an existing root, which may be split. |
| BTrees.BTree.PlantRoot | db/btree.go:542-555 | The first key creates a root leaf of height 0 with the sentinel, so no later lookup falls below position 0. |
| BTrees.BTree.PlaceRoot | db/btree.go:563-576 | Storing the changed root keeps the leaves; the height grows by one exactly if the root leaves its page; it fails exactly if the root cannot be split into three pages. |
| BTrees.BTree.AddLevel | db/btree.go:566-573 | The parts of a split root become kids of a new root with the same leaves, one level higher. |
| BTrees.BTree.Delete | db/btree.go:582-605 | The map loses exactly the key, whose value is reported, or nothing changes if it is absent; the sentinel keeps the root non-empty; no old page has changed; it runs out of room exactly if a node on the search path leaves its page; the height shrinks by one exactly if the root is left with one kid. |
| BTrees.BTree.ShrinkRoot | db/btree.go:597-603 | A root with one kid is dropped and the height shrinks by one, another is stored and the height stays; the leaves stay and the pages below the new root are exactly those in use. |
| Positions.NextCorrect | db/btree_iter.go:72-91 | At every level the next slot starts where this one ends, and without a next slot this one ends the tree. |
| Positions.PrevCorrect | db/btree_iter.go:93-109 | The previous slot ends where this one starts; without one this is the path of zeros. |
| Positions.EntryAt | db/btree_iter.go:26-32 | A complete path names one entry of the leaf sequence. |
| Positions.OnlyZeros | db/btree_iter.go:35-42 | The path of zeros is the first position, and no other path is. |
| Positions.LastTurn | db/btree_iter.go:78-89 | The last entry lies below the last slots of the two upper levels, so resetting the frames below leads to the first entry there. |
| Positions.TurnLate | db/btree_iter.go:78-89 | Under a root with several kids that entry is not the first of the tree. |
| Cursors.EndTest | db/btree_iter.go:46-49 | The end test of a cursor is exact. |
| Cursors.CursorValid | db/btree_iter.go:52-54 | A cursor is valid exactly on the entries behind the sentinel. |
| Cursors.BIter.Deref | db/btree_iter.go:26-32 | The key and value of the entry at the cursor's position in the sorted sequence. |
| Cursors.BIter.IterNext | db/btree_iter.go:72-91 | From any frame: the path moves to the next slot and to first slots below it; without a next slot the frames in between are reset, whatever the depth. |
| Cursors.BIter.Next | db/btree_iter.go:57-62 | The successor, across leaves and subtrees at any height, if there is one; at the last entry the end for at most two levels, and exactly the turn for more; at the end nothing. |
| Cursors.BIter.IterPrev | db/btree_iter.go:93-109 | From any frame: the path moves to the previous slot and to last slots below it. |
| Cursors.BIter.Prev | db/btree_iter.go:65-70 | The predecessor at any height; from behind the last entry back to it; at the first entry nothing. |
| Cursors.ArrivedEnd | db/btree_iter.go:78-89 | Where the cursor is after the last entry: behind it for at most two levels, on the first entry below the two upper slots for more. |
| Cursors.SeekLE | db/btree_iter.go:13-23 | The cursor is on the last entry whose key is at most the key. |
| Cursors.TargetNearest | db/btree_iter.go:136-161 | A seek's target separates the entries that satisfy the comparison from those that do not. |
| Cursors.Seek | db/btree_iter.go:136-161 | The cursor is on the nearest entry that satisfies the comparison, or behind the last; past the end of a tree of three or more levels it is at the turn, and the final assertion fails exactly if that is behind the sentinel. |
| PageState.Roles | db/free_list.go:40-59 | Each page behind the meta page has one role: in the tree, on its way, list page, or queued. |
| PageSteps.AdvanceKeeps | db/free_list.go:91-110 | Popping keeps every invariant, and the popped page is needed by nobody and has no pending update. |
| PageSteps.RecordKeeps | db/free_list.go:116-118 | Filling the tail slot keeps every invariant, without touching a page that anybody reads. |
| PageSteps.LinkKeeps | db/free_list.go:132-134 | Linking a new tail page keeps the chain of list pages exact. |
| PageSteps.AppendKeeps | db/kv.go:112-119 | The page behind the end of the file is new: no pending update, needed by nobody. |
| PageSteps.GiveKeeps | db/kv.go:102-109 | Giving a page to the tree keeps every invariant, and the tree did not have it. |
| PageSteps.TakeKeeps | db/free_list.go:113-118 | Releasing a tree page keeps every invariant. |
| PageStore.ListCheck | db/free_list.go:73-76 | The checks at the start of every free-list operation hold: head and tail page are never the meta page, and an empty list has one page. |
| PageStore.AllBlocked | db/free_list.go:91-102 | If the head item is blocked, so is every item behind it up to `maxSeq`. |
| PageStore.HeadReadable | db/free_list.go:97-107 | The head slot holds the head item, and an emptied head page has a successor other than 0. |
| PageStore.PageStore.FlPop | db/free_list.go:91-110 | Items leave in the order they were pushed, never past `maxSeq`, never with a version above `maxVer`; nothing is returned exactly if every item up to `maxSeq` is blocked. |
| PageStore.PageStore.FillTail | db/free_list.go:116-118 | The item joins the queue at the next sequence number, with the version of the running commit. |
| PageStore.PageStore.LinkTail | db/free_list.go:132-134 | The new tail page follows the full one in the chain. |
| PageStore.PageStore.Extend | db/free_list.go:123-140 | The new tail comes from the head if the head may be taken, and exactly otherwise from the end of the file; an emptied head page joins the queue; the chain stays exact. |
| PageStore.PageStore.PushTail | db/free_list.go:113-142 | The page joins the queue behind everything queued, and at most one emptied list page joins behind it; every invariant is kept. |
| PageStore.PageStore.PopHead | db/free_list.go:79-85 | The head item's page, with no pending update and outside every tree that may still be read; 0 exactly if everything is blocked; an emptied list page is queued. |
| PageStore.StillBlocked | db/free_list.go:123-140 | If pushing an emptied list page lets the file grow, nothing may be taken from the queue afterwards either. |
| PageStore.PageStore.PageRead | db/kv.go:79-85 | The content that the last write gave the page. |
| PageStore.PageStore.PageWrite | db/kv.go:122-144 | A pending copy with the page's current content, also for page 1 of a new file. |
| PageStore.PageStore.PageAppend | db/kv.go:112-119 | A page number never used before, without a pending update. |
| PageStore.PageStore.PageAlloc | db/kv.go:102-109 | A page for a node that no tree in use has: the head of the queue if it may be taken, and exactly otherwise a new page at the end of the file; the assertions on pending updates hold. |
| PageStore.PageStore.New | db/kv.go:102-109 | The callback `new`: one more page in use, every other page as before. |
| PageStore.PageStore.Del | db/free_list.go:113-142 | The callback `del`: one page fewer in use, and every page, this one too, still readable. |
| PageStore.PageStore.Get | db/kv.go:79-85 | The callback `get`: the node that was stored on the page. |
| Epochs.NewIdle | db/kv.go:234-242 | A new file starts with every invariant. |
| Epochs.SetVerKeeps | db/transaction.go:114 | Setting the next commit's version keeps every invariant. |
| Epochs.FlushKeeps | db/kv.go:147-167 | After all pending pages are written, the file alone has every invariant. |
| Epochs.RevertKeeps | db/kv.go:316-328 | After a failed update, the restored counters and whatever pages have been written have every invariant. |
| Epochs.RestartKeeps | db/free_list.go:146-149 | Opening the queue up to its tail is safe if every queued page that somebody reads has a greater version. |
| DiskModel.CrashLoads | db/kv.go:279-301 | If no unsynced write can hurt two versions and meta records are theirs, any surviving subset of writes is one of them, whole. |
| DiskModel.IssueSafe | db/kv.go:155-160 | A write that fits both versions keeps both recoverable. |
| DiskModel.SyncSafe | db/kv.go:286-288 | So does a successful fsync. |
| Snapshots.FileFits | db/kv.go:279-301 | With nothing pending, the file holds the whole tree and free list of the version. |
| Snapshots.OldFits | db/free_list.go:113-141 | No pending write touches what the last committed version needs: its tree pages, and the slots and links of its free list. |
| Snapshots.ReopenKeeps | db/kv.go:244-253 | A file that holds a version, whatever else a crash left in it, is an idle store for that version's tree. |
| Snapshots.OpensOne | db/kv.go:209-217 | A file opens to one map at most. |
| Readers.ReadersSafe | db/free_list.go:91-102 | In no state of a commit does the free list pop a page of a version that somebody reads. |
| Readers.ReadableFile | db/transaction.go:63-73 | What a reader finds in the file is its snapshot. |
| Readers.CommitSnaps | db/transaction.go:113-159 | After a commit every version in use is still stored, and its released pages carry the commit's greater version. |
| Readers.FinalSnaps | db/transaction.go:216-243 | Setting `maxVer` to the oldest version in use keeps every remaining version stored and out of the allocator's reach. |
| FileUpdates.Rewritten | db/kv.go:303-314 | Rewriting and syncing the old meta record makes the old version the only one that a crash can leave. |
| FileUpdates.PageWritten | db/kv.go:155-160 | Writing a pending page leaves the old version recoverable. |
| FileUpdates.PagesSynced | db/kv.go:280-288 | After the first fsync the file holds all pages of the new version, and still the old one. |
| FileUpdates.MetaWritten | db/kv.go:290-298 | Once written, the meta record leaves the old or the new version to a crash; once synced, only the new. |
| Conflicts.PointOverlaps | db/transaction.go:201-213 | A point lies in a range exactly if the two overlap; an inverted range overlaps no point. |
| Conflicts.SortedRangesOverlap | db/transaction.go:201-213 | The two-pointer check answers yes exactly if some pair overlaps, for lists sorted by start only, nested and inverted ranges included. |
| Conflicts.SortRanges | db/transaction.go:176-184 | Sorted by start, with the same ranges. |
| Conflicts.DetectConflicts | db/transaction.go:182-199 | A conflict is reported exactly if a newer committed transaction wrote into a dependency range; stopping at the first old entry loses nothing. |
| Conflicts.NoConflictSame | db/transaction.go:182-199 | Without a conflict every key in a dependency range is as it was in the snapshot. |
| Conflicts.TrimHistory | db/transaction.go:235-242 | Trimming drops exactly the entries that no version in use could conflict with. |
| Conflicts.SufficientMore | db/transaction.go:161-171 | Recording a commit's differences keeps the history sufficient for an older transaction. |
| Conflicts.OldestVersion | db/transaction.go:224-230 | The least of the current version and the ongoing ones. |
| Serial.SameAnswers | db/transaction.go:182-199 | Two maps that agree on all dependency ranges give every operation of a transaction the same answer and still agree afterwards. |
| Serial.RunIsOverlay | db/transaction.go:116-151 | Running a transaction's operations is laying its pending updates over the map. |
| Serial.PendingRead | db/transaction.go:409-464 | Every key with a pending update is itself a dependency. |
| Serial.RunAllMore | db/transaction.go:93-174 | A legal transaction extends a serial run. |
| Slices.AppendExact | db/transaction.go:359-361 | Appending extends the slice; another slice of the same array changes exactly if it reaches beyond the appended range, and then only there. |
| Slices.LaterSaveLost | db/transaction.go:34-43 | Three reads, a save point, a read, a second save point, a return to the first and another read: the second save point has lost its dependency. |
| Transactions.KVTX.Depend | db/transaction.go:359-361 | One more dependency, in place or in a new array. |
| Transactions.MarksAppend | db/transaction.go:34-43 | Later dependencies leave alone every save point that reaches no further than the transaction's own slice. |
| Transactions.KVTX.Save | db/transaction.go:34-37 | A save point with the pending root and the slice of dependencies, to which the transaction can return; it shares the dependencies' array. |
| Transactions.KVTX.Revert | db/transaction.go:40-43 | The transaction sees exactly what it saw at the save point, and its dependencies are what the saved slice reads now; it is sound again exactly if these still cover the save point's operations. Every other save point stays known; those that reach no further in the array stay usable for good. |
| Transactions.KVTX.Get | db/transaction.go:359-374 | The answer is that of the snapshot with this transaction's updates applied; the key becomes a dependency; the empty key finds the sentinel of the snapshot, and crashes exactly if something is pending. |
| Transactions.KVTX.PutPending | db/transaction.go:424-433 | The pending tree takes the flagged value, or rejects it exactly by its limits and its room; the assertion that something changed holds. |
| Transactions.KVTX.Update | db/transaction.go:409-438 | In all modes what the transaction sees gains exactly the key and value, or nothing changes; duplicates, unchanged values and the two outputs are exact; the longest value is one byte short of the limit; page space runs out exactly if the pending tree has no room; the empty key is answered as the sentinel or crashes. |
| Transactions.KVTX.Del | db/transaction.go:444-464 | What the transaction sees loses exactly the key, whose value is reported; nothing changes exactly if it is absent; page space runs out exactly if the pending tree has no room; the empty key is answered as the sentinel or crashes. |
| Transactions.KVTX.Seek | db/transaction.go:387-407 | The range becomes a dependency, and the cursor will yield exactly the merged scan of pending updates and snapshot; the seek fails exactly if it runs past the last entry of a deep tree and does not come back to the sentinel. |
| Transactions.MarksKept | db/transaction.go:34-43 | Save points survive every later update of the pending tree, because its pages are never overwritten. |
| Transactions.KVTX.Shallow | db/transaction.go:116-151 | Few enough bytes of written keys keep the pending tree within two levels, so the commit loop ends. |
| Transactions.KVTX.KeysShort | db/btree.go:535-541 | Every key that a transaction sees is within the limit, so deleting one that is there never hits it. |
| Transactions.KVTX.Deep | db/transaction.go:116-151 | Many enough long keys give the pending tree three levels, so the commit loop does not end. |
| Transfer.RegularPut | db/btree.go:535-579 | Keys of one length in entries of at most 256 bytes stay so under updates, and never overflow a node. |
| Transfer.RegularRemove | db/btree.go:582-605 | The same under deletions. |
| Transfer.TransferOne | db/transaction.go:119-140 | One pending update changes the current map as it says, the assertions on `deleted` and `updated` fail exactly if snapshot and current tree disagree on whether it modifies anything, and page space runs out only where the tree has no room. |
| Transfer.CarryOver | db/transaction.go:116-151 | Every pending entry is applied once and recorded once, up to the end, or to the turn in a deep tree. |
| Transfer.Revisit | db/transaction.go:118-140 | From the turn on, with everything applied: an assertion fails at the first entry that modifies the snapshot, or the cursor is back at the turn with nothing changed. |
| Transfer.TransferAll | db/transaction.go:116-151 | The loop applies all pending updates; the recorded writes are exactly the keys on which the map has changed; if none has, the tree is untouched; it does not end exactly if the pending tree has three or more levels, and the assertion fails exactly if an entry from the turn on modifies something; it stops only at an entry for which the tree has no room. |
| Commits.CheckedTx | db/transaction.go:104-107 | A transaction that passes the conflict check gives on the current map the answers it gave on its snapshot, and its net effect is that of running it now. |
| Commits.Finalized | db/transaction.go:216-243 | Forgetting a version keeps the store sound for the others and idle for the next commit. |
| Commits.LoggedCommit | db/transaction.go:142-171 | After a commit the history is sufficient for all ongoing transactions, although writes are recorded only if there are others. |
| Commits.SerializedCommit | db/transaction.go:153-159 | A committed transaction extends the serial run, and the new version is its result. |
| Histories.TracedCommit | db/transaction.go:142-171 | A commit that records exactly what it changes keeps every entry of the history exact, and the maps of all earlier versions as they were. |
| Histories.ConflictExact | db/transaction.go:182-213 | With an exact history without gaps, a conflict is a dependency that a newer version changed, and nothing else. |
| Commits.NextStored | db/transaction.go:153-159 | The new version is stored with every older one, and is what its meta record says on disk. |
| Commits.Undone | db/kv.go:316-328 | After a failed update the store is as before the commit, whichever pages have reached the file. |
| Commits.RecoverableOpens | db/kv.go:244-268 | After a crash the file opens to one of the two maps. |
| Commits.MomentsRecover | db/kv.go:279-330 | That holds for every state the file goes through. |
| Commits.LoadedFits | db/kv.go:255-266 | A file that holds a version passes every check on its meta record. |
| Commits.OpenState | db/kv.go:244-253 | The store after opening has every invariant for the version found. |
| KVStore.KV.New | db/kv.go:234-242 | A new database is valid and empty. |
| KVStore.KV.Open | db/kv.go:244-268 | What a crash leaves behind opens to a valid database with the version's map. |
| KVStore.KV.OpenFile | db/kv.go:234-268 | An empty file becomes a new database; a wrong size, a missing meta record or one that fails one of the four checks is an error, exactly; a file that a crash left behind opens to its version. |
| KVStore.KV.Begin | db/transaction.go:59-88 | The new transaction sees the current map; the database stays valid. |
| KVStore.KV.WritePages | db/kv.go:147-167 | Pages are written in any order, any write may fail; at every moment the old version is recoverable, and after success the file has all of them; an error is reported exactly if the mapping or one of the page writes fails. |
| KVStore.KV.UpdateFile | db/kv.go:279-301 | Any step may fail; at every moment the old or the new version is recoverable, and after success only the new; an error is reported exactly if one of the calls fails. |
| KVStore.KV.SettleMeta | db/kv.go:304-314 | After a failed update the old meta record is rewritten and synced before anything else; this fails exactly if one of the two calls fails. |
| KVStore.KV.LoadMeta | db/kv.go:209-217 | Root, version and free list go back to the saved record, and pending updates are dropped. |
| KVStore.KV.UpdateOrRevert | db/kv.go:303-330 | Done with the new version durable, or reverted to the old one in memory with the old or the new on disk, or neither; which one follows exactly from the failing calls. |
| KVStore.KV.Apply | db/transaction.go:113-151 | The tree's map becomes the current map with the transaction's updates laid over it, and the root differs exactly if the map does; the loop ends exactly if the pending tree has at most two levels; page space runs out only where the tree has no room for the next entry. |
| KVStore.KV.Publish | db/transaction.go:153-159 | The new version is durable and readable with the older ones, or the database is as before, exactly as the calls fail; `failed` says which. |
| KVStore.KV.CheckConflicts | db/transaction.go:104-107 | A conflict exactly if a newer version changed a key inside a dependency of a transaction that tried to write; otherwise all its reads hold for the current map. |
| KVStore.KV.Install | db/transaction.go:109-173 | The body of a commit that has no conflict: all of what `Commit` promises. |
| KVStore.KV.Persist | db/transaction.go:153-171 | A changed tree is made durable, or the database is as before, exactly as the calls fail; then the writes are recorded. |
| KVStore.KV.RecordCommit | db/transaction.go:161-171 | The new entry holds exactly the keys that the commit changed, each as a point; the history stays sufficient and without gaps, and the journal gains the transaction. |
| KVStore.KV.TxFinalize | db/transaction.go:216-243 | The transaction leaves the ongoing ones; `maxVer` becomes the oldest version in use, everything queued is opened for allocation, and exactly the entries newer than that stay in the history; the pages that only the transaction needed are released, the others kept. |
| KVStore.KV.Commit | db/transaction.go:93-174 | A conflict error exactly if a version committed since the transaction began changed a key inside a dependency range; on success the current map is the result of running the transaction on it, with all its answers right, and the version grows exactly if the map changed; a write error exactly if a call fails, with nothing changed; out of space only where the tree has no room for the next entry; the loop does not end exactly for a pending tree of three or more levels, with nothing written; at every moment a crash recovers the old map, the new one, or that of an earlier failed update. |
| DeepRuns.FirstCommit | db/transaction.go:93-174 | A new database, one small update and a commit in which no call fails: the commit succeeds and the key is there. |
| DeepRuns.LongCommit | db/transaction.go:116-140 | A new database and one transaction with 300 insertions of 240-byte keys: every insertion succeeds, and the commit fails its assertion. |
| KVStore.KV.Abort | db/transaction.go:246-253 | Nothing changes but that the transaction ends; the database stays valid. |
| KVStore.KV.SnapshotStable | db/transaction.go:63-73 | An ongoing transaction reads its snapshot, whatever has been committed since. |
| KVStore.KV.Serializable | db/transaction.go:93-174 | The current map is the result of the committed updating transactions in commit order, each with all its answers right, and every ongoing transaction reads the result of a first part of that run. |
| KVStore.KV.ChangeRecorded | db/transaction.go:142-171 | A key on which the current map differs from an ongoing transaction's snapshot is a recorded write of a newer version. |
| KVStore.KV.HistoryExact | db/transaction.go:142-171 | Every entry of the history holds exactly the keys on which its version differs from the one before. |
| KVStore.KV.CrashNow | db/kv.go:303-330 | A crash between operations recovers the current map, or, after a failed update, that of the update. |
| KVStore.KV.PagesConserved | db/free_list.go:40-59 | Between operations every page behind the meta page is exactly one of: tree page, list page, queued page. |
| KVStore.KV.QueueOpen | db/transaction.go:224-233 | A queued page is held back exactly while some ongoing transaction began before its release; the allocator gets nothing exactly if all are. |
| KVStore.KV.AllOpen | db/free_list.go:91-110 | With no transaction ongoing every queued page may be taken. |
| KVStore.KV.ReaderPage | db/transaction.go:69-72 | A page that an ongoing transaction may read is in the current tree, or queued with a greater version than the transaction's and than `maxVer`. |
| Merged.MergeExact | db/transaction.go:315-354 | Merging two runs in scan direction yields every key of either once, in order, with the pending value if there is one. |
| Merged.SeekAhead | db/btree_iter.go:136-161 | After a seek exactly the keys that satisfy the comparison lie ahead, or nothing after a `>=` seek of the empty key. |
| Merged.UpToMap | db/transaction.go:307-313 | Stopping at the end bound cuts off exactly the keys outside it. |
| Merged.ScanExact | db/transaction.go:387-407 | A scan yields exactly the keys of pending updates and snapshot inside its bounds, once each, in scan direction, pending values first; nothing for `>=` the empty key. |
| Merged.ScanIsOverlay | db/transaction.go:297-300 | The scan yields what point queries answer if and only if no deletion is pending inside its bounds. |
| CombinedCursor.CombinedIter.Deref | db/transaction.go:272-305 | The first pair of the rest of the merge. |
| CombinedCursor.CombinedIter.Valid | db/transaction.go:307-313 | Valid exactly if a pair within the end bound is left. |
| CombinedCursor.CombinedIter.Next | db/transaction.go:315-354 | The cursors with the nearer key move on, and the rest of the merge loses its first pair; a cursor on the last entry of a deep tree goes to its turn instead. |
| CombinedCursor.Advance | db/transaction.go:307-354 | Within the end bound each step leaves the first pair behind unless a cursor is caught in a deep tree; a scan that is caught stays so. |
| CombinedCursor.CaughtForever | db/transaction.go:307-354 | A scan that is caught always has one more pair. |
| CombinedCursor.Collect | db/transaction.go:272-354 | A loop of Valid, Deref and Next yields exactly the pairs up to the end bound, if the scan is not caught. |
| Codec.IntOrder | db/table.go:205-209 | The byte order of encoded integers is their order, negative ones included. |
| Codec.IntBack | db/table.go:296-299 | Decoding an encoded integer gives it back. |
| Codec.EscapeString | db/table.go:247-268 | The loop over a buffer of counted size computes the escaping. |
| Codec.UnescapeString | db/table.go:270-288 | The loop computes the inverse, and reports malformed input. |
| Codec.UnescapeEscape | db/table.go:247-288 | Unescaping inverts escaping for all byte strings, bytes 0 and 1 included. |
| Codec.NoZero | db/table.go:247-268 | An escaped string has no terminator inside. |
| Codec.StrOrder | db/table.go:210-212 | The byte order of escaped, terminated strings is the order of the strings, whatever follows. |
| Keys.TupleOrder | db/table.go:200-218 | Encodings of tuples of one schema, one possibly shorter, compare like their first different column. |
| Keys.EncodingOrder | db/table.go:200-218 | The byte order of encodings is the typed order of the tuples, and equal encodings are equal tuples. |
| Keys.EncodeValues | db/table.go:200-218 | The loop appends the encoding of the tuple. |
| Keys.DecodeExact | db/table.go:290-311 | Decoding accepts exactly the encodings of its schema, and gives back the tuple. |
| Keys.DecodeValues | db/table.go:290-311 | The loop decodes cell by cell, with the type and length checks as errors. |
| Keys.KeyOrder | db/table.go:221-230 | Keys identify their prefix and their tuple. |
| Keys.EncodeKeyPartial | db/table.go:233-244 | The bound for a comparison on some leading columns. |
| Keys.PartialExact | db/table.go:233-244 | A key satisfies the comparison with a partial key exactly if its leading columns satisfy it in typed order, for all four comparisons. |
| Keys.OtherPrefix | db/table.go:233-244 | No key of another prefix is inside the interval of a range query. |
| Keys.IntervalExact | db/table.go:765-806 | The interval of a range query holds exactly the keys of its index whose leading columns satisfy both bounds. |
| Rows.GetValues | db/table.go:122-135 | The columns' values, or an error exactly if one is missing or of the wrong type. |
| Rows.NonPrimaryKeyCols | db/table.go:138-145 | The columns outside the primary key, in table order. |
| Rows.CheckIndexCols | db/table.go:448-473 | Rejected exactly if empty, repeating or unknown columns; completed by the missing columns of the primary key. |
| Rows.CheckedIndex | db/table.go:448-473 | The result is an index of distinct known columns with the whole primary key. |
| Rows.EntryUnique | db/table.go:584-609 | An index key determines the primary key of its row. |
| Rows.AddEntry | db/table.go:592-595 | A new row's key is new in the index, and adding it leaves one key per row. |
| Rows.RemoveEntry | db/table.go:596-599 | A row's key is in the index, and removing it leaves one key per other row. |
| Rows.OtherTable | db/table.go:538-576 | Operations that change only one table's keys leave a table with other prefixes stored as it was. |
| Rows.StaysPrefixed | db/table.go:221-230 | Every key in the database keeps its four-byte prefix. |
| Tables.IndexOp | db/table.go:584-609 | All secondary indexes gain or lose exactly the record's key; an assertion on `Added` or `deleted` fails only for an index with a missing column, or whose key was there or was not; an error is a key over the limit; only keys of the record change, and save points are kept. |
| Tables.WriteRow | db/table.go:538-576 | The body of `DbUpdate` for a complete record. |
| Tables.IndexKey | db/table.go:592-605 | One index key is added or removed; the assertion on `Added` or `deleted` holds exactly if it was new or there. |
| Tables.MoveIndexKeys | db/table.go:558-573 | The old row's index keys go and the new row's come; then every index agrees again; this fails exactly if an index key of the new row is over the limit. |
| Tables.DbUpdate | db/table.go:538-576 | In all modes: the table gains or replaces exactly the row and every index agrees, or nothing changes, exactly for an incomplete record, a duplicate or an equal row; an error is exactly a row with a key over the limit or a value too long for its flag; page space runs out only where the pending tree has no room for a key of the old or the new row; no key of another table changes; save points are kept, also by an operation that fails. |
| Tables.DropIndexKeys | db/table.go:658-672 | The deleted row is decoded from its old value, and its keys leave the secondary indexes, exactly if the rebuilt keys are right; an assertion fails exactly if one of the rebuilt keys is not there; there is no error. |
| Tables.DbDelete | db/table.go:642-673 | The row with the primary key leaves the table and every index exactly if the rebuilt index keys are right, or nothing changes exactly if there is none; an assertion fails exactly if one of the rebuilt keys is not there; there is no other error; no key of another table changes; save points are kept. |
| Tables.DeleteExact | db/table.go:658-672 | Deletion keeps the indexes for every row if and only if the table lists its primary key first, in its order, or has no secondary index. |
| Tables.KeyLeft | db/table.go:658-672 | A wrong index key leaves the right one of the deleted row behind. |
| Tables.PairingExact | db/table.go:658-665 | Pairing primary-key-first values with the table's columns gives back every row if and only if the table lists the primary key first, in its order. |
| Tables.Mispaired | db/table.go:658-665 | A row that is mispaired for a given wrong column order. |
| RowScans.CheckTypes | db/table.go:809-820 | Accepted exactly if every column of the bound exists with the value's type. |
| RowScans.ChooseIndex | db/table.go:786-793 | The first index that begins with both lists of columns, or none exactly if there is none. |
| RowScans.DbScan | db/table.go:765-806 | Each error exactly in its case, a failing seek included; two empty bounds are always served by index 0, and leading columns of an index by that index or an earlier one; otherwise a fresh merged cursor, ready to be advanced, over the interval of the bounds, which becomes a dependency. |
| RowScans.ScanRows | db/table.go:765-806 | The database keys inside that interval are exactly the index keys of the rows between the bounds. |
| RowScans.ScanYields | db/table.go:765-806 | A scan of pending updates and snapshot yields, in order and once each, the keys and values of exactly the rows between the bounds, if and only if no deletion is pending there. |
| RowScans.PointQuery | db/table.go:384-403 | A query by the whole primary key finds exactly the row with that key. |
| Statements.SetRow | db/ql_exec.go:572-591 | One row of a statement: the table has the row, or is as before where the mode says so; it fails exactly if the record is incomplete, a duplicate, or too large to be written. |
| Statements.ExecInsert | db/ql_exec.go:562-592 | The table after the statement has all rows, first to last; `added` is by how much it has grown, `updated` how many records changed it; it fails exactly if some record fails after the earlier ones. |
| Statements.ExecStmt | db/ql_exec.go:268-291 | A failed statement leaves the transaction's operations and the table as before; otherwise all its rows are there; other tables and earlier save points are kept either way. |
| NodeBytes.KvSizeIs | db/btree.go:140-142 | The size that `nbytes` computes is 4 plus 14, key and value length of every entry. |
| NodeBytes.AppendRep | db/btree.go:122-137 | Appending in index order extends what the buffer holds by one entry and disturbs none. |
| NodeBytes.ReadHeader | db/btree.go:57-66 | The header reads back. |
| NodeBytes.ReadPtr | db/btree.go:70-79 | Pointers read back, with no 16-bit position wrapping around. |
| NodeBytes.ReadOffset | db/btree.go:83-104 | Offsets and positions read back, with no 16-bit arithmetic wrapping around in nodes of up to two pages. |
| NodeBytes.ReadKv | db/btree.go:105-117 | Keys and values read back. |
| NodeBytes.ReadBack | db/btree.go:57-142 | A complete buffer reads back as its entries, and `nbytes` is the size of the node. |
| NodeBytes.BNode.SetHeader | db/btree.go:63-66 | A buffer ready for its entries. |
| NodeBytes.BNode.AppendKV | db/btree.go:122-137 | The buffer holds one more entry. |
| NodeBytes.BNode.AppendRange | db/btree.go:186-194 | The buffer holds the copied entries as well. |
| NodeBytes.BNode.LeafInsert | db/btree.go:176-183 | The bytes hold the leaf with the entry inserted, as the entry-level insertion says. |

## Left out

- KVStore.KV.Commit: the run ends when a node has no room on its page, when the loop does not end, and when the meta record of a failed update cannot be rewritten, since db/kv.go:308 and db/kv.go:311 return without reverting memory.
- Transactions.KVTX.Revert: drops the reads of the failed statement, as the source does, so answers seen by a failed statement are not part of the serial run. A transaction that returns to a save point whose dependencies have been overwritten is not followed further.
- Tables.DbUpdate: what the table holds after `Failed` is left open, since a later index write fails after the row has been written; `Statements.ExecStmt` undoes it.
- Statements.ExecStmt: insert statements only; the evaluation of expressions and the update and delete statements, which loop over a scan, are not modelled.
- What the source does with a node that overflows its buffer (a failed assertion, a slice error or a truncated copy): the model only says that it happens and ends the run.
- Bytes: only `leafInsert` and what it is made of are proved on bytes; leafUpdate, leafDelete, nodeMerge, the splits and list pages are modelled on entries. Stale bytes of a recycled list page are not modelled; slots nobody wrote have no value.
- Page writes and the 72-byte meta record are atomic; a failed fsync leaves its writes unsynced. Torn pages are not modelled.
- A crash during the first commit of a new file: the source rejects a file without a valid meta page.
- System calls, mmap growth and its two kinds of failure, file creation, file size checks: a call fails or succeeds as a parameter says.
- Threads: the mutex makes Begin, Commit and Abort atomic; they interleave with all other transactions' operations in any order.
- Versions, sequence numbers and page numbers are unbounded naturals; the source has wraparound as an open point (db/transaction.go:46-50).
- `slices.SortFunc` is modelled by an insertion sort with the same comparison.
- Table definitions: their storage as JSON, the cache, the allocation of prefixes, table creation; columns are assumed distinct, which the source does not check.
- Scanner.Deref, which turns an index entry back into a row, and the record-level wrappers.
- Query language, executor and command line: shallow next to the engine.
