# Lucene++ core, modelled and proved in Dafny

This project models the hard core of Lucene++ and proves what its documentation promises of it, for all
inputs, all runs and all reachable states. `dafny verify dfyconfig.toml` checks the whole of it. Scores are
reals; everything else is the code's own arithmetic, with register widths written out where they matter.

The files follow the program:

- **Deletes and merges** (`OperationLog`, `IndexState`, `IndexRuns`, `IndexTheorems`, `IndexExamples`,
  `MergeDocIDs`, `DeleteBuffers`, `IndexWriters`): `OperationLog` is the plain sequential reading of adds, updates
  and deletes. `IndexState` is the writer between two calls, each event one critical section; a run is any
  interleaving. `EveryRunReadsItsLog` says that the two agree. The classes `BufferedDeletes`, `MergeDocIDRemapper` and
  `IndexWriter` change their fields as the code does, and their methods are proved to be those events.
- **Commits** (`CommitFiles`, `CommitRuns`, `CommitLists`, `CommitGuards`, `CommitKeeping`, `CommitSafety`,
  `CommitReaders`, `CommitExamples`, `FileDeleters`, `CommitWriters`, `SegmentFiles`, `CommitContents`,
  `CommitContentExamples`): the directory
  is a map from names to contents with a synced set; runs include failures, names written again, crashes that lose or
  tear whatever was not synced, and reopening. `CommitGuards.Spares` is the exact guard under which an event loses nothing that is referenced.
  The classes `IndexFileDeleter` and `IndexWriter` refine the functions. `CommitContents` puts the index and its commits
  together: `SegmentFiles` says what the files of a segment hold and how a commit is read back from them.
- **The read/write lock** (`WriteLocks`) of the writer, as the steps of its threads.
- **Numeric trie** (`PrefixCode`, `RangeSplit`, `TrieSearch`): the 7-bit prefix code, the range split with its
  64-bit wrap-around, the token stream, exactness of the search and the bound on the number of terms.
- **Byte slices** (`ByteSlices`, `ByteSliceRuns`, `ByteBlockPools`, `ByteSliceReaders`): streams interleaved in
  shared blocks, on flat addresses first, then in the arrays themselves.
- **Scorers** (`Postings`, `ScorerQueues`, `DisjunctionSums`, `Conjunctions`, `MergedScorers`, `BooleanScorer2s`,
  `BooleanScorers`, `DisjunctionMaxes`, `AdvanceExamples`): every scorer against one definition of which lists hold a
  document and what they give it; a boolean query's scorer is put together from the scorers below it.
- **Skip lists** (`Quotients`, `SkipLists`, `SkipListWriters`, `SkipListReaders`), **string sorting**
  (`Comparators`, `ComparatorRuns`, `ComparatorExamples`), **fuzzy terms** (`FuzzyTerms`) and the **wait queue**
  (`WaitQueues`).

## Where the code does not do what its documentation says

The model follows the code; each point is a lemma or a condition below.

- `SegmentInfos::finishCommit` swallows a failed sync of segments_N, deletes the file and returns: the commit
  counts as finished but cannot be read (`FinishedMeansReadable`; `UnsyncedCommitLost`).  If the file cannot be removed
  either, as when it is held open or the file system has become read-only, the call throws and the writer goes back to the
  commit before, but readers find the new one, until a crash tears it (`FinishedMeansReadable` and `FoundAfterwards`;
  `ThrownCommitFound` and `ThrownCommitVanishes`).
- `IndexWriter.h:644-652` promises that the delete and the add of an update are atomic as seen by a reader. But
  `prepareCommit` flushes first and `startCommit` clones the segments later, in a critical section of its own that drops
  the last segments sharing the open doc store (`IndexWriter.cpp:1977-1993`, `:3157-3168`). A flush that came in between
  may have applied a delete to a segment that stays and put the new document in one that is dropped, or may not have
  applied it at all. `CommitReadsLogIff` and `ReaderFindsDocuments` say exactly when a commit reads as the log;
  `UpdateLost`, `DeleteMissed` and `UpdateIsLost` are runs in which it does not. If the loop drops every segment, or there
  is none while a doc store is open, it looks at the entry before the first (`NothingToStopAt`).
- A refresh of everything between the two phases of a commit, as by `deleteAll` (`IndexWriter.cpp:1520`) or when
  adding indexes is undone (`:1394`), deletes the prepared segments_N (`RefreshLosesPrepared`;
  `DeleteAllLosesPrepared`). The refresh after a failed flush or merge (`IndexWriter.cpp:2196`, `:2473`) is one of a
  segment's own files, and harmless (`SegmentRefreshSpares`).
- A failed prepare makes the next pending commit hide the last finished one from new readers
  (`FailedPrepareHidesLastCommit`, and the condition in `ReaderFindsLastCommit`; `FailedPrepareHides`).
- A file name queued for deletion is not taken off the queue when the name is written again, so the next sweep takes
  the new file: `StaysIffSpared` says for every event exactly when nothing in use is lost, `FinishedMeansReadable`
  when a commit is, and `ReusedNameLosesCommit` is a run that loses one.
- `DocumentsWriter::abort` also clears the deletes already pushed by a flush (`AbortLosesPendingDeletes`;
  `AbortRevivesDocument`).
- `MergeDocIDRemapper::remap` is one too low on a document deleted before the merge (`BoundExactIff`); no run
  gets there (`RunBoundsStayExact`).
- `MultiLevelSkipListWriter` caps its levels with max instead of min (`FoundIffWithin`; `CapExample`). With the
  interval and the maximum that terms are written with, no 32-bit document count gets that far (`WithinWhenWritten`).
- The StringIndex table ends with the number of documents, so later terms fall off (`CachesAgree`), and an indexed
  empty string is there twice (`LookupIncreasing`): `SegmentsDecide` says which segments the comparator by ordinal is
  right about, and `FallenTerm` and `EmptyTerm` are two it is not. The comparator looks up the value of the bottom
  slot, not the bottom value, when the segment changes (`StaleBottom`): `OrderDecides` says which orders of calls it is
  right for, and `StaleBottomDisagrees` is one it is not. Collectors keep to such an order (`SetAgainIsOrdered`).
- `advance` of the disjunction, conjunction, disjunction-max and boolean scorers stays where it is when the target is
  not beyond the current document, where `DocIdSetIterator.h:44-70` goes on to a later one. Their contracts say exactly
  when, and `AdvanceExamples` has an input for each.
- The int that ends the windows of `BooleanScorer` wraps around at 2^31, so no window reaches a document from
  2^31 - 2048 on (`ReachedIff`), and a clause that holds one is never read to its end (`ReadToItsEndIff`).
- `DisjunctionSumScorer.h:70` gives -1 for exhaustion; the code gives NO_MORE_DOCS, as `DocIdSetIterator.h:44`.
- `MultiLevelSkipListReader.h:49` asks for a document at most the target, line 59 for one at or beyond it; the code
  stops before the first entry at or beyond the target.
- A thread that holds two read locks, or the write lock, and upgrades, waits for itself (`DeadlockIff`;
  `ReaderBlocksItself`).

## Model

| member | source | states |
|---|---|---|
| `OperationLog.ReplaySpec` | include/lucene++/BufferedDeletes.h:15-43 | the plain reading of the log holds, in order, exactly the writes that succeeded and that no later operation kills; an update does not kill its own document |
| `IndexRuns.EveryRunReadsItsLog` | include/lucene++/DocumentsWriter.h:343-348 | whatever the interleaving of writes, updates, deletes by term and query, failed documents, flushes, delete applications and merges, a reader with every buffered delete applied finds exactly the plain reading of the log |
| `IndexRuns.FlushedIndexIsReplay` | src/core/index/IndexWriter.cpp:1977-1993 | after flushing documents and deletes with every thread idle, as prepareCommit does before it calls startCommit, the segments alone hold the plain reading; a commit publishes just this only if nothing comes between that flush and the clone (`CommitReadsLogIff`) |
| `IndexRuns.FlushKeeps` | src/core/index/DocumentsWriter.cpp:454-551 | a flush moves no document, and pushing its deletes leaves every buffered bound at or beyond the segments flushed before |
| `IndexRuns.ApplyKeeps` | src/core/index/DocumentsWriter.cpp:835-875 | applying the flushed deletes changes neither what a reader finds nor what running merges rely on |
| `IndexRuns.CommitMergeKeeps` | src/core/index/IndexWriter.cpp:2362-2415 | a committed merge keeps the invariant: documents, late deletions, renumbered bounds and the other running merges stay consistent with the log |
| `IndexRuns.FailKeeps` | src/core/index/DocumentsWriter.cpp:654-723 | a document that fails while being indexed is deleted by its docID, and is as if never written |
| `IndexRuns.RegisterKeeps` | src/core/index/IndexWriter.cpp:2496-2547 | a merge takes only contiguous segments that no other merge holds |
| `IndexTheorems.MergeKeepsLiveDocs` | src/core/index/IndexWriter.cpp:2302-2360 | when a merge commits, the merged segment holds exactly the live documents of its sources, in order, deletions flushed while it ran included |
| `IndexTheorems.RunBoundsStayExact` | src/core/index/DocumentsWriter.cpp:735-745 | in every run each buffered delete bound lies beyond a committing merge, so renumbering it is exact |
| `IndexTheorems.WriterReadsItsLog` | src/core/index/IndexWriter.cpp:2066-2095 | whatever calls were made on the writer object, its buffered index reads as the plain log |
| `IndexTheorems.AbortLosesPendingDeletes` | src/core/index/DocumentsWriter.cpp:334-397 | after an abort the index reads as the log without the buffered documents if and only if no buffered delete was still waiting to reach a flushed document: such deletes are lost |
| `IndexTheorems.EveryAbortingRunReadsItsLog` | src/core/index/DocumentsWriter.cpp:334-397 | the same over runs with any number of aborts: the index goes on reading as the log as long as no abort found a delete pending, and the next abort loses none exactly when none is |
| `IndexTheorems.KeptCount` | src/core/index/IndexWriter.cpp:3157-3168 | the segments that startCommit keeps end with the last one that does not share the open doc store |
| `IndexTheorems.CommitReadsLogIff` | src/core/index/IndexWriter.cpp:3144-3168 | in every run, what a commit that keeps the first segments would hold is the plain reading of the log exactly when no buffered delete reaches a live document of theirs and no document that survives is in RAM or in a segment left out |
| `IndexTheorems.FlushedIsCaptured` | src/core/index/IndexWriter.cpp:1977-1993 | that is so right after the flush of prepareCommit, if every thread was idle |
| `IndexExamples.UpdateLost` | include/lucene++/IndexWriter.h:644-652 | a concrete run: between the flush of a commit and its startCommit a document is updated and flushed, and the commit then holds neither the old nor the new document |
| `IndexExamples.DeleteMissed` | src/core/index/IndexWriter.cpp:2670-2675 | a concrete run: a merge flushes and closes the doc store without applying a delete, and a commit then holds the deleted document beside the new one |
| `IndexExamples.AbortRevivesDocument` | src/core/index/DocumentsWriter.cpp:359-362 | a concrete run: a document is flushed, deleted by a term, and found again after an abort |
| `MergeDocIDs.RemapSubtractsDeleted` | src/core/index/MergeDocIDRemapper.cpp:59-77 | a surviving document moves down by exactly the deleted documents before it |
| `MergeDocIDs.RemapIncreasing` | src/core/index/MergeDocIDRemapper.cpp:59-77 | survivors keep their order and never collide |
| `MergeDocIDs.BoundExactIff` | src/core/index/MergeDocIDRemapper.cpp:59-77 | renumbering is right for a delete bound if and only if the bound does not fall on a document deleted before the merge, or no survivor lies below it |
| `MergeDocIDs.DeletedBoundExample` | src/core/index/MergeDocIDRemapper.cpp:59-77 | a concrete bound on a deleted document that the renumbering gets wrong |
| `MergeDocIDs.GetDocMap` | src/core/index/SegmentMergeInfo.cpp:27-48 | the map numbers the live documents in order, gives -1 to the deleted ones, and counts them |
| `MergeDocIDs.MergeDocIDRemapper.constructor` | src/core/index/MergeDocIDRemapper.cpp:15-54 | the tables hold the old and new start of each merged segment and the shift beyond them |
| `MergeDocIDs.MergeDocIDRemapper.UpperBound` | src/core/index/MergeDocIDRemapper.cpp:59-77 | the binary search finds the first start beyond the docID |
| `MergeDocIDs.MergeDocIDRemapper.Renumber` | src/core/index/MergeDocIDRemapper.cpp:59-77 | the lookup through the tables is the renumbering defined document by document |
| `DeleteBuffers.BufferedDeletes.PutTerm` | src/core/index/DocumentsWriter.cpp:936-948 | a term keeps the greatest bound it was given |
| `DeleteBuffers.BufferedDeletes.PutQuery` | src/core/index/DocumentsWriter.cpp:956-960 | a query takes the newest bound |
| `DeleteBuffers.BufferedDeletes.PutDocID` | src/core/index/DocumentsWriter.cpp:950-954 | the docID is added at the end |
| `DeleteBuffers.BufferedDeletes.Update` | src/core/index/BufferedDeletes.cpp:32-39 | takes over the newer deletes, which replace older bounds, and leaves the newer buffer empty |
| `DeleteBuffers.BufferedDeletes.Clear` | src/core/index/BufferedDeletes.cpp:41-47 | empties the buffer |
| `DeleteBuffers.BufferedDeletes.Any` | src/core/index/BufferedDeletes.cpp:53-55 | says whether any delete is buffered |
| `DeleteBuffers.BufferedDeletes.Remap` | src/core/index/BufferedDeletes.cpp:57-99 | renumbers every bound and docID after a merge |
| `DeleteBuffers.DeleteByTerm` | src/core/index/DocumentsWriter.cpp:885-905 | walking the postings up to the bound marks exactly the documents before the bound that hold the term |
| `DeleteBuffers.DeleteByQuery` | src/core/index/DocumentsWriter.cpp:916-929 | walking the matches up to the bound marks exactly the matching documents before the bound |
| `DeleteBuffers.ApplyDeletesTo` | src/core/index/DocumentsWriter.cpp:877-934 | terms, docIDs and queries together mark exactly the documents that the buffered deletes hit |
| `DeleteBuffers.SameCountNothingNew` | src/core/index/IndexWriter.cpp:2302-2360 | when no deletion is undone, an unchanged count means unchanged deletions: segments may be skipped by comparing counts |
| `DeleteBuffers.CarryDeletes` | src/core/index/IndexWriter.cpp:2302-2360 | one source segment: the deletions that arrived during the merge are carried over, whichever of the three cases applies |
| `DeleteBuffers.CommitMergedDeletes` | src/core/index/IndexWriter.cpp:2302-2360 | the merged segment is left with exactly the deletions of the documents it kept |
| `IndexWriters.MergedCarries` | src/core/index/IndexWriter.cpp:2302-2360 | those deletions, on the cells written from the cloned readers, give the merged segment of the run |
| `IndexWriters.IndexWriter.GetThreadState` | src/core/index/DocumentsWriter.cpp:571-644 | the document gets the next docID, and its delete term is buffered below that docID |
| `IndexWriters.IndexWriter.FailDocument` | src/core/index/DocumentsWriter.cpp:654-723 | the failed document is marked deleted by docID |
| `IndexWriters.IndexWriter.BufferDeleteTerm` | src/core/index/DocumentsWriter.cpp:766-771 | the delete reaches every document added so far |
| `IndexWriters.IndexWriter.BufferDeleteQuery` | src/core/index/DocumentsWriter.cpp:782-787 | the same for a query |
| `IndexWriters.IndexWriter.FlushDocs` | src/core/index/IndexWriter.cpp:2097-2265 | documents become a segment, the deletes are pushed, the counters move on |
| `IndexWriters.IndexWriter.ApplyBufferedDeletes` | src/core/index/IndexWriter.cpp:2995-3021 | the flushed deletes are applied to every segment and forgotten |
| `IndexWriters.IndexWriter.RegisterMerge` | src/core/index/IndexWriter.cpp:2496-2547 | registers the merge or refuses it |
| `IndexWriters.IndexWriter.MergeInit` | src/core/index/IndexWriter.cpp:2566-2691 | applies the flushed deletes before the merge may read |
| `IndexWriters.IndexWriter.CommitMerge` | src/core/index/IndexWriter.cpp:2362-2415 | carries late deletions over, renumbers the buffered deletes and swaps the segments |
| `IndexWriters.IndexWriter.RenumberDeletes` | src/core/index/DocumentsWriter.cpp:735-745 | both buffers and the flushed document count are renumbered, or nothing is when no merged segment had deletions |
| `CommitRuns.OpenFinds` | src/core/index/SegmentInfos.cpp:348-504 | a reader finds the only readable commit if and only if no generation has been skipped past it |
| `CommitRuns.CountsAreExact` | src/core/index/IndexFileDeleter.cpp:296-325 | in every reachable state of an open writer the count of a file is the number of live commits, checkpointed sets and protected sets that name it, whatever the policy drops |
| `CommitGuards.StaysIffSpared` | src/core/index/IndexFileDeleter.cpp:191-384 | in every reachable state, for every event of an open writer and every policy: all files that are still referenced afterwards stay on disk, whole, if and only if none of them is in the queue and free to be removed when the queue is swept, no prepared file is rewritten that something uses, and no refresh of everything meets a prepared commit that is uncounted |
| `CommitGuards.CheckpointStaysIff` | src/core/index/IndexFileDeleter.cpp:236-280 | a checkpoint, when nothing in use is queued, leaves every referenced file on disk if and only if what is queued of the new files is held open |
| `CommitGuards.DecRefKeeps` | src/core/index/IndexFileDeleter.cpp:310-384 | releasing references removes or queues exactly the files that lost their last one, and touches no other |
| `CommitGuards.CheckpointKeeps` | src/core/index/IndexFileDeleter.cpp:236-280 | in any state a checkpoint sweeps what is queued and free, keeps every other file that has references, and leaves none without references that is not gone or queued |
| `CommitGuards.CommitCheckpointKeeps` | src/core/index/IndexFileDeleter.cpp:236-280 | the same for the checkpoint of a commit and the commits its policy drops |
| `CommitKeeping.LastReferenceGoes` | src/core/index/IndexFileDeleter.cpp:310-384 | in every run and under every policy a file that loses its last reference is gone or queued, whatever the event |
| `CommitKeeping.LosesNothing` | src/core/index/IndexFileDeleter.cpp:191-384 | in every run that meets the guard no event loses a file that is referenced before and after it |
| `CommitKeeping.KeptCommitsStayWhole` | include/lucene++/IndexDeletionPolicy.h:15-51 | a commit that is whole and synced stays so for as long as the policy keeps it, through later commits, failures, rollbacks, crashes and reopenings of any run that meets the guard |
| `CommitSafety.StepKeeps` | src/core/index/IndexWriter.cpp:2032-2064 | every step of checkpoints, refreshes, syncing, two-phase commit, rollback, crash and reopening that meets the guard keeps the last finished commit whole and synced |
| `CommitReaders.ReaderFindsLastCommit` | src/core/index/IndexWriter.cpp:1977-2064 | in every run that meets the conditions of `CommitSafety.Sound` a reader finds the last finished commit, unless a generation was skipped between it and the newest segments_N: then it finds none |
| `CommitReaders.CrashKeepsLastCommit` | src/core/index/SegmentInfos.cpp:569-626 | in such a run every file of the last finished commit is synced, so whatever a crash loses or tears, that commit, or the one whose segments_N had become valid, is what remains |
| `CommitReaders.FinishedStaysWhole` | src/core/index/IndexWriter.cpp:1977-2064 | in such a run every commit that was ever the last finished one stays whole and synced for as long as the policy keeps it |
| `CommitReaders.RollbackRestores` | src/core/index/IndexWriter.cpp:1430-1500 | after such a run a rollback that spares what is referenced brings back exactly the files of the last finished commit, which a reader then finds |
| `CommitReaders.FinishedMeansReadable` | src/core/index/SegmentInfos.cpp:598-609 | every second phase of a commit after such a run, whether it returns or throws, leaves the commit readable if and only if: where it returns, the sync of segments_N worked and none of its files was queued and free to be removed; where it throws, no other file of it lost its last reference and was free to be removed |
| `CommitReaders.FoundAfterwards` | src/core/index/IndexWriter.cpp:2032-2064 | what a reader then finds: that commit if it is readable, else the last finished one, provided the policy kept that and nothing of it was queued and free |
| `CommitReaders.PrepareAlwaysSpares` | src/core/index/IndexWriter.cpp:3246-3275 | no live commit uses the name that the next commit is prepared under |
| `CommitReaders.FailedPrepareHidesLastCommit` | src/core/index/IndexWriter.cpp:3255-3268 | a failed prepare uses up a generation: while the next commit is pending a new reader finds no commit, though the last one is whole |
| `CommitReaders.SegmentRefreshSpares` | src/core/index/IndexWriter.cpp:2466-2475 | a refresh of one segment, as after a failed flush or merge, never touches a prepared commit |
| `CommitReaders.RefreshLosesPrepared` | src/core/index/IndexFileDeleter.cpp:191-212 | a refresh between the two phases makes the second phase fail if and only if it is one of everything, segments_N was never counted and no one holds it open; held open, it is queued instead |
| `CommitExamples.DeleteAllLosesPrepared` | src/core/index/IndexWriter.cpp:1502-1529 | a concrete run: all documents are deleted between the two phases, and the second phase fails |
| `CommitExamples.FailedPrepareHides` | src/core/index/IndexWriter.cpp:3255-3268 | a concrete run: a failed prepare, then a pending one, and readers find no commit |
| `CommitExamples.UnsyncedCommitLost` | src/core/index/SegmentInfos.cpp:598-609 | a concrete run: the commit returns after a failed sync, and readers find no commit |
| `CommitExamples.ThrownCommitFound` | src/core/store/FSDirectory.cpp:141-146 | a concrete run: the sync of segments_N fails and the file cannot be removed, so the commit throws, and readers find it |
| `CommitExamples.ThrownCommitVanishes` | src/core/index/SegmentInfos.cpp:598-609 | and after a crash that tears the unsynced file they find the commit before it again |
| `CommitExamples.ReusedNameLosesCommit` | src/core/store/FSDirectory.cpp:91-98 | a concrete run: a torn segments_N is queued, written again under the same name, and swept by the checkpoint that finishes the commit |
| `CommitLists.SortedCommits` | src/core/index/IndexFileDeleter.cpp:114-115 | sorting the commits read in any order gives the commits on disk, oldest first |
| `CommitLists.CountedInAnyOrder` | src/core/index/IndexFileDeleter.cpp:44-93 | counting commit by commit in any order gives the counts of the sorted list |
| `FileDeleters.IndexFileDeleter.constructor` | src/core/index/IndexFileDeleter.cpp:28-136 | the new deleter counts what the commits on disk name, removes what nothing names, protects the current segments and drops what the policy chose |
| `FileDeleters.IndexFileDeleter.IncRefAll` | src/core/index/IndexFileDeleter.cpp:290-302 | raises the count of exactly the given files by one |
| `FileDeleters.IndexFileDeleter.DecRefAll` | src/core/index/IndexFileDeleter.cpp:304-325 | lowers the count of exactly the given files, deleting those that reach zero |
| `FileDeleters.IndexFileDeleter.DeleteFile` | src/core/index/IndexFileDeleter.cpp:364-384 | deletes the file, or queues it if it is still there |
| `FileDeleters.IndexFileDeleter.DeletePendingFiles` | src/core/index/IndexFileDeleter.cpp:223-234 | retries the queue, keeping what still cannot be removed |
| `FileDeleters.IndexFileDeleter.RefreshFiles` | src/core/index/IndexFileDeleter.cpp:191-212 | removes exactly the files that were never counted, of one segment or of all |
| `FileDeleters.IndexFileDeleter.CheckpointFiles` | src/core/index/IndexFileDeleter.cpp:236-280 | the new files are counted before the old ones are released, so files of both survive |
| `FileDeleters.IndexFileDeleter.CheckpointCommit` | src/core/index/IndexFileDeleter.cpp:236-280 | the commit joins the list, and the policy's choice leaves it with its references |
| `FileDeleters.IndexFileDeleter.Compact` | src/core/index/IndexFileDeleter.cpp:169-187 | closing the gaps leaves the commits not marked deleted, in order |
| `FileDeleters.LivePlain` | src/core/index/IndexFileDeleter.cpp:156-189 | the commits left are those the policy did not choose |
| `FileDeleters.IndexFileDeleter.CloseFiles` | src/core/index/IndexFileDeleter.cpp:214-221 | releases the last checkpoint and retries the queue |
| `CommitWriters.IndexWriter.constructor` | src/core/index/IndexWriter.cpp:124-265 | a writer opens on the commit a reader would find |
| `CommitWriters.IndexWriter.BeginSync` | src/core/index/IndexWriter.cpp:3155-3185 | the files to be synced are protected first |
| `CommitWriters.IndexWriter.AbandonSync` | src/core/index/IndexWriter.cpp:3298-3304 | a superseded or failed startCommit gives its files back |
| `CommitWriters.IndexWriter.PrepareCommit` | src/core/index/IndexWriter.cpp:3246-3275 | segments_N is written under a new generation and the commit is pending, or all but the generation is undone |
| `CommitWriters.IndexWriter.PublishCommit` | src/core/index/SegmentInfos.cpp:569-588 | the checksum completes segments_N, or the commit is rolled back |
| `CommitWriters.IndexWriter.FinishCommit` | src/core/index/IndexWriter.cpp:2032-2064 | the commit becomes the one to roll back to, and whether the call returns is said exactly |
| `CommitWriters.IndexWriter.Rollback` | src/core/index/IndexWriter.cpp:1430-1500 | the pending commit is undone, the last finished segments come back, unreferenced files go and the writer closes |
| `CommitWriters.ReaderOfWriter` | src/core/index/IndexWriter.cpp:1977-2064 | whatever calls were made on the writer object, if they met the conditions of `CommitSafety.Sound`, a reader finds the last finished commit, or the one being finished once it is valid, unless a generation was skipped after it, and the files of the last finished one are whole and synced |
| `SegmentFiles.WrittenIsRead` | src/core/index/SegmentReader.cpp:255-266 | a segment is read back from its files as it was written; without a file of deletions exactly when none of its documents is deleted |
| `CommitContents.ReaderFindsDocuments` | src/core/index/IndexWriter.cpp:3120-3196 | index and commits together, crashes and new writers included, whatever comes between a flush and startCommit: in every run that meets those conditions, the documents read from the files that the found segments_N names are those of the segments some startCommit of the run kept, and are the plain reading of the log at that moment if and only if no buffered delete reached a live document of theirs and no document that survives was in RAM or in a dropped segment; the writer's own index reads as its log |
| `CommitContents.CommittedStays` | src/core/index/IndexWriter.cpp:3246-3275 | no indexing, merge, failure, crash or further commit writes anew a file of the last finished commit, so its documents stay |
| `CommitContents.WriterResumes` | src/core/index/IndexWriter.cpp:124-265 | a new writer, after a crash too, goes on from exactly the documents read from the files of the last finished commit; they are those of the log of that commit under the same condition and no other |
| `CommitContentExamples.UpdateIsLost` | include/lucene++/IndexWriter.h:644-652 | a concrete run from an empty commit to the files of the next: a reader of that commit finds no document, though the log reads as the old document at the flush and as the new one from the update on |
| `CommitContentExamples.NothingToStopAt` | src/core/index/IndexWriter.cpp:3157-3168 | a concrete run: on an index of no segments a document added by another thread leaves the loop of startCommit without a segment to stop at |
| `WriteLocks.WritersExclude` | include/lucene++/IndexWriter.h:302-310 | in every run at most one thread holds the write lock, told from who was let through and who released; while it does, every other thread with a read lock is blocked in upgradeReadToWrite; the counters are exact |
| `WriteLocks.DeadlockIff` | src/core/index/IndexWriter.cpp:318-364 | once every holder is blocked the lock is dead if and only if some thread waits for a lock it holds itself and no reader can be let in; readers that upgrade do not block each other |
| `WriteLocks.ReaderBlocksItself` | src/core/index/IndexWriter.cpp:318-329 | a concrete run: a thread that reads asks to write without upgrading, and waits for itself |
| `WriteLocks.WriteLock.AcquireWrite` | src/core/index/IndexWriter.cpp:318-329 | one turn of the wait loop lets the thread through exactly when nothing is held, and then gives it the lock unless the writer was closed |
| `WriteLocks.WriteLock.AcquireRead` | src/core/index/IndexWriter.cpp:338-345 | one turn lets the thread through unless another thread writes |
| `WriteLocks.WriteLock.UpgradeReadToWrite` | src/core/index/IndexWriter.cpp:347-357 | one turn lets the thread through exactly when every read lock is waiting to upgrade; its read lock becomes the write lock |
| `WriteLocks.WriteLock.ReleaseRead` | src/core/index/IndexWriter.cpp:359-364 | gives one read lock back |
| `WriteLocks.WriteLock.ReleaseWrite` | src/core/index/IndexWriter.cpp:331-336 | gives the write lock back |
| `PrefixCode.ToPrefixCoded` | src/core/util/NumericUtils.cpp:37-81 | fills the buffer with the shift character and the 7-bit digits, or reports a shift out of range |
| `PrefixCode.FromPrefixCoded` | src/core/util/NumericUtils.cpp:93-127 | decodes with the register's wrap-around, reporting a bad shift character or a digit above 0x7f |
| `PrefixCode.RoundTrip` | src/core/util/NumericUtils.cpp:37-127 | decoding gives back the number with its low shift bits cleared, for every value and shift |
| `PrefixCode.OrderIsomorphism` | include/lucene++/NumericUtils.h:21-29 | at one shift, codes are ordered and equal exactly as the shifted numbers are |
| `PrefixCode.ShiftsSeparate` | include/lucene++/NumericUtils.h:21-29 | codes at different shifts never coincide |
| `PrefixCode.SortableDouble` | src/core/util/NumericUtils.cpp:129-146 | on bit patterns the sortable form of a double can be undone and sorts as totalOrder, section 5.10 of IEEE 754-2008 |
| `RangeSplit.SplitRange` | src/core/util/NumericUtils.cpp:160-213 | the loop on 64-bit registers yields the split defined level by level, or reports a precision step below 1 |
| `RangeSplit.SplitExact` | src/core/util/NumericUtils.cpp:160-213 | every number in the range matches exactly one emitted range and every other number none |
| `TrieSearch.NumericTokenStream.IncrementToken` | src/core/analysis/NumericTokenStream.cpp:103-131 | hands out the tokens of the value one by one, coarser each time, or reports that no value was set |
| `TrieSearch.NumericTokenStream.Reset` | src/core/analysis/NumericTokenStream.cpp:96-101 | starts the tokens again, or reports that no value was set |
| `TrieSearch.TermsOfRange` | src/core/search/NumericRangeQuery.cpp:283-320 | a token lies among the terms a range visits exactly when it has its shift and its shifted number lies between its ends |
| `TrieSearch.TrieSearchExact` | include/lucene++/NumericRangeQuery.h:62-84 | a value indexed with one precision step is found by a query whose step is a multiple of it if and only if it lies in the range |
| `TrieSearch.QueryExact` | src/core/search/NumericRangeQuery.cpp:183-262 | the same for open and half-open queries, including bounds that exclude the extreme values |
| `TrieSearch.TermCountBound` | include/lucene++/NumericRangeQuery.h:62-81 | the number of terms a query can visit never exceeds the documented formula, when the step divides the width and leaves at least two levels |
| `ByteSliceRuns.RunKeeps` | src/core/index/ByteBlockPool.cpp:61-112 | in every run, blocks started between two slices included, slices are disjoint, linked by their forwarding addresses, and zero from the writer to the end marker |
| `ByteSliceRuns.RunData` | src/core/index/ByteSliceWriter.cpp:31-60 | every stream holds exactly the bytes sent to it, none lost when an address overwrites the end of a slice |
| `ByteSliceRuns.SlicesDisjoint` | src/core/index/ByteBlockPool.cpp:73-112 | slices of two streams never share an address |
| `ByteSliceRuns.ReadsWhatWasWritten` | src/core/index/ByteSliceReader.cpp:27-104 | however writers were interleaved, a reader from the first slice to the writer's address gets exactly the bytes of its stream, in order, then end of file |
| `ByteBlockPools.ByteBlockPool.NewSliceAt` | src/core/index/ByteBlockPool.cpp:73-81 | carves a fresh first-level slice with its end marker |
| `ByteBlockPools.ByteBlockPool.AllocSliceAt` | src/core/index/ByteBlockPool.cpp:83-112 | carves the next slice, moves the three bytes and leaves the forwarding address |
| `ByteBlockPools.ByteBlockPool.AddBuffer` | src/core/index/ByteBlockPool.cpp:61-71 | adds a zeroed block |
| `ByteBlockPools.ByteBlockPool.Reset` | src/core/index/ByteBlockPool.cpp:37-59 | zeroes what was used, recycles all blocks but the first and starts over |
| `ByteBlockPools.ByteBlockPool.GetByteBlock` | src/core/index/DocumentsWriter.cpp:1411-1430 | a block handed out is zeroed, recycled or not |
| `ByteBlockPools.ByteSliceWriter.WriteByte` | src/core/index/ByteSliceWriter.cpp:31-41 | writes at the address, allocating first when that holds an end marker |
| `ByteBlockPools.ByteSliceWriter.Append` | src/core/index/ByteSliceWriter.cpp:31-41 | writing through the object appends to the stream and to no other |
| `ByteBlockPools.ByteSliceWriter.WriteBytes` | src/core/index/ByteSliceWriter.cpp:43-56 | appends the bytes of the range to the stream, in order, and to no other |
| `ByteBlockPools.ByteSliceWriter.WriteVInt` | src/core/index/ByteSliceWriter.cpp:62-68 | appends the variable-length form of the number to the stream |
| `ByteSliceRuns.VIntRoundTrip` | src/core/store/IndexInput.cpp:35-44 | reading a variable-length number gives back what was written, whatever follows |
| `ByteSliceRuns.VIntSize` | src/core/index/ByteSliceWriter.cpp:62-68 | a 32-bit number takes one to five bytes |
| `ByteBlockPools.ByteSliceWriter.GetAddress` | src/core/index/ByteSliceWriter.cpp:58-60 | the address is that of the next byte |
| `ByteSliceReaders.ByteSliceReader.constructor` | src/core/index/ByteSliceReader.cpp:27-49 | a reader starts at the first byte of its stream |
| `ByteSliceReaders.ByteSliceReader.AtEof` | src/core/index/ByteSliceReader.cpp:51-54 | end of file is reported exactly when the whole stream has been read |
| `ByteSliceReaders.ByteSliceReader.NextSlice` | src/core/index/ByteSliceReader.cpp:82-104 | following the address stays at the same byte of the stream |
| `ByteSliceReaders.ByteSliceReader.ReadByte` | src/core/index/ByteSliceReader.cpp:56-63 | returns the next byte of the stream |
| `ByteSliceReaders.ByteSliceReader.ReadBytes` | src/core/index/ByteSliceReader.cpp:106-122 | returns the next bytes of the stream across any number of slices |
| `ByteSliceReaders.ByteSliceReader.WriteTo` | src/core/index/ByteSliceReader.cpp:65-80 | copies out the whole rest of the stream, and says how much it was |
| `Postings.PostingsScorer.Advance` | include/lucene++/DocIdSetIterator.h:44-70 | advance is the documented loop of next documents |
| `ScorerQueues.ScorerDocQueue.Top` | src/core/util/ScorerDocQueue.cpp:47-57 | the top is a least document of an iterator that stands on a posting |
| `ScorerQueues.ScorerDocQueue.CheckAdjustElsePop` | src/core/util/ScorerDocQueue.cpp:67-76 | replaces or drops the top and keeps the heap and its contents |
| `ScorerQueues.ScorerDocQueue.UpHeap` | src/core/util/ScorerDocQueue.cpp:106-117 | restores the heap, keeping its contents |
| `ScorerQueues.ScorerDocQueue.DownHeap` | src/core/util/ScorerDocQueue.cpp:119-138 | restores the heap, keeping its contents |
| `ScorerQueues.ScorerDocQueue.TopNextAndAdjustElsePop` | src/core/util/ScorerDocQueue.cpp:59-61 | the top iterator moves to its next document, or leaves |
| `ScorerQueues.ScorerDocQueue.TopSkipToAndAdjustElsePop` | src/core/util/ScorerDocQueue.cpp:63-65 | the top iterator moves up to the target, or leaves |
| `DisjunctionSums.DisjunctionSumScorer.AdvanceAfterCurrent` | src/core/search/DisjunctionSumScorer.cpp:74-98 | stops on the first unread document that enough lists hold, with its count and sum |
| `DisjunctionSums.DisjunctionSumScorer.NextDoc` | src/core/search/DisjunctionSumScorer.cpp:67-72 | the next document that enough lists hold, or NO_MORE_DOCS |
| `DisjunctionSums.DisjunctionSumScorer.Advance` | src/core/search/DisjunctionSumScorer.cpp:112-133 | lands where the documented loop of next documents would if and only if the target lies beyond the current document or too few lists are left; otherwise it stays, and with too few lists left it ends |
| `DisjunctionSums.DisjunctionSumScorer.ScoreAll` | src/core/search/DisjunctionSumScorer.cpp:48-53 | collects exactly the documents that enough lists hold, strictly increasing, with their sums |
| `Conjunctions.ConjunctionScorer.constructor` | src/core/search/ConjunctionScorer.cpp:19-60 | the iterators agree on the first common document and are ordered for later skips |
| `Conjunctions.ConjunctionScorer.DoNext` | src/core/search/ConjunctionScorer.cpp:67-77 | leaping in turn finds the first common document |
| `Conjunctions.ConjunctionScorer.NextDoc` | src/core/search/ConjunctionScorer.cpp:95-105 | the next document that all lists hold, or NO_MORE_DOCS |
| `Conjunctions.ConjunctionScorer.Advance` | src/core/search/ConjunctionScorer.cpp:79-89 | lands where the documented loop of next documents would if and only if the target lies beyond the current document or there is none yet; otherwise it stays |
| `Conjunctions.ConjunctionScorer.Score` | src/core/search/ConjunctionScorer.cpp:107-113 | the sum of the scores of all lists |
| `Conjunctions.ConjunctionScorer.ScoreAll` | include/lucene++/ConjunctionScorer.h:14-34 | collects exactly the intersection, strictly increasing, with the sums |
| `MergedScorers.AdvancedIff` | include/lucene++/DocIdSetIterator.h:44-70 | where advance leads a scorer put together is where the documented loop would lead it if and only if the target lies beyond the current document, or one clause is all there is, or before the call too few lists of a disjunction that is all there is were left |
| `MergedScorers.ClauseScorer.NextDoc` | src/core/search/BooleanScorer2.cpp:159-226 | the next document that the scorer of one clause, of enough clauses or of all clauses holds |
| `MergedScorers.ClauseScorer.Advance` | src/core/search/BooleanScorer2.cpp:159-226 | a target beyond the document leads to the first match from there; otherwise one clause goes on, a disjunction of which too few lists are left ends, and any other scorer stays |
| `MergedScorers.ClauseScorer.Score` | src/core/search/BooleanScorer2.cpp:164-226 | the sum of the scores of the clauses that match, and their number |
| `MergedScorers.DualConjunctionScorer.constructor` | src/core/search/ConjunctionScorer.cpp:19-60 | two scorers put together agree on the first document that both hold |
| `MergedScorers.DualConjunctionScorer.DoNext` | src/core/search/ConjunctionScorer.cpp:67-77 | leaping in turn finds the first document that both hold |
| `MergedScorers.DualConjunctionScorer.NextDoc` | src/core/search/ConjunctionScorer.cpp:95-105 | the next document that both hold, or NO_MORE_DOCS |
| `MergedScorers.DualConjunctionScorer.Advance` | src/core/search/ConjunctionScorer.cpp:79-89 | the first document from the target on that both hold; a target not beyond the current document leaves both there |
| `MergedScorers.ReqExclScorer.NextDoc` | src/core/search/ReqExclScorer.cpp:21-35 | the next document that is required and not excluded |
| `MergedScorers.ReqExclScorer.ToNonExcluded` | src/core/search/ReqExclScorer.cpp:37-56 | skips excluded documents, and only those |
| `MergedScorers.ReqExclScorer.Advance` | src/core/search/ReqExclScorer.cpp:66-82 | the first kept document from a target beyond the current one; otherwise it goes on, ends or stays exactly as the required scorer does |
| `MergedScorers.AdvancedGoingIff` | include/lucene++/DocIdSetIterator.h:44-70 | with exclusions, too, advance does what the documented loop does if and only if the target lies beyond the current document, or one clause is all that is required, or before the call too few lists of a disjunction that is all that is required were left |
| `MergedScorers.CountingSumScorer.NextDoc` | src/core/search/BooleanScorer2.cpp:58-93 | the next document that all parts hold and no exclusion does |
| `MergedScorers.CountingSumScorer.Advance` | src/core/search/BooleanScorer2.cpp:58-93 | goes on, ends or stays as the scorer of what is required does, past the exclusions |
| `BooleanScorer2s.PlanIsWanted` | src/core/search/BooleanScorer2.cpp:58-93 | whatever the required, optional and prohibited clauses and the minimum, the scorer put together goes through exactly the documents asked for, with the sum and the count of the clauses that match |
| `BooleanScorer2s.AsksTooMuch` | src/core/search/BooleanQuery.cpp:335-342 | asked for more optional clauses than there are, nothing being required, it would still give the documents that match them all and no prohibited one, which nobody asked for; the weight's guard is needed |
| `BooleanScorer2s.CountingScorer.Score` | src/core/search/BooleanScorer2.cpp:159-226 | scoring a document again gives the same score and counts the same clauses |
| `BooleanScorer2s.BooleanScorer2.constructor` | src/core/search/BooleanScorer2.cpp:27-93 | its hits are what the query asks for: the clauses' sum times the coordination factor of their number |
| `BooleanScorer2s.BooleanScorer2.NextDoc` | src/core/search/BooleanScorer2.cpp:116-119 | the merged scorers move to the next hit |
| `BooleanScorer2s.BooleanScorer2.Advance` | src/core/search/BooleanScorer2.cpp:127-130 | lands where the documented loop of next documents would if and only if the target lies beyond the current document, or one clause is all that is required, or before the call too few lists of a disjunction that is all that is required were left; then it ends, and otherwise it stays |
| `BooleanScorer2s.BooleanScorer2.Score` | src/core/search/BooleanScorer2.cpp:121-125 | the coordinated score of the current document, the same each time it is asked for |
| `BooleanScorer2s.BooleanScorer2.ScoreOptional` | src/core/search/ReqOptSumScorer.cpp:32-46 | the optional scorer, advanced only when a document is scored, contributes exactly when it holds the document |
| `BooleanScorer2s.BooleanScorer2.ScoreAll` | src/core/search/BooleanScorer2.cpp:95-100 | the merged scorers, driven to the end, collect exactly the hits, strictly increasing |
| `BooleanScorers.BooleanScorer.constructor` | src/core/search/BooleanScorer.cpp:16-46 | the linked clauses say about each document what the query asks for |
| `BooleanScorers.CollectKeeps` | src/core/search/BooleanScorer.cpp:181-202 | collecting a posting keeps the table equal to what has been read of the window |
| `BooleanScorers.BooleanScorer.Collect` | src/core/search/BooleanScorer.cpp:181-202 | the bucket is reset or added to, and linked once |
| `BooleanScorers.BooleanScorer.Refill` | src/core/search/BooleanScorer.cpp:128-150 | one window of every clause is read, and the buckets of the window become complete |
| `BooleanScorers.BooleanScorer.NextDoc` | src/core/search/BooleanScorer.cpp:118-152 | pops buckets, window after window, until one is a hit |
| `BooleanScorers.BooleanScorer.ScoreAll` | src/core/search/BooleanScorer.cpp:53-107 | collects every hit, each document once |
| `BooleanScorers.ReachedIff` | src/core/search/BooleanScorer.cpp:84-93 | some window reaches a document if and only if it lies below 2^31 - 2048: the int that ends the windows wraps around there |
| `BooleanScorers.ReadToItsEndIff` | src/core/search/BooleanScorer.cpp:128-148 | some number of windows reads a clause to its end if and only if all its documents lie below 2^31 - 2048; else the loop finds more to read for ever |
| `BooleanScorers.WindowedIff` | src/core/search/BooleanScorer.cpp:118-152 | the condition of the scorer below is that each clause is read to its end, and nothing more |
| `BooleanScorers.SameHits` | include/lucene++/BooleanScorer.h:15-29 | the windowed scorer and the merged scorers of one query give the same set of documents and scores, each document once, and both give what the query asks for |
| `BooleanScorers.ScoreQuery` | src/core/search/BooleanQuery.cpp:310-346 | whatever clauses, minimum, order and kind of scorer the weight is asked for, the scorer it chooses, or none, collects exactly what the query asks for, each document once |
| `AdvanceExamples.DisjunctionStays` | src/core/search/DisjunctionSumScorer.cpp:112-133 | on document 0 with document 1 to come, advance to 0 stays, where the documented loop goes on |
| `AdvanceExamples.ConjunctionStays` | src/core/search/ConjunctionScorer.cpp:79-89 | the same for a conjunction |
| `AdvanceExamples.DisjunctionMaxStays` | src/core/search/DisjunctionMaxScorer.cpp:72-90 | the same for a disjunction maximum |
| `AdvanceExamples.BooleanStays` | src/core/search/BooleanScorer2.cpp:127-130 | the same for a whole boolean query |
| `DisjunctionMaxes.WalkIsExact` | src/core/search/DisjunctionMaxScorer.cpp:52-70 | the pruned walk from the root enters exactly the places of the heap that stand on the least document |
| `DisjunctionMaxes.DisjunctionMaxScorer.ScoreAll` | src/core/search/DisjunctionMaxScorer.cpp:62-70 | adds up sum and maximum of what stands on the document below a place |
| `DisjunctionMaxes.DisjunctionMaxScorer.Score` | src/core/search/DisjunctionMaxScorer.cpp:52-60 | the maximum plus the tie breaker's share of the other scores, over exactly the lists that hold the document |
| `DisjunctionMaxes.DisjunctionMaxScorer.Heapify` | src/core/search/DisjunctionMaxScorer.cpp:92-96 | makes a heap of the same iterators |
| `DisjunctionMaxes.DisjunctionMaxScorer.HeapAdjust` | src/core/search/DisjunctionMaxScorer.cpp:98-131 | restores the heap below a place, keeping its contents |
| `DisjunctionMaxes.DisjunctionMaxScorer.HeapRemoveRoot` | src/core/search/DisjunctionMaxScorer.cpp:133-143 | removes the root only, and restores the heap |
| `DisjunctionMaxes.DisjunctionMaxScorer.NextDoc` | src/core/search/DisjunctionMaxScorer.cpp:27-46 | the next document of the union |
| `DisjunctionMaxes.DisjunctionMaxScorer.Advance` | src/core/search/DisjunctionMaxScorer.cpp:72-90 | lands where the documented loop of next documents would if and only if the target lies beyond the current document or there is none yet; otherwise it stays |
| `SkipLists.LevelCount` | include/lucene++/MultiLevelSkipListWriter.h:16-32 | level i holds exactly floor(df / interval^(i + 1)) entries |
| `SkipLists.LevelsUsed` | include/lucene++/MultiLevelSkipListWriter.h:16-32 | the levels that hold an entry are as many as the logarithm says |
| `SkipListWriters.MultiLevelSkipListWriter.constructor` | src/core/index/MultiLevelSkipListWriter.cpp:13-21 | the writer takes the greater, not the lesser, of the needed and the allowed number of levels |
| `SkipListWriters.MultiLevelSkipListWriter.BufferSkip` | src/core/index/MultiLevelSkipListWriter.cpp:44-67 | the new entry goes to exactly the levels that complete an interval, each with a child pointer to its entry one level down |
| `SkipListWriters.MultiLevelSkipListWriter.WriteSkip` | src/core/index/MultiLevelSkipListWriter.cpp:69-84 | writes the levels that hold anything, highest first, each with its length |
| `SkipListReaders.WrittenLies` | src/core/index/MultiLevelSkipListWriter.cpp:69-84 | each level lies whole at the place it was written to, a higher one before a lower one |
| `SkipListReaders.FoundIffWithin` | src/core/index/MultiLevelSkipListWriter.cpp:13-21 | a reader finds a level where the writer put it if and only if the levels in use are within the maximum, which the reader keeps to and the writer does not; beyond it no level is found in its place |
| `SkipListReaders.CapExample` | src/core/index/MultiLevelSkipListReader.cpp:143-172 | a concrete file of two levels and a reader of one, which takes a length for the first entry |
| `SkipListReaders.WithinWhenWritten` | src/core/index/TermInfosWriter.cpp:54-55 | with the interval 16 and the maximum 10 that terms are written with, no 32-bit document count has more than seven levels |
| `SkipListReaders.MultiLevelSkipListReader.LoadSkipLevels` | src/core/index/MultiLevelSkipListReader.cpp:143-172 | the lengths lead to the places given, for any number of levels read; within the maximum every level lies there |
| `SkipListReaders.DocBelow` | include/lucene++/MultiLevelSkipListWriter.h:16-32 | an entry is the interval-th entry of the level below |
| `SkipListReaders.MultiLevelSkipListReader.constructor` | src/core/index/MultiLevelSkipListReader.cpp:124-172 | every level is found where the writer put it |
| `SkipListReaders.MultiLevelSkipListReader.LoadNextSkip` | src/core/index/MultiLevelSkipListReader.cpp:81-105 | a level moves on by one entry, or is found exhausted |
| `SkipListReaders.MultiLevelSkipListReader.SeekChild` | src/core/index/MultiLevelSkipListReader.cpp:107-114 | the level below moves to the matching entry |
| `SkipListReaders.MultiLevelSkipListReader.SkipTo` | src/core/index/MultiLevelSkipListReader.cpp:51-79 | for any targets so far, lands where a scan of level 0 alone would and returns its document count; from a fresh start no more than an interval of entries is read on any one level |
| `Comparators.OrdsDecide` | include/lucene++/FieldComparator.h:261-327 | comparing by ordinal and then by value is comparing by value, for values absent from the table too |
| `Comparators.CachesAgree` | src/core/search/FieldCacheImpl.cpp:410-490 | the ordinal cache and the string cache agree on a document if and only if none of its terms fell off the table |
| `Comparators.LookupIncreasing` | src/core/search/FieldCacheImpl.cpp:444-490 | the table is strictly increasing if and only if the empty string is not an indexed term |
| `Comparators.StaleBottom` | src/core/search/FieldComparator.cpp:258-279 | with the bottom slot filled anew before the segment changes, exactly when the comparison still comes out right |
| `Comparators.StringOrdValComparator.Compare` | src/core/search/FieldComparator.cpp:195-203 | compares by ordinal within a segment and by value otherwise, which has the sign of the comparison by value whenever the ordinals are those of the values |
| `Comparators.StringOrdValComparator.CompareBottom` | src/core/search/FieldComparator.cpp:205-213 | compares by the bottom ordinal first, which has the sign of the comparison by value if that ordinal is the bottom value's or belongs to the document's own value |
| `Comparators.StringOrdValComparator.Copy` | src/core/search/FieldComparator.cpp:250-256 | the slot takes the document's ordinal, value and segment, nothing else changes |
| `Comparators.StringOrdValComparator.BinarySearch` | src/core/search/FieldComparator.cpp:244-248 | finds the first entry that is not less, over any table of the cache |
| `Comparators.StringOrdValComparator.Convert` | src/core/search/FieldComparator.cpp:215-242 | the slot's ordinal becomes that of the greatest entry of the current table not beyond its value |
| `Comparators.StringOrdValComparator.SetNextReader` | src/core/search/FieldComparator.cpp:258-268 | over any table of the cache: the bottom ordinal becomes that of what the bottom slot holds, whatever the bottom value is |
| `Comparators.StringOrdValComparator.SetBottom` | src/core/search/FieldComparator.cpp:270-279 | value and ordinal of the slot become the bottom's, brought over to the current segment |
| `ComparatorRuns.OrderDecides` | src/core/search/FieldComparator.cpp:180-330 | a sequence of calls gets the same answers from the comparator by ordinal and the one by value over all good segments if and only if, whenever a document is compared with the bottom, the bottom slot held at the last change of segment what it held when it was set, or else this document |
| `ComparatorRuns.SegmentsDecide` | src/core/search/FieldCacheImpl.cpp:410-490 | all sequences of calls in such an order get the same answers over a segment and good ones if and only if no document has a term that fell off the segment's table and none has the empty string for its last term |
| `ComparatorRuns.SetAgainIsOrdered` | src/core/search/TopFieldCollector.cpp:137-160 | setting the bottom again after its slot is filled, before the next segment, as collectors do, is such an order |
| `ComparatorExamples.StaleBottomDisagrees` | src/core/search/FieldComparator.cpp:258-268 | a concrete sequence of calls: the bottom slot is filled again, the segment changes, and a document is found greater than a bottom value that is its own |
| `ComparatorExamples.FallenTerm` | src/core/search/FieldCacheImpl.cpp:444-490 | a concrete segment of one document with two terms, for which the caches hold different strings |
| `ComparatorExamples.EmptyTerm` | src/core/search/FieldCacheImpl.cpp:444-490 | a concrete segment whose only term is the empty string: its document is found greater than itself |
| `FuzzyTerms.DistanceIsLeast` | src/core/search/FuzzyTermEnum.cpp:80-141 | no edits that lead from one text to the other cost less than the recurrence |
| `FuzzyTerms.DistanceIsReached` | src/core/search/FuzzyTermEnum.cpp:80-141 | some edits cost just that |
| `FuzzyTerms.EndBeyond` | src/core/search/FuzzyTermEnum.cpp:123-131 | once a whole row is beyond the limit, so is the distance |
| `FuzzyTerms.FuzzyTermEnum.Similarity` | src/core/search/FuzzyTermEnum.cpp:80-141 | a term is accepted if and only if its full similarity is above the minimum, and that is then what is returned: leaving early loses nothing |
| `FuzzyTerms.FuzzyTermEnum.TermCompare` | src/core/search/FuzzyTermEnum.cpp:62-70 | terms of the field that have the prefix are compared beyond it; the first other one ends the enumeration |
| `WaitQueues.WaitQueue.Add` | src/core/index/DocumentsWriter.cpp:1351-1400 | a document is written when its turn comes, with those waiting behind it, otherwise parked in its place; counts and sizes stay exact |
| `WaitQueues.WaitQueue.WriteDocument` | src/core/index/DocumentsWriter.cpp:1327-1349 | the document is written next in docID order and the turn passes on |
| `WaitQueues.WaitQueue.Grow` | src/core/index/DocumentsWriter.cpp:1373-1382 | the ring is unrolled into a larger buffer, nothing moves out of its turn |
| `WaitQueues.WaitQueue.Abort` | src/core/index/DocumentsWriter.cpp:1312-1325 | what waits is dropped, what was written stays written |
| `WaitQueues.WaitQueue.Reset` | src/core/index/DocumentsWriter.cpp:1294-1300 | an empty queue starts again at document 0 |

## Left out

- Threads: every critical section is one step; what happens between two sections is any interleaving of them.
  In `CommitContents` a section that also writes files is several steps, so there are more runs than the code has.
  Waiting is a step that is not enabled, so fairness and wake-ups are not modelled, nor is the parameter of
  `waitForAllSynced` that shadows the field, which matters to liveness only.
- Files: the directory is a map, a synced set and the number in segments.gen; bytes of segment files, locks, the
  retry timing of `FindSegmentsFile`, and CRC values are not modelled: a segments_N is valid or it is not.
- FileDeleters.IndexDirectory.DeleteFile: the files another process holds open stay the same while one directory
  object lives; in the runs of `CommitFiles` they may change at every step.
- FileDeleters.IndexFileDeleter.constructor: a torn segments_N up to the current one makes the code throw; the
  guard is the caller's, as in `CommitFiles.Reopen`, and the stale directory listing of NFS is not modelled.
- FileDeleters.IndexFileDeleter.constructor: std::sort is an insertion sort, here and in `ConjunctionScorer`.
- CommitSafety.StepKeeps: asks for the exact guard of `StaysIffSpared`, a working sync of segments_N that the sweep does
  not take, and a policy that keeps the newest commit (`Sound`). What happens at the first event without them is stated by
  `StaysIffSpared`, `RefreshLosesPrepared`, `FinishedMeansReadable`, `FoundAfterwards` and the runs of `CommitExamples`;
  how a run goes on after that is not.
- CommitContents.ReaderFindsDocuments: one file stands for all files of a segment that hold its documents, and one for
  its deletions; a doc store that segments share is no file of its own, and documents carry their position in the log. The
  files of a segment are written once it is in the index, where the code writes them just before. Aborts, which
  `IndexTheorems` has, and the transactions of addIndexes are not part of these runs. Where the loop of startCommit finds no
  segment to stop at (`LoopEnds`), nothing is cloned.
- CommitWriters.IndexWriter.PublishCommit: closing segments_N can fail after its checksum has been written; the file is
  then taken to be invalid, as when the checksum is missing.
- CommitWriters.IndexWriter.FinishCommit: the code's finishCommit is `PublishCommit` followed by this one, so that a
  run can crash in between; generations of user data, change counts and the skipping of an unchanged commit are
  not modelled, nor is closing after an out-of-memory error.
- IndexWriters.IndexWriter.CommitMerge: compound files, merge policies and schedulers only choose when a merge happens;
  the run allows any contiguous one. Doc stores decide what a commit keeps, too, and are followed in `CommitContents`: a
  merge that has to write its own closes the open one by a flush of its own before.
- DeleteBuffers.ApplyDeletesTo: a document is its set of terms and the set of queries that match it; memory
  accounting is left out except for the bytes that decide nothing.
- PrefixCode.ToPrefixCoded: a shift of 64 or more is undefined in C++ and is reported as an error where the code
  checks it; the check on the shift is the code's.
- PrefixCode.SortableDouble: on raw bits; conversion from decimal and floating-point rounding are not modelled.
- ByteSliceRuns.RunKeeps: addresses are kept below 2^31 by flushing, which is a guard on allocating events here.
- ByteBlockPools.ByteSliceWriter.WriteByte: RAM accounting and the growth of the array of buffers are left out.
- BooleanScorers.SameHits: documents lie below 2^31 - 2048, as far as the windows reach (`ReachedIff`); the int that ends
  them wraps around, as on every machine in use, though C++ leaves it undefined.
- BooleanScorers.BooleanScorer.ScoreAll: `score` with a maximum below the end of all documents is not modelled.
- MergedScorers.ClauseScorer.NextDoc: a virtual call between scorers is a choice among the three kinds of scorer that a
  boolean query puts together; clauses that are themselves queries are lists of postings.
- BooleanScorer2s.CountingScorer.Score: the not-a-number that stands for no score yet is not modelled.
- Conjunctions.ConjunctionScorer.Score: the factor given by Similarity for a conjunction of all is 1.
- DisjunctionMaxes.DisjunctionMaxScorer.HeapRemoveRoot: slots beyond the heap are cut off instead of cleared.
- SkipListReaders.MultiLevelSkipListReader.SkipTo: positions count numbers, not bytes, and the freq, prox and payload
  pointers of an entry are not modelled; beyond the maximum only `LoadSkipLevels` is.
- SkipListReaders.MultiLevelSkipListReader.constructor: reusing a reader by another call of init is not modelled; the
  code does not reset its last document then.
- SkipLists.LevelsUsed: the logarithms are exact. The code's quotient of doubles can round down, as for interval 10 and
  1000 documents, and the reader then takes fewer levels than the writer filled; interval 16, which terms are written
  with, is not affected.
- Comparators.StringOrdValComparator.Convert: it is only ever called for the bottom slot, so the branch that
  searches part of the table for another slot is never taken and not modelled; locale collation is left out.
- FuzzyTerms.FuzzyTermEnum.Similarity: similarities are exact reals.
- WaitQueues.WaitQueue.WriteDocument: a document whose finish throws, which aborts the writer, is not modelled, nor
  is pausing threads when much memory waits.
- Analyzers, similarity formulas, norms, payloads, spans, phrases, merge policies and file systems: they would add
  easy members, or rest on floating point.
