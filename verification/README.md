# Verified model of the storage engine

The storage engine keeps rows in immutable sorted files (SSTs) on an object store. This project
models the parts whose correctness spans several files of it, and proves what they promise.

* **Manifest** (`Updates`, `Protocol*`, `Manifest`, `Metadata`, `Refinement`). The set of live SSTs
  exists as a cache, as a snapshot object and as delta objects. `Protocol` is a step machine of writers,
  compaction tasks, the picker, the merger, booting and crashing, one effect a step, any
  interleaving; its state also records every update ever persisted, and counts the copies of each
  file. `Manifest` models the code that works on lists, records and objects, and `Refinement` ties
  it and the picker to steps of the machine. `Metadata` follows what is known of a file.
  A set of delta objects is *closed* against the updates that a snapshot accounts for when every
  file that the objects add and those updates delete is deleted by the objects too. Recovery is
  right exactly when the objects that survive are closed; the merger deletes in no fixed order, so
  a crash can leave objects that are not, and a deleted file then comes back without its data object
  (`ProtocolExample`); deletion in ascending order of the ids would not (`ProtocolOrder`).
  Merging an object again also gives its files a second record, and the second copy that is loaded
  from it has a mark of its own: then, and only then, one file can be in two compactions
  (`ProtocolDistinct`), and it is read twice, which doubles the bytes of append mode (`Copies`).
  `ProtocolMarks` says which copies are marked, `ProtocolProgress` what whole writes, tasks, failures,
  rounds and restarts do when nothing disturbs them.
* **Rows** (`Runs`, `Rows`, `MergeStreams`, `SortedRows`, `Readings`, `Pushdown`). The merge
  operators, the streaming merge, and what merging sorted files answers for each key.
* **Compaction** (`Compaction`, `CompactionOverwrite`, `CompactionAppend`, `AppendTheorems`, `Pools`,
  `AppendRuns`, `AppendOrder`, `AppendExample`, `Copies`). The files of one segment under any run of writes and
  compactions of any inputs. In overwrite mode the store is a last-writer-wins map. In append mode a compaction moves its
  inputs' bytes together, which changes their order exactly when another write lies between them.
* **Segments and scans** (`Types`, `Segments`, `Scan`, `SegmentKeys`, `ScanRows`, `Query`), **picker** (`Sst`,
  `Sorting`, `Picker`) and **executor** (`Executor`). Scanning groups only neighbours in the manifest's list, so a segment
  has one plan exactly when its files stand side by side. The memory counter equals the sum of the
  running tasks exactly when no task of non-zero size is refused and then reported as failed.
* **Codecs** (`LittleEndian`, `Codec`, `Duration`, `DurationText`). The snapshot format and the duration text.

`dafny verify dfyconfig.toml` checks the whole project.

What is assumed of the environment: a put or delete of an object happens or leaves the store as it
was; a listing is atomic; ids never go back over a restart; there is one merger; the sort-preserving
merge of sorted inputs is some sorted interleaving of them; the protobuf codec of delta objects is
faithful. Clocks, sizes of written objects, listing orders, failing deletions and the library's
number parser are parameters. A compaction of the row model takes its inputs from the live files;
that they stay live until its update is what `ProtocolDistinct.VictimsStayCached` states, for runs
that load no file twice.

Where code and comments disagree the code is followed. The comment that ids increase, so that they
can serve as sequences, does not mean that writes commit in that order; the model lets them commit
in any order.

## Model

| member | source | states |
|---|---|---|
| Updates.ReplayIsPutOrder | src/storage/src/manifest/mod.rs:289-299 | adding all files and then deleting all files equals applying the updates one by one in put order, if and only if no update adds a file for good after an earlier one deleted it |
| Updates.ReplayAnyOrder | src/storage/src/manifest/mod.rs:289-299 | the order in which the delta objects are listed does not matter |
| Updates.ReplayInTwoRounds | src/storage/src/manifest/mod.rs:274-307 | two merge rounds give the one-round set if and only if the second does not add back, for good, a file that the first deleted |
| Updates.ReplayInAnyRounds | src/storage/src/manifest/mod.rs:274-307 | with fresh ids, any split of the updates over any number of merge rounds gives the set that the cache has |
| Updates.CrashRecovery | src/storage/src/manifest/mod.rs:301-333 | with merged delta objects left over beside newer ones, merging again gives the right set if and only if every file that a left-over object adds and a merged one deletes is deleted by a left-over or newer object |
| Updates.CrashBeforeDeletion | src/storage/src/manifest/mod.rs:301-316 | a crash before any deletion leaves the right set of ids; the records of the files are then doubled, see `ProtocolExample.FileInTwoTasks` |
| Updates.OldestFirstDeletion | src/storage/src/manifest/mod.rs:310-330 | deletion cut off anywhere leaves the right set of ids when it runs oldest first |
| Updates.DeletedFileComesBack | src/storage/src/manifest/mod.rs:310-330 | deletion in another order may not: a concrete case in which a deleted file is live again |
| ProtocolInvariant.NextKeepsInv | src/storage/src/manifest/mod.rs:120-333 | every step of writers, compaction tasks, picker, merger, boot and crash keeps the invariant: fresh ids, log = merged + on disk, tasks with disjoint marked copies, exact counter, snapshot between the live set and all adds and never empty |
| ProtocolExact.ReplayExact | src/storage/src/manifest/mod.rs:289-307 | replaying delta objects onto the live set of a history gives the live set of both if and only if the objects are closed, and never loses a live file |
| ProtocolExact.PutSnapshotExact | src/storage/src/manifest/mod.rs:289-307 | the snapshot that a round puts is the true live set if and only if what it merged was closed |
| ProtocolExact.NextKeepsSnapshotExact | src/storage/src/manifest/mod.rs:274-307 | every step keeps the ids of the snapshot exact, a put on the condition that it merges a closed set |
| ProtocolExact.NextKeepsCacheExact | src/storage/src/manifest/mod.rs:131-157 | every step keeps cache plus updates in flight the live set, a load on the condition that it brings in the live set |
| ProtocolExact.NextKeepsLive | src/storage/src/compaction/executor.rs:186-220 | no step takes the data object of a live file or of an output written |
| ProtocolTheorems.SnapshotAlwaysExact | src/storage/src/manifest/mod.rs:274-333 | over a whole run, the snapshot is always the live set of the updates it accounts for, if and only if every put merged a closed set |
| ProtocolTheorems.CacheAlwaysExact | src/storage/src/manifest/mod.rs:131-157 | over a whole run cache plus updates in flight always is the live set if and only if every load brings in exactly the live files, whatever is put while serving |
| ProtocolTheorems.ClosedPutsLoadExactly | src/storage/src/manifest/mod.rs:76-113 | so it is if every put merges a closed set; and exact loads bring in only files that have their data objects |
| ProtocolTheorems.DiskAgreesWithCache | src/storage/src/manifest/mod.rs:131-157 | if every put merges a closed set: the set decoded from snapshot and delta objects never misses a live file, is the live set if and only if the objects on disk are closed, and with no update in flight agrees with the cache exactly then |
| ProtocolTheorems.LiveFilesHaveObjects | src/storage/src/compaction/executor.rs:186-220 | in every run, whatever deletions fail and whatever is merged, loaded or cut off by crashes, every live file has its data object |
| ProtocolTheorems.CachedFilesHaveObjects | src/storage/src/compaction/executor.rs:186-220 | over a whole run every cached file has its data object if and only if that is so right after every load |
| ProtocolTheorems.NoDanglingFile | src/storage/src/compaction/executor.rs:186-220 | if every put merges a closed set, every file that the store decodes to has its data object if and only if the deleted files that surviving delta objects bring back still have theirs, so always when the objects are closed |
| ProtocolExample.DanglingFileReachable | src/storage/src/manifest/mod.rs:310-330 | a reachable run, with one crash while delta objects are deleted, after which a deleted file is live again and has no data object, because the object left was not closed |
| ProtocolOrder.AscendingDeletionsAreClosed | src/storage/src/manifest/mod.rs:310-330 | if merged delta objects are always deleted in ascending order of their ids, then over every run, whatever crashes cut off, every state is closed and every put merges a closed set, although objects are put out of the order of their ids |
| ProtocolOrder.LeastDeleted | src/storage/src/manifest/mod.rs:310-330 | deleting the smallest merged object left keeps the rest closed |
| ProtocolTheorems.CompletedDeletionsAreClosed | src/storage/src/manifest/mod.rs:310-330 | runs in which every round deletes all it merged before the next one put only closed sets |
| ProtocolTheorems.NoDeletionIsClosed | src/storage/src/manifest/mod.rs:301-316 | the delta objects right after a snapshot of unmerged objects is put are closed |
| ProtocolTheorems.RestartRecovers | src/storage/src/manifest/mod.rs:76-113 | whatever deletions fail while booting, the cache is loaded with exactly the records, and so the files, that the store decoded to while the process was down |
| ProtocolTheorems.NoEmptySnapshot | src/storage/src/manifest/encoding.rs:278-284 | no run, whatever survives its deletions, puts an empty snapshot, so a stored snapshot can always be read |
| ProtocolDistinct.ReplaySingle | src/storage/src/manifest/encoding.rs:304-326 | a round onto a snapshot without doubled records writes one without if and only if it gives no record to a file that has one and keeps it |
| ProtocolDistinct.SnapshotsSingle | src/storage/src/manifest/encoding.rs:304-326 | over a whole run no snapshot holds a file twice if and only if no put gave a record to a file that had one and kept it |
| ProtocolDistinct.CompletedDeletionsAreDistinct | src/storage/src/manifest/mod.rs:310-330 | so it is in runs in which every round deletes all it merged before the next |
| ProtocolDistinct.DistinctPutsLoadSingle | src/storage/src/manifest/encoding.rs:296-302 | if no snapshot holds a file twice, no file is loaded twice |
| ProtocolDistinct.NextKeepsTasks | src/storage/src/manifest/mod.rs:120-333 | every step keeps what tasks rely on: one copy of each file, victims cached until their task's update, unmarked files of the picker's list still cached; a load on the condition that it brings in no file twice |
| ProtocolDistinct.CopiesExclude | src/storage/src/compaction/picker.rs:96-134 | in every run no copy of a file is in two outstanding tasks, over picks, dropped sends, failures and successes |
| ProtocolDistinct.TasksExclude | src/storage/src/compaction/picker.rs:96-134 | if no file is loaded twice, no file is in two outstanding tasks, whatever snapshots are put while serving |
| ProtocolDistinct.VictimsStayCached | src/storage/src/compaction/picker.rs:96-134 | then the files of a task are in the cache until the task's own update |
| ProtocolDistinct.TwoCopiesTwoTasks | src/storage/src/compaction/picker.rs:96-134 | from every serving state with two unmarked copies of a file, picks can give them to two tasks |
| ProtocolDistinct.LoadDecides | src/storage/src/compaction/picker.rs:96-134 | right after a load, no continuation without a crash puts a file in two tasks if and only if the load brought in no file twice |
| ProtocolDistinct.StoreDecides | src/storage/src/manifest/mod.rs:76-113 | whether it does, the snapshot and the delta objects decide while the process is down |
| ProtocolExample.FileInTwoTasks | src/storage/src/manifest/encoding.rs:304-310 | a reachable run, with one crash before a delta object is deleted, in which one file is in two outstanding tasks although every put merged a closed set |
| ProtocolExample.FileDeletedTwice | src/storage/src/compaction/executor.rs:206-216 | its continuation, in which both tasks delete the file |
| ProtocolDistinct.DeletedOnce | src/storage/src/compaction/executor.rs:206-216 | if every load brings in exactly the live files, and each once, each file is deleted from the manifest at most once, and only while it is live |
| ProtocolDistinct.DeletesFoundExactly | src/storage/src/manifest/encoding.rs:312-321 | if every put merges a closed set and no file is loaded twice, the assertion that every deleted id has a record holds if and only if each object that an earlier snapshot had already merged deletes only files that the objects at hand add |
| ProtocolExample.NotFoundReachable | src/storage/src/manifest/encoding.rs:312-321 | a reachable run, with one crash while delta objects are deleted, in which the assertion fires at the restart |
| ProtocolDistinct.NeverNotFound | src/storage/src/manifest/encoding.rs:312-321 | it never fires in runs in which each snapshot's delta objects are all deleted |
| ProtocolTheorems.CounterExact | src/storage/src/manifest/mod.rs:264-281 | the delta counter is the objects on disk plus updates counted but not put plus objects deleted but not uncounted, so it never underflows |
| ProtocolTheorems.CounterBounded | src/storage/src/manifest/mod.rs:248-262 | with at most k updates between check and put, counter and delta objects never exceed the hard limit by more than k |
| ProtocolProgress.WriteCompletes | src/storage/src/manifest/mod.rs:115-157 | from every reachable serving state with the counter at most the limit, a write that nothing disturbs adds one data object, one delta object with one file, one cached copy and one to the counter, and changes nothing else |
| ProtocolProgress.TaskCompletes | src/storage/src/compaction/executor.rs:155-222 | from every such state a sent task that nothing disturbs replaces its files by its output in the cache, by one update in the log and on disk, and in the data objects except those whose deletion fails; its copies stay marked |
| ProtocolProgress.JobFails | src/storage/src/compaction/executor.rs:123-137 | a write or a task can fail at each point before its update is put, and then gives back its count, frees its copies and leaves updates, cache and files as they were |
| ProtocolProgress.FailedFilesFree | src/storage/src/compaction/executor.rs:129-136 | after a task has failed, its copies that are still cached can be picked again, all at once |
| ProtocolDistinct.FailedTaskPickedAgain | src/storage/src/compaction/executor.rs:129-136 | in every run that loads no file twice, a task can fail and be picked again with the very same files, marks, cache, updates and objects being as before |
| ProtocolMarks.MarkedExactly | src/storage/src/compaction/picker.rs:96-115 | in every state of every run the marked copies are exactly those of the outstanding tasks, of the tasks dropped and of the tasks finished since the process began to serve |
| ProtocolProgress.RoundCompletes | src/storage/src/manifest/mod.rs:274-333 | from every reachable serving state with delta objects, a round that nothing disturbs merges all updates into the snapshot, deletes the objects except those whose deletion fails and uncounts exactly those deleted |
| ProtocolProgress.RoundFails | src/storage/src/manifest/mod.rs:274-307 | a round can fail until its snapshot is put; it leaves the store as it was, and only while booting it stops the process |
| ProtocolProgress.BootCompletes | src/storage/src/manifest/mod.rs:76-113 | from every reachable state in which the process is down, booting that nothing disturbs ends in serving what the store decoded to, with nothing marked and the counter the number of delta objects left |
| Codec.HeaderRoundTrip | src/storage/src/manifest/encoding.rs:111-152 | a header decodes to itself |
| LittleEndian.LeBytesAt | src/storage/src/manifest/encoding.rs:135-152 | byte i of an integer is its digit of weight 256^i |
| LittleEndian.TwosComplement | src/storage/src/manifest/encoding.rs:180-185 | a timestamp and the word written for it differ by a multiple of 2^64 |
| Codec.HeaderLayout | src/storage/src/manifest/encoding.rs:135-152 | magic, version, flag and length stand at 0, 4, 5 and 6, least significant byte first |
| Codec.NewHeaderBytes | src/storage/src/manifest/encoding.rs:98-109 | the 14 bytes of a new header |
| Codec.RecordLayout | src/storage/src/manifest/encoding.rs:173-194 | id, start, end, size and number of rows stand at 0, 8, 16, 24 and 28, least significant byte first |
| Codec.SnapshotLayout | src/storage/src/manifest/encoding.rs:328-337 | the header, then record k at 14 + 32 k, and nothing else |
| Manifest.FileLayout | src/storage/src/manifest/encoding.rs:200-209 | where the record of a file has its id, time range, size and number of rows |
| Codec.HeaderBytes | src/storage/src/manifest/encoding.rs:111-152 | re-encoding a decoded header gives its bytes |
| Codec.RecordRoundTrip | src/storage/src/manifest/encoding.rs:173-237 | a record decodes to itself, negative timestamps included |
| Codec.RecordBytes | src/storage/src/manifest/encoding.rs:173-237 | re-encoding a decoded record gives its bytes |
| Codec.ReadHeader | src/storage/src/manifest/encoding.rs:111-133 | reads a header exactly when there are enough bytes and the magic is right, and says which error it is otherwise |
| Codec.TryFrom | src/storage/src/manifest/encoding.rs:268-293 | decodes exactly the accepted byte strings, to well-formed contents whose encoding they are; no sum overflows 64 bits, the record loop never runs short; the error otherwise |
| Codec.EncodeInjective | src/storage/src/manifest/encoding.rs:328-337 | different contents have different encodings |
| Codec.EncodingAccepted | src/storage/src/manifest/encoding.rs:271-293 | the encoding of well-formed contents is accepted |
| Codec.StoreAndLoad | src/storage/src/manifest/encoding.rs:268-337 | encoding and decoding gives the contents back, and an error if and only if there is no record |
| Manifest.SequenceRestored | src/storage/src/manifest/encoding.rs:200-250 | a file comes back from its record, sequence included, if and only if its sequence is its id |
| Metadata.MetadataRecovered | src/storage/src/manifest/encoding.rs:240-250 | through any run of updates, merge rounds, crashes and restarts, every file of the manifest's list has the very metadata with which it was created, its sequence included |
| Manifest.Snapshot.AddRecords | src/storage/src/manifest/encoding.rs:306-310 | appends the records and keeps the header's length right |
| Manifest.Snapshot.DeleteRecords | src/storage/src/manifest/encoding.rs:323-325 | retains exactly the records not deleted, in order, and keeps the header's length right |
| Manifest.Snapshot.IntoBytes | src/storage/src/manifest/encoding.rs:328-337 | the bytes are the encoding |
| Manifest.Snapshot.IntoSsts | src/storage/src/manifest/encoding.rs:296-302 | one unmarked file per record, duplicates included |
| Manifest.Cache.Update | src/storage/src/manifest/mod.rs:146-154 | the cache's ids change as one update says, order kept |
| Manifest.Cache.FindSsts | src/storage/src/manifest/mod.rs:165-172 | the cached files that overlap the range, in cache order |
| Manifest.FoundExactly | src/storage/src/manifest/mod.rs:165-172 | of the files with a non-empty range, a query finds exactly those that share a timestamp with it |
| Manifest.ObjectStore.ReadSnapshot | src/storage/src/manifest/mod.rs:336-354 | a missing snapshot reads as empty, any other read error is an error; a stored one is read if and only if it is accepted |
| Manifest.MergedIds | src/storage/src/manifest/mod.rs:289-299 | adding records and retaining the others is the replay of the ids, although records can be duplicated |
| Manifest.MergedReadable | src/storage/src/manifest/mod.rs:289-307 | what a round writes is readable if and only if some file stays live, and decodes to the replayed ids |
| Manifest.ManifestMerger.DoMerge | src/storage/src/manifest/mod.rs:274-333 | one round: the new snapshot, the delta objects left and the counter, for any listing order and any failing deletions; it succeeds if and only if no request fails and the snapshot can be read, and else changes no object |
| Manifest.ManifestMerger.Collect | src/storage/src/manifest/mod.rs:291-298 | all adds in the snapshot, all deletes collected, in listing order |
| Manifest.ManifestMerger.DeleteDeltas | src/storage/src/manifest/mod.rs:309-330 | all listed objects but those whose deletion fails are gone, and are uncounted one by one |
| Refinement.ListingReplays | src/storage/src/manifest/mod.rs:275-299 | the round over any listing replays the log of the step machine |
| Refinement.RoundRecords | src/storage/src/manifest/mod.rs:289-299 | a round writes each record as often as the step machine says, copies included |
| Refinement.RoundRefines | src/storage/src/manifest/mod.rs:274-333 | what a round does to the snapshot object, the delta objects and the counter, the step machine does in steps |
| Refinement.LoadRefines | src/storage/src/manifest/encoding.rs:296-302 | loading a snapshot makes as many copies of a file as it has records |
| Refinement.UpdateRefines | src/storage/src/manifest/mod.rs:146-154 | the change of the manifest's list by an update is the machine's step on copies |
| Refinement.PickRefines | src/storage/src/compaction/picker.rs:96-115 | a choice of unmarked places of the list is a pick of the machine, with its effect on the marks |
| Refinement.PickStep | src/storage/src/compaction/picker.rs:84-115 | picking a candidate is such a choice, and marks exactly those places |
| Refinement.FailureStep | src/storage/src/compaction/executor.rs:123-137 | when a task fails, exactly the places of its files are not marked any more |
| Refinement.UnmarkRefines | src/storage/src/compaction/executor.rs:129-136 | that is what the machine's step `Unmark` does to the marks |
| Refinement.MetadataRefines | src/storage/src/manifest/encoding.rs:240-337 | the steps on metadata are the machine's steps on delta objects, list and snapshot, seen on ids |
| Rows.AppendExactly | src/storage/src/operator.rs:59-111 | append mode fails if and only if two or more rows all have no byte in some column; else it gives the first row with the values of all rows end to end in their order |
| Rows.OutputBuiltin | src/storage/src/read.rs:289-343 | merged rows have no builtin columns, or, if these are kept, those of a row that was merged |
| Rows.DropCommutes | src/storage/src/read.rs:251-260 | dropping the builtin columns before merging equals dropping them after it, errors included, for both operators |
| MergeStreams.GroupByKey | src/storage/src/read.rs:294-306 | the groups of a batch are its maximal runs of equal primary keys |
| MergeStreams.Regroup | src/storage/src/read.rs:308-327 | a batch joined with the rows held back: the finished runs of everything read so far, and the open one |
| MergeStreams.ErrorIsFinal | src/storage/src/read.rs:329-331 | an error in a finished run is an error of the whole merge, whatever follows |
| MergeStreams.MergeStream.MergeBatch | src/storage/src/read.rs:289-343 | the batch returned extends what was returned by the merge of the newly finished runs; the rest is held back |
| MergeStreams.MergeStream.PollNext | src/storage/src/read.rs:349-385 | the end is reported only when what was returned is the one-shot merge; an error only when that is an error |
| MergeStreams.MergeStream.Flush | src/storage/src/read.rs:356-367 | the last run, builtin columns dropped first, completes the one-shot merge |
| MergeStreams.Drain | src/storage/src/read.rs:289-385 | for every split of the rows into batches, empty ones included, the stream's output is the one-shot merge of the maximal runs, and its error that one's |
| SortedRows.MergeExists | src/storage/src/read.rs:482-492 | sorted files have a sorted merge |
| SortedRows.MergeUnique | src/storage/src/read.rs:482-492 | and only one when no two files hold one key at one sequence, however ties are broken |
| SortedRows.LessExactly | src/storage/src/read.rs:482-492 | keys are ordered by the first column in which they differ |
| Readings.OneShotMeaning | src/storage/src/read.rs:289-343 | merging sorted rows fails if and only if some key's merge does; else it gives, in ascending order, the operator's row for each key that has rows and no other |
| Readings.SameAnswers | src/storage/src/read.rs:289-343 | sorted rows with the same answer for every key have the same merge, errors included |
| Pushdown.FilterThenMerge | src/storage/src/read.rs:459-492 | merging rows filtered by primary key gives the filtered merge, and fails if and only if the merge of a selected key does |
| Pushdown.FilterPushdown | src/storage/src/read.rs:459-492 | filtering every file below the merge equals filtering after it, for both operators and any sorted files |
| Compaction.CompactedRow | src/storage/src/operator.rs:39-111 | a compacted row has the key, width and builtin columns of one of the rows it comes from; in overwrite mode it is that row |
| Compaction.CompactKeepsFiles | src/storage/src/compaction/executor.rs:155-222 | compacting any live files, in either mode, keeps files sorted, untied and without fresh sequences |
| Compaction.RunFiles | src/storage/src/storage.rs:201-213 | so in every reachable state, with writes committing in any order of their ids |
| CompactionOverwrite.NewestTops | src/storage/src/operator.rs:39-44 | the last row of a key in a sorted merge is its newest row in any file |
| CompactionOverwrite.CompactKeepsCurrent | src/storage/src/compaction/executor.rs:155-222 | compaction of any inputs keeps the newest row of every key live and brings in no row that was not written |
| CompactionOverwrite.LastWriterWins | src/storage/src/read.rs:289-343 | over every run of writes and compactions, merging all live files of a segment gives, in ascending key order, exactly the row with the greatest sequence ever written under each key |
| CompactionOverwrite.CompactionInvisible | src/storage/src/compaction/executor.rs:155-222 | over every such run, merging all live files of a segment answers as if nothing had been compacted |
| CompactionAppend.AfterRows | src/storage/src/compaction/executor.rs:160-222 | after a compaction in append mode the rows of a key are the others in order, with one row for all the inputs' rows where the first of those was |
| AppendTheorems.CompactionPermutes | src/storage/src/operator.rs:59-111 | for any inputs a compaction permutes the chunks of every key and loses or doubles none; the order changes if and only if another row's sequence lies between those of the inputs |
| AppendTheorems.AppendPreserved | src/storage/src/read.rs:482-492 | if for no key such a row exists, merging all live files of the segment answers the same after the compaction, errors included |
| AppendTheorems.AppendPermuted | src/storage/src/read.rs:482-492 | for any inputs that merge fails after the compaction if and only if it failed before; else each key has a row if and only if it had one, holding its chunks end to end |
| AppendRuns.ChunksConserved | src/storage/src/operator.rs:59-111 | over every run of writes and compactions, the merge of the live files holds for every key the values of all rows ever written under it, whole, end to end, in one order for all columns |
| AppendRuns.FailureConserved | src/storage/src/operator.rs:88-108 | over every such run it fails if and only if the merge of everything ever written does |
| AppendOrder.CompactionKeepsOrder | src/storage/src/operator.rs:59-111 | a compaction none of whose inputs' rows come before and others after a row of the rest answers the same |
| AppendOrder.OrderConserved | src/storage/src/operator.rs:59-111 | over every run whose compactions enclose no row that is live beside their inputs or written later, the merge of the live files answers as the merge of everything ever written, order and errors included |
| AppendRuns.BytesConserved | src/storage/src/operator.rs:59-111 | so for every key and column its bytes are those ever written, as a multiset |
| AppendExample.StraddlingReorders | src/storage/src/operator.rs:59-111 | a concrete compaction around another write after which the merge gives the bytes 1, 3, 2 instead of 1, 2, 3 |
| Copies.RowsMultiply | src/storage/src/manifest/encoding.rs:304-310 | every row is read as often as its file is in the list |
| Copies.AppendMultiplies | src/storage/src/manifest/encoding.rs:304-310 | in append mode every byte of a key is read as often as the files that hold the key are in the list |
| Copies.OneRowRepeats | src/storage/src/operator.rs:59-111 | a key with one row, in a file that is c times in the list, gets every value c times; from two on, an error if a value has no byte |
| Copies.OverwriteUnchanged | src/storage/src/operator.rs:39-44 | in overwrite mode any numbers of copies answer as one |
| Types.CheckMeansOneSegment | src/storage/src/storage.rs:307-315 | the write check on a non-empty range holds if and only if the whole range is in one segment, on both sides of zero |
| Types.KeysAgree | src/storage/src/types.rs:82-85 | the picker's key and the scan's key put the same files together |
| Types.TruncateTowardZero | src/storage/src/types.rs:82-85 | the picker's key is a multiple of the duration, less than one duration away from the timestamp and not farther from zero, so it never overflows |
| Types.SegmentBounds | src/storage/src/types.rs:82-85 | which timestamps are in segment k: one duration for each segment, two, around zero, for segment 0 |
| Types.OverlapsMeansShares | src/storage/src/types.rs:125-127 | two non-empty ranges overlap if and only if they share a timestamp |
| Segments.OutputRange | src/storage/src/compaction/executor.rs:160-163 | the output's range is the smallest that holds all inputs' |
| Segments.OutputInSegment | src/storage/src/compaction/executor.rs:160-163 | an output is in its inputs' segment under the picker's and the scan's key |
| Segments.FilesInOneSegment | src/storage/src/storage.rs:307-315 | if every write is checked, every live file of every reachable state lies in one segment |
| Segments.WritesStaySelected | src/storage/src/types.rs:125-133 | every write that has not expired is held by a live file of its segment, which every query selecting the write's range selects |
| Segments.NoFileLeftOver | src/storage/src/compaction/executor.rs:186-216 | in every reachable state the live files are exactly those that have the rows of some write that has not expired: no input of a compaction stays live |
| Scan.PlanFiles | src/storage/src/storage.rs:342-357 | the plans are the groups of neighbours of one segment, sorted by segment |
| SegmentKeys.SegmentOfTimes | src/storage/src/storage.rs:342-344 | the key of a file that lies in one segment is the segment of every timestamp in its range |
| SegmentKeys.PickerAgrees | src/storage/src/compaction/picker.rs:136-153 | such files have one key if and only if the picker finds them in one segment, and if and only if their timestamps are of one segment |
| Scan.OnePlanPerSegment | src/storage/src/storage.rs:342-348 | every segment is scanned by one plan if and only if the files of each segment stand side by side in the manifest's list |
| Scan.SegmentScannedTwice | src/storage/src/storage.rs:342-348 | files of segments 0, 1, 0 are scanned by two plans of segment 0 |
| ScanRows.ScanGives | src/storage/src/storage.rs:346-368 | the union of the plans gives a key once for each plan that holds it |
| ScanRows.OneRowPerKey | src/storage/src/storage.rs:346-368 | a scan gives a key at most once if and only if the selected files that hold it are all in one plan |
| ScanRows.PlansCover | src/storage/src/storage.rs:342-357 | every selected file is in one plan, once |
| ScanRows.PlansAreSegments | src/storage/src/storage.rs:342-357 | the timestamps of a plan are all of one segment; and two timestamps of one segment are in one plan if the files of every segment stand side by side |
| ScanRows.OncePerSegment | src/storage/src/storage.rs:342-368 | for the plans of a scan: a key is given once for each plan that holds it, and at most once for each segment if the files of every segment stand side by side |
| Query.SelectedAfter | src/storage/src/storage.rs:335-335 | a query that overlaps every input of a compaction reads the output in their place, one that misses the output's range reads neither |
| Query.OverwritePreserved | src/storage/src/compaction/executor.rs:155-222 | in overwrite mode a compaction does not change what merging any files that include its inputs answers |
| Query.QueryUnchanged | src/storage/src/storage.rs:335-357 | such queries get the same answer after the compaction, in append mode if it encloses no other row that they read |
| Query.NarrowQueryChanges | src/storage/src/storage.rs:335-335 | a query that overlaps one of two inputs loses the row of the queried times to a newer row of other times |
| Picker.SmallestAreLeast | src/storage/src/compaction/picker.rs:165-166 | of all choices of as many files, the smallest have the least total |
| Picker.GreedyIsOptimal | src/storage/src/compaction/picker.rs:169-180 | no choice within the limits has more files than the longest prefix within them |
| Picker.SortBySize | src/storage/src/compaction/picker.rs:165-166 | a permutation, sorted by size |
| Sst.ExpiredExactly | src/storage/src/sst.rs:109-114 | every timestamp of an expired file lies at least two before the expire time; a non-empty file that is not expired has one that does not; without an expire time none expires |
| Picker.ExpiredFiles | src/storage/src/compaction/picker.rs:117-134 | which non-empty files are in which of the two lists, by their timestamps |
| Picker.Strategy.FindUncompactedAndExpired | src/storage/src/compaction/picker.rs:117-134 | the unmarked files, split by expiry, in order |
| Picker.Strategy.FilesBySegment | src/storage/src/compaction/picker.rs:136-153 | every segment that has files, with those files in order |
| Picker.Strategy.TakeWithinLimits | src/storage/src/compaction/picker.rs:169-180 | the longest prefix within the count and size limits |
| Picker.Strategy.PickCompactionFiles | src/storage/src/compaction/picker.rs:155-188 | a largest choice within the limits from the newest segment that has any; nothing if and only if no segment has |
| Picker.Strategy.Choose | src/storage/src/compaction/picker.rs:84-98 | the same over the unmarked, unexpired files, beside all unmarked expired ones |
| Picker.Strategy.PickedSomething | src/storage/src/compaction/picker.rs:155-188 | the files picked are all from one segment, and some if the minimum is not zero |
| Picker.Strategy.PickCandidate | src/storage/src/compaction/picker.rs:84-115 | the task is such a choice with the expired files, exactly its files become marked, no expired file of it holds a timestamp from the expire time on; no task changes no mark, and means that no segment qualifies unless the minimum is zero |
| Executor.Executor.PreCheck | src/storage/src/compaction/executor.rs:93-114 | admits a task exactly when the wrapping sum is within the limit, and reserves exactly then: the interleaving model's check and reservation in one go |
| Executor.Executor.OnSuccess | src/storage/src/compaction/executor.rs:116-121 | releases the task's size, as the interleaving model's finishing step does |
| Executor.Executor.OnFailure | src/storage/src/compaction/executor.rs:123-137 | releases the task's size, as that model's steps for a running and for a refused task both do, and unmarks all its files |
| Executor.InputSizeAdds | src/storage/src/compaction/mod.rs:33-35 | the size of a task is the wrapping sum of its inputs' sizes, whatever has expired |
| Executor.PassesExactly | src/storage/src/compaction/executor.rs:102-108 | if the sum does not wrap, a task passes if and only if it fits beside what is in use |
| Executor.PickedPasses | src/storage/src/compaction/picker.rs:167-180 | a picked task is no larger than the picker's limit, and an idle executor with at least that limit admits it |
| Executor.PickAndCheck | src/storage/src/compaction/executor.rs:93-114 | so picking and then checking on an idle executor reserves exactly the inputs' total |
| Executor.InusedExact | src/storage/src/compaction/executor.rs:93-137 | in every interleaving the counter is, modulo 2^64, the sizes of the running tasks less those of the tasks refused and reported |
| Executor.InusedIsRunning | src/storage/src/compaction/executor.rs:105-137 | over a whole run the counter is the sum of the running tasks if and only if every refused and reported task had size zero |
| Executor.InusedReturnsToZero | src/storage/src/compaction/executor.rs:262-272 | without refusals the counter is zero whenever no task runs |
| Executor.SerialWithinLimit | src/storage/src/compaction/executor.rs:102-113 | if no two tasks are between check and reservation at once, no refusal is reported and the sums do not wrap, the running tasks are within the limit |
| Executor.SerialAdmits | src/storage/src/compaction/executor.rs:102-108 | and each check then admits the task if and only if it fits beside the running ones |
| Executor.RefusalUnderflows | src/storage/src/compaction/executor.rs:123-127 | every task larger than the limit, refused on an idle executor, makes the counter wrap below zero |
| Executor.InterleavedChecksExceed | src/storage/src/compaction/executor.rs:102-113 | for every limit from 1 to below 2^63, two tasks of that size, checked before either reserves, exceed it |
| Duration.Position | src/common/src/time_ext.rs:100-100 | the first unit letter |
| Duration.FromStr | src/common/src/time_ext.rs:91-136 | terminates on every text with the meaning that `Parsed` gives it, each error included |
| Duration.ReadExactly | src/common/src/time_ext.rs:100-129 | a text can be read if and only if it is a sequence of numbers with units in strictly decreasing order, and is then their sum |
| Duration.UnitsDecrease | src/common/src/time_ext.rs:116-118 | accepted units are strictly decreasing |
| Duration.Fmt | src/common/src/time_ext.rs:141-172 | prints the parts of the duration, leaving out those that are zero |
| Duration.PartsAddUp | src/common/src/time_ext.rs:141-172 | the printed parts are in strictly decreasing units and add up to the duration |
| Duration.PartialSums | src/common/src/time_ext.rs:121-124 | every partial sum while parsing them back is an integer not above the duration, so doubles hold it below 2^53 |
| Duration.RoundTrip | src/common/src/time_ext.rs:91-172 | parsing the printed form of any duration of whole milliseconds below 2^53 gives it back |
| DurationText.ShownAs | src/common/src/time_ext.rs:141-172 | every duration but zero is printed as its days, hours below 24, minutes and seconds below 60 and milliseconds below 1000, each left out if it is zero |
| DurationText.ReadAs | src/common/src/time_ext.rs:100-129 | a text of such numbers, of any size, is read as what they make together in milliseconds |
| DurationText.ParsedExactly | src/common/src/time_ext.rs:91-136 | a text is a duration if and only if it is ASCII and a sequence of numbers with strictly decreasing units and a sum that is not negative; it then has the whole milliseconds of the sum, cut at 64 bits |
| DurationText.ReadErrors | src/common/src/time_ext.rs:100-129 | which error a text gives: the first bad part decides, by its unit before its number; then text after the last unit |
| DurationText.TrimExactly | src/common/src/time_ext.rs:92-92 | only blanks are taken off, and all of them at both ends |
| DurationText.AsMillisExactly | src/common/src/time_ext.rs:142-142 | what is printed are the whole milliseconds, as long as 64 bits hold them |
| DurationText.DecimalAt | src/common/src/time_ext.rs:144-165 | numbers are printed in decimal, most significant digit first and without leading zeros |

## Left out

- Executor.SerialWithinLimit: needs sizes and limit whose sum does not wrap at 2^64, because the check adds them before it compares.
- Duration.FromStr: the number parser is a parameter that gives finite numbers, so infinity and not-a-number, which the library also reads, are not covered; sums are of real numbers, which doubles match on the range of the round trip.
- Duration.RoundTrip: assumes of the number parser only that it reads decimal integers below 2^53 exactly and refuses the empty text; `Duration.SomeParserReadsDigits` shows such a parser.
- Manifest.ManifestMerger.DoMerge: one uninterrupted round; interleavings and crashes inside it are steps of `Protocol`. The debug assertion of `delete_records` is stated in `ProtocolDistinct.DeletesFoundExactly`, not as a panic.
- ProtocolDistinct.TasksExclude: only for runs that load no file twice; after a restart that merges delta objects again the code breaks it, exactly as `ProtocolDistinct.LoadDecides` says.
- ProtocolDistinct.DeletedOnce: only for such runs whose loads are also exact, because both tasks that hold a file delete it (`ProtocolExample.FileDeletedTwice`), and a file that comes back can be deleted again.
- ProtocolDistinct.DeletesFoundExactly: only for runs that load no file twice and put closed sets; `ProtocolExample.NotFoundReachable` shows a run in which the assertion fires.
- Manifest.Snapshot.AddRecords: needs fewer than 2^58 records, since the header counts their bytes in 64 bits.
- AppendRuns.ChunksConserved: says nothing of the order of the chunks, which a compaction around another row changes; `AppendOrder.OrderConserved` says when the order is kept.
- CompactionOverwrite.CompactionInvisible: about all live files of a segment. A scan reads only files that overlap its range; `Query.QueryUnchanged` says for which ranges the answer stays, `Query.NarrowQueryChanges` shows one for which it does not.
- MergeStreams.MergeStream.PollNext: errors of the stream below the merge, which are passed on as they are, are not represented.
- Expired files in the row model: deleting them drops their rows by design.
- Type checks of the append operator and of key columns, null keys, and rows of different widths: all rows of a segment have the columns of one schema.
- Scans with projections, and predicates on value columns, which are applied before the merge and do not commute with it.
- The factor 1.1 in the picker's size limit and the clock in its expiry time: both are parameters.
- Scans that are running while compaction deletes their files.
- Soft merge threshold, channels and timers of the scheduler: merging may start at any time, and a picked task may be sent or dropped at any time.
- Protobuf, Parquet, Arrow, DataFusion and the object store's internals.
- Size texts, configuration, server, metric engine and benchmarks: no state to speak of.
