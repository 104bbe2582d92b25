# DiffKV / Titan: a verified model of blob file management

DiffKV keeps keys in an LSM tree and large values in blob files beside it. The LSM tree is RocksDB;
this project models what the repository adds: which blob files exist, what their bytes mean, how
values move between them, and when a file may disappear. It is written in Dafny 4.11.
`dafny verify dfyconfig.toml` checks everything.

## Contents

| files | subject |
|---|---|
| `FileStates`, `Lifetime`, `LifetimeProof`, `LifetimeGcProof`, `LifetimeValues`, `LifetimeFidelity`, `LifetimeRaces`, `LifetimeFailures` | blob files under writes, flush, garbage collection, snapshots and purge, as a state machine over all interleavings |
| `Scheduler`, `SchedulerProgress` | the counters, queue and condition variable of background collection, column family drops and closing |
| `SizeProperty`, `Accounting`, `Ledger`, `Products`, `AccountingRuns`, `ForgottenGarbage`, `CallbackLedger`, `CallbackRuns`, `OvertakenCallbacks`, `DeleteEdits` | discardable bytes of sorted files with level merge on, from built tables to whole runs, with callbacks at once or later |
| `Coding`, `VersionEdits`, `EditCollector`, `Recovery`, `FileSet` | the manifest: record bytes, edit collection, logging, snapshot and replay |
| `TableBuilding`, `TableBuildingProof`, `TableSizes`, `TableBuilder` | building a table while values move between table and blob files, and the sizes of those files |
| `BlobFormat`, `BlobFileIO`, `BlobReader`, `MergeIterator` | blob file bytes, builder, iterator, cached reader, merge |
| `Order`, `SortedRuns`, `RangeMerge` | the two interval algorithms |
| `BlobStorage` | a column family's file table, range index, obsolete list and level sizes |

Objects that the source updates in place are classes whose methods are proved against functions of
the old state; protocols between threads are state machines over their steps, and the theorems
about them quantify over every finite run.

## What does not hold, and exactly when it does

Some promises fail in the code as it is. Each has a lemma with a concrete or general failing case
and one that says when the promise holds.

- A purge reads the oldest snapshot before it takes the mutex (src/db_impl_files.cc:10-13). A file
  that becomes obsolete in between can be removed under a live snapshot (`StalePurgeDangles`). In
  every run the purge is safe for each file whose obsolete sequence had been reached when the
  snapshots were read, or lies at or below every snapshot taken since (`GuardedPurgeIsSafe`). What
  remains is exact: only a snapshot taken since, between the sequence at the read and the obsolete
  sequence, can lose the file, and it does if it sees it (`StalePurgeWindow`, `StalePurgeIsSafeIff`).
- Collection writes relocated indexes back with a plain write (src/blob_gc_job.cc:590-591). A user
  update between check and rewrite is lost (`RewriteLosesUpdate`). In every run, all readers find what
  the user wrote at every point, if and only if every write-back finds its key still reading the value
  it copied (`RunsReadUserValuesIff`). The guard of the write callback that the code has disabled is
  enough for that, however writes and collections interleave (`GuardedRunsReadUserValues`).
- If an output of a collection cannot be finished, the status of the deletes that follow replaces the
  error (src/blob_gc_job.cc:552-569), and that is the status of the last one (src/db_impl.cc:118-132).
  When it is good the job goes on, writes back indexes into files that are gone and makes its inputs
  obsolete (`MaskedRunsLose`, `HiddenFailureLosesValue`). In every run, a failed installation leaves
  every index resolved and every input alive if and only if the last delete fails too
  (`FailedInstallationIsSafeIff`).
- A failed base drop leaves `drop_cf_requests_` raised (src/db_impl.cc:473-482), and from then on no
  collection starts (`LeakStopsCollection`). A fresh DB gets there in four steps (`LeakIsReached`).
  Closing can complete exactly if no started collection is waiting (`ClosesIff`, `CalmRunsClose`).
- `Finish` of the table builder overwrites an earlier error (src/table_builder.cc:243), so it can
  report success for a table that lost entries (`SuccessHidesLoss`) or whose open blob file was
  deleted. The table stands for its inputs exactly if nothing had failed before `Finish`, or nothing
  was dropped and no blob file was open (`FinishPreservesIff`, `TitanTableBuilder.Finish`).
- Discardable sizes restart at zero when the database opens. A sorted file that had garbage before
  the restart can never again look empty, so it is never deleted even when no table references it
  (`RestartSticks`, `StuckForever`, `DeletedIff`). A flush, a compaction, a restart and a compaction
  are enough (`GarbageStaysForever`).
- Callbacks of flushes and compactions may run in another order than their tables were installed. A
  flush that reports after a compaction of its table takes the discardable size of its file below zero,
  where it wraps around (`FlushIsOvertaken`, `OvertakenRun`); a compaction that reports after its new
  file was deleted charges nothing (`CompactionIsOvertaken`). In every run the books balance at every
  point if and only if no callback comes too late in this sense (`RunsBalanceIff`); callbacks in order
  never do, however far they lag behind (`CallbackRuns.BytesAreConserved`).
- The edit by which a compaction deletes files names no column family (src/db_impl.cc:1335), so it is
  judged by the default one. Files of any other column family never become obsolete in this way
  (`ObsoletedIff`, `RemovalIsAcceptedIff`).
- An edit for a column family that is not open is logged unchecked (src/edit_collector.h:62-69). Files
  it adds do no harm; a file it deletes twice makes the log unreadable for good (`DeletedTwice`). A run
  can be recovered if and only if it never does that (`RecoveryRebuilds`, `BytesRecover`). No caller in
  the repository does: each one looks the column family up or uses the default one before it deletes
  files (src/blob_file_set.cc:248, src/blob_file_set.cc:292, src/blob_gc_job.cc:501,
  src/db_impl.cc:1335), and then every run recovers (`OpenDeletionsRecover`).
- The comparator of the range-merge sweep orders distinct ends of the files exactly if every file with
  a single key shares that key with no end of another file (`ComparatorOrdersEndsIff`; `SharedLoneKey`
  gives two files that break it). It calls every smallest end less than itself (`ComparatorIsReflexive`),
  so the sort is taken not to compare an end with itself.
- The blob file builder takes an empty smallest key for no key yet (src/blob_file_builder.cc:36-39): a
  record after an empty key starts the file's key range anew (`EmptyKeyIsForgotten`). A right range
  stays right exactly if its smallest key is not empty or all keys are (`WidenKeepsBoundsIff`), and the
  range of a whole list is right exactly if the keys before its last restart lie within it
  (`KeyRangeIsRightIff`).
- A seek of the merge iterator while inputs are still queued queues them twice; it is right exactly if
  none is (`BlobFileMergeIterator.SeekToFirst`).

## Model

| member | source | states |
|---|---|---|
| LifetimeGcProof.NoDanglingInAnyRun | src/blob_storage.cc:391-421 | In every run of writes, deletes, snapshots, compactions, separating flushes, concurrent collections and atomic purges, each index visible at the latest sequence or a live snapshot names a file still known |
| LifetimeGcProof.StepKeepsInv | src/blob_gc_job.cc:265-412 | Each of the 18 kinds of step keeps the invariant that ties histories, files on disk, unfinished separations and collection jobs together |
| LifetimeGcProof.CollectionIsExclusive | src/blob_gc_picker.cc:31-66 | A file is being collected exactly when it is an input of a job in flight, no two jobs share an input, inputs are never obsolete, and no transition assertion can fail |
| LifetimeGcProof.EventsAreAllowed | src/blob_format.cc:188-251 | Every file event a step issues meets the assertion that guards it |
| LifetimeGcProof.JobsAccountForRecords | src/blob_gc_job.cc:287-412 | In every run each input record of a job is unchecked and not relocated, or relocated once to a copy no other record shares and out of sight once written back, or discarded and out of sight |
| LifetimeGcProof.CheckSettles | src/blob_gc_job.cc:316-327 | A check settles one record for good: it is relocated if and only if it is live, and no other record of the job is touched |
| LifetimeGcProof.FailKeepsInv | src/blob_gc_job.cc:552-569 | A failed installation that is noticed, with any of its outputs deleted, keeps the whole invariant |
| LifetimeFailures.BatchDeleteFiles | src/db_impl.cc:118-132 | The status returned is that of the last delete, whatever the others did |
| LifetimeFailures.MaskedRunsLose | src/blob_gc_job.cc:474-510 | After a failure that the deletes hide, however other steps interleave, every write-back leaves a dangling index at once, and the end of the job makes every input obsolete |
| LifetimeFailures.FailedInstallationIsSafeIff | src/blob_gc_job.cc:512-571 | In every run, a job that cannot finish an output leaves every index resolved, and its inputs alive, if and only if the last delete fails |
| LifetimeFailures.FailureIsSafeIff | src/blob_gc_job.cc:512-571 | The same from any state of the invariant; for the indexes alone, having nothing relocated is also enough |
| LifetimeFailures.HiddenFailureLosesValue | src/blob_gc_job.cc:552-569 | A reachable state from which such a job makes the user's value unreadable |
| LifetimeGcProof.PurgeKeepsBase | src/db_impl.h:202-213 | Removing files whose obsolete sequence lies below every snapshot leaves all visible indexes resolved |
| LifetimeValues.QuietRunsReadUserValues | src/blob_gc_job.cc:573-642 | Without user writes to a key that is relocated and not yet written back, every read at every view returns what the user's own writes say |
| LifetimeFidelity.RunsReadUserValuesIff | src/blob_gc_job.cc:573-642 | In every run from an empty DB, every reader finds at every point what the user wrote, if and only if each write-back finds its key still reading the value it copied |
| LifetimeFidelity.GuardedRunsReadUserValues | src/blob_gc_job.cc:22-66 | If at every write-back the newest entry of its key is still the copied index, as the disabled callback checks, no update is lost in any run |
| LifetimeFidelity.RewriteKeepsReadsIff | src/blob_gc_job.cc:581-591 | A write-back changes no read at a snapshot and none of another key; its own key reads as before if and only if the guard holds or the key holds the copied value |
| LifetimeValues.RewriteIsFaithfulIff | src/blob_gc_job.cc:590-591 | Whatever was lost before, after a write-back its key reads the user's newest value if and only if that is the copied one |
| LifetimeRaces.RewriteLosesUpdate | src/blob_gc_job.cc:590-591 | A reachable state in which the user wrote one value and reads another |
| LifetimeRaces.StalePurgeDangles | src/db_impl_files.cc:10-14 | A reachable state in which a purge with an earlier snapshot list leaves a dangling index |
| LifetimeRaces.GuardedPurgeIsSafe | src/db_impl_files.cc:6-14 | In every run, a purge with a snapshot list read earlier is safe if each file it removes had reached its obsolete sequence at the read, or lies at or below every snapshot taken since |
| LifetimeRaces.StalePurgeWindow | src/db_impl_files.cc:10-14 | Snapshots taken since the read are at or above the sequence at the read, and the purge is safe if and only if none of them below the obsolete sequence of a removed file sees that file |
| LifetimeRaces.StalePurgeIsSafeIff | src/db_impl_files.cc:6-14 | For any snapshot list, the exact remainder: safe if and only if no live snapshot at or below the obsolete sequence of a removed file sees it |
| Scheduler.GcState.constructor | src/db_impl.h:275-286 | An empty queue with all counters at zero |
| Scheduler.GcState.AddToGCQueue | src/db_impl.h:177-181 | The column family is appended and one more job is unscheduled |
| Scheduler.GcState.PopFirstFromGCQueue | src/db_impl.h:185-190 | The first queued column family is taken, the others keep their order |
| Scheduler.GcState.MaybeScheduleGC | src/db_impl_gc.cc:16-29 | The loop moves as many jobs as the limit allows from unscheduled to scheduled, none when disabled or shutting down |
| Scheduler.GcState.Begin | src/db_impl_gc.cc:43-47 | A worker past its wait counts as running and takes the first queue entry if there is one |
| Scheduler.GcState.End | src/db_impl_gc.cc:59-68 | A worker that leaves lowers both counters, schedules more work, and signals exactly when one counter reaches zero |
| SchedulerProtocol.SchedulingIsSafe | src/db_impl_gc.cc:35-74 | In every run: 0 <= running <= scheduled <= limit, queue length is unscheduled + scheduled - running before shutdown, queued work is never stranded, no collection runs while a drop proceeds, no waiter sleeps with its condition false, and close passes only with nothing pending |
| SchedulerProtocol.StepKeepsInv | src/db_impl.cc:460-482 | Every step of collections, drops and closing, including spurious wake-ups, keeps the protocol invariant |
| SchedulerProtocol.NothingRunsWhenDisabled | src/db_impl_gc.cc:19-24 | With collection disabled or no job allowed, queued work stays queued in every run |
| SchedulerProtocol.LeakStopsCollection | src/db_impl.cc:473-482 | After one failed base drop no worker ever starts in any continuation |
| SchedulerProtocol.LeakIsReached | src/db_impl.cc:460-482 | With collection enabled, a fresh DB reaches in four steps a state with a leaked request and a held job, from which closing can never complete |
| SchedulerProtocol.ClosesIff | src/db_impl.cc:372-381 | From every protocol state, some continuation with signalled wake-ups only closes the DB if and only if no drop request leaked or no started job is held back by it |
| SchedulerProgress.CalmRunsAreBounded | src/db_impl_gc.cc:35-74 | Every run without new requests and spurious wake-ups is finite, its length bounded by the state it starts in |
| SchedulerProgress.CalmRunsClose | src/db_impl.cc:372-381 | Whatever the order of its steps, such a run that goes on until nothing is left ends closed, if and only if no leaked request holds back a started job |
| SchedulerProgress.CalmRunsDrain | src/db_impl_gc.cc:59-68 | And without a shutdown it ends with an empty queue, under the same condition |
| SchedulerProtocol.QueueDrains | src/db_impl_gc.cc:59-68 | Before shutdown, without a leaked drop and with collection enabled, some continuation using only signalled wake-ups empties the queue |
| Accounting.BlobFileSizeCollector.AddUserKey | src/blob_file_size_collector.cc:45-67 | The collected table holds, for every blob file, the bytes referenced by the entries added so far, and lists a file exactly if some entry references it |
| Accounting.BlobFileSizeCollector.Finish | src/blob_file_size_collector.cc:69-80 | The property bytes written with a table decode to a description of its entries; none is written exactly if no entry is a reference |
| Accounting.AddProperty | src/db_impl.cc:1283-1298 | One table's property, times the coefficient, is added to the difference of every file |
| Accounting.CalcBfs | src/db_impl.cc:1251-1300 | The difference grows by the coefficient times the bytes that all listed tables reference, for every file, and reports exactly the files they reference outside a given set |
| Accounting.ChargeFiles | src/db_impl.cc:1347-1383 | Exactly the known files with a negative difference are charged, and the ones then without live data are collected for deletion |
| Accounting.OnCompactionCompleted | src/db_impl.cc:1302-1406 | If a newly referenced output is unknown nothing is charged; otherwise each file's discardable size grows by exactly the referenced bytes the compaction dropped, and files then without live data become obsolete unless the delete edit is refused, as it always is outside the default column family |
| Accounting.ObsoletedIff | src/db_impl.cc:1335-1390 | A file becomes obsolete by a compaction if and only if the compaction is one of the default column family, leaves the file without live data and its delete edit names no obsolete file |
| DeleteEdits.RemovalIsAcceptedIff | src/edit_collector.h:159-182 | The delete edit for files of a column family is accepted if and only if it names none, or they are of the default column family and not obsolete |
| DeleteEdits.RemovalObsoletes | src/edit_collector.h:196-206 | An accepted one makes exactly its files obsolete, and changes nothing outside the default column family |
| Accounting.OnFlushCompleted | src/db_impl.cc:1213-1236 | The accounts after a flush follow from the property of the new table, with the 64-bit wrap-around of the subtraction |
| Accounting.FlushesCount | src/db_impl.cc:1224-1233 | After any number of flushes that reference a new file, its discardable size is its payload less the bytes referenced so far |
| AccountingRuns.BytesAreConserved | src/db_impl.cc:1347-1383 | In every run of flushes, compactions, purges and restarts whose tables come out of the table builder, discardable plus referenced bytes of a live sorted file never exceed its payload, and equal it until a restart |
| AccountingRuns.DeletedIsUnreferenced | src/db_impl.cc:1380-1383 | In every run, a file that is obsolete or gone is referenced by no current table |
| AccountingRuns.DeletedIff | src/blob_format.h:228-230 | A compaction deletes a file if and only if it drops the last reference and no earlier garbage was forgotten |
| AccountingRuns.StepKeepsInv | src/db_impl.cc:1241-1406 | Each flush and compaction with builder-made tables, purge and restart keeps every account balanced, every referenced file known and every number below the counter |
| AccountingRuns.FlushChargesNothing | src/db_impl.cc:1224-1234 | A flush leaves every file its builder wrote at its written size with discardable size zero, as the code asserts |
| AccountingRuns.DeletesAccepted | src/edit_collector.h:159-182 | The delete edit of a compaction never names a file that is already obsolete |
| AccountingRuns.ChargesInBounds | src/blob_format.cc:253-257 | Both size assertions around a charge hold |
| Ledger.RestartSticks | src/blob_format.h:250-250 | After a restart a file is stuck if and only if it had discardable bytes or was stuck before |
| AccountingRuns.StuckForever | src/db_impl.cc:1375-1383 | A stuck file is never deleted in any continuation |
| ForgottenGarbage.GarbageStaysForever | src/db_impl.cc:1375-1383 | A concrete run of a flush of two versions, a compaction that keeps the newer one, a restart and a compaction leaves a file that no table references and that no continuation deletes |
| CallbackLedger.CallbackKeepsLawIff | src/db_impl.cc:1213-1236 | A callback of a flush or compaction that runs later than its table was installed keeps discardable, referenced and not yet charged bytes in balance if and only if it is on time: no later callback has charged its new file, and no new file is gone while there is something to charge |
| CallbackRuns.RunsBalanceIff | src/db_impl.cc:1302-1383 | In every run of installations and callbacks in any order, the books balance at every point if and only if no callback is late |
| CallbackRuns.BytesAreConserved | src/db_impl.cc:1347-1383 | With callbacks in order, however late, discardable plus referenced plus not yet charged bytes of a live sorted file never exceed its payload, and equal it until a restart |
| CallbackRuns.DeletedIsUnreferenced | src/db_impl.cc:1380-1383 | With callbacks in order, a file that is obsolete or gone is referenced by no table and charged by no callback to come |
| OvertakenCallbacks.FlushIsOvertaken | src/db_impl.cc:1224-1233 | If a compaction that drops part of a flushed file reports before the flush, the file ends with a discardable size of 2 to the 64 less what is still referenced |
| OvertakenCallbacks.CompactionIsOvertaken | src/db_impl.cc:1313-1325 | If a compaction's new file is dropped and purged before it reports, the early return leaves every charge out, and the books balance if and only if there was none |
| OvertakenCallbacks.OvertakenRun | src/db_impl.cc:1224-1233 | A run from an empty DB that gets there |
| SizeProperty.Encode | src/blob_file_size_collector.cc:16-24 | The loop writes the count and then every entry |
| SizeProperty.Decode | src/blob_file_size_collector.cc:25-43 | The loop reads the table or fails on the first malformed number |
| SizeProperty.SizesRoundTrip | src/blob_file_size_collector.cc:16-43 | Reading a written property gives the same table back |
| VersionEdits.EncodeTo | src/version_edit.cc:8-28 | The loops produce the encoding, for any walk order of the update table |
| VersionEdits.DecodeFrom | src/version_edit.cc:30-95 | The tag loop reads what the recursive reader reads, including every error |
| VersionEdits.MetaRoundTrip | src/blob_format.cc:142-179 | File metadata reads back with type, level and key bounds |
| VersionEdits.EditRoundTrip | src/version_edit.cc:8-101 | An edit with any number of added, deleted and updated files reads back in every field, obsolete sequences reset to 0 |
| Collecting.FillCompleteIff | src/edit_collector.h:114-131 | Entries are taken exactly if no key repeats or is present, and then all are entered and nothing else changes |
| Collecting.EditCollector.AddEdit | src/edit_collector.h:21-53 | The collector's whole state and result after an edit, including partial effects and the overwritten status on errors |
| Collecting.EditCollector.Seal | src/edit_collector.h:56-76 | Succeeds exactly if every open column family accepts its part; other column families are skipped |
| Collecting.SealCf | src/edit_collector.h:138-185 | Accepts exactly if every added file is unknown and every unpaired deleted file is known and not obsolete |
| Collecting.EditCollector.Apply | src/edit_collector.h:78-99 | Every open storage becomes what its batch says, the others stay |
| Collecting.ApplyCf | src/edit_collector.h:187-206 | Adds the files not deleted again, marks the others obsolete, skips pairs |
| Collecting.EditCollector.GetNextFileNumber | src/edit_collector.h:101-109 | Gives the recorded counter, or corruption if none was recorded |
| FileSet.BlobFileSet.LogAndApply | src/blob_file_set.cc:211-230 | Accepts exactly the edits that collect and seal, and then logs and applies them together; a refused edit changes nothing |
| FileSet.BlobFileSet.WriteSnapshot | src/blob_file_set.cc:181-209 | The records written are the encodings of, and read back as, the counter followed by one edit per column family with exactly its live files |
| FileSet.BlobFileSet.Recover | src/blob_file_set.cc:68-95 | Succeeds exactly if every record reads and is taken, the batch seals and a counter was recorded; the storages and counter then follow |
| FileSet.BlobFileSet.NewFileNumber | src/blob_file_set.h:63-63 | Each issued number is the old counter |
| Recovery.RecoveryRebuilds | src/blob_file_set.cc:181-230 | After a snapshot and any run of edits for open and closed column families, new numbers, purges and column families coming and going, one collector replays the log to exactly the live files, with a counter above every recorded number, if and only if no file of a closed column family was deleted twice |
| Recovery.LogKeepsInv | src/edit_collector.h:138-216 | An edit applied to the running storages and to the replaying batch keeps the two in agreement, also for a column family that is not open |
| Recovery.RepeatIsRefused | src/edit_collector.h:124-131 | A file of a closed column family that is deleted a second time makes the replaying collector refuse the log |
| Recovery.DeletedTwice | src/edit_collector.h:56-76 | For every DB just written to a manifest and every closed column family, two deletions of one number are both accepted, and the log cannot be replayed |
| Recovery.OpenDeletionsRecover | src/blob_file_set.cc:243-271 | If deletions are only logged for open column families, as all callers do, every run recovers to exactly the live files |
| Recovery.SameEditKeepsMatch | src/edit_collector.h:187-206 | For one column family, batch and storage that agree still agree after the same edit |
| Recovery.SnapshotInv | src/blob_file_set.cc:181-209 | A fresh snapshot replays to the files it was written from |
| FileSet.WrittenReads | src/blob_file_set.cc:211-230 | The byte records that any run appends read back as exactly the edits it logged |
| FileSet.BytesRecover | src/blob_file_set.cc:79-95 | The bytes of the snapshot and of any run after it recover to the live files, if and only if no file of a closed column family was deleted twice |
| TableBuilder.TitanTableBuilder.Add | src/table_builder.cc:34-161 | In every mode and for every failure outside, the input is recorded and the builder stays valid; while nothing has failed there is one entry per input, with the same key, sequence and value |
| TableBuilder.TitanTableBuilder.AddBlob | src/table_builder.cc:163-201 | With an index, the value lies there, at a place of a new file that no record had; without one, no record changed and the builder has failed |
| TableBuilder.TitanTableBuilder.CloseBlobFile | src/table_builder.cc:203-227 | The file is completed exactly if nothing failed, and then listed with its size; a failed one is never listed and stays open in the way |
| TableBuilder.TitanTableBuilder.Finish | src/table_builder.cc:240-251 | A reported success means that the table stands for its inputs, if and only if nothing had failed or nothing was dropped and no blob file was open; and the files then registered are as large as the references to them say |
| TableBuildingProof.AddKeepsInv | src/table_builder.cc:34-161 | Each Add keeps every entry faithful to its input, every new reference resolved and no record referenced twice |
| TableBuildingProof.TableKeepsMeaning | src/table_builder.cc:34-251 | If nothing failed before Finish and it succeeds, the table has one entry per input, in order, with the same user key, sequence and value |
| TableBuildingProof.FinishPreservesIff | src/table_builder.cc:240-251 | When Finish succeeds, meaning is preserved if and only if nothing had failed, or nothing was dropped and no blob file was open |
| TableBuildingProof.RecordsReferencedOnce | src/table_builder.cc:184-200 | Each record written to a new blob file is referenced by exactly one entry |
| TableSizes.AddTallied | src/table_builder.cc:34-201 | Each Add keeps every blob file as large as header plus the records that entries reference, and references to older files only those of the inputs |
| TableSizes.BuiltExact | src/table_builder.cc:163-251 | In a finished table every new blob file is header, referenced bytes and footer, every new reference is to such a file, and older files are referenced by no more bytes than the inputs had |
| TableBuildingProof.SuccessHidesLoss | src/table_builder.cc:243-250 | A failed file creation drops the entry and Finish still reports success |
| BlobFormat.HeaderRoundTrip | src/blob_format.cc:290-305 | A written file header is accepted |
| BlobFormat.FooterRoundTrip | src/blob_format.cc:307-336 | A written footer is accepted and has an empty meta index |
| BlobFormat.CompressRoundTrip | src/util.cc:16-81 | Compressed or kept raw for a poor ratio, the bytes come back |
| BlobFormat.RecordRoundTrip | src/blob_format.cc:20-40 | A record reads back, with key or as value only |
| BlobFormat.FramedHeader | src/blob_format.cc:46-77 | The header of a framed record gives its size and compression, and the body follows |
| BlobFormat.FramedBody | src/blob_format.cc:79-100 | The body of a framed record decodes to the record |
| BlobFormat.IndexRoundTrip | src/blob_format.cc:118-135 | A blob index reads back, leaving the bytes after it |
| BlobFileIO.BlobFileBuilder.Add | src/blob_file_builder.cc:21-52 | If the write succeeds the record is appended and the handle is where it lies; smallest and largest are the least and greatest keys as long as only the last key may be empty; after a failure nothing is added |
| BlobFileIO.WidenKeepsBoundsIff | src/blob_file_builder.cc:36-49 | A right key range stays right with one more key if and only if its smallest key is not empty or all keys are |
| BlobFileIO.KeyRangeIsRightIff | src/blob_file_builder.cc:36-49 | For any list of records, the range is that of the records since its last restart, and right for all if and only if the earlier keys lie within it |
| BlobFileIO.EmptyKeyIsForgotten | src/blob_file_builder.cc:36-39 | After an empty key and another key the range holds the second only |
| BlobFileIO.BlobFileBuilder.Finish | src/blob_file_builder.cc:54-67 | It succeeds exactly if no write failed, and then the file is header, framed records and footer |
| BlobFileIO.BlobFileIterator.Init | src/blob_file_iterator.cc:19-48 | On a finished file the end of the records is found |
| BlobFileIO.BlobFileIterator.SeekToFirst | src/blob_file_iterator.cc:50-55 | Stands on the first record |
| BlobFileIO.BlobFileIterator.Next | src/blob_file_iterator.cc:59-62 | Reads the record it stood before, or becomes invalid after the last |
| BlobFileIO.BlobFileIterator.GetBlobRecord | src/blob_file_iterator.cc:97-124 | Reads exactly the record at the offset and advances past it |
| BlobFileIO.BlobFileIterator.GetBlobIndex | src/blob_file_iterator.h:38-44 | Gives the handle the builder returned for the record |
| BlobFileIO.BlobFileIterator.IterateForPrev | src/blob_file_iterator.cc:68-95 | Ends before the unique record whose bytes hold the position, the first one for a position in the header; positions at or past the end are out of bound |
| BlobFileIO.Build | src/blob_file_builder.cc:9-67 | Building writes the file of the records with their handles; smallest and largest key are the comparator's bounds if only the last key may be empty |
| BlobFileIO.BuildAndIterate | src/blob_file_iterator.cc:97-151 | Any non-empty list of records is read back exactly, in order, each at the index its Add returned |
| BlobReader.ReadGivesRecord | src/blob_file_reader.cc:137-159 | An uncached read of an issued handle gives the record |
| BlobReader.BlobFileReader.Get | src/blob_file_reader.cc:98-135 | After any reads and evictions, a read through the cache equals the uncached read with the same flag |
| MergeIterator.BlobFileMergeIterator.SeekToFirst | src/blob_file_iterator.cc:170-181 | From an empty queue, and only then, starts on an input with a least head with every other input queued once; aborts exactly if all inputs are empty; inputs still queued are queued again |
| MergeIterator.BlobFileMergeIterator.Next | src/blob_file_iterator.cc:183-193 | Advances the current input by one and moves to a least head |
| MergeIterator.MergeAll | src/blob_file_iterator.cc:164-193 | Emits every record of every input exactly once, each time a least head, ascending if every input is |
| SortedRuns.FirstFit | src/blob_storage.cc:258-272 | Each file in exactly one run of disjoint increasing ranges; as many runs as the deepest overlap, and no partition into disjoint classes has fewer |
| SortedRuns.CountSortedRun | src/blob_storage.cc:253-275 | The same after sorting in place, with the size of each run |
| SortedRuns.SharersNeedClasses | src/blob_storage.cc:258-272 | Ranges sharing a key need as many disjoint classes as there are of them |
| RangeMerge.MarkFileIfNeedMerge | src/db_impl.cc:955-1012 | A file moves to ToMerge if and only if it was not Obsolete, ToMerge or ToGC and the files whose open range meets its own, itself included, exceed the limit; every other file keeps its state, for every tie order of the sort |
| RangeMerge.CrossingCount | src/db_impl.cc:984-1000 | Starts counted so far minus ends counted at the file's own start is the number of crossing files |
| RangeMerge.ComparatorOrdersEndsIff | src/db_impl.cc:969-981 | Among distinct ends the comparator is a strict weak order if and only if single-key files share their key with no other end |
| RangeMerge.ComparatorIsReflexive | src/db_impl.cc:969-981 | The comparator calls an end less than itself exactly if it is a smallest end, so it is irreflexive on no list of files |
| RangeMerge.SharedLoneKey | src/db_impl.cc:969-981 | Two files, one with a single key that the other starts with, whose ends it does not order |
| BlobStorages.BlobStorage.AddBlobFile | src/blob_storage.cc:160-175 | The file enters table, range index and its level's size; the storage invariant holds |
| BlobStorages.BlobStorage.MarkFileObsolete | src/blob_storage.cc:195-226 | A known file is listed obsolete and its size leaves its level without underflow; an unknown one is reported |
| BlobStorages.BlobStorage.RemoveFile | src/blob_storage.cc:228-249 | Table and range index lose exactly this file; reports whether it was there |
| BlobStorages.BlobStorage.GetObsoleteFiles | src/blob_storage.cc:391-421 | Exactly the obsolete files below the oldest sequence go, in list order, the list keeps the others, and no removal misses |
| BlobStorages.BlobStorage.GetBlobFilesInRange | src/blob_storage.cc:93-122 | Each file that is not obsolete and lies within the range is found once, and no other |
| BlobStorages.BlobStorage.GetBlobFilesInRanges | src/blob_storage.cc:89-130 | The union over all ranges |
| BlobStorages.FindRange | src/blob_storage.cc:235-242 | The search among equal smallest keys always finds the file's entry |
| BlobStorages.LevelsAfterMark | src/blob_storage.cc:221-225 | A level's size covers the file taken off, and still sums the rest |

## Where code and comments differ

The model follows the code.

- The record and metadata comments in src/blob_format.h give 64-bit lengths before keys and values;
  the code writes 32-bit ones. The metadata comment omits the file type, which the code writes
  between entries and level.
- `kDeletedBlobFile` is commented as deprecated in src/version_edit.h and is what deletions use.
- The record checksum is computed and stored, and not compared on reads (src/blob_format.cc:85-88).

## Left out

- Lifetime: sep_before_flush and level_merge are off, I/O succeeds, and opening after a crash is not a step; RocksDB is a history of entries with sequence numbers.
- LifetimeGcProof.NoDanglingInAnyRun: takes a purge as one atomic step, because the purge of the code is unsafe otherwise, as shown above.
- LifetimeFailures.FailedInstallationIsSafeIff: takes the rest of the failed job without other steps in between; MaskedRunsLose has them.
- AccountingRuns.BytesAreConserved: a table and its callback are one step, and CallbackRuns.BytesAreConserved has them apart; a build that reports success after it gave up an open blob file is not a step.
- AccountingRuns.DeletedIsUnreferenced: a table and its callback are one step; CallbackRuns.DeletedIsUnreferenced has them apart.
- AccountingRuns.StepKeepsInv: a table and its callback are one step; CallbackRuns.StepKeepsInv has them apart.
- Accounting.OnCompactionCompleted: file state events, marking files for collection by discardable ratio, and statistics are not part of it.
- Accounting.OnFlushCompleted: the flush event of the files is not part of it; it is in Lifetime.
- SchedulerProtocol.ClosesIff: speaks of some continuation; that every one gets there is SchedulerProgress.CalmRunsClose.
- SchedulerProtocol.QueueDrains: speaks of some continuation; that every one gets there is SchedulerProgress.CalmRunsDrain.
- LifetimeRaces.StalePurgeIsSafeIff: its condition asks what a snapshot sees; the condition on sequences and snapshot lists is LifetimeRaces.GuardedPurgeIsSafe.
- LifetimeValues.RewriteIsFaithfulIff: speaks of one key at the latest sequence; all readers and all runs are in LifetimeFidelity.
- Collecting.EditCollector.AddEdit: discardable-size updates are not collected; only DeleteFilesInRanges, which is left out, writes them.
- Collecting.EditCollector.Apply: discardable-size updates and GC scores are not part of it.
- Collecting.ApplyCf: discardable-size updates and GC scores are not part of it.
- Recovery.RecoveryRebuilds: discardable-size updates are not replayed, column family ids are not reused, and a run keeps within 64-bit numbers.
- FileSet.BlobFileSet.LogAndApply: a failed append or sync of the manifest is not modelled.
- FileSet.BlobFileSet.Recover: choosing the manifest through CURRENT, and deleting unknown files at start, are not modelled.
- RangeMerge.MarkFileIfNeedMerge: the counter of marked files is not returned.
- TableBuilding: the state of a blob file, the size of an encoded record and which operations fail are inputs of each call.
- BlobFileIO.BlobFileIterator.Init: readahead is not modelled, and files written with values only are not iterated.
- BlobReader.BlobFileReader.Get: the cache prefix is taken to be unique to the file.
- MergeIterator.MergeAll: reads succeed; an input whose read fails is dropped by the code.
- BlobStorages.BlobStorage: file states are only obsolete or not, and file cache, building files, statistics and GC scores are not part of it.
- DeleteFilesInRanges, which charges discardable sizes twice and depends on RocksDB version internals.
- Candidate scoring and batch limits of the GC picker: they would only choose which files in state Normal are picked.
- ForegroundBuilder threads, BlockQueue, reads of building files and the size-blocked Put loop.
- TitanDBIterator, Scan, prefetch sizing, sampling, statistics, logging, option dumping, benchmarks and tools.
- Compression algorithms, CRC computation and file I/O, which are parameters with their contracts.
