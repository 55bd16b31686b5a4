# slatedb-go in Dafny

slatedb-go is a key-value engine that keeps its data as log-structured tables in an object store. A
writer takes puts into a write-ahead log (WAL), uploads frozen WALs, merges them into a memtable and
flushes memtables as L0 tables. A compactor turns L0 tables into sorted runs. The two share nothing but
a log of numbered manifests, each written only if its number is still free. This project models the
three layers of that engine and proves what they promise.

**The protocol.** `Protocol` is one transition system: every step of the writer, the compactor, crashes,
opens, and stale processes that were replaced but still run. A run is any sequence of steps. The system
carries the client's history (`frozen`, one entry per WAL, and `tail`, the writes since the last freeze)
beside the engine's state. `Invariants.Inv` holds in every run (`Safety.RunKeeps`), and everything in
`Theorems`, `Views`, `Reopening`, `Answers`, `Progress` and `Exactness` follows from it. The objects that
perform the steps are classes (`DbStates.DBState`, `Compactions.CompactorState`,
`Manifests.StoredManifest` and `FenceableManifest`); each method is proved equal to the function that the
transition system uses, and the loop that drains the WALs is proved to be a run of it.

Keys and values may be of any length. A row with a key of 65536 bytes or more, or a value of 4 GiB or more, is
written with a truncated length, alone in its block, so every table reads back row by row: `Scans.ScanOf` is what a
scan of a table written with given rows yields, and `Scans.Finds` bounds what lookups in it find. The protocol's WALs
and L0 tables read back as these two say, and both are proved of the bytes (`Gets.WrittenReadsBack`). If everything
written fits (`Storable`), both are exactly the rows written. What the runs keep of ids, order and epochs holds
whatever is written; what a read answers is stated for histories whose merged writes fit.

**Compaction.** `MergeSorts` is the heap merge, for sources in any order, `Executors` reads the source tables, cuts
the merged stream (`Cuts`) into tables and writes them, and `CompactorStates` and `Compactions` splice the result into the run list
under any scheduler.

**The table format.** `RowCodec`, `Blocks`, `SSTables` and `TableWriters` write bytes; `BlockIterators`,
`TableIterators`, `SortedRuns` and `Gets` read them back; `Bloom` is the filter, and `Layouts` states the formats
byte by byte, apart from the functions that write them. `EndToEnd` puts the layers
together: its runs are those of the protocol with the files that each flush and each job writes. In every state of
every such run the files hold what the state says, and a `Get` that goes through binary searches, filters and
decoded blocks answers with the client's last write. The codec may be any lossless one; the default, no
compression, is shown to be (`Formats`).

In `a + b` of two tables `b` is the newer one. `Types.Stands(written, held)` says that `held` is `written`
except that an empty value may have become a tombstone.

Results that a reader of the code might not expect:

- A put stays readable for good if and only if its key is shorter than 65536 bytes, its value shorter than
  4 GiB and not empty; every delete does (`Exactness.ExactIffStorable`). An empty value is a value in memory and
  a tombstone in a table. A longer key is written with a truncated length, alone in its block, and a seek
  skips it (`Gets.TableGetExact`).
- A key of 65536 bytes is stored with length 0, and its own bytes may decode as the rest of a row. A WAL with such
  a put replays as a row for the empty key (`EmptyKeys.ReplaysEmptyKey`), and every flush of that memtable panics.
  One such put, a WAL flush and a restart are enough: no process ever gets past that WAL (`EmptyKeys.OnePutIsEnough`,
  `StuckForever`). Flushing succeeds if and only if no memtable has that row (`Progress.FlushReachesManifest`,
  `Exactness.FlushEverything`), and without such a put none ever has (`EmptyKeys.CleanRun`).
- A put of a key that is too long can delete another key. A compaction scans its tables, and the long key's row may
  scan as a tombstone of a shorter key, which then hides that key's value (`Scenarios.OtherKeyChanges`,
  `LongKeyDeletes`).
- Reopening succeeds if and only if the latest manifest's next WAL id is at most one above the last uploaded
  WAL, every WAL to replay can be read, and their replay freezes at most 255 memtables, which it never exceeds if
  these WALs together are smaller than 256 times the size limit
  (`Reopening.Recovers`). The 256th freeze blocks, since nothing receives its notification yet
  (`Blocking.OpenCanBlock`). Freezing a WAL
  raises the next id before the upload, so a manifest published in between, followed by a stop, leaves a
  database that can never be opened again (`Reopening.WindowLocks`, `LockedForever`).
- A compaction job that fails stays registered, and the compactor never adds a run again
  (`Answers.FailureWedges`, `WedgedForever`, `Scenarios.FailureIsReachable`).
- Between taking a WAL off its deque and merging it, an uncommitted read misses exactly the keys whose last
  write is in that WAL (`Views.PoppedReads`).
- A decoded block never has its first key (`Blocks.BlockRoundTrip`), and a row's time survives only if it is
  unset or a whole number of milliseconds that is not a whole number of seconds (`RowCodec.StoredTimeExact`).
- Building a bloom filter divides by zero exactly when keys times bits per key, modulo 2^32, is 0 or above
  2^32 - 8 (`Bloom.Build`).
- A memtable filled by replay has no last WAL id, so it cannot be flushed on demand until another WAL was
  merged; the steps follow the code here.

## Model

| member | source | states |
|---|---|---|
| Safety.RunKeeps | slatedb/flush.go:44-242 | Every interleaving of writer, compactor, crash, panic, open and stale-process steps, with writes of any length, keeps the system invariant: each manifest stands for a prefix of the flush history, WAL ids are gapless, memtables hold exactly the WALs assigned to them if these fit, and a compaction covers consecutive flushes |
| Theorems.TablesAreKept | slatedb/compaction/state.go:72-157 | For any two manifests of any run, the later one has the newest part of the earlier L0 in the same order below its newer tables, every other table of that L0 is a source of one of its runs and not in its L0, no compacted table ever comes back, no table is twice in L0, and none is a source of two runs |
| Theorems.ManifestLookup | slatedb/state/db_state.go:272-308 | If the writes up to its last compacted WAL fit a table, lookup through L0 then runs of any manifest of any run equals newest-wins over the flushes it knows, which is the last of those writes |
| Theorems.WalIdsPartitioned | slatedb/state/db_state.go:217-281 | In every reachable state WAL ids split without gaps: L0 and runs, immutable memtables oldest to newest, memtable, the WAL in hand, immutable WALs ending at the next id less one |
| Theorems.FreezeSkipsOnlyEmpty | slatedb/state/db_state.go:228-243 | Freezing changes nothing if and only if the client wrote nothing since the last freeze |
| Theorems.LastCompactedRises | slatedb/state/db_state.go:272-281 | The last compacted WAL id never goes down along manifest ids, in any run |
| Theorems.ReplacedIsFenced | slatedb/store/manifest_store.go:82-114 | In every run a replaced process that refreshes sees the latest manifest and is fenced, and whatever it tries to publish changes nothing |
| Theorems.DurableForever | slatedb/flush.go:54-75 | Along any run, crashes and replacements included, the uploaded writes and the manifest log only grow; nothing uploaded is lost or reordered |
| Views.CommittedReads | slatedb/db.go:201-267 | In every reachable state the merged writes are a prefix of the durable ones, which are a prefix of all; if the merged writes fit a table, the layers a committed read searches hold the last of them for every key |
| Views.UncommittedReads | slatedb/db.go:201-267 | With no WAL in hand, and if the merged writes fit a table, the layers an uncommitted read searches hold the last write of every key |
| Views.PoppedReads | slatedb/flush.go:67-70 | While a popped WAL is not merged, a key is read as its last write unless that write is in the popped WAL; then the read gives the committed answer instead. The first part needs that the merged writes fit a table |
| Views.AnswerExact | slatedb/db.go:435-442 | A Get gives the bytes of the last write if that is a put, and not found if it is a delete or there is none, unless it put an empty value; then it is the empty value or not found |
| Answers.GetAnswers | slatedb/db.go:201-267 | In every reachable state whose merged writes fit a table, a committed Get gives the bytes of the last merged write and an uncommitted one those of the last write, or not found for a delete or no write, for every key whose write is not an empty value |
| Answers.RecoveredAnswers | slatedb/db.go:318-362 | After any run and a successful open, if the uploaded writes fit a table, both kinds of Get give the bytes of the last of them, or not found for a delete or no write, for every key whose write is not an empty value |
| Answers.BackgroundInvisible | slatedb/state/db_state.go:217-308 | The writer survives every background step except exactly the flush of a memtable with a row for the empty key; if the merged writes fit a table, freezing, uploading, flushing, loading, publishing, compacting and anything a replaced process does change neither a committed read nor, with no WAL in hand, an uncommitted one, for every key whose last write is not an empty value |
| Answers.OneCompactionAtATime | slatedb/compaction/executor.go:34-90 | In every run at most one compaction is registered, running or waiting in the result channel; its destination is the top run id plus one and its job reads only L0 tables, so the nil-iterator branch is never taken and the channel never blocks |
| Answers.CompactionKeepsLookups | slatedb/compaction/orchestrator.go:199-225 | In every run whose uploaded writes fit a table, taking a compaction result changes no lookup through the compactor's L0 and runs |
| Answers.FailureWedges | slatedb/compaction/orchestrator.go:199-210 | In every run, a running job that fails leaves a registered compaction that nobody works on |
| Answers.WedgedForever | slatedb/compaction/state.go:38-58 | From there, whatever steps follow, this compactor never adds a run, until it is stopped or replaced |
| Scenarios.FailureIsReachable | slatedb/compaction/orchestrator.go:117-197 | Four puts, each flushed to L0, a publish and an opened compactor lead to a running job, whose failure wedges the compactor |
| Reopening.Recovers | slatedb/db.go:318-362 | After any run, opening succeeds if and only if the latest manifest's next WAL id is at most one above the last uploaded WAL, every WAL to replay can be read, and replay freezes at most 255 memtables, which at most 255 WALs, or WALs of less than 256 times the size limit together, never exceed; then, if the uploaded writes fit a table, both views hold exactly the last of them |
| Blocking.OpenCanBlock | slatedb/db.go:364-370 | The bound of 255 is needed: 256 puts, each flushed as a WAL, lead to a state with 256 WALs, all readable, in which the next id allows an open, and an open with a size limit that each WAL reaches does not succeed |
| Reopening.OpenOutcome | slatedb/db.go:80-126 | From any reachable state, when an open succeeds and what it leaves: the writes that were not uploaded are gone, the others are all merged, and the latest manifest's next WAL id stays as it was; the freezes of its replay times the limit are at most the size of the WALs |
| Reopening.AcknowledgedSurvive | slatedb/flush.go:54-75 | Every write acknowledged at some point of a run is among the committed writes after any later steps and a successful open |
| Reopening.WindowLocks | slatedb/state/db_state.go:237-240 | From any reachable state with an unfrozen write: freeze, publish before the upload, stop; no writer can open the database any more |
| Reopening.LockedForever | slatedb/db.go:318-362 | A database in that state stays in it whatever steps of the protocol follow |
| Reopening.WindowIsReachable | slatedb/db.go:170-189 | Opening a new database and one put reach the state that the window needs |
| Recovery.ReplayAssertion | slatedb/db.go:318-362 | Replay reads the WALs after the last compacted one without gaps, freezes at most one memtable per WAL, and leaves the next id at the maximum of the manifest's and the last WAL id plus one; the closing assertion holds if and only if the manifest's next id is at most the last WAL id plus one |
| Recovery.ReplayRange | slatedb/db.go:318-362 | Replaying any contiguous list of readable WALs cuts them into immutable memtables and a memtable that together hold exactly those WALs, if their writes fit a table |
| Recovery.ReplaySizes | slatedb/db.go:349-370 | Replay freezes exactly at the limit: every frozen memtable has reached it, the one that is left has not or has no row, together they are no larger than the WALs, and WALs below the limit freeze none |
| WriterSteps.DropWriterKeeps | slatedb/db.go:128-164 | A crash at any point leaves the store and manifests consistent with the uploaded part of the history |
| Progress.FlushCommitsAll | slatedb/flush.go:44-75 | From any reachable state with no WAL in hand, FlushWAL makes every write of the client durable and committed, whether or not the uploaded WALs can be read |
| Progress.FlushReachesManifest | slatedb/flush.go:202-242 | Freezing the memtable, flushing all immutable memtables and publishing puts every merged WAL under the latest manifest's last compacted id, if and only if none of these memtables has a row for the empty key; otherwise the process panics and no manifest is written |
| Progress.PlanIff | slatedb/compaction/size_tiered_compaction.go:9-28 | In every run, planning starts a compaction, and then exactly one job, if and only if the compactor sees four or more L0 tables and has none under way |
| Progress.CompactionTakesL0 | slatedb/compaction/size_tiered_compaction.go:9-28 | An idle compactor that sees four or more L0 tables moves all of them into one new run on top of the others, whose sources they are, and moves the cut-off to the newest of them, except exactly when its job comes to write a row for the empty key |
| Progress.CompactionReachesManifest | slatedb/compaction/orchestrator.go:227-242 | Loading and then publishing lands a manifest that has the compactor's runs and cut-off, whatever manifests came before |
| Progress.CompactorRestarts | slatedb/compaction/orchestrator.go:33-70 | Whatever a compactor was doing, a failed job included, stopping it and opening another leaves an idle compactor that sees what the latest manifest has, and nothing else changes but its epoch |
| Exactness.FlushEverything | slatedb/flush.go:95-124 | Draining and flushing everything puts every write into L0 if and only if no memtable has a row for the empty key, and panics otherwise; then both kinds of read see only rows that fit a table, and if all writes fit, exactly the last writes with empty values turned into tombstones |
| Exactness.ExactIffStorable | internal/sstable/builder.go:149-183 | In every reachable state of every run whose other writes fit a table, reads are exact for a write while it is the last one of its key, if and only if it is a delete, or its key is shorter than 65536 bytes and its value shorter than 4 GiB and not empty |
| Exactness.WriterCoreStorable | internal/sstable/block/row.go:149-261 | In every state that the invariants of all runs allow, whatever was written, what lookups find in L0 and the runs fits a table |
| Exactness.SilentAnswers | slatedb/db.go:269-288 | A key of 65536 bytes or more that is only ever deleted is never found, in any reachable state |
| EmptyKeys.ReplaysEmptyKey | slatedb/db.go:327-352 | A WAL replays as a row for the empty key if and only if one of its keys has a length that is a multiple of 65536 and bytes that decode as the rest of a row |
| EmptyKeys.LongKeyPoisons | internal/sstable/block/row.go:149-189 | 65536 bytes of 1 are such a key, whatever is put under it |
| EmptyKeys.CleanRun | internal/sstable/block/block.go:162-163 | In every run without such a put, no memtable ever has a row for the empty key, so that the block builder's assertion holds in every flush |
| EmptyKeys.OnePutIsEnough | slatedb/db.go:327-352 | Opening a new database, one such put, a WAL flush and a stop leave a WAL that replays as a row for the empty key and that no table covers |
| EmptyKeys.StuckForever | slatedb/flush.go:220-242 | From any such state, whatever steps follow, no manifest ever covers that WAL, and every process that runs has a memtable that it cannot flush |
| Scenarios.OtherKeyChanges | slatedb/compaction/executor.go:92-151 | For every long key whose row scans as a row for another key: a run in which a Get of that other key answers with its last write, and after one compaction, with no further put, with what the long key's row scans as |
| Scenarios.LongKeyDeletes | internal/sstable/block/row.go:149-189 | There is one for every key that fits: with 65536 bytes of 1 appended it scans as a tombstone of that key |
| Fencing.EpochsInEveryRun | slatedb/store/manifest_store.go:42-114 | With any number of processes loading, opening, refreshing and updating: epochs never go down along manifest ids, later opens of a kind have greater epochs, and the "stored epoch is lower" panic is unreachable |
| Fencing.OnlyTheNewestHandleLands | slatedb/store/manifest_store.go:82-114 | Whenever an update lands, its handle is the last one of its kind that was opened, the manifest carries its epoch, and every older handle of the kind is fenced at its next refresh |
| Fencing.LandsIffNewest | slatedb/store/manifest_store.go:42-114 | In every run an update lands if and only if its handle holds the latest manifest and is the last one of its kind that was opened; refreshing always gives the latest manifest, so that handle can always refresh and update; opening succeeds if and only if the latest manifest was loaded |
| Fencing.OpenTakesOver | slatedb/store/manifest_store.go:42-72 | In every run with a manifest, loading it and opening a handle succeeds; the new handle is the newest of its kind, with an epoch one above the stored one, and every other handle of the kind is fenced at its next refresh |
| Manifests.EpochsRiseAppend | slatedb/store/manifest_store.go:171-190 | A manifest whose epochs are not below the latest ones extends a log with rising epochs to one with rising epochs |
| Manifests.ManifestStore.WriteManifest | slatedb/store/manifest_store.go:246-253 | A manifest is written if and only if its number is the next one; otherwise nothing changes |
| Manifests.ManifestStore.ReadLatest | slatedb/store/manifest_store.go:281-304 | Yields the manifest with the greatest number, whatever order the listing has, and none only for an empty store |
| Manifests.StoredManifest.UpdateManifest | slatedb/store/manifest_store.go:171-190 | Writes number id + 1; on success the object holds the latest manifest, on a conflict neither it nor the store changes |
| Manifests.StoredManifest.Refresh | slatedb/store/manifest_store.go:193-206 | Afterwards the object holds the latest manifest |
| Manifests.FenceableManifest.UpdateDBState | slatedb/store/manifest_store.go:82-88 | A manifest lands exactly when the epoch check passes and the handle's number is the latest; the check never panics |
| Manifests.FenceableManifest.Refresh | slatedb/store/manifest_store.go:90-114 | The handle moves to the latest manifest and reports a fence exactly when a newer epoch is stored |
| Manifests.Open | slatedb/store/manifest_store.go:42-72 | Opening succeeds exactly when no manifest was written since the load, and then appends one that differs only in the raised epoch |
| KVTables.KVTable.Put | slatedb/table/kvtable.go:49-57 | The size counter stays the exact sum of the entry sizes under overwrites |
| KVTables.KVTable.PutAll | slatedb/flush.go:82-93 | Putting entries one by one leaves the older rows overlaid with the last write of each key |
| KVTables.RowsSizeUpdate | slatedb/table/kvtable.go:49-74 | The total size of a table after a put is the old one less the replaced entry plus the new entry |
| KVTables.SizeZeroIffEmpty | slatedb/table/kvtable.go:68-74 | A table has size zero if and only if it has no row |
| KVTables.SizeOfOne | slatedb/table/kvtable.go:49-74 | One row takes its key, one byte for its kind, and its value unless it is a tombstone |
| KVTables.SizeOfUnion | slatedb/table/kvtable.go:49-74 | Tables of different keys add up, and overlaying never takes more than both |
| DbStates.DBState.WalPut | slatedb/state/db_state.go:184-189 | Only the current WAL changes, in the one key |
| DbStates.DBState.FreezeWAL | slatedb/state/db_state.go:228-243 | Skips the freeze exactly when the WAL has no row; otherwise the WAL is queued under the next id, which it raises |
| DbStates.DBState.PopImmWAL | slatedb/state/db_state.go:245-250 | Removes the oldest immutable WAL and nothing else |
| DbStates.DBState.FlushImmWALToMemtable | slatedb/flush.go:82-93 | The memtable gets the rows of the WAL on top of its own and the WAL's id |
| DbStates.DBState.FreezeMemtable | slatedb/state/db_state.go:217-226 | The memtable becomes the newest immutable one under the given WAL id and is replaced by an empty one |
| DbStates.DBState.MoveImmMemtableToL0 | slatedb/state/db_state.go:272-281 | Exactly if the oldest immutable memtable has the given last WAL id, it leaves, its table becomes the newest in L0 and its WAL id the last compacted one; otherwise the assertion fails and the popped memtable is gone |
| DbStates.DBState.RefreshDBState | slatedb/state/db_state.go:287-308 | Takes runs and cut-off from the compactor and keeps exactly the own L0 tables above the cut-off |
| Coverage.TakeUntilMatches | slatedb/state/db_state.go:287-308 | Cutting an L0 list at the last compacted table leaves exactly the flushes that the runs do not cover, in order |
| Coverage.CoreMeaning | slatedb/state/db_state.go:26-48 | A core state whose L0 and runs cover the flush history is looked up as the last writes of all its WALs, if these fit a table |
| MemChain.MemMeaning | slatedb/flush.go:82-93 | Immutable memtables and memtable together hold exactly the last writes of the merged WALs above L0, if these fit a table |
| MemChain.FlushNext | slatedb/flush.go:220-242 | A table written with the oldest immutable memtable holds exactly the next stretch of WALs above L0, if their writes fit, and the rest is the chain above it |
| WriterLoops.FlushImmWALs | slatedb/flush.go:54-75 | The drain loop uploads every immutable WAL and merges them oldest first, freezing the memtable each time it reached the limit |
| WriterLoops.DrainedSizes | slatedb/flush.go:54-75 | Draining freezes exactly at the limit: every memtable it froze has reached it, the one that is left has not or has no row, and older ones stay |
| WriterLoops.DrainIsARun | slatedb/flush.go:54-75 | What the drain loop does is a run of the protocol, so every theorem about runs holds after it |
| WriterLoops.ReplayWAL | slatedb/db.go:318-370 | The replay loop finishes exactly if every WAL can be read, at most 255 freezes were sent and the closing assertion holds, and then leaves the state that the protocol's open step has; if it blocks, more than 255 memtables were frozen |
| WriterLoops.ReplayTable | slatedb/db.go:327-358 | One WAL of the replay: its rows go on top, the memtable is frozen at the limit, which is reported, and the next id catches up |
| WalLists.GetWalSSTList | slatedb/store/table_store.go:54-73 | Whatever order the store lists its files in, parsing their names and sorting gives the increasing list of the ids above the last compacted one |
| WalLists.WalNameReads | slatedb/store/table_store.go:177-188 | Every 64-bit id reads back from its file name |
| WalLists.OnlyNames | slatedb/store/table_store.go:177-188 | Only decimal digits of a number below 2^64 followed by the extension parse as an id |
| Layouts.WalNameLayout | slatedb/store/table_store.go:168-175 | A WAL is named by twenty decimal digits of its id, the most significant first, and the extension |
| WalLists.IdsAboveUnique | slatedb/store/table_store.go:54-73 | An increasing list with exactly those members is unique |
| WalLists.IdsAboveGapless | slatedb/store/table_store.go:54-73 | For a store that holds 1 to n the list is lo + 1 to n |
| Flushes.FlushImmTable | slatedb/flush.go:95-124 | For entries of any length the uploaded file is a table written with exactly these, empty values turned into tombstones, with the filter built from their keys, whose index reads back, and whose info does below 4 GiB; it panics exactly if there is an empty key or the filter cannot be built |
| Flushes.ReadTable | slatedb/db.go:334-347 | Reading a table in full yields exactly what its rows read as, one after the other, for rows of any length; it never runs out of bounds |
| Flushes.ScanReadsBack | internal/sstable/iterator.go:59-118 | What is read in full fits a table, unless its key is empty; if the rows written fit, it is exactly these |
| Scans.PersistApply | slatedb/flush.go:103-107 | Turning empty values into tombstones entry by entry does the same to the whole table |
| CompactorStates.MaybeScheduleCompaction | slatedb/compaction/size_tiered_compaction.go:9-28 | Below four L0 tables nothing is scheduled; otherwise one compaction whose sources are all of them in order, into the id above the top run, or 0 if there is none, wrapping at 2^32 |
| CompactorStates.StartCompaction | slatedb/compaction/orchestrator.go:153-197 | Indexing tables and runs by id and picking by source gives the named tables and runs in the order of the sources |
| CompactorStates.JobMembers | slatedb/compaction/orchestrator.go:153-197 | A job has a table or run if and only if the state has it and a source names it |
| CompactorStates.ScheduledJobReadsL0 | slatedb/compaction/executor.go:49-90 | The job of a scheduled compaction reads exactly the L0 tables in order and no run, so it takes the branch for tables only |
| CompactorStates.FinishScheduled | slatedb/compaction/state.go:97-157 | Finishing a scheduled compaction after newer tables arrived leaves those in L0, the output on top of the runs, and the cut-off at the newest source |
| CompactorStates.FinishPreservesMeaning | slatedb/compaction/state.go:97-157 | Finishing a scheduled compaction leaves every lookup through L0 and runs unchanged, tombstones included, even if newer tables arrived |
| CompactorStates.SpliceKeepsOrder | slatedb/compaction/state.go:127-143 | Whatever runs are dropped, the spliced list is strictly decreasing by id if a run in the output's place is dropped |
| Compactions.CompactorState.SubmitCompaction | slatedb/compaction/state.go:38-70 | Accepts exactly if no compaction has the destination and an existing run there is a source; then it is registered under it and nothing else changes, and otherwise nothing does |
| Compactions.CompactorState.RefreshDBState | slatedb/compaction/state.go:72-93 | Takes the writer's tables above the own cut-off and its WAL counters and keeps the own runs |
| Compactions.CompactorState.FinishCompaction | slatedb/compaction/state.go:97-166 | The loops compute the splice that the lemmas are about; exactly if the order assertion or the one on sources fails, nothing changes |
| Compactions.RunsInIdOrder | slatedb/compaction/state.go:159-166 | The assertion loop passes exactly for a list of strictly decreasing ids below the uint32 maximum |
| Compactions.SpliceRuns | slatedb/compaction/state.go:127-141 | The insertion loop puts the output before the first run that has no greater id and drops the sources |
| Compactions.SpliceInIdOrder | slatedb/compaction/state.go:159-166 | The order assertion passes after a splice if and only if the output id is below the uint32 maximum |
| Compactions.RunsStayInOrder | slatedb/compaction/state.go:38-166 | Over any sequence of submits, refreshes and finishes of any compactions the run list stays in order, where a finish is taken whenever its compaction has a source and an id below the uint32 maximum |
| Compactions.FinishStaysInOrder | slatedb/compaction/state.go:97-166 | Such a finish always passes the order assertion |
| Compactions.FinishDropsOnlySources | slatedb/compaction/state.go:97-157 | After any such sequence, a finish removes exactly the declared source tables and runs and its own registration, adds the output, and moves the cut-off to the first source if that is a table; its order assertion passes if and only if the id is below the uint32 maximum |
| MergeSorts.MergeSort.constructor | internal/iter/merge.go:30-49 | The merge of its inputs, in whatever order each is, is still to be yielded |
| MergeSorts.MergeSort.NextEntry | internal/iter/merge.go:53-74 | Yields the merge one by one and stops exactly after the last; the heap yields the same as taking the least head each time, of equal keys that of the earliest input, and dropping repeats |
| MergeSorts.SortedMerge | internal/iter/merge.go:18-29 | For sorted inputs the merge is exactly the union of the inputs, the first input winning each key, in key order, less the empty key |
| MergeSorts.MergeSort.Advance | internal/iter/merge.go:53-74 | Takes the least head, the earliest input first among equal keys, and refills the heap from that input |
| MergeSorts.MergeSort.PopMin | internal/iter/merge.go:89-111 | Removes one item that no other is below |
| MergeSorts.UnionFirst | internal/iter/merge.go:89-95 | In the union the first input that holds a key decides its row |
| MergeSorts.UnionKeys | internal/iter/merge.go:53-74 | The keys of the union are exactly those of the inputs |
| Cuts.CutFromIsWellCut | slatedb/compaction/executor.go:119-146 | Cutting loses, repeats and reorders nothing: the tables concatenate to the input; none is empty, all but the last exceed the limit by their last entry only, the last one does so or is within the limit |
| Cuts.BytesOfOne | slatedb/compaction/executor.go:119-123 | What the limit counts of one entry: the bytes of its key and of its value, and none for a tombstone |
| Cuts.BytesConcat | slatedb/compaction/executor.go:119-125 | The sizes of two stretches of entries add up |
| Executors.CompactedTables | slatedb/compaction/executor.go:92-151 | The tables that a compaction must write concatenate to the merge of its sources and are cut as above; for sorted sources that is the one sorted sequence that holds their union, the newest source winning each key |
| Executors.ExecuteCompaction | slatedb/compaction/executor.go:92-151 | For sources in any order, its files are tables written with exactly what the compaction must write, one for each table and in order, each with the filter built from its keys; it panics if and only if the merge has a row for the empty key or the filter of one of the tables cannot be built |
| Executors.RunJob | slatedb/compaction/executor.go:49-151 | A job over stored L0 tables, whatever they were written with, reads them and writes exactly what the protocol's job writes, cut as above, or panics exactly if that has a row for the empty key or a filter cannot be built; if the rows come in order and the tables fit their indexes, the files form a run in which Get finds exactly these rows |
| CompactorSteps.PlainJob | slatedb/compaction/executor.go:49-151 | A job over tables in which scans and lookups agree, as they do if everything written fits, writes in order exactly what lookups through these tables find |
| Bloom.ProbesForKey | internal/sstable/bloom/bloom.go:147-160 | Probe i is (h + i d + (i^3 - i) / 6) mod the bit count for every i, although both sums are reduced at each step, and is in bounds |
| Bloom.FirstProbes | internal/sstable/bloom/bloom.go:147-160 | The first three probes, in terms of the lower and the upper half of the hash |
| Bloom.SetBit | internal/sstable/bloom/bloom.go:162-172 | Sets this bit and changes no other |
| Bloom.CheckBitReads | internal/sstable/bloom/bloom.go:162-166 | Bit n is bit n mod 8, counted from the lowest, of byte n / 8 |
| Bloom.HasKey | internal/sstable/bloom/bloom.go:19-31 | True exactly if the filter has bytes and all probes of the key are set |
| Bloom.Build | internal/sstable/bloom/bloom.go:112-139 | Divides by zero exactly when the wrapped product of keys and bits per key is 0 or above 2^32 - 8; otherwise the filter has the fewest bytes that hold that many bits, every added key tests present, and a bit is set if and only if some key probes it |
| Bloom.AddKey | internal/sstable/bloom/bloom.go:122-128 | Sets exactly the probes of one key |
| Bloom.ProbesAre69Percent | internal/sstable/bloom/bloom.go:174-178 | For up to 94979 bits per key, which are all that give a 16-bit probe count, the two roundings in float32 still give 69 percent of the bits, rounded down |
| Bloom.FilterRoundTrip | internal/sstable/bloom/bloom.go:52-91 | A filter reads back from its bytes if and only if its probe count is below 65536 |
| Layouts.FilterLayout | internal/sstable/bloom/bloom.go:52-68 | An encoded filter is its probe count in two bytes and its bits, compressed and followed by their checksum |
| RowCodec.NumberRoundTrip | internal/sstable/block/row.go:149-189 | A number below 256^w reads back from its w big-endian bytes |
| Layouts.KeyLayout | internal/sstable/block/row.go:149-189 | A row starts with two lengths of two bytes, most significant byte first, and the key suffix |
| Layouts.TailLayout | internal/sstable/block/row.go:149-189 | After the key come eight bytes of sequence number, the flags, the times that are there, and for a value its length in four bytes and the bytes |
| Layouts.BlockLayout | internal/sstable/block/block.go:54-75 | A block is its rows, an offset of two bytes for each, and their number in two bytes |
| Layouts.ParsesExactly | internal/sstable/block/block.go:78-134 | The block decoder is the exact inverse of the encoder: it reports corruption on exactly the bytes that no decodable block is encoded as, and otherwise gives the rows and offsets of that block, or runs out of bounds looking for its first key |
| RowCodec.RowRoundTrip | internal/sstable/block/row.go:149-261 | A row whose lengths fit reads back in full, whatever bytes follow; only its times are truncated to what the format keeps |
| RowCodec.RowReadsBack | internal/sstable/block/row.go:149-261 | A row whose key fits and whose value is of any length reads back with the value cut to its length modulo 2^32 |
| RowCodec.NeverPanics | internal/sstable/block/row.go:191-261 | Decoding a row of any lengths, whatever bytes follow, never runs out of bounds |
| Scans.ReadRowFits | internal/sstable/block/row.go:191-261 | Whatever its lengths, a row alone in its block reads back as nothing or as one entry, whose key is the written one up to its length modulo 65536 and whose value fits |
| Scans.ReadsEmptyKey | internal/sstable/block/row.go:149-261 | It reads back as a row for the empty key if and only if its key's length is a multiple of 65536 and the key's bytes decode as the rest of a row |
| Scans.ScanFits | slatedb/db.go:334-347 | If every row fits, a scan of the table yields exactly the rows written, in order |
| Scans.FoundExact | slatedb/db.go:236-249 | If every row fits, lookups in the table find exactly the rows written |
| Scans.FoundFits | slatedb/db.go:236-249 | Whatever was written, lookups find no row that does not fit |
| RowCodec.PeekRoundTrip | internal/sstable/block/row.go:265-288 | Peeking gives the key fields, whatever follows |
| RowCodec.PeekAny | internal/sstable/block/row.go:265-288 | Peeking at a row with a key of any length gives the key up to its length modulo 65536 |
| RowCodec.DecodedFits | internal/sstable/block/row.go:191-261 | Whatever the bytes are, a row that decodes has the peeked key, and its lengths fit their fields |
| RowCodec.KeyRoundTripIff | internal/sstable/block/row.go:149-189 | The key fields read back if and only if the suffix is shorter than 65536 bytes |
| RowCodec.StoredTimeExact | internal/sstable/block/row.go:81-107 | A time reads back exactly if and only if it is the zero time, or whole milliseconds with a non-zero sub-second part |
| RowCodec.ComputePrefixChunks | internal/sstable/block/row.go:292-318 | For every chunk size the result is the longest common prefix, truncated to 16 bits |
| RowCodec.LcpUnique | internal/sstable/block/row.go:297-318 | An agreeing stretch that cannot be extended is the longest common prefix |
| RowCodec.FullKeyRestores | internal/sstable/block/row.go:72-79 | Dropping the common prefix with the first key loses nothing |
| Blocks.RowReads | internal/sstable/block/row.go:191-288 | Every entry of a block reads back at its offset, peeked at or in full, with its whole key |
| Blocks.Builder.Add | internal/sstable/block/block.go:162-182 | Refuses an entry exactly when the block is not empty and its encoding with the entry, measured in bytes, would exceed the block size; an added entry is the last one |
| Blocks.Builder.AddValue | internal/sstable/block/block.go:184-189 | As Add, with an empty value stored as a tombstone |
| Blocks.RowDropsPrefix | internal/sstable/block/block.go:162-182 | The first row keeps its whole key; each other one leaves out exactly what its key shares with the first key and keeps the rest, for first keys shorter than 65536 bytes |
| Blocks.Builder.Build | internal/sstable/block/block.go:191-204 | Errs exactly on an empty block; for block sizes up to 65535 the block has exactly the rows of the entries added at offsets that are not truncated |
| Blocks.StartsFit | internal/sstable/block/block.go:156-182 | In a block of size up to 65535 no offset and no count is truncated, since only a block of one row can exceed the size |
| Blocks.AloneIfLong | internal/sstable/block/block.go:162-182 | In a block of size up to 65535, a row whose lengths do not fit is the only one |
| Blocks.EncodeBlock | internal/sstable/block/block.go:54-75 | The loop writes rows, 16-bit offsets and count, compressed and followed by a checksum |
| Blocks.DecodeBlock | internal/sstable/block/block.go:78-134 | Computes the parse of the decompressed bytes with all its error cases |
| Blocks.BlockRoundTrip | internal/sstable/block/block.go:54-134 | Any block, of keys and values of any length, reads back with the same rows and offsets and an empty first key |
| Blocks.FirstKeyIsLost | internal/sstable/block/block.go:126-132 | For every block the decoder's first key is empty, since the length it reads is the prefix length of the first row |
| Blocks.FirstKeySumsWrap | internal/sstable/block/block.go:126-132 | The decoder's 16-bit sums wrap: for a first row at offset 65534 it takes the first key from the start of the data |
| BlockIterators.BlockIterator.NextEntry | internal/sstable/block/iterator.go:84-107 | Yields what the rows read as one by one: the entries with full keys if they fit; a decoding error ends the block, and the decoder never runs out of bounds |
| BlockIterators.FirstFullKey | internal/sstable/block/iterator.go:117-132 | The first full key is that of row 0, as far as its 16-bit length covers it |
| BlockIterators.NewIteratorAtKey | internal/sstable/block/iterator.go:31-82 | The binary search leaves exactly what the block reads as at or above the key, for rows of any length, and for keys below the first and above the last as well |
| Scans.ScannedStorable | internal/sstable/block/iterator.go:84-107 | Whatever a table was written with, an entry that a scan yields fits, unless its key is empty |
| SSTables.TableBuilder.Add | internal/sstable/builder.go:160-183 | Appends an entry of any length; a new block starts exactly when the entry does not fit the current one |
| SSTables.TableBuilder.FinishBlock | internal/sstable/builder.go:192-213 | Encodes the current block and indexes it under its first key at the current length; an empty block gives nothing |
| SSTables.TableBuilder.NextBlock | internal/sstable/builder.go:185-190 | Hands out the oldest finished block, none exactly if there is none; the entries of the table stay the same |
| SSTables.TableBuilder.Build | internal/sstable/builder.go:215-268 | However Add and NextBlock were mixed, the drained bytes followed by the built ones are a table whose index and any of whose blocks read back to exactly the entries added, and whose info is found from its end below 4 GiB; filter, index, info and the offset of the info follow the blocks in this order; its filter is there exactly for enough keys, counted in 32 bits, and is the one built from the keys; it panics exactly when the filter does |
| SSTables.TableBuilder.BuildFilter | internal/sstable/builder.go:222-233 | The filter is made exactly for enough keys and has exactly the bits that the keys probe; it panics exactly when its size wraps to nothing |
| SSTables.FileReads | internal/sstable/decode.go:25-83 | The file laid out from blocks, filter, index, info and offset reads back to the same index, blocks and filter, and below 4 GiB to the same info |
| SSTables.IndexRoundTrip | internal/sstable/flatbuf.go:83-141 | An index whose values fit their fields reads back through compression and checksum |
| SSTables.InfoRoundTrip | internal/sstable/flatbuf.go:62-124 | An info whose values fit their fields reads back through its checksum |
| SSTables.ReadBlocks | internal/sstable/decode.go:93-149 | Any non-empty range of blocks within the table reads back to exactly the blocks written; every other range is an error |
| Formats.NoCompressionIsLossless | internal/compress/compression.go:79-83 | The default codec, which stores the bytes as they are, meets what all readers assume, with any 32-bit checksum |
| Formats.DefaultFormatIsSound | internal/sstable/decode.go:16-23 | With it, any hash, and fixed-width fields of 64-bit offsets and 32-bit lengths for index and info, everything the builders assume is met |
| TableWriters.EncodedSSTableWriter.Add | slatedb/store/table_store.go:221-238 | Appends a row of any length, an absent or empty value as a tombstone, and drains every finished block |
| TableWriters.EncodedSSTableWriter.Close | slatedb/store/table_store.go:244-266 | The uploaded bytes are a table whose index, blocks and filter read back to exactly the rows added and whose filter is the one built from their keys; it panics exactly when the filter does |
| TableIterators.FirstBlockIncludingOrAfterKey | internal/sstable/iterator.go:123-153 | The binary search finds the last block whose first key is at most the key, or the first block |
| TableIterators.SkipBlocks | internal/sstable/iterator.go:123-153 | The entries at or above a key are those of the blocks from that one on |
| TableIterators.TableIterator.constructor | internal/sstable/iterator.go:29-57 | A table iterator starts with what the blocks from the found one on read as |
| TableIterators.TableIterator.NextEntry | internal/sstable/iterator.go:59-118 | Yields that one by one over all blocks and stops exactly after the last |
| TableIterators.FitSought | internal/sstable/iterator.go:29-153 | For a table whose rows fit, that is all entries, or exactly those at or above the key |
| TableIterators.FullScan | internal/sstable/iterator.go:59-118 | What a full scan yields depends only on the entries written, not on where the blocks start |
| SortedRuns.IndexOfSSTWithKey | slatedb/compacted/sortedrun.go:24-33 | Finds the last table whose first key is at most the key, none exactly if the key is below the run |
| SortedRuns.SeekSplit | slatedb/compacted/sortedrun.go:69-111 | The entries at or above a key are those of that table from the key on, followed by the later tables whole |
| SortedRuns.SortedRunIterator.constructor | slatedb/compacted/sortedrun.go:58-111 | A run iterator starts with all entries, or exactly those at or above the key, also below the first and above the last |
| SortedRuns.SortedRunIterator.NextEntry | slatedb/compacted/sortedrun.go:113-145 | Yields them one by one over all tables and stops exactly after the last |
| Keys.SortedUnique | internal/iter/merge.go:53-74 | A sorted stream is determined by the table it holds |
| Keys.SortedSuffix | internal/sstable/block/iterator.go:31-82 | In a sorted table the entries at or above a key are the suffix from the place that a binary search finds |
| Keys.LessIsLexicographic | internal/iter/merge.go:89-95 | One key is less than another if and only if, where they first differ, it ends or has the smaller byte |
| Gets.PassesFilter | slatedb/db.go:290-314 | A table without a filter passes; a filter passes exactly the keys whose probes are set, and every stored key is one |
| Gets.FirstDecides | slatedb/db.go:236-264 | The first entry at or above the key settles the lookup: it has the key, or the table does not |
| Gets.GetFromTable | slatedb/db.go:236-249 | Range check, filter and seek give what the first row read at or above the key says, for keys and values of any length; a key outside the range or one that the filter rejects is not there |
| Gets.FitTableGet | slatedb/db.go:236-249 | If the rows of the table fit, that is exactly the table's row of the key |
| Gets.TableGetExact | slatedb/db.go:236-249 | For every entry of a table, of any length and whatever else is in the table: a lookup of its key gives its value if and only if its lengths fit |
| Gets.ShortKeyGet | slatedb/db.go:236-249 | For every entry whose key fits, whatever else is in the table: a lookup gives its value cut to its length modulo 2^32 |
| Gets.TableGetFits | slatedb/db.go:236-249 | Whatever the table was written with, a row that a lookup finds fits and is one that a scan yields |
| Gets.WrittenReadsBack | slatedb/db.go:236-249 | A table written with any rows reads back as the protocol says: what lookups find is what its flush step allows, and a scan yields exactly what its WAL and compaction steps use |
| Gets.GetFromRun | slatedb/db.go:251-264 | Table search, its filter and a seek through the run give exactly the run's row of the key |
| Gets.FitReadsAs | slatedb/db.go:236-249 | A table whose rows fit reads, for every key, as exactly these rows |
| Gets.OnlyInTable | slatedb/db.go:302-314 | A key of a run can only be in the last table whose first key is at most it, so asking that table's filter is enough |
| Gets.BuiltTableReads | slatedb/db.go:290-300 | A table as the builder leaves it, with the filter of its own keys, meets what Get needs of it |
| Gets.GetWithOptions | slatedb/db.go:201-267 | Searching the layers newest first and stopping at the first hit, tombstones included, gives the bytes of the newest row among all layers, and not found for a tombstone or no row, down to the bytes of the tables |
| EndToEnd.GetInRun | slatedb/db.go:201-267 | In every state of every run with files whose merged writes fit a table, Get on these files gives the bytes of the last merged or the last write, or not found for a delete or no write, for every key whose write is not an empty value |
| EndToEnd.RunKeepsFiles | slatedb/flush.go:220-242 | In every run with files, every L0 table and every run that a manifest, a process or a waiting result names is in the store and reads as the state says |
| EndToEnd.FilesAreARun | slatedb/flush.go:44-242 | A run with files is a run of the protocol, so every theorem about runs holds of it |
| EndToEnd.FlushIsStored | slatedb/flush.go:220-242 | What FlushImmTable writes for the oldest immutable memtable, of any lengths but without the empty key, is a file with which the flush step is taken |
| EndToEnd.JobIsStored | slatedb/compaction/executor.go:49-66 | In every run with files the tables of a running job are stored as RunJob needs them |
| EndToEnd.RunIsStored | slatedb/compaction/state.go:97-157 | A run that RunJob writes in order, in tables that fit their indexes, is one with which the job's end is a step |

## Left out

- Object store calls, their failures and timeouts: reads and listings succeed; put-if-absent is taken as atomic although the code checks and then uploads.
- Two live writers that upload WALs: a replaced writer may still refresh and try to publish manifests, but uploads no WAL, since WAL uploads are unconditional in the code and recovery then depends on one uploader.
- Reopening.LockedForever: does not cover a replaced writer that uploads its last WAL after all, which in the code would unlock the database.
- Opening as two steps: loading a manifest and raising its epoch are one step of the protocol; Fencing has them apart, with the open that loses the race. In a process that also runs a compactor, the memtable flusher starts first, and its manifest write after a replay can win that race, so that the open fails with an error.
- Merging entry by entry: a merge is one step, although the code puts entry by entry and releases the lock in between, so that a committed read can see half of a WAL.
- Overlapping callers of the flush loops: one WAL flusher and one memtable flusher, with an explicit memtable flush not overlapping either.
- Runs whose rows come out of order: a truncated key can make a scan, and then a compaction's output, out of order; lookups in such a run may find any rows that fit, and EndToEnd has no file step for its job.
- Tables too large for their indexes: EndToEnd has no file step for them; a WAL of 4 GiB or more may be unreadable.
- A panic ends the writer, or the compactor if a job caused it; that the other one in the same process ends too is a crash step of its own.
- Publishing as two steps: the writer's manifest is the state at the time of the write, where the code takes a snapshot and then writes it, with freezes possible in between; the published next WAL id may then be an older one.
- FlatBuffers packing of info, index and manifests, compression, checksums and the key hash: any functions that are lossless on what fits their fields, or arbitrary ones; the 2 GiB limit of a FlatBuffer is not modelled.
- The skip list, the deque, the library heap and sort and the filter cache: a map, a sequence, extraction of a least item, insertion in order, and nothing.
- Goroutines, tickers, notifications other than those of replay, Close and logging: only the choice of the next step.
- The retry loops around publishing a manifest: each attempt is a load step and a publish step of the protocol, with any other steps in between; they need not end.
- Corrupted files, warnings and failed block reads: files are as they were written.
- ULIDs: table ids are numbers that were not used before.
- The uint64 bound of WAL and manifest ids and of the replay counters: ids are unbounded; run ids are 32-bit.
- Bloom.OptimalNumProbes: the conversion of a value above 65535 to uint16, which Go leaves to the implementation, is taken modulo 65536.
- CompactorStates.StartCompaction: a source that names no table or run is skipped, where the code would pass an empty handle; accepted scheduler compactions never do this. The tables inside runs are not among those it can name.
- WalLists.GetWalSSTList: lists only files with the names that the store itself writes.
- Executors.RunJob: reads each source in full before the merge, where the code reads them as the merge goes. For rows out of order it says what the files hold, not what a search finds in them.
- Row expiry and creation times above the row codec, block size estimates, pretty printers, configuration and the command-line program.
