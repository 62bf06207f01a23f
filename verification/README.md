# MiniKV: a verified model of the storage engine

MiniKV is an embedded log-structured key-value store. Writes are numbered, appended to a
write-ahead log (WAL), synced and put into an ordered MemTable. A full MemTable is frozen and
flushed into an immutable sorted table; level-zero tables are compacted into disjoint level-one
tables; a MANIFEST names the tables of the current version and is replaced by a rename. Reads merge
the MemTable, the frozen MemTable and the tables.

This project models that engine in Dafny 4.11, from the bytes of its files up to whole runs with
I/O errors and crashes, and proves what it promises. `dafny verify dfyconfig.toml` checks all of it.

## What is proved

* **Crash safety over whole runs** (`CrashSafety`). Any number of sessions run any commands while any
  environment call may fail, and the power may fail at any moment, with any outcome that unsynced
  bytes and unsynced directory operations allow. If no further I/O error occurs, the next Open
  succeeds, and one log answers for all keys: it has every write that had been acknowledged by that
  moment, in order, every other confirmed write, and of the unconfirmed ones, of which each session has
  at most one, some or none. What such an Open has shown is kept by every later crash; what was gone
  stays gone. Every report of a run is borne out by an account that has its place in the recorded path.
* **Progress.** Without I/O errors Open, Write, Flush, Close, a round of the worker and Compact succeed, but
  for counts and sizes that do not fit their fields (`Capacity`) and the states listed below.
* **Reads return the last write.** In every reachable state Get shows the last write to the key, and a
  paged scan delivers the live entries of its range once and in order (`Databases.Database.Get`,
  `Scans.ScanAll`).
* **Compaction and flushing change nothing that a reader can see**, and the version that a compaction
  builds is always acceptable (`Compaction`, `Meaning`).
* **The file formats are exact.** Encoding and decoding of WAL records, MANIFEST, data blocks, Bloom
  filters and scan tokens are inverse in both directions. Every table that is built opens and reads back
  as its records, and every table that opens describes its records exactly. No single changed byte of
  any of these is accepted.

Some promises hold only under a condition. The exact condition is proved for every state, and module
`Instances` takes a new database into the first four of these states by its public operations, with at most
one failing call:

* Scan reports corruption in a healthy database while a frozen MemTable is already part of the
  version but not yet retired. It does so if and only if that frozen MemTable holds a key of the page
  that the MemTable does not override (`ScanSteps.TiedExactly`, `Scans.Scan`; instance `CorruptScan`).
* Compact reports corruption in a healthy database if and only if both a frozen MemTable and the MemTable hold
  records: its flush empties only the older one (`Databases.Database.Compact`; instance `CorruptCompact`).
* In background mode a write is accepted while a failed compaction is pending. At whatever stage that failed,
  the write survives every crash if and only if the compaction has no outputs, or no crash finds the new
  MANIFEST in place, or the write cannot be seen (`PendingCompaction.WriteSurvives`; instance `LostAtOnce`,
  where the sync of the directory after the rename has failed).
* Publishing that compaction later retires the log which took the write. The disk stays recoverable if and only
  if the compaction has no outputs or every key reads the same without those writes, which is so if and only
  if the MemTable holds no record that the tables do not already show (`PendingCompaction.PublishOverWrites`;
  instance `LostWrite`). Runs exclude writes beside a pending compaction by the predicate `CrashSafety.Stuck`,
  which a caller can evaluate before writing.
* What Open shows after an exit without a crash stays through every later crash if and only if all complete
  records of the log are synced and no other complete record may follow them (`Opening.TailKept`,
  `Opening.Open`; instance `ShownThenLost`).
* A record whose sync failed has used up its number. The next session finds the record or gives the number to
  another one, and then accepts scan tokens of the session before. Such a scan goes on in the same map if
  and only if that record changes nothing that can be read (`ScanSessions.TokenElsewhere`). Within a session a
  token is refused or continues the same map (`ScanSessions.TokenLater`, `ScanSessions.ScanBetween`).

## How the model is built

| files | subject |
|---|---|
| `Coding` `Layout` `Regions` `Keys` `Runs` `Options` | integers, checksums, header layouts, key order, sorted runs |
| `MemTable` `Wal` `WalLog` `Recovery` | the MemTable, WAL records, what a log file means, replay |
| `Versions` `Manifest` `FileNames` | versions and edits, the MANIFEST, names of files |
| `Bloom` `Blocks` `SparseIndex` `TableFormat` `Tables` `TableBuilder` `TableReader` `TableIterator` `TableDamage` `Summaries` | sorted tables |
| `Merge` `Compaction` `CompactionPlan` `CompactionTables` | merging and choosing tables, publishing the outputs |
| `FileSystem` `Durability` `Claims` `WalFiles` `WalSteps` `PublishSteps` `Disk` `Publishing` | the file system with crashes, and what must be on disk |
| `Engine` `EngineSteps` `FlushSteps` `CompactionSteps` `OpenSteps` `DatabaseSteps` `Meaning` `Capacity` | the invariant of a running database and why each step keeps it |
| `Database` `Opening` `Ledger` `CrashSafety` `Frontiers` `PendingCompaction` `Instances` `Status` | the engine itself, opening, whole runs |
| `Reading` `ScanTokens` `Paging` `ScanSteps` `Scan` `ScanSessions` | point reads, scans, scans with other operations between the pages |

The file system is an abstract one. A file has bytes that survive a crash and bytes that may not; a
directory has a durable part and a list of pending operations of which a crash keeps a prefix. A
`Disk` records every moment of a run, and each method that touches it must leave all recorded moments
recoverable and in accord with a ledger of what clients were told. Classes stand for the objects that
the engine updates in place: `MemTable`, `BloomFilter`, `TableIterator`, `Disk` and `Database`. Failing
calls are decided by a parameter of `Disk`; what other threads write while the background worker has
released the lock is a parameter of the worker's methods, and they write between any two of its calls.

## Model

| member | source | states |
|---|---|---|
| `Coding.Crc32c` | src/coding.cpp:8-20 | the byte and bit loops over machine words compute the recursive shift register of the CRC32C polynomial |
| `Coding.CrcSeesByte` | src/coding.cpp:8-20 | inputs of equal length that differ in one byte have different checksums |
| `Coding.ShiftInjective` | src/coding.cpp:13-16 | one bit of the division loses no information about the 32-bit state |
| `Coding.PutFixed` | src/coding.cpp:23-38 | appends the little-endian bytes of the value |
| `Coding.DecodeFixed` | src/coding.cpp:40-85 | refuses exactly the short inputs and reads the number whose bytes come first |
| `Regions.RegionOf` | src/table.cpp:58-67 | a region whose checksum matches is the one its fields and payload make |
| `Regions.OneByteBreaksSeal` | src/table.cpp:58-67 | a checksummed region does not stay valid when any one byte changes |
| `MemTables.MemTable.Add` | src/memtable.cpp:64-104 | accepts exactly valid records with a rising sequence number, replaces or inserts the record and keeps the byte counter the exact sum over all entries |
| `MemTables.MemTable.Search` | src/memtable.cpp:27-44 | finds the record of a key, tombstones included |
| `MemTables.MemTable.Get` | src/memtable.cpp:46-53 | shows the value unless the record is a tombstone |
| `MemTables.ReplaceBytes` | src/memtable.cpp:86-102 | replacing or inserting a record moves the sum of sizes by exactly that record |
| `Wal.EncodeWalRecord` | src/wal.cpp:76-123 | accepts exactly the valid records whose size fits, and appends their encoding |
| `Wal.DecodeEncoding` | src/wal.cpp:199-226 | the first record of a buffer decodes to what was encoded, whatever follows |
| `Wal.EncodingOfDecoded` | src/wal.cpp:125-226 | whatever decodes is the encoding of a valid record |
| `WalLog.RecoverExact` | src/recovery.cpp:61-181 | complete records with rising sequence numbers, followed by any strict prefix of one more record, recover to exactly those records and their end |
| `WalLog.RecoverIdempotent` | src/recovery.cpp:41-186 | recovering the truncated file gives the same records and nothing more to cut |
| `WalLog.RecoverShorter` | src/recovery.cpp:61-181 | a file cut anywhere after its last complete record recovers to the same records |
| `WalLog.RecoveredParts` | src/recovery.cpp:61-181 | whatever recovery accepts is the encoding of valid records with rising sequence numbers |
| `WalLog.ChangedRecordIsCorrupt` | src/wal.cpp:125-226 | an encoded record with one changed byte is corrupt, never incomplete |
| `WalLog.OneByteRejected` | src/recovery.cpp:98-145 | a file of complete records with one byte changed anywhere is rejected, not truncated |
| `Recovery.RecoverWal` | src/recovery.cpp:41-186 | replays exactly the complete records into a MemTable, cuts off exactly the torn tail, reports corruption only for rejected contents and then leaves the file alone; without I/O errors it does not fail |
| `Recovery.TruncateTail` | src/recovery.cpp:12-31 | cuts the file at the end of the complete records and syncs it |
| `Recovery.Applies` | src/recovery.cpp:146-168 | the MemTable of a rising log never refuses the next record |
| `Versions.ValidVersionIsSound` | src/manifest.cpp:45-89 | checking sorted neighbours accepts exactly the versions whose level-one ranges are pairwise disjoint |
| `Versions.ApplyAccepted` | src/manifest.cpp:101-190 | an accepted edit raises the id by one, never lowers a frontier, removes and adds exactly the named tables and keeps file-number order |
| `Versions.ChainProgress` | src/manifest.cpp:93-190 | along a chain of edits ids rise by one and frontiers do not fall |
| `Versions.ChainVersionsSound` | src/manifest.cpp:93-190 | every version of a chain is sound, in file-number order, and the i-th has id i + 1 |
| `Versions.DeletedStaysDeleted` | src/manifest.cpp:101-190 | a file number that was deleted is never live again |
| `Manifest.EncodeManifest` | src/manifest.cpp:192-263 | accepts exactly the encodable versions and produces their encoding |
| `Manifest.ReadManifest` | src/manifest.cpp:265-375 | the decoding loop computes the recursive definition of decoding |
| `Manifest.DecodeManifestBytes` | src/manifest.cpp:192-375 | decoding an encoded version gives it back |
| `Manifest.ManifestBytesOfDecoded` | src/manifest.cpp:265-375 | every accepted file is the encoding of the version it decodes to |
| `Manifest.OneByteRejected` | src/manifest.cpp:274-322 | no file that differs from an accepted one in a single byte is accepted |
| `FileNames.ParseGenerationFile` | src/database.cpp:35-61 | accepts exactly 20 digits, a dot and the extension that denote a number from 1 to 2^64-1 |
| `FileNames.OverflowGuard` | src/database.cpp:50-54 | the guard fires if and only if the next digit would overflow 64 bits |
| `FileNames.ParsesExactly` | src/flush.cpp:98-106 | a name parses to a generation if and only if it is the name generated for it |
| `FileNames.Recognize` | src/database.cpp:231-243 | a directory entry is taken for a MANIFEST, table or log exactly if it has the generated name, and for a leftover exactly if it is temporary |
| `FileNames.TextIsUnique` | src/flush.cpp:98-106 | different files have different names |
| `Bloom.BloomHashes` | src/bloom_filter.cpp:21-41 | the two wrapping 64-bit hashes of the key loop |
| `Bloom.NoFalseNegative` | src/bloom_filter.cpp:118-156 | after any additions every added key may be contained |
| `Bloom.AddedKeeps` | src/bloom_filter.cpp:118-137 | adding a key never loses one that was found before |
| `Bloom.BloomFilter.Add` | src/bloom_filter.cpp:118-137 | sets exactly the probed bits and counts the key |
| `Bloom.BloomFilter.Contains` | src/bloom_filter.cpp:139-156 | true exactly if all probed bits are set |
| `Bloom.DecodeFilterBytes` | src/bloom_filter.cpp:158-253 | a filter survives encoding and decoding |
| `Bloom.FilterBytesOfDecoded` | src/bloom_filter.cpp:197-253 | every accepted filter region is the encoding of what it decodes to |
| `Blocks.ReadBlock` | src/table.cpp:671-741 | the reading loop accepts exactly intact, sorted blocks and returns their records |
| `Blocks.DecodeBlockBytes` | src/table.cpp:133-177 | a sealed block reads back as its records |
| `Blocks.BlockBytesOfDecoded` | src/table.cpp:671-741 | every accepted block is the encoding of valid sorted records |
| `Blocks.PartitionOk` | src/table.cpp:229-256 | the records are divided in order into non-empty blocks; blocks of several records fit the block size |
| `SparseIndex.ReadEntries` | src/table.cpp:570-613 | accepts exactly ascending entries that cover the data without gap or rest |
| `SparseIndex.DecodeIndexPayload` | src/table.cpp:268-277 | an index that satisfies the checks reads back |
| `SparseIndex.EntryPoints` | src/table.cpp:133-177 | the i-th entry points at the bytes of the i-th block |
| `TableBuilder.BuildData` | src/table.cpp:217-266 | the record loop produces the blocks and index entries of the partition, or stops exactly if a block does not fit |
| `TableBuilder.BuildFilter` | src/table.cpp:292-313 | the filter region of all keys |
| `TableBuilder.EncodeTable` | src/table.cpp:188-367 | succeeds exactly if every count and size fits its field, and then produces the table file |
| `Tables.OpenTableBytes` | src/table.cpp:188-669 | every table that is built is accepted by Open and reads back as exactly the records it was built from |
| `Tables.TableChunksOk` | src/table.cpp:110-131 | every block of a built table is within the maximum that its reader imposes |
| `Tables.OpenedDescribes` | src/table.cpp:614-667 | an accepted table has sorted, valid records and a summary that is exactly theirs |
| `TableReader.VerifyBlocks` | src/table.cpp:620-658 | every block is intact, starts with its index key, follows the one before it and is admitted by the filter |
| `TableReader.Load` | src/table.cpp:369-669 | the checks of Open, in order, on the bytes of a file |
| `TableReader.OnlyBlock` | src/table.cpp:789-803 | a key can only be in the last block that starts at or before it |
| `TableReader.Get` | src/table.cpp:743-825 | for any accepted table the indexed and filtered search equals a search through all records |
| `TableReader.ReadRecords` | src/table.cpp:827-857 | the first records up to the limit, in order |
| `TableDamage.DamagedTable` | src/table.cpp:369-669 | no accepted table file stays acceptable when any one of its bytes changes |
| `TableDamage.BlockAround` | src/table.cpp:578-613 | every byte of the data lies in an indexed block |
| `TableIterators.RangeMembers` | src/table.cpp:902-954 | the range consists of exactly the records with begin <= key < end, in order |
| `TableIterators.TableIterator.Initialize` | src/table.cpp:902-954 | positions so that exactly the records of the range are still to come |
| `TableIterators.TableIterator.Next` | src/table.cpp:956-969 | drops the first of the records to come and nothing else |
| `TableIterators.TableIterator.Current` | src/table.cpp:868-873 | the first of the records to come |
| `TableIterators.NewIterator` | src/table.cpp:971-1002 | refuses exactly bounds that are too long or reversed, else iterates over the range |
| `TableIterators.Drain` | src/table.cpp:956-969 | an iterator driven to its end yields exactly the range, and terminates |
| `Merge.PopKey` | src/compaction.cpp:155-176 | the inner loop pops exactly the cursors at the smallest key and finds the newest record, or a tie |
| `Merge.AddOutputRecord` | src/compaction.cpp:66-86 | the record goes to the end of the last output, or into a new one when that would exceed the limit |
| `Merge.BuildCompactionOutputs` | src/compaction.cpp:100-202 | the outputs are the newest record of every key, tombstones dropped on request, strictly ascending, none empty, each of several records within the size limit; inputs = outputs + duplicates + tombstones; corruption exactly if a key has its greatest sequence number twice |
| `Merge.StepAgrees` | src/compaction.cpp:155-201 | each round appends the newest record of the next key |
| `CompactionTables.PublishCompactionTables` | src/compaction.cpp:205-298 | writes, renames and syncs all outputs, leaving the disk recoverable at every step; on success all are durable and open; it takes five calls for each output and one more, and if those succeed it succeeds, provided every output can be encoded |
| `Compaction.NotElsewhere` | src/database.cpp:945-951 | no unselected table holds a key of a selected one |
| `Compaction.CompactionPreserves` | src/database.cpp:910-987 | replacing the selected tables by the merged outputs leaves the visible value of every key unchanged |
| `Compaction.CompactionAccepted` | src/database.cpp:1009-1038 | the edit of a compaction is accepted unless the version id is exhausted |
| `CompactionPlan.SelectInputs` | src/database.cpp:938-961 | selects every level-zero table and exactly the level-one tables that their key range touches; fails exactly if the sizes of the selected tables add up to more than 64 bits hold |
| `CompactionPlan.Plan` | src/database.cpp:910-987 | plans nothing exactly without level-zero tables, else the selected inputs and their merged outputs; a healthy database never makes it report corruption, and it fails only where file numbers could run out or the bytes of the inputs do not fit a 64-bit count |
| `CompactionPlan.LiveReaders` | src/database.cpp:1051-1072 | the readers that stay and the new ones, in file-number order |
| `Meaning.FlushMeans` | src/database.cpp:1241-1264 | a frozen log flushed into a new newest table: the tables mean the longer log |
| `Meaning.CompactionMeans` | src/database.cpp:1040-1075 | tables that mean a log still mean it after a compaction |
| `FileSystem.SettledView` | src/flush.cpp:71-96 | what a sync or a crash leaves of a directory whose logs are settled |
| `WalFiles.AppendOk` | src/wal.cpp:255-282 | while a record is being appended, every crash outcome of the log recovers the records before it and perhaps that one |
| `WalFiles.ConfirmOk` | src/wal.cpp:255-282 | after a completed append and sync the record survives every crash |
| `WalFiles.TruncateOk` | src/recovery.cpp:12-31 | cutting off a torn tail keeps every crash outcome recoverable to the same records |
| `Claims.CrashRecoverable` | src/database.cpp:253-442 | whatever a crash leaves of a recoverable disk is recoverable |
| `PublishSteps.RenameManifestKeeps` | src/manifest.cpp:450-456 | renaming a synced MANIFEST into place keeps every crash outcome on the old or on the new version |
| `PublishSteps.FlushWals` | src/database.cpp:1241-1264 | publishing the frozen log's table keeps the meaning of the logs that remain |
| `Publishing.WriteTemporary` | src/flush.cpp:142-159 | creates, writes and syncs a temporary file in three calls, or removes it again; no crash can notice |
| `Publishing.PublishManifest` | src/manifest.cpp:414-457 | on success every later crash finds the new version, on failure the old or the new one; the disk it leaves after success, after a failure of the first call and after a failure of the last is exactly that of the calls before; if its five calls succeed it succeeds exactly on encodable versions |
| `EngineSteps.AppendDone` | src/database.cpp:792-807 | a synced append keeps the invariant with the record confirmed and in the MemTable |
| `EngineSteps.AppendFailed` | src/wal.cpp:255-297 | an append that fails keeps the invariant with the record unconfirmed and writing stopped |
| `FlushSteps.FreezeKeeps` | src/database.cpp:1197-1217 | freezing keeps the invariant |
| `FlushSteps.PendingKeeps` | src/database.cpp:1225-1239 | a durable pending table keeps the invariant |
| `FlushSteps.PublishedKeeps` | src/database.cpp:1241-1264 | a published flush keeps the invariant and the log of writes |
| `FlushSteps.RetireInv` | src/database.cpp:1279-1284 | retiring the frozen MemTable keeps the invariant and the log of writes |
| `CompactionSteps.CompactionReady` | src/database.cpp:1040-1049 | whatever view a crash shows, it is ready for the version of the compaction |
| `CompactionSteps.CompactedInv` | src/database.cpp:1040-1082 | a published compaction keeps the invariant and the log of writes |
| `CompactionSteps.CleanupInv` | src/database.cpp:1084-1099 | removing an input file keeps the invariant |
| `Databases.Database.AppendRecord` | src/wal.cpp:255-282 | the record is confirmed exactly if append and sync, its two calls, succeed; otherwise writing stops |
| `Databases.Database.Commit` | src/database.cpp:785-807 | numbers, logs and applies one record, or changes nothing but the counter and the health flag; on success the MemTable has the record inserted; succeeds if no call fails, a log is open and numbers are left |
| `Databases.Database.Write` | src/database.cpp:729-823 | at most one record, numbered next, is added to the history; success means it is confirmed; the log of writes grows exactly by a confirmed record, and stays as it is unless the number grows; the ledger grows by an acknowledged record; beside a background flush only the log file, the MemTable and the counter change; in background mode a successful write leaves the record in the MemTable after two calls, or the full MemTable frozen and after two more calls the next log open; if nothing stands in the way and no call fails, the record is confirmed, and the write succeeds unless it filled the MemTable and that cannot be flushed |
| `Databases.Database.Get` | src/database.cpp:663-727 | in every valid state shows the last write to the key; invalid keys and closed databases are refused |
| `Databases.Database.FreezeMutable` | src/database.cpp:1197-1217 | moves the MemTable and its log aside without changing what the database holds; apart from I/O errors it refuses only a second frozen MemTable, an empty one or an exhausted number; opening the next log takes two calls |
| `Databases.Database.OpenMutableWal` | src/database.cpp:1287-1306 | creates the next log and makes its name durable before it takes writes; without I/O errors it succeeds |
| `Databases.Database.Interfere` | src/database.cpp:509-540 | any writes of clients while the worker has released the lock: each request is made, the frozen MemTable, the version and the numbers stay, the log grows by exactly the confirmed writes |
| `DatabaseSteps.CallsCommute` | src/database.cpp:516-525 | a call of the worker between a client's append and its sync reaches no disk that taking turns does not |
| `Databases.Database.PublishTable` | src/flush.cpp:108-171 | with clients writing between any two of its calls, whether they succeed or fail, and all their requests made before it takes the lock again, the frozen MemTable becomes a durable open table; it is still the same frozen MemTable afterwards and the log grew by exactly their confirmed writes; without I/O errors it succeeds if the table can be encoded, and without clients it takes six calls |
| `Databases.Database.EnsurePending` | src/database.cpp:1225-1239 | makes the pending table unless it is there; nothing else the worker relies on moves |
| `Databases.Database.PublishFlush` | src/database.cpp:1241-1264 | success adds exactly the frozen records as the newest table and marks them published; failure changes nothing in memory; without I/O errors it succeeds if the version fits |
| `Capacity.FlushAccepted` | src/database.cpp:1241-1264 | the edit of a flush is accepted unless the version id is exhausted, and gives exactly the old tables and the new one |
| `Capacity.CandidateAccepted` | src/database.cpp:1009-1038 | the edit of a planned compaction with published outputs is accepted unless the version id is exhausted |
| `Databases.Database.ContinueFlush` | src/database.cpp:1219-1285 | takes a flush from wherever it stopped to its end, or stops again in a valid state; what the database holds does not change; without I/O errors it ends unless the flush does not fit; a flush that starts takes thirteen calls if the next log is open, and stops with the table published and the frozen MemTable still there if the twelfth is the first to fail |
| `Databases.Database.PrepareCompaction` | src/database.cpp:910-987 | plans a compaction in memory only; it fails only where file numbers could run out or the bytes of the inputs do not fit a 64-bit count |
| `Databases.Database.PublishOutputs` | src/database.cpp:995-1007 | writes the outputs once and changes nothing else; without I/O errors it succeeds if they can be encoded |
| `Databases.Database.PrepareCandidate` | src/database.cpp:1009-1038 | succeeds if and only if the candidate is there already, or a version id is left and the bytes of the outputs fit a 64-bit count |
| `Databases.Database.ContinueCompaction` | src/database.cpp:989-1122 | takes a compaction from wherever it stopped to its end, or stops again in a valid state; what the database holds does not change; without I/O errors it ends unless the compaction does not fit; if the first or the last call of publishing its MANIFEST is the first to fail, it stays pending with its candidate made, in the last case with the rename issued |
| `Databases.Database.Flush` | src/database.cpp:825-861 | keeps what the database holds; success leaves nothing frozen or pending and, if nothing was frozen before, the MemTable empty; without I/O errors a healthy database succeeds if what there is to flush fits; what thirteen calls of a new flush do, and where the twelfth leaves it, as in ContinueFlush |
| `Databases.Database.Compact` | src/database.cpp:863-908 | keeps what the database holds; success leaves no level-zero table and no pending compaction, and nothing unflushed unless it only resumed one; without I/O errors a healthy database reports corruption if and only if both its tables hold records, and otherwise succeeds unless the compaction does not fit; in a database with nothing unflushed a failure at publishing the MANIFEST leaves the compaction as in ContinueCompaction |
| `Databases.Database.Close` | src/database.cpp:604-649 | stops the database and leaves the disk recoverable whatever fails; success leaves nothing unflushed; a second call returns the first outcome and does nothing; without I/O errors it succeeds if what there is to flush fits |
| `Databases.Database.BackgroundRound` | src/database.cpp:509-591 | one round of the worker, with any writes of other threads while the lock is released, every one of them made, keeps the database valid and adds exactly their confirmed writes to its log, none unless the number grows; success leaves nothing frozen; without I/O errors it succeeds unless the flush or the compaction does not fit |
| `Frontiers.LogNumbers` | src/database.cpp:322-357 | in every valid state, background flush and concurrent writes included, each log on disk is numbered below the file frontier, at it or one above it |
| `Frontiers.SequenceOrder` | src/database.cpp:1241-1264 | in every valid state the sequence frontier is below every record not yet in a table and above every table record, and the MemTable is newer than the frozen records |
| `CompactionPlan.SourcesClear` | src/compaction.cpp:168-175 | the inputs of a compaction never hold one sequence number of a key twice |
| `CompactionSteps.CandidateLevels` | src/database.cpp:938-961 | a compaction leaves no level-zero table |
| `Databases.Database.CompactWhenDue` | src/database.cpp:542-564 | compacts exactly when nothing is unflushed and enough level-zero tables have gathered; success then leaves none of them |
| `Opening.LoadVersion` | src/database.cpp:253-270 | loads the MANIFEST or publishes that of a new database |
| `Opening.LoadTables` | src/database.cpp:272-298 | opens every table of the version and compares its summary with the MANIFEST |
| `Opening.RemoveStrays` | src/database.cpp:303-349 | removes every temporary file, unreferenced table and log below the frontier, and only files that no crash outcome reads |
| `Opening.RecoverLogs` | src/database.cpp:359-410 | recovers one or two logs at the frontier into a frozen MemTable and the MemTable |
| `Opening.Open` | src/database.cpp:158-450 | succeeds on every recoverable disk without I/O errors; the database holds a log that explains the history; if the logs were synced, or if no crash can change the records of the active one, that log is known for certain from then on; the disk stays recoverable whatever fails; a new database is empty and takes eight calls |
| `Opening.CertainSees` | src/database.cpp:359-410 | an active log that no crash can change leaves one explanation only: what was found |
| `Opening.TailKept` | src/database.cpp:359-410 | every crash leaves a log that was found with exactly its records if and only if they are synced to their end and what else may be left behind them holds no complete record |
| `OpenSteps.SeenWals` | src/database.cpp:322-357 | at most two logs are at or above the frontier, and the lower is there if the upper is |
| `OpenSteps.FoundMemoryOk` | src/database.cpp:359-437 | what opening puts into memory satisfies the invariant |
| `Ledgers.ConfirmedAmong` | src/database.cpp:792-807 | a log that explains a history has its confirmed records in order |
| `Ledgers.KnownExplains` | src/database.cpp:359-410 | a history in which everything is confirmed is explained by one log only |
| `Ledgers.AttendsGrows` | src/database.cpp:785-800 | one more record of a healthy session: of each session only the last may be unconfirmed |
| `Ledgers.BookExplained` | src/database.cpp:253-442 | every explaining log has the acknowledged records in order, and what an Open has shown at its front |
| `CrashSafety.Perform` | src/database.cpp:604-908 | a successful write is confirmed and acknowledged, a failed one is at most unconfirmed; a read shows the last write; nothing else adds to the history or takes from what was acknowledged; the log stays as it is unless the sequence number grows; the recorded run stays as it is and grows; with the progress of the single operations |
| `CrashSafety.ServedKeeps` | src/database.cpp:604-908 | over any commands of a session nothing that was acknowledged or shown is forgotten |
| `CrashSafety.RunCommands` | src/database.cpp:604-908 | every command is performed and answered in turn; the recorded run is kept and extended, and every state between two commands is found in it, in order |
| `CrashSafety.RunSession` | src/database.cpp:158-908 | opens, performs all commands and exits or crashes; the report agrees with an account of the database before and after each command; the account holds the recorded run up to that point, each of these states has its place in it, in order, and a crash adds one moment; a session none of whose calls fail opens |
| `CrashSafety.Run` | src/database.cpp:158-908 | after any sessions, failures and crashes, at every recorded moment every crash can be opened, the acknowledged writes are confirmed in order and each session has at most one unconfirmed one; every session has a report and an account, each account is a part of the recorded run and takes over, call by call, where the one before left it; a session none of whose calls fail opens |
| `CrashSafety.Reopen` | src/database.cpp:253-442 | after a crash at any moment with any outcome one surviving log answers for all keys, and it is known for certain from then on; without I/O errors Open succeeds |
| `CrashSafety.OpenAfterCrash` | src/database.cpp:253-442 | crash safety of every run: the sessions are performed and accounted for as in Run, the crash happens exactly if the disk allows it at that moment of the run, and the log read after it has all writes confirmed, and so all acknowledged, at its moment, in order, and of the others some or none; if no call after the sessions fails, Open succeeds |
| `CrashSafety.CrashTwice` | src/database.cpp:253-442 | a second crash, after any commands, each performed and found in the recorded run, happens exactly if it lies after the first recovery and the disk allows it; the next Open, which succeeds if no call fails, shows what the first recovery showed, followed only by what was written since |
| `Durability.ConfirmedSurvives` | src/database.cpp:792-807 | a confirmed record is in every log that explains the history |
| `PendingCompaction.AlmostInv` | src/database.cpp:755-760 | an empty active log is the only part of the invariant that a write beside a pending compaction breaks |
| `PendingCompaction.WriteBeside` | src/database.cpp:785-807 | a write confirmed beside a pending compaction, whether its candidate is made, renamed or neither, keeps every other part of the invariant |
| `PendingCompaction.WriteSurvives` | src/database.cpp:785-807 | such a write survives every crash if and only if the compaction has no outputs, or no crash finds its MANIFEST in place, or no key reads differently with the record |
| `PendingCompaction.BesideRecoverable` | src/database.cpp:785-807 | any number of writes beside a pending compaction, confirmed or not: the disk is recoverable if and only if the compaction has no outputs, or no crash finds its MANIFEST in place, or what was written has an explanation that no reader could notice |
| `PendingCompaction.ConfirmedBeside` | src/database.cpp:785-807 | if all of it was confirmed, the last condition is that every key reads the same without it, and that is so if and only if the MemTable holds no record that the tables do not already show |
| `PendingCompaction.CandidateBeside` | src/database.cpp:1009-1038 | making the candidate over such writes keeps the same invariant |
| `PendingCompaction.PublishBeside` | src/database.cpp:1040-1082 | publishing the compaction over writes, an earlier attempt having got as far as it may, keeps the disk recoverable if and only if it has no outputs or what was written since has an explanation that no reader could notice |
| `PendingCompaction.PublishOverWrites` | src/database.cpp:1076-1081 | if all of it was confirmed: if and only if it has no outputs or every key reads the same without those writes; and that is so if and only if the MemTable holds no record that the tables do not already show |
| `Instances.LostWrite` | src/database.cpp:755-760 | a database that a write, a Flush and a Compact failing at the first call of its MANIFEST lead to: a confirmed write is recoverable before the compaction is published and not after |
| `Instances.LostAtOnce` | src/database.cpp:1040-1049 | the same with a Compact failing at the sync of the directory after the rename: the disk is recoverable, and no longer once a write has been confirmed |
| `Instances.CorruptCompact` | src/database.cpp:891-901 | two writes, the first of which filled the MemTable, lead a new database without any failing call to a Compact that reports corruption |
| `Instances.CorruptScan` | src/scan.cpp:433-439 | a write and a Flush whose twelfth call fails lead a new database to a Scan that reports corruption |
| `Instances.ShownThenLost` | src/database.cpp:359-410 | a log with one record that was never synced: it recovers to the record, and a crash may leave nothing of it |
| `Reading.LayeredIsLast` | src/database.cpp:663-727 | stopping at the first layer that has the key shows what the last write shows |
| `Reading.NewestInTables` | src/database.cpp:701-721 | the loop over the tables finds the record with the greatest sequence number |
| `ScanTokens.EncodeToken` | src/scan.cpp:59-118 | refuses exactly an empty key or a token that is too long, else encodes |
| `ScanTokens.TokenExact` | src/scan.cpp:120-198 | a token is accepted for a key if and only if it is the token that this range and this state of the database issue for that key, and the key lies in the range |
| `ScanTokens.DamagedToken` | src/scan.cpp:170-174 | a token with one changed byte resumes nothing |
| `ScanTokens.PrefixUpperBound` | src/scan.cpp:200-214 | the keys from the prefix up to the bound are exactly the keys that start with the prefix |
| `Paging.MemorySource` | src/scan.cpp:260-293 | the records of a MemTable that the page covers |
| `Paging.TableSource` | src/scan.cpp:373-403 | the records of a table that the page covers |
| `Paging.MergePage` | src/scan.cpp:405-463 | the first live entries of the sources, one past the limit if there are so many, in key order, or a tie that comes no later |
| `Paging.CoveredResumed` | src/scan.cpp:373-403 | the page after the last delivered key covers exactly the entries not delivered |
| `ScanSteps.LiveIsLast` | src/scan.cpp:417-463 | the reference: the sorted map of a log holds exactly the keys whose last write is not a deletion, with its value |
| `ScanSteps.NewestIsLayered` | src/scan.cpp:417-441 | the greatest sequence number among all sources is where a layered read would stop |
| `ScanSteps.LayersShow` | src/scan.cpp:353-403 | within a page the sources show exactly the live entries of the log of writes |
| `ScanSteps.TiedExactly` | src/scan.cpp:433-439 | two sources share the newest sequence number of a key if and only if a published, unretired frozen MemTable holds it and the MemTable does not |
| `Scans.Scan` | src/scan.cpp:312-481 | refuses bad limits, bounds and tokens; else delivers the page of the live entries with a token exactly if there are more, unless a tie lies no later than the first entry after the page or the token would be too long |
| `Scans.ScanAll` | src/scan.cpp:312-481 | pages under any legal limits, concatenated, end in one of three ways: every live entry of the range once and in order, and then no frozen key is uncovered there; corruption, and then one is; or a token that does not fit |
| `Scans.ScanPrefix` | src/scan.cpp:483-501 | scans exactly the keys with the prefix |
| `ScanSessions.SameNumber` | src/database.cpp:785-807 | over any commands of a session the sequence number never falls, and the log is the same for as long as the number is |
| `ScanSessions.TokenLater` | src/scan.cpp:186-191 | a token used later in its session is accepted if and only if version and sequence number are unchanged, and then the log is unchanged and the scan resumes after the same key |
| `ScanSessions.ScanBetween` | src/scan.cpp:312-481 | a client that performs any commands between its pages, every one of them performed and answered, always has the beginning of the one map with which it started, and all of it when it comes to the end; a page is refused only if version or sequence number have changed, the database is closed, a frozen key is uncovered or a token does not fit |
| `ScanSessions.TokenElsewhere` | src/scan.cpp:186-191 | after a failed sync the next session, which finds the record or gives its number to another, agrees with the first in version and number and differs by that record; what is read is the same if and only if the record changes nothing at its key |

## Left out

- Databases.Database.Write: requires that no failed compaction is pending in background mode, because the code then loses writes; `PendingCompaction` proves exactly when. Only strict writes (a sync before success) are modelled.
- Databases.Database.BackgroundRound: clients that hold the lock write whole records between two calls of the worker; `DatabaseSteps.CallsCommute` says why finer turns reach no other disk. The status Busy stands for waiting; a Flush, Compact or Close that waits for the worker comes after its round; scheduling, liveness and a Close that stops the worker midway are not modelled.
- Opening.Open: after a process exit without a crash complete records in an unsynced tail of a log are shown but may be lost to a later crash, as in the code; `Opening.TailKept` says exactly when they stay.
- ScanSessions.TokenElsewhere: stated for sessions that end with no flush or compaction half done.
- Coding.Crc32c: that the shift register is a remainder of polynomials is not stated; what the engine relies on, that it sees every changed byte, is.
- MemTables.MemTable.Add: the byte counter is unbounded; the 64-bit overflow of that counter is not modelled.
- Paging.TableSource: reads the covered part of a table before the merge starts, where the code advances its iterators during the merge; the order of block reads is not captured.
- TableReader.Get: reading a block of an open table does not fail; Open read and verified the same bytes before.
- Merge.Top: a priority queue is a set from which some greatest element is taken; the heap array is not modelled.
- Disks.Disk: creating a file over an existing name takes a new file instead of truncating the old one in place; unknown directory entries are ignored; the directory, its lock and the paths are assumed.
- Bloom.BloomFilter: the floating-point choice of bit and hash counts is a parameter, any multiple of 8 bits up to 64 MiB and 1 to 30 hashes.
- POSIX wrappers (src/file.cpp, src/database_lock.cpp and the environment in src/flush.cpp) are replaced by the abstract file system.
- The guard on the product of block count and entry size (src/table.cpp:501-503) is not stated: an index within its size limit cannot have so many entries.
- Read, scan and maintenance statistics other than the merge counts, elapsed times and status messages would only add easy members.
- src/write_path.cpp is an older form of the write path that adds nothing harder; benchmarks, tools and packaging are not part of this model.
