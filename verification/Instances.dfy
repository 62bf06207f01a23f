/**
  States in which a promise fails.  A client brings a new database into four of them by its public operations
  alone and with at most one failing call: in one a scan reports corruption, in one a compaction does, and in
  two the write that follows is lost.  The fifth is a log that an Open shows and a crash takes away.
 */
module Instances {
  import opened Coding
  import opened Configuration
  import opened Keys
  import opened Runs
  import opened MemTables
  import opened Wal
  import opened WalLog
  import opened Versions
  import opened Summaries
  import opened Blocks
  import opened SparseIndex
  import opened Tables
  import opened Manifest
  import Merge
  import opened FileSystem
  import opened Durability
  import opened WalFiles
  import opened Ledgers
  import opened Engine
  import opened EngineSteps
  import opened FlushSteps
  import opened Compaction
  import opened CompactionSteps
  import opened CompactionPlan
  import opened Capacity
  import opened Disks
  import opened Statuses
  import opened Databases
  import opened Opening
  import opened ScanTokens
  import opened Paging
  import opened ScanSteps
  import opened Scans
  import opened PendingCompaction
  import opened Publishing
  import opened PublishSteps
  import opened Claims

  const SMALL: Options := Options(16, 16, 1, 4096, false, _ => TooLarge, 1000, 10, true, 4)
  const FIRST: Record := Record([1], 1, Put, [])
  const SECOND: Record := Record([2], 2, Put, [])

  lemma SmallOptions()
    ensures SMALL.Checked() && SMALL.Sized() && SMALL.Valid() && SMALL.background && SMALL.maxKeySize == 16
    ensures SMALL.maximumScanEntries == 10 && SMALL.memtableSizeLimit == 1 && MAX64 > 100
  {
  }

  lemma Fitting(r: Record)
    requires r == FIRST || r == SECOND
    ensures Encodable(r, SMALL) && ValidRecord(r.(sequence := 1), SMALL)
  {
  }

  // ----- Sizes ------------------------------------------------------------------------------------------

  lemma SmallTable(g: nat)
    requires 0 < g <= 10
    ensures TableEncodable(g, [FIRST], SMALL)
  {
    var run := [FIRST];
    OneBlock();
    OneEntry();
    LogBytesOne(FIRST);
    hide BlockBytes, Encoding, LogBytes, EntryBytes, Partition, IndexOf, DataOf;
    assert IndexPayload(IndexOf(run, SMALL)) == EntryBytes(IndexOf(run, SMALL)[0]) + IndexPayload([]);
  }

  lemma OneBlock()
    ensures Partition([FIRST], SMALL) == [[FIRST]] && |BlockBytes([FIRST])| == 53
  {
    LogBytesOne(FIRST);
    hide Encoding, LogBytes, BlockBytes;
    assert [FIRST][..0] == [];
    assert Partition([], SMALL) == [];
  }

  lemma OneEntry()
    ensures |IndexOf([FIRST], SMALL)| == 1 && IndexOf([FIRST], SMALL)[0].firstKey == [1]
    ensures IndexOf([FIRST], SMALL)[1..] == []
    ensures |DataOf([FIRST], SMALL)| == 53
  {
    OneBlock();
    hide BlockBytes, Partition, LogBytes, Encoding;
    var chunks := Chunks([[FIRST]]);
    assert chunks == [BlockBytes([FIRST])] && chunks[1..] == [];
    assert SparseIndex.Joined(chunks) == BlockBytes([FIRST]) + SparseIndex.Joined([]);
  }

  lemma OneTable(v: Version, t: VersionTable)
    requires v.tables == [t] && ValidVersion(v, 16) && |t.summary.minimumKey| <= 16 && |t.summary.maximumKey| <= 16
    ensures ManifestEncodable(v, 16)
  {
    hide ValidVersion, TableRecord;
    assert Manifest.Payload([t]) == TableRecord(t) + Manifest.Payload([]);
  }

  lemma OneFrozen()
    ensures FrozenTable(1, [FIRST]) == Immutable(1, [FIRST], 1, None, false, false)
  {
  }

  lemma SmallSummary(g: nat, level: nat, size: nat)
    requires size != 0 && g != 0 && level <= 1
    ensures ValidTable(VersionTable(level, SummaryOf(g, [FIRST], size)), g + 1, 16)
    ensures SummaryOf(g, [FIRST], size) == TableSummary(g, size, 1, 1, 1, [1], [1])
  {
  }

  lemma SmallVersion(id: nat, g: nat, level: nat, size: nat)
    requires size != 0 && g != 0 && level <= 1 && 0 < id
    ensures ManifestEncodable(Version(id, g + 1, 1, [VersionTable(level, SummaryOf(g, [FIRST], size))]), 16)
  {
    SmallSummary(g, level, size);
    hide SummaryOf, ManifestEncodable, ValidTable, ValidVersion;
    var t := VersionTable(level, SummaryOf(g, [FIRST], size));
    var v := Version(id, g + 1, 1, [t]);
    assert LevelOneApart(v.tables) && DistinctGenerations(v.tables);
    ValidVersionIsSound(v, 16);
    OneTable(v, t);
  }

  lemma OneSorted()
    ensures Sorted([FIRST]) && AllEncodable([FIRST], SMALL)
  {
  }

  lemma PartsFlushFits(v: Version, i: Immutable, o: Options)
    requires TableEncodable(i.generation, i.records, o) && i.records != [] && v.id != MAX64
    requires ManifestEncodable(FlushedVersion(v, i, o), o.maxKeySize)
    ensures FlushFits(v, i, o)
  {
    hide TableEncodable, ManifestEncodable, FlushedVersion;
  }

  lemma NewDatabaseIs()
    ensures NEW_DATABASE == Version(1, 1, 0, []) && NEW_DATABASE.id != MAX64
  {
  }

  /** A MemTable with one record can be flushed from a new database. */
  lemma SmallFlush()
    ensures FlushFits(NEW_DATABASE, FrozenTable(1, [FIRST]), SMALL)
  {
    hide *;
    SmallOptions();
    SmallTable(1);
    OneSorted();
    OneFrozen();
    NewDatabaseIs();
    OpenTableBytes(1, [FIRST], SMALL);
    FlushedIs(NEW_DATABASE, FrozenTable(1, [FIRST]), SMALL);
    SmallVersion(2, 1, 0, |TableBytes(1, [FIRST], SMALL)|);
    assert [] + [VersionTable(0, SummaryOf(1, [FIRST], |TableBytes(1, [FIRST], SMALL)|))] ==
           [VersionTable(0, SummaryOf(1, [FIRST], |TableBytes(1, [FIRST], SMALL)|))];
    PartsFlushFits(NEW_DATABASE, FrozenTable(1, [FIRST]), SMALL);
  }

  // ----- Steps ------------------------------------------------------------------------------------------

  /** One call fails and no other. */
  function Once(k: nat): nat -> bool {
    n => n == k
  }

  lemma OnceQuiet(disk: Disk, k: nat, from: nat, count: nat)
    requires disk.faults == Once(k)
    ensures k < from || from + count <= k ==> disk.Quiet(from, count)
    ensures disk.faults(k)
  {
  }

  /** A new database; opening it takes eight calls. */
  method NewDatabase(faults: nat -> bool) returns (db: Database)
    requires forall n: nat :: n < 8 ==> !faults(n)
    ensures fresh(db) && fresh(db.disk) && fresh(db.disk.ledger) && fresh(db.mutable)
    ensures db.Valid() && db.closed.None? && db.options == SMALL && db.disk.faults == faults && db.disk.calls == 8 && !db.poisoned
    ensures db.version == NEW_DATABASE && db.readers == [] && db.immutable.None? && db.compaction.None? && db.wal.Some?
    ensures db.mutable.entries == [] && db.lastSequence == 0 && db.backgroundOk && db.Log() == [] && db.disk.history == []
  {
    hide *;
    SmallOptions();
    var disk := new Disk(SMALL, faults, _ => 0);
    QuietIs(disk, 0, 8);
    var status, opened_ := Open(disk);
    db := opened_;
    NothingExplained(db.Log());
    BegunIs([], NEW_BOOK, disk.history, disk.ledger.book, db.Log(), LogsSynced(EMPTY, 0));
  }

  lemma QuietIs(disk: Disk, from: nat, count: nat)
    ensures disk.Quiet(from, count) <==> forall n: nat :: from <= n < from + count ==> !disk.faults(n)
  {
  }

  lemma NothingExplained(log: seq<Record>)
    ensures Explains(log, []) ==> log == []
    ensures Known([]) == []
  {
  }

  /** The first write: with two calls it is confirmed, it fills the MemTable, and two more open the next log. */
  method OneWritten(faults: nat -> bool) returns (db: Database)
    requires forall n: nat :: n < 12 ==> !faults(n)
    ensures fresh(db) && fresh(db.disk) && fresh(db.disk.ledger) && fresh(db.mutable)
    ensures db.Valid() && db.closed.None? && db.options == SMALL && db.disk.faults == faults && db.disk.calls == 12 && !db.poisoned
    ensures db.version == NEW_DATABASE && db.readers == [] && db.compaction.None? && db.wal.Some? && db.backgroundOk
    ensures db.immutable == Some(FrozenTable(1, [FIRST])) && db.mutable.entries == [] && db.lastSequence == 1
    ensures db.Log() == [FIRST] && db.disk.history == [Event(FIRST, true)]
  {
    hide *;
    SmallOptions();
    Fitting(FIRST);
    FirstIs();
    db := NewDatabase(faults);
    db.ValidParts();
    db.Fields();
    NewGeneration(db.disk.fs, db.disk.history, db.Mem(), db.logs, db.options);
    db.MayWriteParts(Request(Put, [1], []));
    QuietIs(db.disk, 8, 2);
    QuietIs(db.disk, 8, 4);
    ghost var before := db.Look();
    db.Looks();
    var status := db.Write(Request(Put, [1], []));
    WroteIs([], [], db.Log(), FIRST, db.poisoned);
    db.TookIs(before, FIRST);
    db.FrozeIs(before.(entries := [FIRST]), true, 4);
  }

  lemma WroteIs(h: History, log: seq<Record>, log': seq<Record>, r: Record, poisoned: bool)
    ensures Wrote(h, h + [Event(r, true)], log, log', r, poisoned) ==> log' == log + [r]
  {
    assert h + [Event(r, true)] != h && (h + [Event(r, true)])[|h|] != (h + [Event(r, false)])[|h|];
  }

  lemma FirstIs()
    ensures FIRST == Record([1], 1, Put, []) && Insert([], FIRST) == [FIRST] && [] + [FIRST] == [FIRST]
    ensures FIRST.(sequence := 1) == FIRST && [] + [Event(FIRST, true)] == [Event(FIRST, true)]
    ensures RunBytes([FIRST]) >= 1
  {
  }

  lemma NewGeneration(fs: FileSystem, h: History, m: Memory, l: Logs, o: Options)
    requires Inv(fs, h, m, l, o) && m.immutable.None?
    ensures m.generation == m.version.nextFileNumber && NEW_DATABASE.nextFileNumber == 1
  {
    hide *;
    InvParts(fs, h, m, l, o);
    MemoryParts(m, l, o);
    NewDatabaseIs();
    NoneGeneration(m);
  }

  // ----- A scan that reports corruption --------------------------------------------------------------------

  /**
    A flush whose twelfth call fails, the removal of the log: it has published its table and not retired the
    Immutable.  The same records are in two places, and a scan takes that for corruption.
   */
  method CorruptScan() returns (db: Database, flushed: Status, result: ScanResult)
    ensures db.Valid() && db.closed.None? && db.immutable.Some? && db.immutable.value.published && db.Log() == [FIRST]
    ensures flushed == IOError && result == ScanError(Corruption)
  {
    hide *;
    SmallOptions();
    SmallFlush();
    NewDatabaseIs();
    OneFrozen();
    OnceIs(23);
    db := OneWritten(Once(23));
    OnceQuiet(db.disk, 23, 12, 11);
    db.FitsParts();
    db.IntactIs();
    ghost var i, w := db.immutable, db.wal;
    flushed := db.Flush();
    db.FlushedIs(12, i, NEW_DATABASE, [], true, w, flushed);
    db.HalfFlushedIs(i);
    result := Scan(db, Bounds([], None), 10, []);
    db.Fields();
    AllIn();
    ScanBlocked(db.Mem(), result);
  }

  lemma OnceIs(k: nat)
    ensures forall n: nat :: n < k ==> !Once(k)(n)
  {
  }

  lemma AllIn()
    ensures BoundsOk(Bounds([], None), 10, SMALL) && forall v, n :: ResumeKey([], Bounds([], None), SMALL, v, n) == Some([])
  {
  }

  lemma ScanBlocked(m: Memory, result: ScanResult)
    requires m.immutable.Some? && m.immutable.value.published && m.immutable.value.records == [FIRST] && m.mutable == []
    requires Delivers(m, [FIRST], Bounds([], None), [], 10, result)
    ensures result == ScanError(Corruption)
  {
    var all := Scans.Wanted([FIRST], Bounds([], None), []);
    assert LiveRun([FIRST]) == [FIRST] by {
      assert [FIRST][..0] == [] && [FIRST][1..] == [];
      assert Fold([FIRST]) == Insert(Fold([]), FIRST) && Insert([], FIRST) == [FIRST];
      assert Merge.Kept([FIRST], true) == [FIRST];
    }
    assert |all| <= 1 by {
      hide LiveRun;
      assert [FIRST][1..] == [];
      assert |Covered([FIRST], Bounds([], None), [])| <= 1;
    }
    assert Uncovered(m, Bounds([], None), [], [1]);
  }

  // ----- A compaction that reports corruption ------------------------------------------------------------

  /**
    A write filled the MemTable, the worker has not yet run, and another write has followed: Compact flushes
    the frozen records, finds the MemTable still in use and takes that for corruption.  Nothing has failed.
   */
  method CorruptCompact() returns (db: Database, status: Status)
    ensures db.Valid() && db.closed.None? && !db.poisoned && db.Log() == [FIRST, SECOND] && db.disk.failures == 0
    ensures status == Corruption
  {
    hide *;
    SmallOptions();
    SmallFlush();
    NewDatabaseIs();
    OneFrozen();
    Fitting(SECOND);
    SecondNext();
    db := OneWritten(n => false);
    db.ValidParts();
    db.mutable.SizeIs();
    db.MayWriteParts(Request(Put, [2], []));
    QuietIs(db.disk, 12, 2);
    ghost var before := db.Look();
    db.Looks();
    var second := db.Write(Request(Put, [2], []));
    WroteIs([Event(FIRST, true)], [FIRST], db.Log(), SECOND, db.poisoned);
    db.TookIs(before, SECOND);
    db.Looks();
    db.ValidParts();
    NeverFails(db.disk);
    db.FitsParts();
    db.OverfullIs();
    status := db.Compact();
    db.ValidParts();
    NeverFails(db.disk);
  }

  lemma NeverFails(disk: Disk)
    requires disk.Safe() && forall n: nat :: !disk.faults(n)
    ensures disk.failures == 0
  {
    hide MomentOk, Earlier;
    FaultsGrow(disk.faults, 0, disk.calls);
  }

  lemma SecondNext()
    ensures SECOND == Record([2], 2, Put, []) && [FIRST] + [SECOND] == [FIRST, SECOND]
    ensures SECOND.(sequence := 1) == Record([2], 1, Put, []) && RunBytes([]) == 0 && Insert([], SECOND) == [SECOND]
    ensures [Event(FIRST, true)] + [Event(SECOND, true)] == [Event(FIRST, true), Event(SECOND, true)]
  {
  }

  // ----- A write that is lost --------------------------------------------------------------------------

  lemma OneFlushed()
    ensures RunsOf([], SMALL) + [[FIRST]] == [[FIRST]]
    ensures var v := FlushedVersion(NEW_DATABASE, FrozenTable(1, [FIRST]), SMALL);
            |v.tables| == 1 && v.tables[0].level == 0 && v.nextFileNumber == 2 && v.id != MAX64
  {
    hide TableBytes, SummaryOf;
  }

  lemma OnePicked(v: Version)
    requires |v.tables| == 1 && v.tables[0].level == 0
    ensures LevelZeroRange(v.tables).Some?
    ensures Picks(v.tables, LevelZeroRange(v.tables).value) == [true]
    ensures Select([[FIRST]], [true], true) == [[FIRST]] && Select([[FIRST]], [true], false) == []
    ensures Select(v.tables, [true], true) == [v.tables[0]] && Select(v.tables, [true], false) == []
  {
    assert v.tables[0] in v.tables;
    assert [[FIRST]][..0] == [] && [true][..0] == [] && v.tables[..0] == [];
  }

  lemma PlanOne(v: Version, readers: seq<Reader>)
    requires |v.tables| == 1 && v.tables[0].level == 0 && v.tables[0].summary.fileSize <= MAX64 && v.nextFileNumber == 2
    requires RunsOf(readers, SMALL) == [[FIRST]]
    ensures PlanFits(v, readers, SMALL)
  {
    OnePicked(v);
    hide Picks, Select, LevelZeroRange, RunsOf;
    assert Merge.Lengths([[FIRST]]) == [1] && [1][..0] == [];
    assert Merge.Sum([1]) == Merge.Sum([]) + 1;
    assert [v.tables[0]][..0] == [] && BytesOf([]) == 0;
    assert BytesOf([v.tables[0]]) == v.tables[0].summary.fileSize;
  }

  lemma NewestOfOne(k: Key)
    ensures Newest([[FIRST]], k) == if k == [1] then Some(FIRST) else None
  {
    assert [[FIRST]][1..] == [] && [FIRST][1..] == [];
  }

  /** Merging the one table gives its one record back. */
  lemma MergedOne(outputs: seq<Run>)
    requires MergedOutputs([[FIRST]], outputs) && forall i :: 0 <= i < |outputs| ==> outputs[i] != []
    ensures outputs == [[FIRST]]
  {
    var all := Flatten(outputs);
    forall k ensures Lookup(all, k) == if k == [1] then Some(FIRST) else None {
      NewestOfOne(k);
    }
    hide Newest, Flatten;
    assert all == [FIRST] by {
      assert |all| > 1 ==> Less(all[0].key, all[1].key);
      assert Lookup(all, [1]) == Some(FIRST);
      forall i | 0 <= i < |all| ensures all[i].key == [1] {
        assert all[i] in all && Lookup(all, all[i].key).Some?;
      }
      NotBelowItself([1]);
    }
    FlattenCounts(outputs);
    if |outputs| == 1 {
      assert outputs == [outputs[0]];
      FlattenOne(outputs[0]);
    } else {
      FlattenNone();
    }
  }

  lemma OutputOne(m: Memory, l: Logs, c: CompactionState)
    requires PlanOk(m, l, c, SMALL) && RunsOf(m.readers, SMALL) == [[FIRST]] && |m.version.tables| == 1 && m.version.tables[0].level == 0
    ensures c.outputs == [[FIRST]] && c.firstOutput == m.version.nextFileNumber && c.picks == [true]
  {
    hide *;
    PlanParts(m, l, c, SMALL);
    PlanNonempty(m, l, c, SMALL);
    OnePicked(m.version);
    MergedOne(c.outputs);
  }

  /** The output and the MANIFEST of the compaction can be written. */
  lemma OneFits(v: Version, c: CompactionState)
    requires c.outputs == [[FIRST]] && c.firstOutput == 2 && c.picks == [true]
    requires v.id == 2 && v.nextFileNumber == 2 && v.lastSequence == 1 && |v.tables| == 1 && v.tables[0].level == 0
    ensures CompactionFits(v, c, SMALL)
  {
    SmallOptions();
    SmallTable(2);
    OneSorted();
    OpenTableBytes(2, [FIRST], SMALL);
    var size := |TableBytes(2, [FIRST], SMALL)|;
    SmallVersion(3, 2, 1, size);
    OnePicked(v);
    hide *;
    OneCompacted(v, c, size);
  }

  lemma OneCompacted(v: Version, c: CompactionState, size: nat)
    requires c.outputs == [[FIRST]] && c.firstOutput == 2 && c.picks == [true] && size == |TableBytes(2, [FIRST], SMALL)| <= MAX64
    requires v.id == 2 && v.nextFileNumber == 2 && v.lastSequence == 1 && |v.tables| == 1 && Select(v.tables, [true], false) == []
    requires TableEncodable(2, [FIRST], SMALL) && SMALL.maxKeySize == 16
    requires ManifestEncodable(Version(3, 3, 1, [VersionTable(1, SummaryOf(2, [FIRST], size))]), 16)
    ensures CompactionFits(v, c, SMALL)
  {
    hide *;
    SmallOptions();
    OneSize(size);
    OneAdded(v, size);
    PartsCompactionFits(v, c);
  }

  lemma OneSize(size: nat)
    requires size == |TableBytes(2, [FIRST], SMALL)|
    ensures OutputSizes(2, [[FIRST]], SMALL) == [size] && Merge.Sum([size]) == size
  {
    hide TableBytes;
    assert [size][..0] == [];
  }

  lemma OneAdded(v: Version, size: nat)
    requires |v.tables| == 1 && Select(v.tables, [true], false) == []
    ensures NewTables(v, [true], Added(2, [[FIRST]], [size])) == [VersionTable(1, SummaryOf(2, [FIRST], size))]
  {
    hide SummaryOf, Select;
    assert Added(2, [[FIRST]], [size]) == [VersionTable(1, SummaryOf(2, [FIRST], size))];
  }

  lemma PartsCompactionFits(v: Version, c: CompactionState)
    requires c.outputs == [[FIRST]] && c.firstOutput == 2 && |c.picks| == |v.tables| && v.id != MAX64 && TableEncodable(2, [FIRST], SMALL)
    requires var sizes := OutputSizes(2, [[FIRST]], SMALL);
             && Merge.Sum(sizes) <= MAX64
             && ManifestEncodable(Version(v.id + 1, v.nextFileNumber + 1, v.lastSequence, NewTables(v, c.picks, Added(2, [[FIRST]], sizes))), SMALL.maxKeySize)
    ensures CompactionFits(v, c, SMALL)
  {
    hide TableBytes, TableEncodable, ManifestEncodable, SummaryOf, Select, OutputSizes, NewTables, Added, Merge.Sum;
  }

  lemma FlushedSize()
    ensures FlushedVersion(NEW_DATABASE, FrozenTable(1, [FIRST]), SMALL).tables[0].summary.fileSize <= MAX64
  {
    SmallOptions();
    SmallTable(1);
    OneSorted();
    OneFrozen();
    OpenTableBytes(1, [FIRST], SMALL);
    hide *;
    FlushedIs(NEW_DATABASE, FrozenTable(1, [FIRST]), SMALL);
    OneFlushed();
    NewDatabaseIs();
    SummarySize();
  }

  lemma SummarySize()
    ensures SummaryOf(1, [FIRST], |TableBytes(1, [FIRST], SMALL)|).fileSize == |TableBytes(1, [FIRST], SMALL)|
  {
    hide TableBytes;
  }

  /** The first write has been flushed. */
  method OneFlush(faults: nat -> bool) returns (db: Database)
    requires forall n: nat :: n < 25 ==> !faults(n)
    ensures fresh(db) && fresh(db.disk) && fresh(db.disk.ledger) && fresh(db.mutable)
    ensures db.Valid() && db.closed.None? && db.options == SMALL && db.disk.faults == faults && db.disk.calls == 25 && !db.poisoned
    ensures db.version == FlushedVersion(NEW_DATABASE, FrozenTable(1, [FIRST]), SMALL) && RunsOf(db.readers, SMALL) == [[FIRST]]
    ensures db.immutable.None? && db.compaction.None? && db.wal.Some? && db.mutable.entries == [] && db.lastSequence == 1
    ensures db.Log() == [FIRST] && db.disk.history == [Event(FIRST, true)]
  {
    hide *;
    SmallFlush();
    OneFrozen();
    OneFlushed();
    db := OneWritten(faults);
    QuietIs(db.disk, 12, 13);
    db.FitsParts();
    db.IntactIs();
    ghost var i, w := db.immutable, db.wal;
    var status := db.Flush();
    db.FlushedIs(12, i, NEW_DATABASE, [], true, w, status);
  }

  /**
    The compaction of the one table has failed at publishing its MANIFEST: at the first call, or at the last
    one, the sync of the directory, after the rename.
   */
  method Pending(renamed: bool) returns (db: Database, status: Status)
    ensures fresh(db) && fresh(db.disk) && fresh(db.disk.ledger) && fresh(db.mutable) && status == IOError
    ensures db.Valid() && db.closed.None? && db.options == SMALL && !db.poisoned && db.wal.Some? && db.lastSequence == 1
    ensures db.Log() == [FIRST] && db.disk.history == [Event(FIRST, true)] && RunsOf(db.readers, SMALL) == [[FIRST]]
    ensures |db.version.tables| == 1 && db.version.tables[0].level == 0
    ensures db.Mem().Compacting() && db.compaction.value.candidate.Some? && db.compaction.value.outputs == [[FIRST]]
    ensures Exposed(db.disk.fs, db.Mem(), SMALL) <==> renamed
  {
    hide *;
    var k := if renamed then 35 else 31;
    OnceIs(k);
    NewDatabaseIs();
    OneFrozen();
    OneFlushed();
    FlushedSize();
    FlushedFields();
    db := OneFlush(Once(k));
    OnceQuiet(db.disk, k, 25, 6);
    OnceQuiet(db.disk, k, 25, 10);
    OnePicked(db.version);
    PlanOne(db.version, db.readers);
    db.IdleIs();
    db.Fields();
    ghost var m, l := db.Mem(), db.logs;
    status := db.Compact();
    ghost var plan :| PlanOk(m, l, plan, SMALL) && Untouched(plan) && db.Stalls(plan, 25, m.version, m.readers, m.wal, status);
    OutputOne(m, l, plan);
    UntouchedIs(plan);
    OutputCallsIs(plan);
    OneFits(m.version, plan);
    db.StallsIs(plan, 25, m.version, m.readers, m.wal, status);
    db.StalledIs(plan, m.version, m.readers, m.wal, renamed);
    db.Fields();
    PartsCompacting(db.Mem());
    ExposedRenaming(db.disk.fs, db.Mem());
  }

  lemma FlushedFields()
    ensures var v := FlushedVersion(NEW_DATABASE, FrozenTable(1, [FIRST]), SMALL); v.id == 2 && v.lastSequence == 1
  {
    hide TableBytes, SummaryOf;
  }

  lemma ExposedRenaming(fs: FileSystem, m: Memory)
    requires m.compaction.Some? && m.compaction.value.candidate.Some?
    ensures Exposed(fs, m, SMALL) <==> Renaming(fs, m.compaction.value.candidate.value, SMALL)
  {
    hide Renaming;
  }

  /** The second write, confirmed beside the pending compaction: it survives a crash unless the rename does. */
  lemma SecondBeside(fs: FileSystem, h: History, m: Memory, l: Logs) returns (after: FileSystem, m': Memory, l': Logs)
    requires Inv(fs, h, m, l, SMALL) && m.Compacting() && m.wal.Some? && !m.poisoned && m.compaction.value.outputs == [[FIRST]]
    requires m.lastSequence == 1 && h == Known([FIRST]) && LogOf(m, l) == [FIRST]
    ensures m.wal.value < |fs.files| && after == fs.SetFile(m.wal.value, fs.files[m.wal.value].Append(Encoding(SECOND)).Sync())
    ensures Almost(after, Known([FIRST, SECOND]), m', l', SMALL) && Explains([FIRST], h)
    ensures m' == m.(lastSequence := 2, mutable := m'.mutable) && l'.tables == [FIRST] && l'.active == [SECOND] && m'.mutable == [SECOND]
    ensures Recoverable(after, Known([FIRST, SECOND]), SMALL) <==> !Exposed(fs, m, SMALL)
  {
    hide *;
    CompactingParts(m);
    InvParts(fs, h, m, l, SMALL);
    MemoryParts(m, l, SMALL);
    CompactionParts(m, l, SMALL);
    AlmostInv(fs, h, m, l, SMALL);
    SecondIs();
    BothKnown();
    WriteBeside(fs, h, m, l, SECOND, SMALL);
    WriteSurvives(fs, h, m, l, SECOND, SMALL);
    after := fs.SetFile(m.wal.value, fs.files[m.wal.value].Append(Encoding(SECOND)).Sync());
    m' := m.(lastSequence := 2, mutable := Insert(m.mutable, SECOND));
    l' := l.(active := l.active + [SECOND]);
    PendingCompaction.PendingLog(m, l);
    SecondSeen();
    AlmostParts(after, h + [Event(SECOND, true)], m', l', SMALL);
    AlmostOkParts(m', l', SMALL);
    OneActive(m', l');
  }

  lemma SecondIs()
    ensures Encodable(SECOND, SMALL) && SECOND.sequence == 2 && [] + [SECOND] == [SECOND]
  {
  }

  /** The MANIFEST of the candidate is an encoding of it. */
  lemma CandidateManifest(m: Memory, l: Logs)
    requires AlmostOk(m, l, SMALL) && m.Compacting() && m.compaction.value.candidate.Some?
    requires m.compaction.value.outputs == [[FIRST]] && RunsOf(m.readers, SMALL) == [[FIRST]]
    requires |m.version.tables| == 1 && m.version.tables[0].level == 0
    ensures Encodes(StableFile(ManifestBytes(m.compaction.value.candidate.value)), m.compaction.value.candidate.value, SMALL)
  {
    hide *;
    CompactingParts(m);
    PendingCompaction.PendingClaim(m, l, SMALL);
    AlmostOkParts(m, l, SMALL);
    CompactionParts(m, l.(active := []), SMALL);
    var c, v := m.compaction.value, m.compaction.value.candidate.value;
    PlanParts(m, l.(active := []), c, SMALL);
    OnePicked(m.version);
    CompactedStoredOk(m, l, c, v, SMALL);
    CompactedStoredIs(m, l, c, v, SMALL);
    CompactedRunsAre(m, c, SMALL);
    assert [] + [[FIRST]] == [[FIRST]];
    SmallManifest(CompactedStored(m, l, c, v, SMALL));
  }

  lemma SmallManifest(s: Stored)
    requires StoredOk(s, SMALL) && s.runs == [[FIRST]]
    ensures Encodes(StableFile(ManifestBytes(s.version)), s.version, SMALL)
  {
    hide *;
    SmallOptions();
    SmallStored(s);
    OneTable(s.version, s.version.tables[0]);
    DecodeManifestBytes(s.version, 16);
    PartsEncodes(s.version);
  }

  lemma SmallStored(s: Stored)
    requires StoredOk(s, SMALL) && s.runs == [[FIRST]]
    ensures ValidVersion(s.version, 16) && InWidth(s.version) && |s.version.tables| == 1
    ensures s.version.tables == [s.version.tables[0]]
    ensures |s.version.tables[0].summary.minimumKey| <= 16 && |s.version.tables[0].summary.maximumKey| <= 16
  {
    hide ValidVersion, InWidth, Means, Distinct, MinimumSequence, MaximumSequence;
    assert Describes(s.version.tables[0].summary, s.runs[0]);
  }

  lemma PartsEncodes(v: Version)
    requires DecodeManifest(ManifestBytes(v), 16) == Accepted(v)
    ensures Encodes(StableFile(ManifestBytes(v)), v, SMALL)
  {
    hide DecodeManifest, ManifestBytes;
  }

  lemma SecondSeen()
    ensures !Unseen([FIRST], [SECOND])
  {
    var log := [FIRST] + [SECOND];
    assert log == [FIRST, SECOND] && log[..1] == [FIRST];
    assert Last(log, [2]) == Some(SECOND);
    assert [FIRST][..0] == [] && Last([FIRST], [2]) == None;
    assert Visible(Last([FIRST] + [SECOND], [2])) != Visible(Last([FIRST], [2]));
  }

  /**
    A confirmed write is lost later.  Compact has failed at the first call of publishing its MANIFEST; the write
    taken beside it survives every crash until that compaction is published, and none after that.
   */
  method LostWrite() returns (db: Database, compacted: Status, ghost written: FileSystem, ghost m: Memory, ghost l: Logs)
    ensures db.Valid() && db.closed.None? && compacted == IOError && db.wal.Some? && db.wal.value < |db.disk.fs.files|
    ensures written == db.disk.fs.SetFile(db.wal.value, db.disk.fs.files[db.wal.value].Append(Encoding(SECOND)).Sync())
    ensures Almost(written, Known([FIRST, SECOND]), m, l, SMALL) && m == db.Mem().(lastSequence := 2, mutable := [SECOND])
    ensures m.Compacting() && m.compaction.value.candidate.Some?
    ensures Recoverable(written, Known([FIRST, SECOND]), SMALL)
    ensures !Recoverable(Renamed(written, ManifestBytes(m.compaction.value.candidate.value)), Known([FIRST, SECOND]), SMALL)
  {
    hide *;
    db, compacted := Pending(false);
    db.ValidParts();
    db.Fields();
    CompactingParts(db.Mem());
    FirstKnown();
    written, m, l := SecondBeside(db.disk.fs, db.disk.history, db.Mem(), db.logs);
    PartsCompacting(m);
    AlmostParts(written, Known([FIRST, SECOND]), m, l, SMALL);
    CandidateManifest(m, l);
    SecondSeen();
    BothKnown();
    PublishOverWrites(written, m, l, ManifestBytes(m.compaction.value.candidate.value), db.disk.history, SMALL);
  }

  /**
    A confirmed write is lost at once.  Compact has failed at the last call of publishing its MANIFEST, so
    that the rename is not yet certain; the disk is recoverable then, and no longer after the write.
   */
  method LostAtOnce() returns (db: Database, compacted: Status, ghost written: FileSystem)
    ensures db.Valid() && db.closed.None? && compacted == IOError && db.wal.Some? && db.wal.value < |db.disk.fs.files|
    ensures written == db.disk.fs.SetFile(db.wal.value, db.disk.fs.files[db.wal.value].Append(Encoding(SECOND)).Sync())
    ensures Recoverable(db.disk.fs, Known([FIRST]), SMALL) && !Recoverable(written, Known([FIRST, SECOND]), SMALL)
  {
    hide *;
    db, compacted := Pending(true);
    db.ValidParts();
    db.Fields();
    CompactingParts(db.Mem());
    FirstKnown();
    InvRecoverable(db.disk.fs, db.disk.history, db.Mem(), db.logs, SMALL);
    ghost var m, l;
    written, m, l := SecondBeside(db.disk.fs, db.disk.history, db.Mem(), db.logs);
  }

  lemma FirstKnown()
    ensures Known([FIRST]) == [Event(FIRST, true)]
  {
  }

  lemma BothKnown()
    ensures Known([FIRST]) + [Event(SECOND, true)] == Known([FIRST, SECOND]) && Known([FIRST]) + Known([SECOND]) == Known([FIRST, SECOND])
  {
  }

  lemma OneActive(m: Memory, l: Logs)
    requires ActiveLogOk(m, l, SMALL) && l.active == [SECOND]
    ensures m.mutable == [SECOND]
  {
    hide AllEncodable, Rising, Floor;
    assert [SECOND][..0] == [];
    assert Fold([SECOND]) == Insert(Fold([]), SECOND);
  }

  // ----- A record that is shown and lost ------------------------------------------------------------------

  /** A log whose one record was appended and never synced: Open finds the record, and a crash may leave nothing of it. */
  lemma ShownThenLost()
    ensures var f := File([], LogBytes([FIRST]), 0);
            && f.Valid() && Holds(f, [FIRST], SMALL) && Recover(f.current, SMALL, 0) == Recovered([FIRST], |f.current|)
            && f.MayBecome([]) && Recover([], SMALL, 0) == Recovered([], 0) && !Kept(f, [FIRST], SMALL)
  {
    hide *;
    var f := File([], LogBytes([FIRST]), 0);
    FirstHeld(f);
    HoldsRecovers(f, [FIRST], SMALL);
    NothingRecovered();
    NotKept(f);
  }

  lemma FirstHeld(f: File)
    requires f == File([], LogBytes([FIRST]), 0)
    ensures f.Valid() && f.MayBecome([]) && Holds(f, [FIRST], SMALL)
  {
    hide LogBytes;
    OneSorted();
  }

  lemma NothingRecovered()
    ensures Recover([], SMALL, 0) == Recovered([], 0)
  {
  }

  lemma NotKept(f: File)
    requires f.MayBecome([]) && Recover([], SMALL, 0) == Recovered([], 0)
    ensures !Kept(f, [FIRST], SMALL)
  {
    hide Recover;
  }
}
