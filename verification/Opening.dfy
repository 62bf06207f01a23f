/** Opening a database (src/database.cpp:158-450). */
module Opening {
  import opened Coding
  import opened Configuration
  import opened Keys
  import opened Runs
  import opened MemTables
  import opened WalLog
  import opened Versions
  import opened Manifest
  import opened Tables
  import opened TableReader
  import opened FileSystem
  import opened Durability
  import opened Ledgers
  import opened WalFiles
  import opened Claims
  import opened PublishSteps
  import opened Engine
  import opened EngineSteps
  import opened FlushSteps
  import opened Disks
  import opened Publishing
  import opened Statuses
  import opened Recovery
  import opened OpenSteps
  import opened Databases

  // ----- The version -----------------------------------------------------------------------------

  /** Loads the MANIFEST, or publishes that of a new database. */
  method LoadVersion(disk: Disk, names: set<FileName>) returns (status: Status, version: Version, ghost s: Stored)
    requires disk.Safe() && disk.options.Valid() && names == disk.fs.Current().Keys
    modifies disk
    ensures old(disk.trace) <= disk.trace
    ensures disk.Safe() && disk.history == old(disk.history) && disk.calls >= old(disk.calls) && disk.failures >= old(disk.failures)
    ensures disk.failures == old(disk.failures) ==> status == Success
    ensures FileName.Manifest !in names ==> version == NEW_DATABASE
    ensures names == {} ==> (disk.Quiet(old(disk.calls), 5) ==> status == Success) && (status == Success ==> disk.calls == old(disk.calls) + 5)
    ensures status == Success ==>
              && Sees(disk.fs, s, disk.history, disk.options) && s.version == version
              && (disk.fs == old(disk.fs) || (version.tables == [] && (forall n :: n in names ==> Temporary(n)) &&
                                              (forall n: nat :: WalName(n) !in disk.fs.Current())))
  {
    hide *;
    disk.SafeNow();
    version := NEW_DATABASE;
    s := FIRST;
    ghost var start, h, o, before := disk.calls, disk.history, disk.options, disk.fs;
    if FileName.Manifest in names {
      s := FindsDatabase(before, h, o);
      SeenManifest(before, s, h, o);
      var ok, content := disk.Read(disk.fs.Current()[FileName.Manifest]);
      if !ok {
        return IOError, version, s;
      }
      var decoded := ReadManifest(content, disk.options.maxKeySize);
      match decoded {
        case Accepted(v) => return Success, v, s;
        case Unsupported => return VersionMismatch, version, s;
        case Corrupted => return Corruption, version, s;
      }
    }
    FindsNothing(before, h, o);
    TemporaryKinds();
    if exists n :: n in names && (n.Table? || n.WalName?) {
      return VersionMismatch, version, s;
    }
    FirstFields();
    AnyKeeps(before, h, o);
    AnyAllows(FIRST);
    QuietPart(disk, start, 5, start, 4);
    QuietCall(disk, start, 5, start + 4);
    var ok := PublishManifest(disk, NEW_DATABASE, FIRST, Anything);
    if !ok {
      return IOError, version, s;
    }
    AnyKeeps(disk.fs, h, o);
    PartsSees(disk.fs, FIRST, h, o);
    NoWals(before, disk.fs);
    status := Success;
  }

  lemma TemporaryKinds()
    ensures forall n :: Temporary(n) ==> !n.Table? && !n.WalName?
  {
  }

  lemma FirstFields()
    ensures FIRST.version == NEW_DATABASE && NEW_DATABASE.tables == []
  {
  }

  lemma AnyAllows(s: Stored)
    ensures Allows(Anything, s)
  {
  }

  lemma NoWals(before: FileSystem, after: FileSystem)
    requires WalFrame(before, after) && forall n :: n in before.Current() ==> Temporary(n)
    ensures forall n: nat :: WalName(n) !in after.Current()
  {
    hide PerformAll;
    forall n: nat ensures WalName(n) !in after.Current() {
      assert !Temporary(WalName(n));
    }
  }

  // ----- The tables --------------------------------------------------------------------------------

  /** The readers of the first tables. */
  ghost predicate Loaded(readers: seq<Reader>, s: Stored, o: Options) {
    && |readers| <= |s.version.tables| == |s.runs|
    && forall i :: 0 <= i < |readers| ==>
         readers[i].summary == s.version.tables[i].summary && Contents(readers[i], o) == s.runs[i] && Opened(readers[i], o)
  }

  /** Opens every table of the version and compares its summary with the MANIFEST's. */
  method LoadTables(disk: Disk, names: set<FileName>, version: Version, ghost s: Stored) returns (status: Status, readers: seq<Reader>)
    requires disk.Safe() && Sees(disk.fs, s, disk.history, disk.options) && s.version == version
    requires disk.fs.Current().Keys == names || version.tables == []
    modifies disk
    ensures old(disk.trace) <= disk.trace
    ensures disk.Safe() && disk.history == old(disk.history) && disk.fs == old(disk.fs) && disk.calls >= old(disk.calls) && disk.failures >= old(disk.failures)
    ensures disk.failures == old(disk.failures) ==> status == Success
    ensures status == Success ==> |readers| == |version.tables| && Loaded(readers, s, disk.options)
    ensures version.tables == [] ==> status == Success && disk.calls == old(disk.calls)
  {
    hide *;
    ghost var start, h, o := disk.calls, disk.history, disk.options;
    readers := [];
    LoadedNone(disk.fs, s, h, o);
    for i := 0 to |version.tables|
      invariant old(disk.trace) <= disk.trace
      invariant disk.Safe() && disk.history == old(disk.history) && disk.fs == old(disk.fs) && disk.calls >= start && disk.failures >= old(disk.failures)
      invariant |readers| == i && Loaded(readers, s, o)
      invariant i == 0 ==> disk.calls == start
    {
      SeenTable(disk.fs, s, i, h, o);
      var name := Table(version.tables[i].summary.generation);
      if name !in names {
        return Corruption, readers;
      }
      var ok, content := disk.Read(disk.fs.Current()[name]);
      if !ok {
        return IOError, readers;
      }
      var reader := Load(content, disk.options);
      if reader.None? || reader.value.summary != version.tables[i].summary {
        return Corruption, readers;
      }
      OpenTableOpened(content, o);
      LoadedNext(readers, reader.value, s, o);
      readers := readers + [reader.value];
    }
    status := Success;
  }

  lemma LoadedNone(fs: FileSystem, s: Stored, h: History, o: Options)
    requires Sees(fs, s, h, o)
    ensures Loaded([], s, o)
  {
    hide *;
    SeesParts(fs, s, h, o);
    HoldsParts(Now(fs), s, h, o);
    StoredVersionWidth(s, o);
    LoadedEmpty(s, o);
  }

  lemma LoadedEmpty(s: Stored, o: Options)
    requires |s.version.tables| == |s.runs|
    ensures Loaded([], s, o)
  {
    hide Contents;
  }

  lemma LoadedNext(readers: seq<Reader>, rd: Reader, s: Stored, o: Options)
    requires Loaded(readers, s, o) && |readers| < |s.version.tables|
    requires rd.summary == s.version.tables[|readers|].summary && Contents(rd, o) == s.runs[|readers|] && Opened(rd, o)
    ensures Loaded(readers + [rd], s, o)
  {
    hide Contents, Opened;
  }

  // ----- Stray files --------------------------------------------------------------------------------

  /** A file that no longer matters. */
  predicate Stray(n: FileName, v: Version) {
    match n
    case ManifestTemporary => true
    case TableTemporary(_) => true
    case Table(number) => !Live(v.tables, number)
    case WalName(number) => number < v.nextFileNumber
    case Manifest => false
  }

  lemma StrayIrrelevant(n: FileName, v: Version)
    ensures Stray(n, v) <==> !Relevant(n, v)
  {
  }

  /** The logs at the frontier have not been touched. */
  ghost predicate SameWalsAt(before: Directory, after: Directory, v: Version) {
    forall n: nat :: n >= v.nextFileNumber ==>
      (WalName(n) in after <==> WalName(n) in before) && (WalName(n) in after ==> after[WalName(n)] == before[WalName(n)])
  }

  lemma SameWalsSelf(dir: Directory, v: Version)
    ensures SameWalsAt(dir, dir, v)
  {
  }

  lemma SameWalsUnlink(before: Directory, after: Directory, n: FileName, v: Version)
    requires SameWalsAt(before, after, v) && Stray(n, v)
    ensures SameWalsAt(before, after - {n}, v)
  {
  }

  lemma DirectoryFiles(fs: FileSystem, op: DirectoryOp)
    ensures fs.Issue(op).files == fs.files && fs.SyncDirectory().files == fs.files
  {
  }

  /** Removes temporary files, unreferenced tables and logs below the frontier, then syncs the directory. */
  method RemoveStrays(disk: Disk, names: set<FileName>, version: Version, ghost s: Stored) returns (status: Status)
    requires disk.Safe() && Sees(disk.fs, s, disk.history, disk.options) && s.version == version
    requires forall n: nat :: WalName(n) in names ==> n <= version.nextFileNumber + 1
    modifies disk
    ensures old(disk.trace) <= disk.trace
    ensures disk.Safe() && disk.history == old(disk.history) && disk.calls >= old(disk.calls) && disk.failures >= old(disk.failures)
    ensures disk.failures == old(disk.failures) ==> status == Success
    ensures Sees(disk.fs, s, disk.history, disk.options) && disk.fs.files == old(disk.fs).files
    ensures SameWalsAt(old(disk.fs).Current(), disk.fs.Current(), version)
    ensures status == Success ==> forall n :: n in names && Stray(n, version) ==> n !in disk.fs.Current()
    ensures names == {} ==> status == Success && disk.calls == old(disk.calls)
  {
    hide *;
    ghost var start, h, o := disk.calls, disk.history, disk.options;
    SameWalsSelf(disk.fs.Current(), version);
    var left, changed := names, false;
    while left != {}
      invariant old(disk.trace) <= disk.trace
      invariant disk.Safe() && disk.history == old(disk.history) && disk.calls >= start && disk.failures >= old(disk.failures)
      invariant disk.fs.files == old(disk.fs).files
      invariant left <= names && Sees(disk.fs, s, h, o) && SameWalsAt(old(disk.fs).Current(), disk.fs.Current(), version)
      invariant forall n :: n in names - left && Stray(n, version) ==> n !in disk.fs.Current()
      invariant names == {} ==> !changed && disk.calls == start
      decreases |left|
    {
      var n :| n in left;
      left := left - {n};
      StrayIrrelevant(n, version);
      if Stray(n, version) {
        ghost var before := disk.fs;
        UnlinkSees(before, n, s, h, o);
        SameWalsUnlink(old(disk.fs).Current(), before.Current(), n, version);
        SeesParts(before.Issue(Unlink(n)), s, h, o);
        DirectoryFiles(before, Unlink(n));
        var ok := disk.RemoveFile(n);
        if !ok {
          return IOError;
        }
        changed := true;
      } else if n.WalName? && n.number > version.nextFileNumber + 1 {
        return Corruption;
      }
    }
    status := Success;
    if changed {
      SyncSees(disk.fs, s, h, o);
      DirectoryFiles(disk.fs, Unlink(ManifestTemporary));
      var ok := disk.SyncDirectory();
      if !ok {
        status := IOError;
      }
    }
  }

  // ----- The logs -----------------------------------------------------------------------------------

  /** Replays one log; `floor` is the greatest sequence number known to be older. */
  method ReplayLog(disk: Disk, n: nat, floor: nat, ghost s: Stored) returns (status: Status, table: MemTable, top: nat, ghost records: seq<Record>)
    requires disk.Safe() && Sees(disk.fs, s, disk.history, disk.options) && WalName(n) in disk.fs.Current()
    requires disk.fs.Current()[WalName(n)] < |disk.fs.files|
    requires var r := Recover(disk.fs.files[disk.fs.Current()[WalName(n)]].current, disk.options, 0);
             r.Recovered? && Rising(r.records, floor)
    modifies disk
    ensures old(disk.trace) <= disk.trace
    ensures disk.Safe() && disk.history == old(disk.history) && disk.calls >= old(disk.calls) && disk.failures >= old(disk.failures)
    ensures disk.failures == old(disk.failures) ==> status == Success
    ensures fresh(table) && table.Valid() && table.options == disk.options
    ensures status == Success ==>
              && Sees(disk.fs, s, disk.history, disk.options) && disk.fs.Current() == old(disk.fs).Current()
              && records == Recover(old(disk.fs).files[disk.fs.Current()[WalName(n)]].current, disk.options, 0).records
              && Repaired(old(disk.fs), disk.fs, disk.fs.Current()[WalName(n)], disk.options)
              && table.entries == Fold(records) && top == Top(records)
  {
    hide *;
    disk.SafeNow();
    ghost var before, h, o := disk.fs, disk.history, disk.options;
    OpenMayRepair(before, n, h, o);
    RepairSees(before, n, s, h, o);
    var result;
    status, table, result, records := RecoverWal(disk, disk.fs.Current()[WalName(n)]);
    top := 0;
    if status == Success {
      ReportsParts(result, records, floor);
      top := result.maximumSequence;
      if result.count != 0 && result.minimumSequence <= floor {
        status := Corruption;
      }
    }
  }

  lemma ReportsParts(result: RecoveryResult, records: seq<Record>, floor: nat)
    requires Reports(result, records) && Rising(records, floor)
    ensures result.maximumSequence == Top(records) && (result.count != 0 ==> result.minimumSequence > floor)
  {
  }

  /** What the logs hold: the frozen records, if there are two logs, and those of the active log. */
  ghost predicate LogsFound(fs: FileSystem, s: Stored, frozen: seq<Record>, active: seq<Record>, h: History, o: Options) {
    var next := s.version.nextFileNumber;
    && AllEncodable(frozen, o) && Rising(frozen, s.version.lastSequence)
    && AllEncodable(active, o) && Rising(active, if frozen == [] then s.version.lastSequence else LastSequence(frozen))
    && Explains(s.log + frozen + active, h)
    && if frozen == [] then
         && WalName(next + 1) !in fs.Current() && (WalName(next) !in fs.Current() ==> active == [])
         && (WalName(next) in fs.Current() ==> ContentIs(fs, WalName(next), active, o))
       else next < MAX64 && Placed(fs, WalName(next), LogBytes(frozen)) && ContentIs(fs, WalName(next + 1), active, o)
  }

  ghost predicate ContentIs(fs: FileSystem, n: FileName, log: seq<Record>, o: Options) {
    n in fs.Current() && fs.Current()[n] < |fs.files| && Holds(fs.files[fs.Current()[n]], log, o)
  }

  lemma ReplayedContent(before: FileSystem, after: FileSystem, n: nat, o: Options)
    requires WalName(n) in after.Current() && after.Current() == before.Current()
    requires after.Current()[WalName(n)] < |before.files| && Repaired(before, after, after.Current()[WalName(n)], o)
    ensures ContentIs(after, WalName(n), Recover(before.files[after.Current()[WalName(n)]].current, o, 0).records, o)
    ensures AllEncodable(Recover(before.files[after.Current()[WalName(n)]].current, o, 0).records, o)
  {
    hide PerformAll, Holds, Recover, AllEncodable;
    var inode := after.Current()[WalName(n)];
    RepairedHoldsLog(before, after, inode, o);
    RecoveredParts(before.files[inode].current, o, 0);
  }

  lemma NoLogFound(fs: FileSystem, s: Stored, h: History, o: Options)
    requires Sees(fs, s, h, o) && WalName(s.version.nextFileNumber) !in fs.Current()
    ensures LogsFound(fs, s, [], [], h, o)
  {
    hide *;
    SeenWals(fs, s, h, o);
    NoLogParts(fs, s, h, o);
  }

  lemma NoLogParts(fs: FileSystem, s: Stored, h: History, o: Options)
    requires WalName(s.version.nextFileNumber) !in fs.Current() && WalName(s.version.nextFileNumber + 1) !in fs.Current()
    requires Explains(s.log, h)
    ensures LogsFound(fs, s, [], [], h, o)
  {
    hide Explains, PerformAll;
    assert s.log + [] + [] == s.log;
  }

  lemma OneLogFound(fs: FileSystem, s: Stored, active: seq<Record>, h: History, o: Options)
    requires WalName(s.version.nextFileNumber + 1) !in fs.Current() && WalName(s.version.nextFileNumber) in fs.Current()
    requires ContentIs(fs, WalName(s.version.nextFileNumber), active, o) && AllEncodable(active, o)
    requires Rising(active, s.version.lastSequence) && Explains(s.log + active, h)
    ensures LogsFound(fs, s, [], active, h, o)
  {
    hide Explains, PerformAll, ContentIs, Rising, AllEncodable;
    assert s.log + [] + active == s.log + active;
    NothingRises(s.version.lastSequence, o);
  }

  lemma NothingRises(floor: nat, o: Options)
    ensures Rising([], floor) && AllEncodable([], o)
  {
  }

  lemma TwoLogsFound(fs: FileSystem, s: Stored, frozen: seq<Record>, active: seq<Record>, h: History, o: Options)
    requires frozen != [] && s.version.nextFileNumber < MAX64
    requires AllEncodable(frozen, o) && Rising(frozen, s.version.lastSequence)
    requires AllEncodable(active, o) && Rising(active, LastSequence(frozen))
    requires Explains(s.log + frozen + active, h)
    requires Placed(fs, WalName(s.version.nextFileNumber), LogBytes(frozen))
    requires ContentIs(fs, WalName(s.version.nextFileNumber + 1), active, o)
    ensures LogsFound(fs, s, frozen, active, h, o)
  {
    hide Explains, PerformAll, ContentIs, Rising, AllEncodable, Placed, LogBytes;
  }

  /** Recovers the logs at the frontier into an Immutable, if there are two, and the MemTable. */
  method RecoverLogs(disk: Disk, version: Version, ghost s: Stored)
    returns (status: Status, below: Option<MemTable>, belowTop: nat, table: MemTable, top: nat, ghost frozen: seq<Record>, ghost active: seq<Record>)
    requires disk.Safe() && Sees(disk.fs, s, disk.history, disk.options) && s.version == version
    modifies disk
    ensures old(disk.trace) <= disk.trace
    ensures disk.Safe() && disk.history == old(disk.history) && disk.calls >= old(disk.calls) && disk.failures >= old(disk.failures)
    ensures disk.failures == old(disk.failures) ==> status == Success
    ensures fresh(table) && table.Valid() && table.options == disk.options
    ensures status == Success ==>
              && Sees(disk.fs, s, disk.history, disk.options) && LogsFound(disk.fs, s, frozen, active, disk.history, disk.options)
              && (below.Some? <==> frozen != []) && (below.Some? ==> below.value.entries == Fold(frozen))
              && belowTop == Top(frozen) && table.entries == Fold(active) && top == Top(active)
    ensures status == Success && LogsSynced(old(disk.fs), version.nextFileNumber) ==> LogsSynced(disk.fs, version.nextFileNumber)
    ensures WalName(version.nextFileNumber) !in old(disk.fs).Current() ==>
              status == Success && below.None? && table.entries == [] && belowTop == 0 && top == 0 && disk.calls == old(disk.calls)
  {
    hide *;
    ghost var start, h, o, before := disk.calls, disk.history, disk.options, disk.fs;
    var next := version.nextFileNumber;
    below, belowTop, top, frozen, active := None, 0, 0, [], [];
    SeenWals(before, s, h, o);
    NothingFolded();
    if WalName(next) !in disk.fs.Current() {
      NoLogFound(before, s, h, o);
      table := new MemTable(disk.options);
      return Success, None, 0, table, 0, [], [];
    }
    if WalName(next + 1) !in disk.fs.Current() {
      SeenOneWal(before, s, h, o);
      status, table, top, active := ReplayLog(disk, next, version.lastSequence, s);
      if status == Success {
        ReplayedContent(before, disk.fs, next, o);
        RepairedSynced(before, disk.fs, disk.fs.Current()[WalName(next)], next, o);
        OneLogFound(disk.fs, s, active, h, o);
      }
      return;
    }
    SeenTwoWals(before, s, h, o);
    var first;
    status, first, belowTop, frozen := ReplayLog(disk, next, version.lastSequence, s);
    if status != Success {
      table := first;
      return;
    }
    RepairedWhole(before, disk.fs, disk.fs.Current()[WalName(next)], o);
    FoldedSome(frozen);
    below := Some(first);
    if first.entries == [] {
      return Corruption, below, belowTop, first, top, frozen, active;
    }
    TopIsLast(frozen);
    status, table, top, active := ReplayLog(disk, next + 1, belowTop, s);
    if status == Success {
      ReplayedContent(before, disk.fs, next + 1, o);
      RepairedSynced(before, disk.fs, disk.fs.Current()[WalName(next + 1)], next, o);
      SeesParts(before, s, h, o);
      OtherPlaced(before, disk.fs, next, frozen, h, o);
      TwoLogsFound(disk.fs, s, frozen, active, h, o);
    }
  }

  lemma NothingFolded()
    ensures Fold([]) == [] && Top([]) == 0
  {
  }

  lemma FoldedSome(log: seq<Record>)
    ensures log != [] ==> Fold(log) != []
  {
    FoldSorted(log);
  }

  lemma TopIsLast(log: seq<Record>)
    ensures log != [] ==> Top(log) == LastSequence(log)
  {
  }

  /** A log without a torn tail is left alone. */
  lemma RepairedWhole(before: FileSystem, after: FileSystem, inode: Inode, o: Options)
    requires inode < |before.files| && Repaired(before, after, inode, o)
    requires Recover(before.files[inode].current, o, 0).Recovered?
    requires Recover(before.files[inode].current, o, 0).validBytes == |before.files[inode].current|
    ensures after == before
  {
    hide Recover;
  }

  /** Repairing the upper log leaves the lower one as it is. */
  lemma OtherPlaced(before: FileSystem, after: FileSystem, next: nat, frozen: seq<Record>, h: History, o: Options)
    requires Recoverable(before, h, o) && WalName(next) in before.Current() && WalName(next + 1) in before.Current()
    requires before.Current()[WalName(next)] < |before.files| && before.Current()[WalName(next + 1)] < |before.files|
    requires before.files[before.Current()[WalName(next)]] == StableFile(LogBytes(frozen))
    requires after.Current() == before.Current() && Repaired(before, after, before.Current()[WalName(next + 1)], o)
    ensures Placed(after, WalName(next), LogBytes(frozen))
  {
    CurrentOk(before, h, o);
    hide Recoverable, Recover, PerformAll, LogBytes;
    assert before.Current()[WalName(next)] != before.Current()[WalName(next + 1)];
  }

  // ----- Logs that no crash can change ----------------------------------------------------------------

  /** The logs at or above the frontier are synced to their ends. */
  ghost predicate LogsSynced(fs: FileSystem, frontier: nat) {
    forall n: nat :: n >= frontier && WalName(n) in fs.Current() && fs.Current()[WalName(n)] < |fs.files| ==>
      fs.files[fs.Current()[WalName(n)]].Stable()
  }

  lemma RepairedSynced(before: FileSystem, after: FileSystem, inode: Inode, frontier: nat, o: Options)
    requires inode < |before.files| && Repaired(before, after, inode, o) && after.Current() == before.Current()
    ensures LogsSynced(before, frontier) ==> LogsSynced(after, frontier)
  {
    hide Recover, PerformAll;
  }

  lemma StraysSynced(before: FileSystem, after: FileSystem, v: Version)
    requires SameWalsAt(before.Current(), after.Current(), v) && after.files == before.files
    ensures LogsSynced(before, v.nextFileNumber) ==> LogsSynced(after, v.nextFileNumber)
  {
    hide PerformAll;
  }

  lemma LoadedSynced(before: FileSystem, after: FileSystem, frontier: nat)
    requires after == before || forall n: nat :: WalName(n) !in after.Current()
    ensures LogsSynced(before, 0) ==> LogsSynced(after, frontier)
  {
    hide PerformAll;
  }

  lemma CreatedSynced(fs: FileSystem, g: nat, frontier: nat)
    requires DirectoryOk(fs.Current(), |fs.files|)
    ensures LogsSynced(fs, frontier) ==> LogsSynced(fs.Create(WalName(g)), frontier)
  {
    hide PerformAll;
    CreatedCurrent(fs, WalName(g));
  }

  lemma DirectorySynced(fs: FileSystem, frontier: nat)
    ensures LogsSynced(fs, frontier) ==> LogsSynced(fs.SyncDirectory(), frontier)
  {
    hide PerformAll;
    ViewAfterSync(fs);
  }

  /** Every crash leaves a log with these records. */
  ghost predicate Kept(f: File, records: seq<Record>, o: Options) {
    forall content :: f.MayBecome(content) ==> Recover(content, o, 0).Recovered? && Recover(content, o, 0).records == records
  }

  /**
    A log that was found, and may not have been synced since: every crash leaves it with its records if and
    only if all of them are synced and what else a crash may leave behind them holds no complete record.
   */
  lemma TailKept(f: File, active: seq<Record>, o: Options)
    requires f.Valid() && Holds(f, active, o)
    ensures Kept(f, active, o) <==>
            f.base == |f.current| && Recover(f.durable, o, 0).Recovered? && Recover(f.durable, o, 0).records == active
  {
    hide Recover, LogBytes, AllEncodable, Rising;
    HoldsRecovers(f, active, o);
    if Kept(f, active, o) {
      var least := f.current[..f.base];
      assert f.MayBecome(least) && f.MayBecome(f.durable);
      RecoveredParts(least, o, 0);
    }
    if f.base == |f.current| && Recover(f.durable, o, 0).Recovered? && Recover(f.durable, o, 0).records == active {
      RecoveredParts(f.durable, o, 0);
      forall content | f.MayBecome(content) ensures Recover(content, o, 0).Recovered? && Recover(content, o, 0).records == active {
        assert content == f.durable[..|content|];
        RecoverShorter(f.durable, |content|, o, 0);
      }
    }
  }

  lemma StableKept(f: File, active: seq<Record>, o: Options)
    requires f.Stable() && Holds(f, active, o)
    ensures Kept(f, active, o)
  {
    hide *;
    HoldsRecovers(f, active, o);
    forall content | f.MayBecome(content) ensures Recover(content, o, 0).Recovered? && Recover(content, o, 0).records == active {
      StableMayBecome(f, content);
    }
    PartsKept(f, active, o);
  }

  lemma PartsKept(f: File, active: seq<Record>, o: Options)
    requires forall content :: f.MayBecome(content) ==> Recover(content, o, 0).Recovered? && Recover(content, o, 0).records == active
    ensures Kept(f, active, o)
  {
    hide Recover;
  }

  /** A log that no crash can change recovers to its records whatever happens. */
  lemma KeptWalOk(f: File, floor: nat, log: seq<Record>, active: seq<Record>, o: Options)
    requires f.Valid() && Kept(f, active, o) && Rising(active, floor)
    ensures WalOk(f, floor, log, Known(log + active), o)
  {
    hide Recover, Rising, Explains;
    KnownExplains(log + active, log + active);
  }

  /** Logs that no crash can change leave one explanation only: what was found. */
  lemma CertainSees(fs: FileSystem, s: Stored, frozen: seq<Record>, active: seq<Record>, wal: Inode, h: History, o: Options)
    requires Sees(fs, s, h, o) && fs.pending == [] && LogsFound(fs, s, frozen, active, h, o)
    requires ContentIs(fs, WalName(if frozen == [] then s.version.nextFileNumber else s.version.nextFileNumber + 1), active, o)
    requires ActiveKept(fs, if frozen == [] then s.version.nextFileNumber else s.version.nextFileNumber + 1, active, o)
    ensures Sees(fs, s, Known(s.log + frozen + active), o)
    ensures LogsFound(fs, s, frozen, active, Known(s.log + frozen + active), o)
  {
    hide *;
    var known := Known(s.log + frozen + active);
    SeesParts(fs, s, h, o);
    SeenWals(fs, s, h, o);
    HoldsParts(Now(fs), s, h, o);
    LogsFoundParts(fs, s, frozen, active, h, o);
    KnownExplains(s.log + frozen + active, s.log + frozen + active);
    FoundAgain(fs, s, frozen, active, h, known, o);
    CurrentOk(fs, h, o);
    CertainWals(fs, s, frozen, active, h, o);
    PartsHold(Now(fs), s, known, o);
    CertainRecoverable(fs, s, h, known, o);
    PartsSees(fs, s, known, o);
  }

  lemma FoundAgain(
    fs: FileSystem, s: Stored, frozen: seq<Record>, active: seq<Record>, h: History, h': History, o: Options)
    requires LogsFound(fs, s, frozen, active, h, o) && Explains(s.log + frozen + active, h')
    ensures LogsFound(fs, s, frozen, active, h', o)
  {
    hide Explains, PerformAll, Rising, AllEncodable, LogBytes, ContentIs, Placed;
  }

  lemma CertainRecoverable(fs: FileSystem, s: Stored, h: History, h': History, o: Options)
    requires Recoverable(fs, h, o) && fs.pending == [] && ViewHolds(Now(fs), s, h', o)
    ensures Recoverable(fs, h', o)
  {
    hide ViewHolds, PerformAll;
    AnythingIsViewOk(Now(fs), h', o);
    SyncedKeeps(fs, Anything, h', o);
  }

  lemma CertainWals(fs: FileSystem, s: Stored, frozen: seq<Record>, active: seq<Record>, h: History, o: Options)
    requires LogsFound(fs, s, frozen, active, h, o) && fs.Ok()
    requires ActiveKept(fs, if frozen == [] then s.version.nextFileNumber else s.version.nextFileNumber + 1, active, o)
    requires DirectoryOk(fs.Current(), |fs.files|)
    requires forall n: nat :: WalName(n) in fs.Current() ==> n <= s.version.nextFileNumber + 1
    requires ContentIs(fs, WalName(if frozen == [] then s.version.nextFileNumber else s.version.nextFileNumber + 1), active, o)
    ensures WalsOk(Now(fs), s, Known(s.log + frozen + active), o)
  {
    hide *;
    LogsFoundParts(fs, s, frozen, active, h, o);
    var next := s.version.nextFileNumber;
    NowKeys(fs);
    if frozen == [] {
      CertainFile(fs, next, s.version.lastSequence, s.log, active, o);
      OneCertain(Now(fs), s, Known(s.log + active), o);
      assert s.log + [] == s.log;
    } else {
      CertainFile(fs, next + 1, LastSequence(frozen), s.log + frozen, active, o);
      CertainFrozen(fs, next, frozen, s.version.lastSequence, o);
      TwoCertain(Now(fs), s, frozen, Known(s.log + frozen + active), o);
    }
  }

  lemma CertainFile(fs: FileSystem, g: nat, floor: nat, log: seq<Record>, active: seq<Record>, o: Options)
    requires DirectoryOk(fs.Current(), |fs.files|) && fs.Ok() && ActiveKept(fs, g, active, o)
    requires ContentIs(fs, WalName(g), active, o) && Rising(active, floor)
    ensures WalName(g) in Now(fs) && WalOk(Now(fs)[WalName(g)], floor, log, Known(log + active), o)
  {
    hide WalOk, PerformAll, Rising, Holds, Known, Kept;
    KeptWalOk(fs.files[fs.Current()[WalName(g)]], floor, log, active, o);
  }

  /** No crash changes what the log that takes writes holds. */
  ghost predicate ActiveKept(fs: FileSystem, g: nat, active: seq<Record>, o: Options) {
    WalName(g) in fs.Current() && fs.Current()[WalName(g)] < |fs.files| && Kept(fs.files[fs.Current()[WalName(g)]], active, o)
  }

  lemma ActiveKeptIs(fs: FileSystem, g: nat, active: seq<Record>, o: Options)
    requires ContentIs(fs, WalName(g), active, o)
    ensures WalName(g) in fs.Current() && fs.Current()[WalName(g)] < |fs.files|
    ensures ActiveKept(fs, g, active, o) <==> Kept(fs.files[fs.Current()[WalName(g)]], active, o)
  {
    hide Kept, Holds, PerformAll;
  }

  lemma SyncedKept(fs: FileSystem, g: nat, active: seq<Record>, frontier: nat, o: Options)
    requires LogsSynced(fs, frontier) && g >= frontier && ContentIs(fs, WalName(g), active, o)
    ensures ActiveKept(fs, g, active, o)
  {
    hide Kept, Holds, PerformAll;
    StableKept(fs.files[fs.Current()[WalName(g)]], active, o);
  }

  lemma OneCertain(img: Image, s: Stored, h: History, o: Options)
    requires WalName(s.version.nextFileNumber) in img && WalName(s.version.nextFileNumber + 1) !in img
    requires forall n: nat :: WalName(n) in img ==> n <= s.version.nextFileNumber + 1
    requires WalOk(img[WalName(s.version.nextFileNumber)], s.version.lastSequence, s.log, h, o)
    ensures WalsOk(img, s, h, o)
  {
    hide WalOk;
  }

  lemma TwoCertain(img: Image, s: Stored, frozen: seq<Record>, h: History, o: Options)
    requires WalName(s.version.nextFileNumber) in img && WalName(s.version.nextFileNumber + 1) in img
    requires frozen != [] && s.version.nextFileNumber < MAX64
    requires forall n: nat :: WalName(n) in img ==> n <= s.version.nextFileNumber + 1
    requires FrozenOk(img[WalName(s.version.nextFileNumber)], frozen, s.version.lastSequence, o)
    requires WalOk(img[WalName(s.version.nextFileNumber + 1)], LastSequence(frozen), s.log + frozen, h, o)
    ensures WalsOk(img, s, h, o)
  {
    hide WalOk, FrozenOk;
    assert TwoWalsOk(img, s, frozen, h, o);
  }

  lemma CertainFrozen(fs: FileSystem, n: nat, frozen: seq<Record>, floor: nat, o: Options)
    requires frozen != [] && AllEncodable(frozen, o) && Rising(frozen, floor)
    requires Placed(fs, WalName(n), LogBytes(frozen))
    ensures WalName(n) in Now(fs) && FrozenOk(Now(fs)[WalName(n)], frozen, floor, o)
  {
    hide PerformAll, AllEncodable, Rising, LogBytes;
  }

  lemma NowKeys(fs: FileSystem)
    requires DirectoryOk(fs.Current(), |fs.files|)
    ensures Now(fs).Keys == fs.Current().Keys
  {
    hide PerformAll;
  }

  // ----- Opening ------------------------------------------------------------------------------------

  /** Opens or creates the active log and makes its name durable. */
  method OpenActiveWal(disk: Disk, g: nat, ghost s: Stored, ghost frozen: seq<Record>, ghost active: seq<Record>)
    returns (ok: bool, wal: Inode)
    requires disk.Safe() && Sees(disk.fs, s, disk.history, disk.options)
    requires LogsFound(disk.fs, s, frozen, active, disk.history, disk.options)
    requires g == if frozen == [] then s.version.nextFileNumber else s.version.nextFileNumber + 1
    modifies disk
    ensures old(disk.trace) <= disk.trace
    ensures disk.Safe() && disk.history == old(disk.history) && disk.calls >= old(disk.calls) && disk.failures >= old(disk.failures)
    ensures disk.failures == old(disk.failures) || disk.Quiet(old(disk.calls), 2) ==> ok
    ensures ok ==> disk.calls == old(disk.calls) + 2
    ensures ok ==>
              && Sees(disk.fs, s, disk.history, disk.options) && disk.fs.pending == []
              && LogsFound(disk.fs, s, frozen, active, disk.history, disk.options)
              && ContentIs(disk.fs, WalName(g), active, disk.options) && disk.fs.Current()[WalName(g)] == wal
    ensures ok && LogsSynced(old(disk.fs), s.version.nextFileNumber) ==> LogsSynced(disk.fs, s.version.nextFileNumber)
  {
    hide *;
    ghost var start, h, o, before := disk.calls, disk.history, disk.options, disk.fs;
    LogsFoundParts(before, s, frozen, active, h, o);
    QuietCall(disk, start, 2, start);
    QuietCall(disk, start, 2, start + 1);
    if WalName(g) !in disk.fs.Current() {
      CreateSees(before, s, h, o);
      CreatedFound(before, s, h, o);
      SeesParts(before.Create(WalName(g)), s, h, o);
      SeesParts(before, s, h, o);
      CurrentOk(before, h, o);
      CreatedSynced(before, g, s.version.nextFileNumber);
    }
    ok, wal := disk.OpenAppend(WalName(g));
    if !ok {
      return;
    }
    LogsFoundParts(disk.fs, s, frozen, active, h, o);
    ghost var linked := disk.fs;
    SyncSees(linked, s, h, o);
    SyncedFound(linked, s, frozen, active, h, o);
    DirectorySynced(linked, s.version.nextFileNumber);
    ok := disk.SyncDirectory();
    if ok {
      LogsFoundParts(disk.fs, s, frozen, active, h, o);
    }
  }

  lemma LogsFoundParts(fs: FileSystem, s: Stored, frozen: seq<Record>, active: seq<Record>, h: History, o: Options)
    requires LogsFound(fs, s, frozen, active, h, o)
    ensures var next := s.version.nextFileNumber;
            && AllEncodable(frozen, o) && Rising(frozen, s.version.lastSequence)
            && AllEncodable(active, o) && Rising(active, if frozen == [] then s.version.lastSequence else LastSequence(frozen))
            && Explains(s.log + frozen + active, h) && (frozen != [] ==> next < MAX64)
            && var g := if frozen == [] then next else next + 1;
               if WalName(g) in fs.Current() then ContentIs(fs, WalName(g), active, o) else frozen == [] && active == []
    ensures frozen == [] ==> WalName(s.version.nextFileNumber + 1) !in fs.Current()
    ensures frozen != [] ==> Placed(fs, WalName(s.version.nextFileNumber), LogBytes(frozen))
  {
    hide Explains, PerformAll, Holds, Rising, AllEncodable, Placed, LogBytes;
  }

  lemma CreatedFound(fs: FileSystem, s: Stored, h: History, o: Options)
    requires LogsFound(fs, s, [], [], h, o)
    ensures LogsFound(fs.Create(WalName(s.version.nextFileNumber)), s, [], [], h, o)
  {
    hide Explains, PerformAll, Rising, AllEncodable;
    CreatedCurrent(fs, WalName(s.version.nextFileNumber));
    NothingRises(0, o);
  }

  lemma SyncedFound(fs: FileSystem, s: Stored, frozen: seq<Record>, active: seq<Record>, h: History, o: Options)
    requires LogsFound(fs, s, frozen, active, h, o)
    ensures LogsFound(fs.SyncDirectory(), s, frozen, active, h, o)
  {
    hide Explains, PerformAll, Rising, AllEncodable, LogBytes, Holds;
    ViewAfterSync(fs);
  }

  /** The database that opening found satisfies the invariant. */
  lemma FoundInv(
    fs: FileSystem, s: Stored, readers: seq<Reader>, frozen: seq<Record>, active: seq<Record>, wal: Inode, last: nat,
    h: History, o: Options)
    requires o.Valid() && Sees(fs, s, h, o) && fs.pending == [] && LogsFound(fs, s, frozen, active, h, o)
    requires |readers| == |s.version.tables| && Loaded(readers, s, o)
    requires var g := if frozen == [] then s.version.nextFileNumber else s.version.nextFileNumber + 1;
             ContentIs(fs, WalName(g), active, o) && fs.Current()[WalName(g)] == wal
    requires last == Highest(Highest(s.version.lastSequence, Top(frozen)), Top(active))
    ensures var m := FoundMemory(s.version, readers, if frozen == [] then None else Some(Fold(frozen)), Top(frozen),
                                  Fold(active), wal, last);
            var l := Logs(s.log, frozen, active, frozen != []);
            Inv(fs, h, m, l, o) && LogOf(m, l) == s.log + frozen + active && Explains(LogOf(m, l), h)
  {
    hide *;
    var m := FoundMemory(s.version, readers, if frozen == [] then None else Some(Fold(frozen)), Top(frozen), Fold(active), wal, last);
    var l := Logs(s.log, frozen, active, frozen != []);
    SeesParts(fs, s, h, o);
    HoldsParts(Now(fs), s, h, o);
    LogsFoundParts(fs, s, frozen, active, h, o);
    LoadedParts(readers, s, o);
    FoundMemoryOk(s, readers, frozen, active, wal, last, o);
    OpenedFields(s, readers, frozen, active, wal, last);
    PartsActiveAt(fs, m, l, o);
    PartsFrozenAt(fs, m, l);
    OpenedInv(fs, h, m, l, o);
  }

  lemma LoadedParts(readers: seq<Reader>, s: Stored, o: Options)
    requires Loaded(readers, s, o)
    ensures |s.version.tables| == |s.runs| && |readers| <= |s.runs|
    ensures forall i :: 0 <= i < |readers| ==>
              readers[i].summary == s.version.tables[i].summary && Contents(readers[i], o) == s.runs[i] && Opened(readers[i], o)
  {
    hide Contents, Opened;
  }

  lemma OpenedFields(s: Stored, readers: seq<Reader>, frozen: seq<Record>, active: seq<Record>, wal: Inode, last: nat)
    ensures var m := FoundMemory(s.version, readers, if frozen == [] then None else Some(Fold(frozen)), Top(frozen),
                                  Fold(active), wal, last);
            && m.compaction.None? && m.wal == Some(wal) && m.version == s.version
            && m.generation == (if frozen == [] then s.version.nextFileNumber else s.version.nextFileNumber + 1)
            && m.immutable == (if frozen == [] then None
                               else Some(Immutable(s.version.nextFileNumber, Fold(frozen), Top(frozen), None, false, false)))
            && m == Memory(s.version, readers, Fold(active), m.generation, Some(wal), m.immutable, None, last, false)
  {
    hide Fold, Top;
  }

  lemma PartsActiveAt(fs: FileSystem, m: Memory, l: Logs, o: Options)
    requires m.wal.Some? && ContentIs(fs, WalName(m.generation), l.active, o)
    requires WalName(m.generation) in fs.Current() ==> fs.Current()[WalName(m.generation)] == m.wal.value
    ensures ActiveAt(fs, m, l, o)
  {
    hide PerformAll, Holds;
  }

  lemma PartsFrozenAt(fs: FileSystem, m: Memory, l: Logs)
    requires m.immutable.Some? ==>
               && !m.immutable.value.published && m.immutable.value.pending.None? && l.twoWals
               && Placed(fs, WalName(m.immutable.value.generation), LogBytes(l.frozen))
    ensures FrozenAt(fs, m, l)
  {
    hide Placed, LogBytes;
  }

  /** The names and the version agree on which logs may be ahead. */
  lemma NamesBounded(fs: FileSystem, names: set<FileName>, s: Stored, h: History, o: Options)
    requires Sees(fs, s, h, o) && (fs.Current().Keys == names || forall n :: n in names ==> Temporary(n))
    ensures forall n: nat :: WalName(n) in names ==> n <= s.version.nextFileNumber + 1
  {
    hide *;
    SeenWals(fs, s, h, o);
    TemporaryKinds();
  }

  lemma EmptyDirectory()
    ensures EMPTY.Current() == map[] && NEW_DATABASE == Version(1, 1, 0, [])
  {
  }

  /** On a disk that was empty there is no log to replay. */
  lemma NoLogsLeft(loaded: FileSystem, after: FileSystem, v: Version)
    requires loaded == EMPTY || forall n: nat :: WalName(n) !in loaded.Current()
    requires SameWalsAt(loaded.Current(), after.Current(), v)
    ensures WalName(v.nextFileNumber) !in after.Current()
  {
    EmptyDirectory();
    hide PerformAll;
  }

  lemma HighestIs(a: nat)
    ensures Highest(Highest(a, 0), 0) == a
  {
  }

  /** The log that was found explains what had been written; if the logs were synced, it alone does from now on. */
  ghost predicate Begun(h: History, book: Book, h': History, book': Book, log: seq<Record>, synced: bool) {
    && Explains(log, h) && book.shown <= log
    && (h' == h || h' == Known(log))
    && (synced ==> h' == Known(log) && book'.shown == log)
  }

  lemma BegunIs(h: History, book: Book, h': History, book': Book, log: seq<Record>, synced: bool)
    ensures Begun(h, book, h', book', log, synced) <==>
            && Explains(log, h) && book.shown <= log
            && (h' == h || h' == Known(log))
            && (synced ==> h' == Known(log) && book'.shown == log)
  {
    hide Explains;
  }

  /** If no crash can change the log that was found, what was shown is known for certain from now on. */
  ghost predicate Shown(disk: Disk, wal: Inode, active: seq<Record>, log: seq<Record>)
    reads disk, disk.ledger
  {
    && wal < |disk.fs.files| && Holds(disk.fs.files[wal], active, disk.options)
    && (Kept(disk.fs.files[wal], active, disk.options) ==> disk.history == Known(log) && disk.ledger.book.shown == log)
  }

  lemma ShownIs(disk: Disk, wal: Inode, active: seq<Record>, log: seq<Record>)
    ensures Shown(disk, wal, active, log) <==>
            && wal < |disk.fs.files| && Holds(disk.fs.files[wal], active, disk.options)
            && (Kept(disk.fs.files[wal], active, disk.options) ==> disk.history == Known(log) && disk.ledger.book.shown == log)
  {
    hide Kept, Holds;
  }

  lemma ContentHeld(fs: FileSystem, n: FileName, log: seq<Record>, o: Options)
    requires ContentIs(fs, n, log, o)
    ensures n in fs.Current() && fs.Current()[n] < |fs.files| && Holds(fs.files[fs.Current()[n]], log, o)
  {
    hide Holds, PerformAll;
  }

  /**
    Opens the database on a disk.  Whatever happens the disk stays recoverable; without
    I/O errors opening succeeds, and the database holds a log that explains the history.
   */
  method Open(disk: Disk) returns (status: Status, db: Database?)
    requires disk.Safe() && disk.options.Sized()
    modifies disk, disk.ledger
    ensures old(disk.trace) <= disk.trace && disk.Safe() && old(disk.calls) <= disk.calls && old(disk.failures) <= disk.failures
    ensures disk.ledger.book.acked == old(disk.ledger.book).acked
    ensures db == null ==> disk.history == old(disk.history) && disk.ledger.book == old(disk.ledger.book)
    ensures !disk.options.Checked() ==> status == InvalidArgument
    ensures disk.failures == old(disk.failures) && disk.options.Checked() ==> status == Success
    ensures status == Success <==> db != null
    ensures db != null ==>
              && fresh(db) && fresh(db.mutable) && db.disk == disk && db.options == disk.options
              && db.Valid() && db.closed.None? && Explains(db.Log(), disk.history)
              && db.since == |disk.history| && db.compaction.None? && db.backgroundOk
              && Begun(old(disk.history), old(disk.ledger.book), disk.history, disk.ledger.book, db.Log(), old(LogsSynced(disk.fs, 0)))
    ensures db != null ==> db.wal.Some? && Shown(disk, db.wal.value, db.logs.active, db.Log())
    ensures db != null && old(disk.fs) == EMPTY ==>
              && db.version == NEW_DATABASE && db.readers == [] && db.immutable.None? && db.mutable.entries == []
              && db.lastSequence == 0 && db.wal.Some? && !db.poisoned && disk.calls == old(disk.calls) + 8
    ensures disk.options.Checked() && old(disk.fs) == EMPTY && disk.Quiet(old(disk.calls), 8) ==> status == Success
  {
    hide *;
    db := null;
    OptionsValid(disk.options);
    if !disk.options.Checked() {
      return InvalidArgument, null;
    }
    ghost var start, h, o := disk.calls, disk.history, disk.options;
    QuietCall(disk, start, 8, start);
    QuietPart(disk, start, 8, start + 1, 5);
    QuietPart(disk, start, 8, start + 6, 2);
    EmptyDirectory();
    var ok, names := disk.List();
    if !ok {
      return IOError, null;
    }
    var version, readers;
    ghost var s;
    status, version, s := LoadVersion(disk, names);
    if status != Success {
      return;
    }
    NamesBounded(disk.fs, names, s, h, o);
    LoadedSynced(old(disk.fs), disk.fs, version.nextFileNumber);
    status, readers := LoadTables(disk, names, version, s);
    if status != Success {
      return;
    }
    ghost var loaded := disk.fs;
    status := RemoveStrays(disk, names, version, s);
    if status != Success {
      return;
    }
    StraysSynced(loaded, disk.fs, version);
    if old(disk.fs) == EMPTY { NoLogsLeft(loaded, disk.fs, version); }
    ghost var book, synced := disk.ledger.book, LogsSynced(disk.fs, version.nextFileNumber);
    status, db := Assemble(disk, version, readers, s);
    if db != null {
      BegunIs(h, book, disk.history, disk.ledger.book, db.Log(), synced);
      BegunIs(h, book, disk.history, disk.ledger.book, db.Log(), LogsSynced(old(disk.fs), 0));
    }
  }

  lemma OptionsValid(o: Options)
    ensures o.Valid() <==> o.Checked() && o.Sized()
  {
  }

  /** The second half of Open: the logs, the active log's file, the object. */
  method Assemble(disk: Disk, version: Version, readers: seq<Reader>, ghost s: Stored) returns (status: Status, db: Database?)
    requires disk.Safe() && disk.options.Valid() && Sees(disk.fs, s, disk.history, disk.options) && s.version == version
    requires |readers| == |version.tables| && Loaded(readers, s, disk.options)
    modifies disk, disk.ledger
    ensures old(disk.trace) <= disk.trace && disk.Safe() && old(disk.calls) <= disk.calls && old(disk.failures) <= disk.failures
    ensures disk.ledger.book.acked == old(disk.ledger.book).acked
    ensures db == null ==> disk.history == old(disk.history) && disk.ledger.book == old(disk.ledger.book)
    ensures disk.failures == old(disk.failures) ==> status == Success
    ensures status == Success <==> db != null
    ensures db != null ==>
              && fresh(db) && fresh(db.mutable) && db.disk == disk && db.options == disk.options
              && db.Valid() && db.closed.None? && Explains(db.Log(), disk.history)
              && db.since == |disk.history| && db.compaction.None? && db.backgroundOk
              && Begun(old(disk.history), old(disk.ledger.book), disk.history, disk.ledger.book, db.Log(), old(LogsSynced(disk.fs, version.nextFileNumber)))
    ensures db != null ==> db.wal.Some? && Shown(disk, db.wal.value, db.logs.active, db.Log())
    ensures db != null ==> db.version == version && db.readers == readers && db.wal.Some? && !db.poisoned
    ensures db != null && WalName(version.nextFileNumber) !in old(disk.fs).Current() ==>
              db.immutable.None? && db.mutable.entries == [] && db.lastSequence == version.lastSequence && disk.calls == old(disk.calls) + 2
    ensures WalName(version.nextFileNumber) !in old(disk.fs).Current() && disk.Quiet(old(disk.calls), 2) ==> status == Success
  {
    hide *;
    db := null;
    ghost var start, h, o := disk.calls, disk.history, disk.options;
    var below, belowTop, table, top;
    ghost var frozen, active;
    status, below, belowTop, table, top, frozen, active := RecoverLogs(disk, version, s);
    if status != Success {
      return;
    }
    var immutable: Option<Immutable>, g := None, version.nextFileNumber;
    if below.Some? {
      immutable := Some(Immutable(version.nextFileNumber, below.value.entries, belowTop, None, false, false));
      g := g + 1;
    }
    var ok, wal := OpenActiveWal(disk, g, s, frozen, active);
    if !ok {
      return IOError, null;
    }
    var last := Highest(Highest(version.lastSequence, belowTop), top);
    HighestIs(version.lastSequence);
    FoundInv(disk.fs, s, readers, frozen, active, wal, last, h, o);
    OpenedFields(s, readers, frozen, active, wal, last);
    ghost var log, certain, book := s.log + frozen + active, ActiveKept(disk.fs, g, active, o), disk.ledger.book;
    LogsFoundParts(disk.fs, s, frozen, active, h, o);
    ActiveKeptIs(disk.fs, g, active, o);
    if LogsSynced(disk.fs, version.nextFileNumber) { SyncedKept(disk.fs, g, active, version.nextFileNumber, o); }
    if certain {
      CertainSees(disk.fs, s, frozen, active, wal, h, o);
      FoundInv(disk.fs, s, readers, frozen, active, wal, last, Known(log), o);
      SeesParts(disk.fs, s, Known(log), o);
    }
    disk.Begin(log, certain);
    db := new Database(disk, version, readers, immutable, table, g, wal, last, Logs(s.log, frozen, active, frozen != []));
    db.Fields();
    status := Success;
    ContentHeld(disk.fs, WalName(g), active, o);
    ShownIs(disk, wal, active, log);
    BegunIs(h, book, disk.history, disk.ledger.book, db.Log(), LogsSynced(old(disk.fs), version.nextFileNumber));
  }
}
