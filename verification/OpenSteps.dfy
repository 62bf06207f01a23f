/** What opening a database may do to the disk, and what it finds there (src/database.cpp:158-424). */
module OpenSteps {
  import opened Coding
  import opened Configuration
  import opened Keys
  import opened Runs
  import opened Wal
  import opened WalLog
  import opened Versions
  import opened Manifest
  import opened Tables
  import opened FileSystem
  import opened Durability
  import opened WalFiles
  import opened Claims
  import opened PublishSteps
  import opened Engine
  import opened EngineSteps
  import opened FlushSteps
  import opened Publishing
  import opened Recovery

  // ----- Cutting off a torn tail ----------------------------------------------------------------

  /** Whatever a view may rely on in the old file it may rely on in the new one. */
  ghost predicate Repairs(f: File, f': File, h: History, o: Options) {
    && (forall floor: nat, log: seq<Record> :: WalOk(f, floor, log, h, o) ==> WalOk(f', floor, log, h, o))
    && (forall floor: nat, frozen: seq<Record> :: FrozenOk(f, frozen, floor, o) ==> FrozenOk(f', frozen, floor, o))
  }

  lemma RepairWals(img: Image, s: Stored, n: nat, f': File, h: History, o: Options)
    requires WalsOk(img, s, h, o) && WalName(n) in img && Repairs(img[WalName(n)], f', h, o)
    ensures WalsOk(img[WalName(n) := f'], s, h, o)
  {
    hide WalOk, FrozenOk, Explains;
    var after, next := img[WalName(n) := f'], s.version.nextFileNumber;
    if WalName(next + 1) in img {
      var frozen :| TwoWalsOk(img, s, frozen, h, o);
      FrozenStable(img[WalName(next)], frozen, s.version.lastSequence, o);
      assert TwoWalsOk(after, s, frozen, h, o);
    }
  }

  lemma RepairHolds(img: Image, s: Stored, n: nat, f': File, h: History, o: Options)
    requires ViewHolds(img, s, h, o) && WalName(n) in img && Repairs(img[WalName(n)], f', h, o)
    ensures ViewHolds(img[WalName(n) := f'], s, h, o)
  {
    hide *;
    HoldsParts(img, s, h, o);
    RepairWals(img, s, n, f', h, o);
    NewWalRest(img, s, n, f', o);
    PartsHold(img[WalName(n) := f'], s, h, o);
  }

  lemma RepairViewOk(img: Image, n: nat, f': File, h: History, o: Options)
    requires ViewOk(img, h, o) && WalName(n) in img && Repairs(img[WalName(n)], f', h, o)
    ensures ViewOk(img[WalName(n) := f'], h, o)
  {
    hide ViewHolds, Repairs;
    assert !Blank(img);
    var s :| ViewHolds(img, s, h, o);
    RepairHolds(img, s, n, f', h, o);
  }

  lemma RepairView(fs: FileSystem, dir: Directory, n: nat, inode: Inode, f': File, h: History, o: Options)
    requires DirectoryOk(dir, |fs.files|) && inode < |fs.files| && Repairs(fs.files[inode], f', h, o)
    requires ViewClaim(ImageOf(dir, fs.files), Anything, h, o)
    requires forall m :: m in dir && dir[m] == inode ==> m == WalName(n)
    ensures ViewClaim(ImageOf(dir, fs.files[inode := f']), Anything, h, o)
  {
    hide ViewOk, Repairs;
    if m :| m in dir && dir[m] == inode {
      assert m == WalName(n);
      ImageSetFile(dir, fs.files, WalName(n), f');
      RepairViewOk(ImageOf(dir, fs.files), n, f', h, o);
    } else {
      ImageSetOther(dir, fs.files, inode, f');
    }
  }

  /** Repairing a log keeps the disk recoverable, whichever views it is in. */
  lemma RepairKeeps(fs: FileSystem, n: nat, f': File, h: History, o: Options)
    requires Recoverable(fs, h, o) && Settled(fs) && WalName(n) in fs.Current() && f'.Valid()
    requires fs.Current()[WalName(n)] < |fs.files| && Repairs(fs.files[fs.Current()[WalName(n)]], f', h, o)
    ensures Recoverable(fs.SetFile(fs.Current()[WalName(n)], f'), h, o)
  {
    hide ViewClaim, Repairs, PerformAll;
    var inode := fs.Current()[WalName(n)];
    var after := fs.SetFile(inode, f');
    forall kept: nat | kept <= |fs.pending|
      ensures DirectoryOk(after.View(kept), |after.files|) && ViewClaim(ImageOf(after.View(kept), after.files), Anything, h, o)
    {
      var dir := fs.View(kept);
      assert after.View(kept) == dir;
      assert NamesAgree(fs.Current(), dir);
      RepairView(fs, dir, n, inode, f', h, o);
    }
  }

  lemma TruncateRepairs(f: File, h: History, o: Options)
    requires f.Valid() && Recover(f.current, o, 0).Recovered?
    ensures var cut := f.Truncate(Recover(f.current, o, 0).validBytes);
            cut.Valid() && Repairs(f, cut, h, o) && Repairs(f, cut.Sync(), h, o)
  {
    var size := Recover(f.current, o, 0).validBytes;
    var cut := f.Truncate(size);
    hide WalOk, FrozenOk, Recover;
    TruncateValid(f, size);
    forall floor: nat, log: seq<Record> | WalOk(f, floor, log, h, o)
      ensures WalOk(cut, floor, log, h, o) && WalOk(cut.Sync(), floor, log, h, o)
    {
      TruncateOk(f, floor, log, h, o);
      SyncOk(cut, floor, log, h, o);
    }
    forall floor: nat, frozen: seq<Record> | FrozenOk(f, frozen, floor, o)
      ensures FrozenOk(cut, frozen, floor, o) && FrozenOk(cut.Sync(), frozen, floor, o)
    {
      FrozenWhole(f, frozen, floor, o);
    }
  }

  lemma TruncateValid(f: File, size: nat)
    requires f.Valid() && size <= |f.current|
    ensures f.Truncate(size).Valid()
  {
    CurrentMayBecome(f);
    var g := f.Truncate(size);
    assert g.durable[..g.base] == f.durable[..f.base][..g.base];
    assert g.current[..g.base] == f.current[..f.base][..g.base];
  }

  /** A frozen log has no torn tail. */
  lemma FrozenWhole(f: File, frozen: seq<Record>, floor: nat, o: Options)
    requires FrozenOk(f, frozen, floor, o)
    ensures Recover(f.current, o, 0) == Recovered(frozen, |f.current|)
    ensures f.Truncate(|f.current|) == f && f.Sync() == f && f == StableFile(f.current)
  {
    hide Recover, LogBytes;
    RecoverExact(frozen, [], o, 0);
    assert LogBytes(frozen) + [] == LogBytes(frozen);
    assert f.current[..|f.current|] == f.current;
  }

  lemma OpenMayRepair(fs: FileSystem, n: nat, h: History, o: Options)
    requires Recoverable(fs, h, o) && Settled(fs) && WalName(n) in fs.Current()
    ensures fs.Current()[WalName(n)] < |fs.files|
    ensures MayRepair(fs, fs.Current()[WalName(n)], h, o)
  {
    assert DirectoryOk(fs.Current(), |fs.files|);
    hide Recoverable, Settled, Recover, Repairs, PerformAll;
    var inode := fs.Current()[WalName(n)];
    var f, r := fs.files[inode], Recover(fs.files[inode].current, o, 0);
    if r.Recovered? {
      FileValid(fs, inode, h, o);
      TruncateRepairs(f, h, o);
      RepairKeeps(fs, n, f.Truncate(r.validBytes), h, o);
      RepairKeeps(fs, n, f.Truncate(r.validBytes).Sync(), h, o);
    }
  }

  lemma FileValid(fs: FileSystem, inode: Inode, h: History, o: Options)
    requires Recoverable(fs, h, o) && inode < |fs.files|
    ensures fs.files[inode].Valid()
  {
  }

  // ----- Steps that keep the database that the current view holds ----------------------------------

  /** The disk is recoverable and a process sees the database `s` on it. */
  ghost predicate Sees(fs: FileSystem, s: Stored, h: History, o: Options) {
    Recoverable(fs, h, o) && ViewHolds(Now(fs), s, h, o)
  }

  lemma RepairSees(fs: FileSystem, n: nat, s: Stored, h: History, o: Options)
    requires Sees(fs, s, h, o) && Settled(fs) && WalName(n) in fs.Current()
    ensures var inode := fs.Current()[WalName(n)];
            && inode < |fs.files|
            && forall after :: Repaired(fs, after, inode, o) ==> Sees(after, s, h, o) && after.Current() == fs.Current()
  {
    hide Recoverable, Settled, Recover, ViewHolds, PerformAll;
    OpenMayRepair(fs, n, h, o);
    var inode := fs.Current()[WalName(n)];
    forall after | Repaired(fs, after, inode, o) ensures Sees(after, s, h, o) && after.Current() == fs.Current() {
      var f, r := fs.files[inode], Recover(fs.files[inode].current, o, 0);
      if r.validBytes != |f.current| {
        FileValid(fs, inode, h, o);
        TruncateRepairs(f, h, o);
        RepairedNow(fs, n, f.Truncate(r.validBytes).Sync(), s, h, o);
      }
    }
  }

  lemma RepairedNow(fs: FileSystem, n: nat, f': File, s: Stored, h: History, o: Options)
    requires Recoverable(fs, h, o) && ViewHolds(Now(fs), s, h, o) && WalName(n) in fs.Current()
    requires fs.Current()[WalName(n)] < |fs.files| && Repairs(fs.files[fs.Current()[WalName(n)]], f', h, o)
    ensures var after := fs.SetFile(fs.Current()[WalName(n)], f');
            ViewHolds(Now(after), s, h, o) && after.Current() == fs.Current()
  {
    hide *;
    CurrentOk(fs, h, o);
    NowSet(fs, WalName(n), f');
    RepairHolds(Now(fs), s, n, f', h, o);
  }

  /** Removing a name that the database does not read. */
  lemma UnlinkSees(fs: FileSystem, n: FileName, s: Stored, h: History, o: Options)
    requires Sees(fs, s, h, o) && !Relevant(n, s.version)
    ensures Sees(fs.Issue(Unlink(n)), s, h, o) && fs.Issue(Unlink(n)).Current() == fs.Current() - {n}
  {
    hide *;
    SeesParts(fs, s, h, o);
    CurrentOk(fs, h, o);
    AnyKeeps(fs, h, o);
    StaleFor(fs, n, s, h, o);
    UnlinkStaleKeeps(fs, n, Anything, h, o);
    AnyKeeps(fs.Issue(Unlink(n)), h, o);
    NowUnlink(fs, n);
    UnlinkedExcept(Now(fs), n);
    SameExceptHolds(Now(fs), Now(fs) - {n}, n, s, h, o);
    PartsSees(fs.Issue(Unlink(n)), s, h, o);
  }

  lemma SeesParts(fs: FileSystem, s: Stored, h: History, o: Options)
    requires Sees(fs, s, h, o)
    ensures Recoverable(fs, h, o) && ViewHolds(Now(fs), s, h, o)
  {
    hide Recoverable, ViewHolds, Now;
  }

  lemma PartsSees(fs: FileSystem, s: Stored, h: History, o: Options)
    requires Recoverable(fs, h, o) && ViewHolds(Now(fs), s, h, o)
    ensures Sees(fs, s, h, o)
  {
    hide Recoverable, ViewHolds, Now;
  }

  lemma StaleFor(fs: FileSystem, n: FileName, s: Stored, h: History, o: Options)
    requires ViewHolds(Now(fs), s, h, o) && !Relevant(n, s.version)
    ensures Stale(n, ImageOf(fs.Current(), fs.files), Anything, h, o)
  {
    hide ViewHolds, Relevant, PerformAll;
  }

  lemma CurrentOk(fs: FileSystem, h: History, o: Options)
    requires Recoverable(fs, h, o)
    ensures DirectoryOk(fs.Current(), |fs.files|) && fs.Ok()
  {
    hide ViewClaim, PerformAll, DirectoryOk;
  }

  lemma NowSet(fs: FileSystem, name: FileName, f': File)
    requires DirectoryOk(fs.Current(), |fs.files|) && name in fs.Current()
    ensures var after := fs.SetFile(fs.Current()[name], f');
            && Now(after) == Now(fs)[name := f'] && after.Current() == fs.Current()
            && name in Now(fs) && Now(fs)[name] == fs.files[fs.Current()[name]]
  {
    hide PerformAll;
    ImageSetFile(fs.Current(), fs.files, name, f');
    assert fs.SetFile(fs.Current()[name], f').Current() == fs.Current();
  }

  lemma NowUnlink(fs: FileSystem, n: FileName)
    requires DirectoryOk(fs.Current(), |fs.files|)
    ensures fs.Issue(Unlink(n)).Current() == fs.Current() - {n}
    ensures Now(fs.Issue(Unlink(n))) == Now(fs) - {n}
  {
    hide PerformAll;
    ViewAfterIssue(fs, Unlink(n), |fs.pending| + 1);
    ImageUnlink(fs.Current(), fs.files, n);
  }

  lemma UnlinkedExcept(img: Image, n: FileName)
    ensures SameExcept(img, img - {n}, n)
  {
  }

  lemma SyncSees(fs: FileSystem, s: Stored, h: History, o: Options)
    requires Sees(fs, s, h, o)
    ensures Sees(fs.SyncDirectory(), s, h, o) && fs.SyncDirectory().pending == []
    ensures fs.SyncDirectory().Current() == fs.Current()
  {
    hide ViewHolds, PerformAll, Keeps;
    AnyKeeps(fs, h, o);
    SyncKeeps(fs, Anything, h, o);
    AnyKeeps(fs.SyncDirectory(), h, o);
    ViewAfterSync(fs);
  }

  /** The first log of a database that has none. */
  lemma CreateSees(fs: FileSystem, s: Stored, h: History, o: Options)
    requires Sees(fs, s, h, o) && WalName(s.version.nextFileNumber) !in fs.Current()
    ensures var name := WalName(s.version.nextFileNumber);
            && Sees(fs.Create(name), s, h, o) && fs.Create(name).Current() == fs.Current()[name := |fs.files|]
            && |fs.files| < |fs.Create(name).files| && fs.Create(name).files[|fs.files|] == StableFile([])
  {
    var name := WalName(s.version.nextFileNumber);
    assert DirectoryOk(fs.Current(), |fs.files|) && fs.Ok();
    assert WalName(s.version.nextFileNumber + 1) !in Now(fs) by { HoldsParts(Now(fs), s, h, o); }
    hide ViewHolds, PerformAll, Keeps;
    AnyKeeps(fs, h, o);
    FirstWalHolds(Now(fs), s, h, o);
    assert ViewClaim(Now(fs)[name := StableFile([])], Anything, h, o);
    CreateKeeps(fs, name, Anything, h, o);
    AnyKeeps(fs.Create(name), h, o);
    CreatedCurrent(fs, name);
    CreatedNow(fs, name);
  }

  lemma CreatedNow(fs: FileSystem, name: FileName)
    requires DirectoryOk(fs.Current(), |fs.files|)
    ensures Now(fs.Create(name)) == Now(fs)[name := StableFile([])]
  {
    hide PerformAll;
    CreatedCurrent(fs, name);
  }

  // ----- What opening finds -----------------------------------------------------------------------

  const FIRST: Stored := Stored(NEW_DATABASE, [], [])

  lemma FindsDatabase(fs: FileSystem, h: History, o: Options) returns (s: Stored)
    requires Recoverable(fs, h, o) && FileName.Manifest in fs.Current()
    ensures Sees(fs, s, h, o)
  {
    NowViewOk(fs, h, o);
    hide Recoverable, ViewHolds, PerformAll;
    assert FileName.Manifest in Now(fs);
    s :| ViewHolds(Now(fs), s, h, o);
  }

  lemma NowViewOk(fs: FileSystem, h: History, o: Options)
    requires Recoverable(fs, h, o)
    ensures ViewOk(Now(fs), h, o) && Now(fs).Keys == fs.Current().Keys
  {
    hide ViewOk, PerformAll;
    CurrentClaim(fs, Anything, h, o);
  }

  /** Without a MANIFEST there is nothing but temporary files, and a new database may be published. */
  lemma FindsNothing(fs: FileSystem, h: History, o: Options)
    requires Recoverable(fs, h, o) && FileName.Manifest !in fs.Current() && o.Valid()
    ensures forall n :: n in fs.Current() ==> Temporary(n)
    ensures ReadyFor(Now(fs), FIRST, h, o) && ManifestEncodable(NEW_DATABASE, o.maxKeySize)
  {
    NowViewOk(fs, h, o);
    hide Recoverable, ReadyFor, ManifestEncodable, PerformAll, Now, Explains;
    assert Blank(Now(fs)) && Explains([], h);
    BlankReady(Now(fs), h, o);
  }

  lemma BlankReady(img: Image, h: History, o: Options)
    requires Blank(img) && Explains([], h) && o.Valid()
    ensures ReadyFor(img, FIRST, h, o) && ManifestEncodable(NEW_DATABASE, o.maxKeySize)
  {
    hide Explains;
    assert ValidVersion(NEW_DATABASE, o.maxKeySize) && InWidth(NEW_DATABASE);
    assert Means([], []);
    assert StoredOk(FIRST, o);
  }

  lemma SeenManifest(fs: FileSystem, s: Stored, h: History, o: Options)
    requires Sees(fs, s, h, o)
    ensures FileName.Manifest in fs.Current() && fs.Current()[FileName.Manifest] < |fs.files|
    ensures DecodeManifest(fs.files[fs.Current()[FileName.Manifest]].current, o.maxKeySize) == Accepted(s.version)
  {
    SeesParts(fs, s, h, o);
    CurrentOk(fs, h, o);
    HoldsParts(Now(fs), s, h, o);
    hide Sees, Recoverable, ViewHolds, PerformAll, DecodeManifest, StoredOk, TablesOk, WalsOk;
  }

  lemma SeenTable(fs: FileSystem, s: Stored, i: nat, h: History, o: Options)
    requires Sees(fs, s, h, o) && i < |s.version.tables|
    ensures |s.runs| == |s.version.tables|
    ensures var n := Table(s.version.tables[i].summary.generation);
            && n in fs.Current() && fs.Current()[n] < |fs.files|
            && var rd := OpenTable(fs.files[fs.Current()[n]].current, o);
               rd.Some? && rd.value.summary == s.version.tables[i].summary && Contents(rd.value, o) == s.runs[i]
  {
    hide *;
    SeesParts(fs, s, h, o);
    CurrentOk(fs, h, o);
    HoldsParts(Now(fs), s, h, o);
    SeenTableAt(fs, s, i, o);
  }

  lemma SeenTableAt(fs: FileSystem, s: Stored, i: nat, o: Options)
    requires DirectoryOk(fs.Current(), |fs.files|) && TablesOk(Now(fs), s, o) && i < |s.version.tables|
    ensures |s.runs| == |s.version.tables|
    ensures var n := Table(s.version.tables[i].summary.generation);
            && n in fs.Current() && fs.Current()[n] < |fs.files|
            && var rd := OpenTable(fs.files[fs.Current()[n]].current, o);
               rd.Some? && rd.value.summary == s.version.tables[i].summary && Contents(rd.value, o) == s.runs[i]
  {
    hide PerformAll, OpenTable, Contents;
    assert TableOk(Now(fs), s.version.tables[i].summary, s.runs[i], o);
  }

  /** At most two logs are at or above the frontier, and the lower one is there if the upper one is. */
  lemma SeenWals(fs: FileSystem, s: Stored, h: History, o: Options)
    requires Sees(fs, s, h, o)
    ensures forall n: nat :: WalName(n) in fs.Current() ==> n <= s.version.nextFileNumber + 1
    ensures WalName(s.version.nextFileNumber + 1) in fs.Current() ==> s.version.nextFileNumber < MAX64
    ensures WalName(s.version.nextFileNumber + 1) in fs.Current() ==> WalName(s.version.nextFileNumber) in fs.Current()
    ensures WalName(s.version.nextFileNumber) !in fs.Current() ==> Explains(s.log, h)
  {
    SeesParts(fs, s, h, o);
    NowViewOk(fs, h, o);
    HoldsParts(Now(fs), s, h, o);
    hide Sees, Recoverable, ViewHolds, PerformAll, Now, StoredOk, TablesOk, ManifestOk, ViewOk, WalOk, Explains, TwoWalsOk;
    assert forall n: nat :: WalName(n) in fs.Current() <==> WalName(n) in Now(fs);
  }

  /** The records of the log that takes writes, when no other log is unflushed. */
  lemma SeenOneWal(fs: FileSystem, s: Stored, h: History, o: Options)
    requires Sees(fs, s, h, o)
    requires WalName(s.version.nextFileNumber) in fs.Current() && WalName(s.version.nextFileNumber + 1) !in fs.Current()
    ensures fs.Current()[WalName(s.version.nextFileNumber)] < |fs.files|
    ensures var r := Recover(fs.files[fs.Current()[WalName(s.version.nextFileNumber)]].current, o, 0);
            r.Recovered? && Rising(r.records, s.version.lastSequence) && Explains(s.log + r.records, h)
  {
    hide *;
    SeesParts(fs, s, h, o);
    CurrentOk(fs, h, o);
    HoldsParts(Now(fs), s, h, o);
    NowAt(fs, WalName(s.version.nextFileNumber));
    NowAt(fs, WalName(s.version.nextFileNumber + 1));
    OneWalContent(Now(fs), s, h, o);
  }

  lemma NowAt(fs: FileSystem, n: FileName)
    requires DirectoryOk(fs.Current(), |fs.files|)
    ensures n in Now(fs) <==> n in fs.Current()
    ensures n in fs.Current() ==> fs.Current()[n] < |fs.files| && Now(fs)[n] == fs.files[fs.Current()[n]]
  {
    hide PerformAll;
  }

  lemma OneWalContent(img: Image, s: Stored, h: History, o: Options)
    requires WalsOk(img, s, h, o)
    requires WalName(s.version.nextFileNumber) in img && WalName(s.version.nextFileNumber + 1) !in img
    ensures var r := Recover(img[WalName(s.version.nextFileNumber)].current, o, 0);
            r.Recovered? && Rising(r.records, s.version.lastSequence) && Explains(s.log + r.records, h)
  {
    hide Recover, Rising, Explains;
    var f := img[WalName(s.version.nextFileNumber)];
    CurrentMayBecome(f);
    assert WalContentOk(f.current, s.version.lastSequence, s.log, h, o);
  }

  /** A frozen log and, above it, the log that takes writes. */
  lemma SeenTwoWals(fs: FileSystem, s: Stored, h: History, o: Options)
    requires Sees(fs, s, h, o) && WalName(s.version.nextFileNumber + 1) in fs.Current()
    ensures WalName(s.version.nextFileNumber) in fs.Current() && fs.Current()[WalName(s.version.nextFileNumber)] < |fs.files|
    ensures fs.Current()[WalName(s.version.nextFileNumber + 1)] < |fs.files|
    ensures var f := fs.files[fs.Current()[WalName(s.version.nextFileNumber)]];
            var below := Recover(f.current, o, 0);
            var above := Recover(fs.files[fs.Current()[WalName(s.version.nextFileNumber + 1)]].current, o, 0);
            && below.Recovered? && below.records != [] && below.validBytes == |f.current|
            && f == StableFile(LogBytes(below.records)) && AllEncodable(below.records, o)
            && Rising(below.records, s.version.lastSequence)
            && above.Recovered? && Rising(above.records, LastSequence(below.records))
            && Explains(s.log + below.records + above.records, h)
  {
    hide *;
    SeesParts(fs, s, h, o);
    CurrentOk(fs, h, o);
    HoldsParts(Now(fs), s, h, o);
    SeenWals(fs, s, h, o);
    NowAt(fs, WalName(s.version.nextFileNumber));
    NowAt(fs, WalName(s.version.nextFileNumber + 1));
    TwoWalContents(Now(fs), s, h, o);
  }

  lemma TwoWalContents(img: Image, s: Stored, h: History, o: Options)
    requires WalsOk(img, s, h, o) && WalName(s.version.nextFileNumber + 1) in img
    ensures WalName(s.version.nextFileNumber) in img
    ensures var f := img[WalName(s.version.nextFileNumber)];
            var below := Recover(f.current, o, 0);
            var above := Recover(img[WalName(s.version.nextFileNumber + 1)].current, o, 0);
            && below.Recovered? && below.records != [] && below.validBytes == |f.current|
            && f == StableFile(LogBytes(below.records)) && AllEncodable(below.records, o)
            && Rising(below.records, s.version.lastSequence)
            && above.Recovered? && Rising(above.records, LastSequence(below.records))
            && Explains(s.log + below.records + above.records, h)
  {
    hide Recover, Rising, Explains, LogBytes, AllEncodable;
    var next, floor := s.version.nextFileNumber, s.version.lastSequence;
    var frozen :| TwoWalsOk(img, s, frozen, h, o);
    FrozenWhole(img[WalName(next)], frozen, floor, o);
    var f := img[WalName(next + 1)];
    CurrentMayBecome(f);
    assert WalContentOk(f.current, LastSequence(frozen), s.log + frozen, h, o);
  }

  /** A recovered log's file holds exactly the records that were replayed. */
  lemma RepairedHoldsLog(fs: FileSystem, after: FileSystem, inode: Inode, o: Options)
    requires inode < |fs.files| && Repaired(fs, after, inode, o)
    ensures Recover(fs.files[inode].current, o, 0).Recovered? && inode < |after.files|
    ensures Holds(after.files[inode], Recover(fs.files[inode].current, o, 0).records, o)
  {
    hide Recover, LogBytes;
    var content := fs.files[inode].current;
    var r := Recover(content, o, 0);
    RecoveredParts(content, o, 0);
    assert content[..|content|] == content;
  }

  // ----- A running database ------------------------------------------------------------------------

  /** What a freshly opened database has in memory. */
  function FoundMemory(
    v: Version, readers: seq<Reader>, frozen: Option<Run>, maximum: nat, mutable: Run, wal: Inode, last: nat): Memory
  {
    match frozen
    case None => Memory(v, readers, mutable, v.nextFileNumber, Some(wal), None, None, last, false)
    case Some(run) =>
      Memory(v, readers, mutable, v.nextFileNumber + 1, Some(wal),
             Some(Immutable(v.nextFileNumber, run, maximum, None, false, false)), None, last, false)
  }

  /** The log that takes writes is where the invariant wants it. */
  ghost predicate ActiveAt(fs: FileSystem, m: Memory, l: Logs, o: Options) {
    && m.wal.Some? && m.wal.value < |fs.files|
    && WalName(m.generation) in fs.Current() && fs.Current()[WalName(m.generation)] == m.wal.value
    && Holds(fs.files[m.wal.value], l.active, o)
  }

  ghost predicate FrozenAt(fs: FileSystem, m: Memory, l: Logs) {
    m.immutable.Some? ==>
      && !m.immutable.value.published && m.immutable.value.pending.None? && l.twoWals
      && Placed(fs, WalName(m.immutable.value.generation), LogBytes(l.frozen))
  }

  lemma OpenedInv(fs: FileSystem, h: History, m: Memory, l: Logs, o: Options)
    requires Sees(fs, StoredOf(m, l, o), h, o) && fs.pending == [] && m.compaction.None?
    requires MemoryOk(m, l, o) && Explains(LogOf(m, l), h) && ActiveAt(fs, m, l, o) && FrozenAt(fs, m, l)
    requires m.immutable.None? ==> WalName(m.generation + 1) !in fs.Current()
    ensures Inv(fs, h, m, l, o)
  {
    hide *;
    SeesParts(fs, StoredOf(m, l, o), h, o);
    CurrentOk(fs, h, o);
    NewWalNumbers(m, l, o);
    SeenWals(fs, StoredOf(m, l, o), h, o);
    FoundWalFile(fs, m, l, o);
    OpenedClaim(fs, m, l, h, o);
    SyncedKeeps(fs, ClaimOf(m, l, o), h, o);
    PartsInv(fs, h, m, l, o);
  }

  lemma FoundWalFile(fs: FileSystem, m: Memory, l: Logs, o: Options)
    requires ActiveAt(fs, m, l, o) && fs.pending == []
    ensures WalFileOk(fs, m, l, o)
  {
    hide PerformAll, Holds;
  }

  lemma OpenedClaim(fs: FileSystem, m: Memory, l: Logs, h: History, o: Options)
    requires DirectoryOk(fs.Current(), |fs.files|) && ViewHolds(Now(fs), StoredOf(m, l, o), h, o) && FrozenAt(fs, m, l)
    requires m.compaction.None?
    requires StoredOf(m, l, o).version == m.version
    requires m.Flushing() ==> m.generation == m.version.nextFileNumber + 1
    requires !m.Flushing() ==> m.generation == m.version.nextFileNumber
    requires forall n: nat :: WalName(n) in fs.Current() ==> n <= m.version.nextFileNumber + 1
    requires m.immutable.None? ==> WalName(m.generation + 1) !in fs.Current()
    ensures ViewClaim(ImageOf(fs.Current(), fs.files), ClaimOf(m, l, o), h, o)
  {
    hide PerformAll, ViewHolds, StoredOf, LogBytes;
    var img := ImageOf(fs.Current(), fs.files);
    assert img.Keys == fs.Current().Keys;
    assert m.immutable.Some? ==> m.Flushing();
  }

  /** The memory of a freshly opened database satisfies its half of the invariant. */
  lemma FoundMemoryOk(s: Stored, readers: seq<Reader>, frozen: seq<Record>, active: seq<Record>, wal: Inode, last: nat, o: Options)
    requires o.Valid() && StoredOk(s, o) && |readers| == |s.version.tables|
    requires forall i :: 0 <= i < |readers| ==>
               readers[i].summary == s.version.tables[i].summary && Contents(readers[i], o) == s.runs[i] && Opened(readers[i], o)
    requires AllEncodable(frozen, o) && Rising(frozen, s.version.lastSequence)
    requires AllEncodable(active, o) && Rising(active, if frozen == [] then s.version.lastSequence else LastSequence(frozen))
    requires last == Highest(Highest(s.version.lastSequence, Top(frozen)), Top(active))
    requires frozen != [] ==> s.version.nextFileNumber < MAX64
    ensures var m := FoundMemory(s.version, readers, if frozen == [] then None else Some(Fold(frozen)), Top(frozen),
                                  Fold(active), wal, last);
            var l := Logs(s.log, frozen, active, frozen != []);
            && MemoryOk(m, l, o) && StoredOf(m, l, o) == s && LogOf(m, l) == s.log + frozen + active
  {
    hide *;
    var m := FoundMemory(s.version, readers, if frozen == [] then None else Some(Fold(frozen)), Top(frozen), Fold(active), wal, last);
    var l := Logs(s.log, frozen, active, frozen != []);
    StoredVersionWidth(s, o);
    OpenedReaders(s, readers, frozen, active, wal, last, o);
    OpenedLogs(s, readers, frozen, active, wal, last, o);
    PartsMemory(m, l, o);
  }

  function Highest(a: nat, b: nat): nat {
    if a < b then b else a
  }

  lemma StoredVersionWidth(s: Stored, o: Options)
    requires StoredOk(s, o)
    ensures s.version.nextFileNumber <= MAX64 && s.version.lastSequence <= MAX64 && |s.runs| == |s.version.tables|
  {
    hide ValidVersion, Means;
  }

  lemma OpenedReaders(s: Stored, readers: seq<Reader>, frozen: seq<Record>, active: seq<Record>, wal: Inode, last: nat, o: Options)
    requires StoredOk(s, o) && |readers| == |s.version.tables|
    requires forall i :: 0 <= i < |readers| ==>
               && readers[i].summary == s.version.tables[i].summary && |s.runs| == |readers|
               && Contents(readers[i], o) == s.runs[i] && Opened(readers[i], o)
    ensures var m := FoundMemory(s.version, readers, if frozen == [] then None else Some(Fold(frozen)), Top(frozen),
                                  Fold(active), wal, last);
            var l := Logs(s.log, frozen, active, frozen != []);
            ReadersOk(m, l, o) && StoredOf(m, l, o) == s
  {
    hide StoredOk, Fold, Contents, Opened, Top;
    StoredLengths(s, o);
    assert RunsOf(readers, o) == s.runs;
  }

  lemma StoredLengths(s: Stored, o: Options)
    requires StoredOk(s, o)
    ensures |s.runs| == |s.version.tables|
  {
    hide Means, ValidVersion, Encodable, Distinct, InWidth, GenerationsAscend;
  }

  lemma OpenedLogs(s: Stored, readers: seq<Reader>, frozen: seq<Record>, active: seq<Record>, wal: Inode, last: nat, o: Options)
    requires s.version.nextFileNumber <= MAX64 && s.version.lastSequence <= MAX64
    requires AllEncodable(frozen, o) && Rising(frozen, s.version.lastSequence)
    requires AllEncodable(active, o) && Rising(active, if frozen == [] then s.version.lastSequence else LastSequence(frozen))
    requires last == Highest(Highest(s.version.lastSequence, Top(frozen)), Top(active))
    requires frozen != [] ==> s.version.nextFileNumber < MAX64
    ensures var m := FoundMemory(s.version, readers, if frozen == [] then None else Some(Fold(frozen)), Top(frozen),
                                  Fold(active), wal, last);
            var l := Logs(s.log, frozen, active, frozen != []);
            && GenerationsOk(m) && FrozenLogOk(m, l, o) && ActiveLogOk(m, l, o) && PendingOk(m, o) && CompactionOk(m, l, o)
            && LogOf(m, l) == s.log + frozen + active
  {
    hide Fold, AllEncodable, Rising;
    LogBound(frozen, s.version.lastSequence, o);
    LogBound(active, if frozen == [] then s.version.lastSequence else LastSequence(frozen), o);
    assert s.log + [] + active == s.log + active;
  }

  /** The last record of a rising log has its greatest sequence number. */
  lemma LogBound(log: seq<Record>, floor: nat, o: Options)
    requires AllEncodable(log, o) && Rising(log, floor)
    ensures Top(log) <= MAX64 && (log != [] ==> floor < Top(log) == LastSequence(log))
    ensures forall i :: 0 <= i < |log| ==> log[i].sequence <= Top(log)
  {
    hide Encodable;
    if log != [] {
      assert log[|log| - 1] in log;
      EncodableSequence(log[|log| - 1], o);
    }
  }
}
