/** Writing a file under a temporary name and publishing a MANIFEST (src/flush.cpp:107-171, src/manifest.cpp:411-457). */
module Publishing {
  import opened Coding
  import opened Configuration
  import opened Keys
  import opened Versions
  import opened Compaction
  import opened Manifest
  import opened FileSystem
  import opened Durability
  import opened Claims
  import opened PublishSteps
  import opened EngineSteps
  import opened Disks

  /** The name has this content, synced, in the directory as it is now. */
  ghost predicate Placed(fs: FileSystem, name: FileName, content: Bytes) {
    && name in fs.Current() && fs.Current()[name] < |fs.files|
    && fs.files[fs.Current()[name]] == StableFile(content)
  }

  ghost function Now(fs: FileSystem): Image {
    ImageOf(fs.Current(), fs.files)
  }

  // ----- Lemmas about the temporary file ------------------------------------------------------------

  lemma CreatedSame(fs: FileSystem, name: FileName)
    requires fs.Ok()
    ensures fs.Create(name).Current() == fs.Current()[name := |fs.files|]
    ensures SameExcept(Now(fs), Now(fs.Create(name)), name)
  {
    hide PerformAll;
    ViewAfterIssue(fs, Link(name, |fs.files|), |fs.pending| + 1);
    assert fs.Create(name).Current() == fs.Issue(Link(name, |fs.files|)).Current();
    assert DirectoryOk(fs.Current(), |fs.files|);
  }

  lemma SetSame(before: Image, fs: FileSystem, name: FileName, f: File)
    requires fs.Ok() && name in fs.Current() && SameExcept(before, Now(fs), name)
    ensures fs.Current()[name] < |fs.files|
    ensures fs.SetFile(fs.Current()[name], f).Current() == fs.Current()
    ensures SameExcept(before, Now(fs.SetFile(fs.Current()[name], f)), name)
  {
    hide PerformAll;
    assert DirectoryOk(fs.Current(), |fs.files|);
    var after := fs.SetFile(fs.Current()[name], f);
    assert after.Current() == fs.Current();
    ImageSetFile(fs.Current(), fs.files, name, f);
  }

  lemma UnlinkedSame(before: Image, fs: FileSystem, name: FileName)
    requires fs.Ok() && SameExcept(before, Now(fs), name)
    ensures SameExcept(before, Now(fs.Issue(Unlink(name))), name)
  {
    hide PerformAll;
    assert DirectoryOk(fs.Current(), |fs.files|);
    ViewAfterIssue(fs, Unlink(name), |fs.pending| + 1);
    ImageUnlink(fs.Current(), fs.files, name);
  }

  lemma SameExceptSelf(img: Image, name: FileName)
    ensures SameExcept(img, img, name)
  {
  }

  lemma ClaimOk(fs: FileSystem, c: Claim, h: History, o: Options)
    requires Keeps(fs, c, h, o)
    ensures fs.Ok() && Recoverable(fs, h, o)
  {
    KeepsRecoverable(fs, c, h, o);
  }

  /** What every step of writing a temporary file keeps. */
  ghost predicate Writing(fs: FileSystem, start: FileSystem, name: FileName, c: Claim, h: History, o: Options) {
    Keeps(fs, c, h, o) && WalFrame(start, fs) && SameExcept(Now(start), Now(fs), name)
  }

  /** The file being written is new and only its temporary name refers to it. */
  ghost predicate Fresh(fs: FileSystem, start: FileSystem, name: FileName, inode: Inode) {
    && |start.files| <= inode < |fs.files| && OnlyTemporary(fs, inode)
    && name in fs.Current() && fs.Current()[name] == inode
  }

  lemma CreatedWriting(fs: FileSystem, name: FileName, c: Claim, h: History, o: Options)
    requires Keeps(fs, c, h, o) && Temporary(name)
    ensures Writing(fs.Create(name), fs, name, c, h, o) && Fresh(fs.Create(name), fs, name, |fs.files|)
    ensures |fs.files| < |fs.Create(name).files| && fs.Create(name).files[|fs.files|] == StableFile([])
  {
    hide Keeps, WalFrame, SameExcept, OnlyTemporary, PerformAll, Recoverable;
    ClaimOk(fs, c, h, o);
    CreatedSame(fs, name);
    CreateTemporaryKeeps(fs, name, c, h, o);
    CreateFrame(fs, name);
  }

  lemma SetWriting(fs: FileSystem, start: FileSystem, name: FileName, inode: Inode, f: File, c: Claim, h: History, o: Options)
    requires Writing(fs, start, name, c, h, o) && Fresh(fs, start, name, inode) && f.Valid()
    ensures Writing(fs.SetFile(inode, f), start, name, c, h, o) && Fresh(fs.SetFile(inode, f), start, name, inode)
  {
    hide Keeps, WalFrame, SameExcept, OnlyTemporary, PerformAll, Recoverable;
    ClaimOk(fs, c, h, o);
    SetSame(Now(start), fs, name, f);
    SetTemporaryKeeps(fs, inode, f, c, h, o);
    SetNewFrame(start, fs, inode, f);
  }

  lemma UnlinkWriting(fs: FileSystem, start: FileSystem, name: FileName, c: Claim, h: History, o: Options)
    requires Writing(fs, start, name, c, h, o) && Temporary(name)
    ensures Writing(fs.Issue(Unlink(name)), start, name, c, h, o)
  {
    hide Keeps, WalFrame, SameExcept, PerformAll, Recoverable;
    ClaimOk(fs, c, h, o);
    UnlinkedSame(Now(start), fs, name);
    UnlinkTemporaryKeeps(fs, name, c, h, o);
    IssueFrame(fs, Unlink(name));
    WalFrameTransitive(start, fs, fs.Issue(Unlink(name)));
  }

  lemma WritingSelf(fs: FileSystem, name: FileName, c: Claim, h: History, o: Options)
    requires Keeps(fs, c, h, o)
    ensures Writing(fs, fs, name, c, h, o)
  {
    hide Keeps, WalFrame;
    WalFrameSelf(fs);
    SameExceptSelf(Now(fs), name);
  }

  lemma WritingParts(fs: FileSystem, start: FileSystem, name: FileName, c: Claim, h: History, o: Options)
    requires Writing(fs, start, name, c, h, o)
    ensures Keeps(fs, c, h, o) && WalFrame(start, fs) && SameExcept(Now(start), Now(fs), name)
    ensures fs.Ok() && Recoverable(fs, h, o)
  {
    ClaimOk(fs, c, h, o);
    hide Keeps, WalFrame, SameExcept;
  }

  lemma FreshParts(fs: FileSystem, start: FileSystem, name: FileName, inode: Inode)
    requires Fresh(fs, start, name, inode)
    ensures inode < |fs.files| && name in fs.Current() && fs.Current()[name] == inode
  {
    hide OnlyTemporary, PerformAll;
  }

  lemma AppendedValid(f: File, data: Bytes)
    requires f.Valid()
    ensures f.Append(data).Valid() && f.Sync().Valid()
  {
  }

  // ----- Methods ---------------------------------------------------------------------------------

  /** BestEffortRemove: the outcome does not matter. */
  method BestEffortRemove(disk: Disk, name: FileName, ghost start: FileSystem, ghost c: Claim)
    requires disk.Safe() && Temporary(name) && Writing(disk.fs, start, name, c, disk.history, disk.options)
    modifies disk
    ensures old(disk.trace) <= disk.trace
    ensures disk.Safe() && disk.history == old(disk.history) && disk.calls >= old(disk.calls) && disk.failures >= old(disk.failures)
    ensures Writing(disk.fs, start, name, c, disk.history, disk.options)
  {
    hide *;
    UnlinkWriting(disk.fs, start, name, c, disk.history, disk.options);
    WritingParts(disk.fs.Issue(Unlink(name)), start, name, c, disk.history, disk.options);
    var ignored := disk.RemoveFile(name);
  }

  /** The disk once a new file has been created under this name, written and synced. */
  ghost function Written(fs: FileSystem, name: FileName, content: Bytes): FileSystem {
    fs.Create(name).SetFile(|fs.files|, StableFile(content))
  }

  /** The disk once a MANIFEST has been written and renamed into place. */
  ghost function Moved(fs: FileSystem, content: Bytes): FileSystem {
    Written(fs, ManifestTemporary, content).Issue(Move(ManifestTemporary, FileName.Manifest))
  }

  /** The disk once the directory has been synced as well. */
  ghost function Renamed(fs: FileSystem, content: Bytes): FileSystem {
    Moved(fs, content).SyncDirectory()
  }

  lemma RenamedIs(fs: FileSystem, content: Bytes)
    ensures Renamed(fs, content) == Moved(fs, content).SyncDirectory()
    ensures Moved(fs, content) == Written(fs, ManifestTemporary, content).Issue(Move(ManifestTemporary, FileName.Manifest))
  {
    hide Written, PerformAll;
  }

  /** Appending everything to a new file and syncing it. */
  lemma WrittenIs(fs: FileSystem, name: FileName, data: Bytes)
    ensures var created := fs.Create(name);
            && |fs.files| < |created.files|
            && var appended := created.SetFile(|fs.files|, created.files[|fs.files|].Append(data[..|data|]));
               appended.SetFile(|fs.files|, appended.files[|fs.files|].Sync()) == Written(fs, name, data)
  {
    assert [] + data[..|data|] == data;
  }

  /** Creates, writes and syncs a file under a temporary name, or removes it again. */
  method WriteTemporary(disk: Disk, name: FileName, data: Bytes, ghost c: Claim) returns (ok: bool)
    requires disk.Safe() && Temporary(name) && Keeps(disk.fs, c, disk.history, disk.options)
    modifies disk
    ensures old(disk.trace) <= disk.trace
    ensures disk.Safe() && disk.history == old(disk.history) && disk.calls >= old(disk.calls) && disk.failures >= old(disk.failures)
    ensures Writing(disk.fs, old(disk.fs), name, c, disk.history, disk.options)
    ensures disk.failures == old(disk.failures) || disk.Quiet(old(disk.calls), 3) ==> ok
    ensures ok ==> disk.calls == old(disk.calls) + 3 && disk.failures == old(disk.failures)
    ensures disk.faults(old(disk.calls)) ==> !ok && disk.fs == old(disk.fs)
    ensures ok ==> Placed(disk.fs, name, data) && disk.fs == Written(old(disk.fs), name, data)
  {
    hide *;
    ghost var start, h, o := disk.fs, disk.history, disk.options;
    QuietCall(disk, disk.calls, 3, disk.calls);
    QuietCall(disk, disk.calls, 3, disk.calls + 1);
    QuietCall(disk, disk.calls, 3, disk.calls + 2);
    WritingSelf(start, name, c, h, o);
    CreatedWriting(start, name, c, h, o);
    WritingParts(start.Create(name), start, name, c, h, o);
    var inode;
    ok, inode := disk.CreateTruncated(name);
    if !ok {
      return;
    }
    FreshParts(disk.fs, start, name, inode);
    ghost var created := disk.fs;
    forall n | 0 <= n <= |data| ensures Recoverable(created.SetFile(inode, created.files[inode].Append(data[..n])), h, o) {
      StableValid([]);
      AppendedValid(created.files[inode], data[..n]);
      SetWriting(created, start, name, inode, created.files[inode].Append(data[..n]), c, h, o);
      WritingParts(created.SetFile(inode, created.files[inode].Append(data[..n])), start, name, c, h, o);
    }
    ghost var count;
    disk.SafeNow();
    ok, count := disk.Write(inode, data, disk.history);
    StableValid([]);
    AppendedValid(created.files[inode], data[..count]);
    SetWriting(created, start, name, inode, created.files[inode].Append(data[..count]), c, h, o);
    if !ok {
      BestEffortRemove(disk, name, start, c);
      return;
    }
    ghost var written := disk.fs;
    FreshParts(written, start, name, inode);
    WrittenContent(created, inode, data);
    AppendedValid(written.files[inode], []);
    SetWriting(written, start, name, inode, written.files[inode].Sync(), c, h, o);
    WritingParts(written.SetFile(inode, written.files[inode].Sync()), start, name, c, h, o);
    disk.SafeNow();
    ok := disk.SyncFile(inode, disk.history);
    if !ok {
      BestEffortRemove(disk, name, start, c);
      return;
    }
    FreshParts(disk.fs, start, name, inode);
    PlacedNow(disk.fs, name, inode, data);
    WrittenIs(start, name, data);
  }

  lemma WrittenContent(fs: FileSystem, inode: Inode, data: Bytes)
    requires inode < |fs.files| && fs.files[inode] == StableFile([])
    ensures var after := fs.SetFile(inode, fs.files[inode].Append(data[..|data|]));
            && inode < |after.files| && after.files[inode].Valid()
            && after.SetFile(inode, after.files[inode].Sync()).files[inode] == StableFile(data)
  {
    assert [] + data[..|data|] == data;
  }

  lemma StableValid(content: Bytes)
    ensures StableFile(content).Valid()
  {
  }

  lemma PlacedNow(fs: FileSystem, name: FileName, inode: Inode, data: Bytes)
    requires name in fs.Current() && fs.Current()[name] == inode < |fs.files| && fs.files[inode] == StableFile(data)
    ensures Placed(fs, name, data)
  {
    hide PerformAll;
  }

  // ----- Publishing a MANIFEST ------------------------------------------------------------------

  /** Readiness does not depend on the temporary name. */
  lemma SameExceptReady(a: Image, b: Image, s: Stored, h: History, o: Options)
    requires ReadyFor(a, s, h, o) && SameExcept(a, b, ManifestTemporary)
    ensures ReadyFor(b, s, h, o)
  {
    hide *;
    ReadyParts(a, s, h, o);
    SameExceptTables(a, b, s, o);
    SameExceptWals(a, b, s, h, o);
    PartsReady(b, s, h, o);
  }

  lemma ReadyParts(img: Image, s: Stored, h: History, o: Options)
    requires ReadyFor(img, s, h, o)
    ensures StoredOk(s, o) && TablesOk(img, s, o) && WalsOk(img, s, h, o)
  {
  }

  lemma SameExceptTables(a: Image, b: Image, s: Stored, o: Options)
    requires TablesOk(a, s, o) && SameExcept(a, b, ManifestTemporary)
    ensures TablesOk(b, s, o)
  {
    forall i | 0 <= i < |s.runs| ensures TableOk(b, s.version.tables[i].summary, s.runs[i], o) {
      assert TableOk(a, s.version.tables[i].summary, s.runs[i], o);
    }
  }

  lemma SameExceptWals(a: Image, b: Image, s: Stored, h: History, o: Options)
    requires WalsOk(a, s, h, o) && SameExcept(a, b, ManifestTemporary)
    ensures WalsOk(b, s, h, o)
  {
    hide WalOk, FrozenOk, Explains;
    assert forall n: nat :: WalName(n) in b <==> WalName(n) in a;
    if WalName(s.version.nextFileNumber + 1) in a {
      var frozen :| TwoWalsOk(a, s, frozen, h, o);
      assert TwoWalsOk(b, s, frozen, h, o);
    }
  }

  /** A claim that lets views move on to `s`. */
  ghost predicate Allows(c: Claim, s: Stored) {
    c == Anything || (c.Running? && c.candidate == Some(s) && FileName.Manifest !in c.pins)
  }

  lemma RenameKeeps(fs: FileSystem, c: Claim, s: Stored, h: History, o: Options)
    requires Keeps(fs, c, h, o) && Allows(c, s) && ReadyFor(Now(fs), s, h, o)
    requires ManifestTemporary in fs.Current() && fs.Current()[ManifestTemporary] < |fs.files|
    requires Encodes(fs.files[fs.Current()[ManifestTemporary]], s.version, o)
    ensures var after := fs.Issue(Move(ManifestTemporary, FileName.Manifest));
            Keeps(after, c, h, o) && ViewHolds(Now(after), s, h, o)
  {
    hide ViewHolds, ReadyFor, Encodes, PerformAll, Keeps;
    if c == Anything {
      AnyKeeps(fs, h, o);
      RenameFirstManifestKeeps(fs, s, h, o);
      AnyKeeps(fs.Issue(Move(ManifestTemporary, FileName.Manifest)), h, o);
    } else {
      RenameManifestKeeps(fs, c, h, o);
    }
  }

  lemma AnyKeeps(fs: FileSystem, h: History, o: Options)
    ensures Keeps(fs, Anything, h, o) == Recoverable(fs, h, o)
  {
    hide Keeps;
  }

  /** What stays true between the rename and the end. */
  lemma SyncedHolds(fs: FileSystem, c: Claim, s: Stored, h: History, o: Options)
    requires Keeps(fs, c, h, o) && ViewHolds(Now(fs), s, h, o)
    ensures Keeps(fs.SyncDirectory(), c, h, o) && ViewHolds(Now(fs.SyncDirectory()), s, h, o)
    ensures fs.SyncDirectory().pending == []
  {
    hide Keeps, ViewHolds, PerformAll;
    SyncKeeps(fs, c, h, o);
    ViewAfterSync(fs);
  }

  lemma PlacedEncodes(fs: FileSystem, v: Version, o: Options)
    requires Placed(fs, ManifestTemporary, ManifestBytes(v)) && ManifestEncodable(v, o.maxKeySize) && InWidth(v)
    ensures ManifestTemporary in fs.Current() && fs.Current()[ManifestTemporary] < |fs.files|
    ensures Encodes(fs.files[fs.Current()[ManifestTemporary]], v, o)
  {
    hide PerformAll, ManifestBytes, DecodeManifest, ManifestEncodable, InWidth;
    DecodeManifestBytes(v, o.maxKeySize);
  }

  lemma StoredInWidth(s: Stored, o: Options)
    requires StoredOk(s, o)
    ensures InWidth(s.version)
  {
    hide ValidVersion, Described, Means, InWidth;
  }

  lemma ManifestNames()
    ensures Temporary(ManifestTemporary) && SparesWals(Move(ManifestTemporary, FileName.Manifest))
  {
  }

  /** Replaces the MANIFEST.  On success every crash from now on finds the new version. */
  method PublishManifest(disk: Disk, v: Version, ghost s: Stored, ghost c: Claim) returns (ok: bool)
    requires disk.Safe() && Keeps(disk.fs, c, disk.history, disk.options) && Allows(c, s) && s.version == v
    requires ReadyFor(Now(disk.fs), s, disk.history, disk.options)
    modifies disk
    ensures old(disk.trace) <= disk.trace
    ensures disk.Safe() && disk.history == old(disk.history) && disk.calls >= old(disk.calls) && disk.failures >= old(disk.failures)
    ensures Keeps(disk.fs, c, disk.history, disk.options) && WalFrame(old(disk.fs), disk.fs)
    ensures disk.failures == old(disk.failures) && ManifestEncodable(v, disk.options.maxKeySize) ==> ok
    ensures ok ==> disk.fs.pending == [] && ViewHolds(Now(disk.fs), s, disk.history, disk.options)
    ensures ok ==> disk.fs == Renamed(old(disk.fs), ManifestBytes(v)) && ManifestEncodable(v, disk.options.maxKeySize)
    ensures ok ==> disk.calls == old(disk.calls) + 5 && disk.failures == old(disk.failures)
    ensures disk.Quiet(old(disk.calls), 4) && ManifestEncodable(v, disk.options.maxKeySize) ==>
              && ok == !disk.faults(old(disk.calls) + 4)
              && (!ok ==> disk.fs == Moved(old(disk.fs), ManifestBytes(v)))
    ensures disk.faults(old(disk.calls)) ==> !ok && disk.fs == old(disk.fs)
  {
    hide *;
    ManifestNames();
    RenamedIs(disk.fs, ManifestBytes(v));
    QuietPart(disk, disk.calls, 4, disk.calls, 3);
    QuietCall(disk, disk.calls, 4, disk.calls + 3);
    ghost var start, h, o := disk.fs, disk.history, disk.options;
    WalFrameSelf(start);
    var encoded;
    ok, encoded := EncodeManifest(v, disk.options.maxKeySize);
    if !ok {
      return;
    }
    ok := WriteTemporary(disk, ManifestTemporary, encoded, c);
    WritingParts(disk.fs, start, ManifestTemporary, c, h, o);
    if !ok {
      return;
    }
    SameExceptReady(Now(start), Now(disk.fs), s, h, o);
    ReadyParts(Now(disk.fs), s, h, o);
    StoredInWidth(s, o);
    PlacedEncodes(disk.fs, v, o);
    ghost var before := disk.fs;
    RenameKeeps(before, c, s, h, o);
    IssueFrame(before, Move(ManifestTemporary, FileName.Manifest));
    ClaimOk(before.Issue(Move(ManifestTemporary, FileName.Manifest)), c, h, o);
    ok := disk.Rename(ManifestTemporary, FileName.Manifest);
    if !ok {
      ghost var failed := disk.fs;
      WritingSelf(failed, ManifestTemporary, c, h, o);
      BestEffortRemove(disk, ManifestTemporary, failed, c);
      WritingParts(disk.fs, failed, ManifestTemporary, c, h, o);
      WalFrameTransitive(start, failed, disk.fs);
      return;
    }
    ghost var renamed := disk.fs;
    WalFrameTransitive(start, before, renamed);
    SyncedHolds(renamed, c, s, h, o);
    SyncFrame(renamed);
    ok := disk.SyncDirectory();
    if ok {
      WalFrameTransitive(start, renamed, disk.fs);
    }
  }
}
