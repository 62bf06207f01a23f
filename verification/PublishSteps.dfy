/** Publishing a version: renaming its MANIFEST into place, seen from the current view. */
module PublishSteps {
  import opened Coding
  import opened Configuration
  import opened Runs
  import opened WalLog
  import opened Versions
  import opened Manifest
  import opened Tables
  import opened FileSystem
  import opened Durability
  import opened WalFiles
  import opened Claims
  import opened WalSteps

  /** The tables and logs of this view make up `s`, whatever its MANIFEST says. */
  ghost predicate ReadyFor(img: Image, s: Stored, h: History, o: Options) {
    StoredOk(s, o) && TablesOk(img, s, o) && WalsOk(img, s, h, o)
  }

  ghost predicate Encodes(f: File, v: Version, o: Options) {
    f.Stable() && DecodeManifest(f.current, o.maxKeySize) == Accepted(v)
  }

  lemma HoldsReady(img: Image, s: Stored, h: History, o: Options)
    requires ViewHolds(img, s, h, o)
    ensures ReadyFor(img, s, h, o)
  {
  }

  lemma PartsReady(img: Image, s: Stored, h: History, o: Options)
    requires StoredOk(s, o) && TablesOk(img, s, o) && WalsOk(img, s, h, o)
    ensures ReadyFor(img, s, h, o)
  {
  }

  /** Renaming the new MANIFEST into place turns a ready view into one that holds the new version. */
  lemma RenamedHolds(img: Image, s: Stored, f: File, h: History, o: Options)
    requires ReadyFor(img, s, h, o) && Encodes(f, s.version, o)
    ensures ViewHolds((img - {ManifestTemporary})[FileName.Manifest := f], s, h, o)
  {
    hide StoredOk, TablesOk, WalsOk;
    var after := (img - {ManifestTemporary})[FileName.Manifest := f];
    RenamedTables(img, s, f, o);
    RenamedWals(img, s, f, h, o);
  }

  lemma RenamedTables(img: Image, s: Stored, f: File, o: Options)
    requires TablesOk(img, s, o)
    ensures TablesOk((img - {ManifestTemporary})[FileName.Manifest := f], s, o)
  {
    hide TableOk;
    var after := (img - {ManifestTemporary})[FileName.Manifest := f];
    forall i | 0 <= i < |s.runs| ensures TableOk(after, s.version.tables[i].summary, s.runs[i], o) {
      RenamedTable(img, s.version.tables[i].summary, s.runs[i], f, o);
    }
  }

  lemma RenamedTable(img: Image, t: TableSummary, run: Run, f: File, o: Options)
    requires TableOk(img, t, run, o)
    ensures TableOk((img - {ManifestTemporary})[FileName.Manifest := f], t, run, o)
  {
    hide OpenTable, Contents;
    assert (img - {ManifestTemporary})[FileName.Manifest := f][Table(t.generation)] == img[Table(t.generation)];
  }

  lemma RenamedWals(img: Image, s: Stored, f: File, h: History, o: Options)
    requires WalsOk(img, s, h, o)
    ensures WalsOk((img - {ManifestTemporary})[FileName.Manifest := f], s, h, o)
  {
    hide WalOk, FrozenOk, Explains;
    var after := (img - {ManifestTemporary})[FileName.Manifest := f];
    assert forall n: nat :: WalName(n) in after <==> WalName(n) in img;
    if WalName(s.version.nextFileNumber + 1) in img {
      var frozen :| TwoWalsOk(img, s, frozen, h, o);
      assert TwoWalsOk(after, s, frozen, h, o);
    }
  }

  /** The rename as a step of the disk, for a database that is about to move to its candidate. */
  lemma RenameManifestKeeps(fs: FileSystem, c: Claim, h: History, o: Options)
    requires Keeps(fs, c, h, o) && c.Running? && c.candidate.Some? && FileName.Manifest !in c.pins
    requires ManifestTemporary in fs.Current() && fs.Current()[ManifestTemporary] < |fs.files|
    requires Encodes(fs.files[fs.Current()[ManifestTemporary]], c.candidate.value.version, o)
    requires ReadyFor(ImageOf(fs.Current(), fs.files), c.candidate.value, h, o)
    ensures var after := fs.Issue(Move(ManifestTemporary, FileName.Manifest));
            && Keeps(after, c, h, o)
            && ViewHolds(ImageOf(after.Current(), after.files), c.candidate.value, h, o)
  {
    hide ViewHolds, ReadyFor, Encodes, PerformAll;
    var dir := fs.Current();
    var img, f := ImageOf(dir, fs.files), fs.files[dir[ManifestTemporary]];
    CurrentClaim(fs, c, h, o);
    RenamedHolds(img, c.candidate.value, f, h, o);
    ImageMove(dir, fs.files, ManifestTemporary, FileName.Manifest);
    RenamedPins(img, f, c);
    IssueKeeps(fs, Move(ManifestTemporary, FileName.Manifest), c, h, o);
    ViewAfterIssue(fs, Move(ManifestTemporary, FileName.Manifest), |fs.pending| + 1);
  }

  lemma RenamedPins(img: Image, f: File, c: Claim)
    requires c.Running? && PinsOk(img, c.pins) && WalsAtMost(img, c.walLimit) && FileName.Manifest !in c.pins
    ensures var after := (img - {ManifestTemporary})[FileName.Manifest := f];
            PinsOk(after, c.pins) && WalsAtMost(after, c.walLimit)
  {
  }

  /** The same rename in a directory where nothing was published before. */
  lemma RenameFirstManifestKeeps(fs: FileSystem, s: Stored, h: History, o: Options)
    requires Recoverable(fs, h, o)
    requires ManifestTemporary in fs.Current() && fs.Current()[ManifestTemporary] < |fs.files|
    requires Encodes(fs.files[fs.Current()[ManifestTemporary]], s.version, o)
    requires ReadyFor(ImageOf(fs.Current(), fs.files), s, h, o)
    ensures var after := fs.Issue(Move(ManifestTemporary, FileName.Manifest));
            && Recoverable(after, h, o)
            && ViewHolds(ImageOf(after.Current(), after.files), s, h, o)
  {
    hide ViewHolds, ReadyFor, Encodes, PerformAll, Explains;
    var dir := fs.Current();
    var img, f := ImageOf(dir, fs.files), fs.files[dir[ManifestTemporary]];
    CurrentClaim(fs, Anything, h, o);
    RenamedHolds(img, s, f, h, o);
    ImageMove(dir, fs.files, ManifestTemporary, FileName.Manifest);
    IssueKeeps(fs, Move(ManifestTemporary, FileName.Manifest), Anything, h, o);
    ViewAfterIssue(fs, Move(ManifestTemporary, FileName.Manifest), |fs.pending| + 1);
  }

  // ----- When a flush is ready ------------------------------------------------------------

  /** The version after a flush, with the frozen records as its newest table. */
  ghost predicate FlushOf(s: Stored, s': Stored, frozen: seq<Record>, g: nat) {
    && frozen != []
    && s'.log == s.log + frozen
    && s'.runs == s.runs + [Fold(frozen)]
    && |s'.version.tables| == |s.version.tables| + 1
    && s'.version.tables[..|s.version.tables|] == s.version.tables
    && g == s.version.nextFileNumber + 1 && s'.version.nextFileNumber == g
    && s'.version.lastSequence == LastSequence(frozen)
  }

  lemma FlushTables(img: Image, s: Stored, s': Stored, frozen: seq<Record>, g: nat, o: Options)
    requires FlushOf(s, s', frozen, g) && TablesOk(img, s, o)
    requires TableOk(img, s'.version.tables[|s.version.tables|].summary, Fold(frozen), o)
    ensures TablesOk(img, s', o)
  {
    hide TableOk;
    var n := |s.version.tables|;
    forall i | 0 <= i < |s'.runs| ensures TableOk(img, s'.version.tables[i].summary, s'.runs[i], o) {
      if i < n {
        assert s'.version.tables[i] == s'.version.tables[..n][i] == s.version.tables[i];
        assert s'.runs[i] == s.runs[i];
      }
    }
  }

  /** Publishing the frozen log's table keeps the meaning of the logs that remain. */
  lemma FlushWals(img: Image, s: Stored, s': Stored, frozen: seq<Record>, g: nat, h: History, o: Options)
    requires FlushOf(s, s', frozen, g) && WalsOk(img, s, h, o) && WalsAtMost(img, g)
    requires WalName(g) in img ==> FrozenBelow(img, s, g, frozen, o)
    requires WalName(g) !in img ==> Explains(s'.log, h)
    ensures WalsOk(img, s', h, o)
  {
    hide WalOk, Explains, FrozenOk, LogBytes;
    if WalName(g) in img {
      ActiveOk(img, s, g, frozen, h, o);
    }
  }

  // ----- When a compaction is ready -----------------------------------------------------------

  /** A compaction keeps the log and the sequence frontier; the file frontier moves if it wrote tables. */
  ghost predicate CompactionOf(s: Stored, s': Stored) {
    && s'.log == s.log
    && s'.version.lastSequence == s.version.lastSequence
    && s'.version.nextFileNumber >= s.version.nextFileNumber
  }

  lemma CompactionWals(img: Image, s: Stored, s': Stored, h: History, o: Options)
    requires CompactionOf(s, s') && WalsOk(img, s, h, o) && WalsAtMost(img, s.version.nextFileNumber)
    requires Explains(s.log, h)
    ensures WalsOk(img, s', h, o)
  {
    hide WalOk, Explains, FrozenOk;
  }

  // ----- Opening the next log ---------------------------------------------------------------------

  /** A new log changes neither the MANIFEST nor the tables. */
  lemma NewWalRest(img: Image, s: Stored, n: nat, f: File, o: Options)
    requires ManifestOk(img, s.version, o) && TablesOk(img, s, o)
    ensures ManifestOk(img[WalName(n) := f], s.version, o) && TablesOk(img[WalName(n) := f], s, o)
  {
    forall i | 0 <= i < |s.runs| ensures TableOk(img[WalName(n) := f], s.version.tables[i].summary, s.runs[i], o) {
      assert TableOk(img, s.version.tables[i].summary, s.runs[i], o);
    }
  }

  lemma FirstWalHolds(img: Image, s: Stored, h: History, o: Options)
    requires ViewHolds(img, s, h, o)
    requires WalName(s.version.nextFileNumber) !in img && WalName(s.version.nextFileNumber + 1) !in img
    ensures ViewHolds(img[WalName(s.version.nextFileNumber) := StableFile([])], s, h, o)
  {
    hide StoredOk, Explains, WalOk, ManifestOk, TablesOk;
    FreshOk(s.version.lastSequence, s.log, h, o);
    NewWalRest(img, s, s.version.nextFileNumber, StableFile([]), o);
  }

  lemma SecondWalHolds(img: Image, s: Stored, frozen: seq<Record>, h: History, o: Options)
    requires ViewHolds(img, s, h, o)
    requires WalName(s.version.nextFileNumber) in img && WalName(s.version.nextFileNumber + 1) !in img
    requires FrozenOk(img[WalName(s.version.nextFileNumber)], frozen, s.version.lastSequence, o)
    requires Explains(s.log + frozen, h) && s.version.nextFileNumber < MAX64
    ensures ViewHolds(img[WalName(s.version.nextFileNumber + 1) := StableFile([])], s, h, o)
  {
    hide *;
    FrozenStable(img[WalName(s.version.nextFileNumber)], frozen, s.version.lastSequence, o);
    HoldsParts(img, s, h, o);
    FreshOk(LastSequence(frozen), s.log + frozen, h, o);
    NewWalRest(img, s, s.version.nextFileNumber + 1, StableFile([]), o);
    SecondWalWals(img, s, frozen, h, o);
    PartsHold(img[WalName(s.version.nextFileNumber + 1) := StableFile([])], s, h, o);
  }

  lemma SecondWalWals(img: Image, s: Stored, frozen: seq<Record>, h: History, o: Options)
    requires WalsOk(img, s, h, o) && frozen != [] && s.version.nextFileNumber < MAX64
    requires WalName(s.version.nextFileNumber) in img && WalName(s.version.nextFileNumber + 1) !in img
    requires FrozenOk(img[WalName(s.version.nextFileNumber)], frozen, s.version.lastSequence, o)
    requires WalOk(StableFile([]), LastSequence(frozen), s.log + frozen, h, o)
    ensures WalsOk(img[WalName(s.version.nextFileNumber + 1) := StableFile([])], s, h, o)
  {
    hide WalOk, FrozenOk, Explains;
    assert TwoWalsOk(img[WalName(s.version.nextFileNumber + 1) := StableFile([])], s, frozen, h, o);
  }

  lemma HoldsParts(img: Image, s: Stored, h: History, o: Options)
    requires ViewHolds(img, s, h, o)
    ensures StoredOk(s, o) && ManifestOk(img, s.version, o) && TablesOk(img, s, o) && WalsOk(img, s, h, o)
  {
  }

  lemma PartsHold(img: Image, s: Stored, h: History, o: Options)
    requires StoredOk(s, o) && ManifestOk(img, s.version, o) && TablesOk(img, s, o) && WalsOk(img, s, h, o)
    ensures ViewHolds(img, s, h, o)
  {
  }
}
