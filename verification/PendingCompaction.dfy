/**
  Why a compaction must not stay pending while writes are taken (src/database.cpp:755-760, 1076-1081).
  With background maintenance a write does not first finish a compaction that a client's Compact left
  undone.  Publishing a compaction that has outputs moves the version's frontier above the active log, on
  the assumption that this log is empty; recovery then ignores it.  If the failed Compact had already renamed
  the MANIFEST and could not sync the directory, that can happen at any crash from then on.
 */
module PendingCompaction {
  import opened Coding
  import opened Configuration
  import opened Keys
  import opened Runs
  import opened Wal
  import opened WalLog
  import opened Versions
  import opened Compaction
  import opened Manifest
  import opened Tables
  import opened FileSystem
  import opened Durability
  import opened Ledgers
  import opened WalFiles
  import opened Claims
  import opened WalSteps
  import opened PublishSteps
  import opened Engine
  import opened EngineSteps
  import opened FlushSteps
  import opened CompactionSteps
  import opened Publishing
  import opened DatabaseSteps

  // ----- The state a write leaves beside a pending compaction -------------------------------------------

  ghost predicate AlmostOk(m: Memory, l: Logs, o: Options) {
    && o.Valid() && ReadersOk(m, l, o) && GenerationsOk(m)
    && FrozenLogOk(m, l, o) && ActiveLogOk(m, l, o) && PendingOk(m, o)
    && CompactionOk(m, l.(active := []), o)
  }

  /** The candidate's version and tables are in place; its logs count only if the frontier has not moved. */
  ghost predicate InPlace(img: Image, s: Stored, s': Stored, h: History, o: Options) {
    && StoredOk(s', o) && ManifestOk(img, s'.version, o) && TablesOk(img, s', o)
    && (s'.version.nextFileNumber == s.version.nextFileNumber ==> WalsOk(img, s', h, o))
  }

  /** A view that holds the stored version with its logs, or the candidate's version and tables. */
  ghost predicate ViewAlmost(img: Image, c: Claim, h: History, o: Options) {
    && c.Running? && (ViewHolds(img, c.stored, h, o) || (c.candidate.Some? && InPlace(img, c.stored, c.candidate.value, h, o)))
    && PinsOk(img, c.pins) && WalsAtMost(img, c.walLimit)
  }

  ghost predicate ViewsAlmost(fs: FileSystem, c: Claim, h: History, o: Options) {
    && fs.Ok()
    && forall kept :: 0 <= kept <= |fs.pending| ==> ViewAlmost(ImageOf(fs.View(kept), fs.files), c, h, o)
  }

  ghost predicate DiskAlmost(fs: FileSystem, h: History, m: Memory, l: Logs, o: Options) {
    if m.Compacting() then ViewsAlmost(fs, ClaimOf(m, l, o), h, o) else Keeps(fs, ClaimOf(m, l, o), h, o)
  }

  /** The invariant of a running database, but for the empty active log that a compaction counts on. */
  ghost predicate Almost(fs: FileSystem, h: History, m: Memory, l: Logs, o: Options) {
    AlmostOk(m, l, o) && Explains(LogOf(m, l), h) && DiskAlmost(fs, h, m, l, o) && WalFileOk(fs, m, l, o)
  }

  /** The empty log is all that is missing. */
  lemma AlmostInv(fs: FileSystem, h: History, m: Memory, l: Logs, o: Options)
    ensures Inv(fs, h, m, l, o) <==> Almost(fs, h, m, l, o) && (m.compaction.Some? ==> l.active == [])
  {
    hide *;
    InvIs(fs, h, m, l, o);
    AlmostParts(fs, h, m, l, o);
    AlmostMemory(m, l, o);
    DiskAlmostIs(fs, h, m, l, o);
    if m.Compacting() && MemoryOk(m, l, o) && Explains(LogOf(m, l), h) {
      forall img ensures ViewClaim(img, ClaimOf(m, l, o), h, o) <==> ViewAlmost(img, ClaimOf(m, l, o), h, o) {
        AlmostView(img, h, m, l, o);
      }
      SameViews(fs, ClaimOf(m, l, o), h, o);
    }
  }

  lemma InvIs(fs: FileSystem, h: History, m: Memory, l: Logs, o: Options)
    ensures Inv(fs, h, m, l, o) <==>
            MemoryOk(m, l, o) && Explains(LogOf(m, l), h) && Keeps(fs, ClaimOf(m, l, o), h, o) && WalFileOk(fs, m, l, o)
  {
    hide MemoryOk, Explains, LogOf, Keeps, WalFileOk, ClaimOf;
  }

  lemma DiskAlmostIs(fs: FileSystem, h: History, m: Memory, l: Logs, o: Options)
    ensures m.Compacting() ==> DiskAlmost(fs, h, m, l, o) == ViewsAlmost(fs, ClaimOf(m, l, o), h, o)
    ensures !m.Compacting() ==> DiskAlmost(fs, h, m, l, o) == Keeps(fs, ClaimOf(m, l, o), h, o)
  {
    hide ViewsAlmost, Keeps, ClaimOf;
  }

  lemma AlmostMemory(m: Memory, l: Logs, o: Options)
    ensures MemoryOk(m, l, o) <==> AlmostOk(m, l, o) && (m.compaction.Some? ==> l.active == [])
  {
    hide ReadersOk, GenerationsOk, FrozenLogOk, ActiveLogOk, PendingOk, PlanOk, PublishedOk, CandidateOk, CleanupOk, LevelZeroRange;
    assert l.active == [] ==> l.(active := []) == l;
    if m.compaction.Some? && l.active == [] {
      assert CompactionOk(m, l, o) <==> CompactionOk(m, l.(active := []), o);
    } else if m.compaction.None? {
      assert CompactionOk(m, l, o) && CompactionOk(m, l.(active := []), o);
    }
  }

  lemma SameViews(fs: FileSystem, c: Claim, h: History, o: Options)
    requires forall img :: ViewClaim(img, c, h, o) <==> ViewAlmost(img, c, h, o)
    ensures Keeps(fs, c, h, o) <==> ViewsAlmost(fs, c, h, o)
  {
    hide ViewClaim, ViewAlmost, DirectoryOk, PerformAll;
  }

  /** With an empty active log the two descriptions of a view agree. */
  lemma AlmostView(img: Image, h: History, m: Memory, l: Logs, o: Options)
    requires MemoryOk(m, l, o) && m.Compacting() && Explains(LogOf(m, l), h)
    ensures ViewClaim(img, ClaimOf(m, l, o), h, o) <==> ViewAlmost(img, ClaimOf(m, l, o), h, o)
  {
    hide *;
    CompactingParts(m);
    var claim := ClaimOf(m, l, o);
    MemoryParts(m, l, o);
    CompactionParts(m, l, o);
    if m.compaction.value.candidate == None {
      PlainCompactionClaim(m, l, o);
      PlainAlmost(img, claim, h, o);
    } else {
      PlannedOf(m, l, o);
      var c, v := m.compaction.value, m.compaction.value.candidate.value;
      CompactedLengths(m, l, c, v, o);
      CompactionCandidate(m, l, o);
      CompactedStoredIs(m, l, c, v, o);
      CompactedStoredOk(m, l, c, v, o);
      CandidateIs(m, l, c, v, o);
      ReadersParts(m, l, o);
      CandidateAlmost(img, claim, h, o);
    }
  }

  lemma PlainAlmost(img: Image, c: Claim, h: History, o: Options)
    requires c.Running? && c.candidate == None
    ensures ViewClaim(img, c, h, o) <==> ViewAlmost(img, c, h, o)
  {
    hide ViewHolds;
  }

  lemma CandidateAlmost(img: Image, c: Claim, h: History, o: Options)
    requires c.Running? && c.candidate.Some? && Explains(c.candidate.value.log, h)
    requires c.walLimit == c.stored.version.nextFileNumber <= c.candidate.value.version.nextFileNumber
    ensures ViewClaim(img, c, h, o) <==> ViewAlmost(img, c, h, o)
  {
    hide StoredOk, TablesOk, WalsOk, ManifestOk, Explains, WalsAtMost;
    var s' := c.candidate.value;
    if WalsAtMost(img, c.walLimit) && c.walLimit < s'.version.nextFileNumber {
      RetiredLogs(img, s', c.walLimit, h, o);
    }
  }

  lemma AlmostParts(fs: FileSystem, h: History, m: Memory, l: Logs, o: Options)
    ensures Almost(fs, h, m, l, o) <==>
            AlmostOk(m, l, o) && Explains(LogOf(m, l), h) && DiskAlmost(fs, h, m, l, o) && WalFileOk(fs, m, l, o)
  {
    hide AlmostOk, Explains, LogOf, DiskAlmost, WalFileOk;
  }

  lemma AlmostOkParts(m: Memory, l: Logs, o: Options)
    ensures AlmostOk(m, l, o) <==>
            && o.Valid() && ReadersOk(m, l, o) && GenerationsOk(m)
            && FrozenLogOk(m, l, o) && ActiveLogOk(m, l, o) && PendingOk(m, o)
            && CompactionOk(m, l.(active := []), o)
  {
    hide ReadersOk, GenerationsOk, FrozenLogOk, ActiveLogOk, PendingOk, CompactionOk;
  }

  /** A plan does not look at the logs. */
  lemma SameCompactionLogs(m: Memory, m': Memory, l: Logs, l': Logs, o: Options)
    requires CompactionOk(m, l.(active := []), o) && m'.compaction == m.compaction && m'.wal == m.wal
    requires m'.version == m.version && m'.readers == m.readers && m'.immutable == m.immutable
    ensures CompactionOk(m', l'.(active := []), o)
  {
    hide *;
    SameCompaction(m, m', l.(active := []), l'.(active := []), o);
  }

  /** What a pending compaction is, candidate made or not and active log empty or not. */
  lemma PendingClaim(m: Memory, l: Logs, o: Options)
    requires AlmostOk(m, l, o) && m.Compacting()
    ensures m.immutable.None? && m.generation == m.version.nextFileNumber && |m.compaction.value.picks| == |m.readers|
    ensures var c, claim := m.compaction.value, ClaimOf(m, l, o);
            && claim.Running? && claim.stored == StoredOf(m, l, o) && claim.stored.version == m.version && claim.stored.log == l.tables
            && claim.walLimit == m.generation
            && claim.pins == OutputPins(c.firstOutput, c.outputs, |c.published|, o)
            && (claim.candidate.Some? <==> c.candidate.Some?)
            && (c.candidate.Some? ==>
                  && Planned(m, l, c, c.candidate.value, o)
                  && claim.candidate == Some(CompactedStored(m, l, c, c.candidate.value, o))
                  && StoredOk(claim.candidate.value, o) && claim.candidate.value.log == l.tables
                  && claim.candidate.value.version == c.candidate.value
                  && c.candidate.value.id == m.version.id + 1
                  && c.candidate.value.nextFileNumber == m.version.nextFileNumber + |c.outputs|
                  && c.candidate.value.lastSequence == m.version.lastSequence)
  {
    hide *;
    AlmostOkParts(m, l, o);
    CompactingParts(m);
    CompactionParts(m, l.(active := []), o);
    ReadersParts(m, l, o);
    var c := m.compaction.value;
    PlanParts(m, l.(active := []), c, o);
    if c.candidate == None {
      PlainCompactionClaim(m, l, o);
      NoneGeneration(m);
    } else {
      PlannedAgain(m, l, c, o);
      CompactionCandidate(m, l, o);
      CompactedStoredOk(m, l, c, c.candidate.value, o);
      CompactedStoredIs(m, l, c, c.candidate.value, o);
      CandidateIs(m, l, c, c.candidate.value, o);
    }
  }

  lemma NoneGeneration(m: Memory)
    requires GenerationsOk(m) && m.immutable.None?
    ensures m.generation == m.version.nextFileNumber
  {
  }

  /** Either version of a view can take the next record, as far as it reads the active log. */
  lemma PendingChoice(c: Claim, s: Stored, g: nat, top: nat, o: Options)
    requires c.Running? && c.walLimit == g && (forall n :: n in c.pins ==> n.Table?)
    requires s.version.nextFileNumber == g && s.version.lastSequence <= top
    ensures CanAppend(Running(s, None, c.pins, g), g, [], top, o)
  {
  }

  /** Replacing the active log's file in one view. */
  lemma WriteInView(img: Image, c: Claim, g: nat, top: nat, f: File, h: History, h': History, o: Options)
    requires ViewAlmost(img, c, h, o) && c.walLimit == g && (forall n :: n in c.pins ==> n.Table?)
    requires c.stored.version.nextFileNumber == g && c.stored.version.lastSequence <= top
    requires c.candidate.Some? ==> c.candidate.value.version.lastSequence <= top
    requires WalName(g) in img && Advances(img[WalName(g)], f, top, h, h', o)
    ensures ViewAlmost(img[WalName(g) := f], c, h', o)
  {
    hide *;
    ViewAlmostIs(img, c, h, o);
    ViewAlmostIs(img[WalName(g) := f], c, h', o);
    PinsKept(img, c, g, f);
    PendingChoice(c, c.stored, g, top, o);
    if ViewHolds(img, c.stored, h, o) {
      WriteHeld(img, c.stored, c.pins, g, top, f, h, h', o);
    } else {
      var s' := c.candidate.value;
      InPlaceIs(img, c.stored, s', h, o);
      InPlaceIs(img[WalName(g) := f], c.stored, s', h', o);
      NewWalRest(img, s', g, f, o);
      if s'.version.nextFileNumber == g {
        PendingChoice(c, s', g, top, o);
        PartsHold(img, s', h, o);
        WriteHeld(img, s', c.pins, g, top, f, h, h', o);
        HoldsParts(img[WalName(g) := f], s', h', o);
      }
    }
  }

  lemma WriteHeld(
    img: Image, s: Stored, pins: map<FileName, Bytes>, g: nat, top: nat, f: File, h: History, h': History, o: Options)
    requires ViewHolds(img, s, h, o) && PinsOk(img, pins) && WalsAtMost(img, g) && CanAppend(Running(s, None, pins, g), g, [], top, o)
    requires WalName(g) in img && Advances(img[WalName(g)], f, top, h, h', o)
    ensures ViewHolds(img[WalName(g) := f], s, h', o)
  {
    hide *;
    var c := Running(s, None, pins, g);
    PlainClaimIs(img, c, h, o);
    ReplaceInView(img, c, g, [], top, f, h, h', o);
    PlainClaimIs(img[WalName(g) := f], c, h', o);
  }

  lemma PlainClaimIs(img: Image, c: Claim, h: History, o: Options)
    requires c.Running? && c.candidate == None
    ensures ViewClaim(img, c, h, o) <==> ViewHolds(img, c.stored, h, o) && PinsOk(img, c.pins) && WalsAtMost(img, c.walLimit)
  {
    hide ViewHolds;
  }

  lemma ViewAlmostIs(img: Image, c: Claim, h: History, o: Options)
    ensures ViewAlmost(img, c, h, o) <==>
            && c.Running? && (ViewHolds(img, c.stored, h, o) || (c.candidate.Some? && InPlace(img, c.stored, c.candidate.value, h, o)))
            && PinsOk(img, c.pins) && WalsAtMost(img, c.walLimit)
  {
    hide ViewHolds, InPlace;
  }

  lemma InPlaceIs(img: Image, s: Stored, s': Stored, h: History, o: Options)
    ensures InPlace(img, s, s', h, o) <==>
            && StoredOk(s', o) && ManifestOk(img, s'.version, o) && TablesOk(img, s', o)
            && (s'.version.nextFileNumber == s.version.nextFileNumber ==> WalsOk(img, s', h, o))
  {
    hide StoredOk, ManifestOk, TablesOk, WalsOk;
  }

  lemma PinsKept(img: Image, c: Claim, g: nat, f: File)
    requires c.Running? && PinsOk(img, c.pins) && WalsAtMost(img, c.walLimit) && WalName(g) in img && WalName(g) !in c.pins
    ensures PinsOk(img[WalName(g) := f], c.pins) && WalsAtMost(img[WalName(g) := f], c.walLimit)
  {
  }

  /** The same in all views at once. */
  lemma WriteInViews(
    fs: FileSystem, inode: Inode, c: Claim, g: nat, top: nat, f: File, h: History, h': History, o: Options)
    requires ViewsAlmost(fs, c, h, o) && Everywhere(fs, WalName(g), inode) && f.Valid()
    requires c.Running? && c.walLimit == g && (forall n :: n in c.pins ==> n.Table?)
    requires c.stored.version.nextFileNumber == g && c.stored.version.lastSequence <= top
    requires c.candidate.Some? ==> c.candidate.value.version.lastSequence <= top
    requires inode < |fs.files| && Advances(fs.files[inode], f, top, h, h', o)
    ensures ViewsAlmost(fs.SetFile(inode, f), c, h', o) && Everywhere(fs.SetFile(inode, f), WalName(g), inode)
  {
    hide ViewAlmost, WalOk, PerformAll, Advances;
    var after := fs.SetFile(inode, f);
    forall kept | 0 <= kept <= |fs.pending|
      ensures DirectoryOk(after.View(kept), |after.files|)
      ensures ViewAlmost(ImageOf(after.View(kept), after.files), c, h', o)
      ensures WalName(g) in after.View(kept) && after.View(kept)[WalName(g)] == inode
    {
      var dir := fs.View(kept);
      assert after.View(kept) == dir;
      ImageSetFile(dir, fs.files, WalName(g), f);
      WriteInView(ImageOf(dir, fs.files), c, g, top, f, h, h', o);
    }
  }

  lemma ConfirmAdvances(f: File, written: seq<Record>, r: Record, top: nat, h: History, o: Options)
    requires f.Valid() && Holds(f, written, o) && MayFollow(r, written, top, o)
    ensures Advances(f, f.Append(Encoding(r)).Sync(), top, h, h + [Event(r, true)], o)
    ensures f.Append(Encoding(r)).Sync().Valid() && Holds(f.Append(Encoding(r)).Sync(), written + [r], o)
  {
    hide WalOk, Holds, Encoding;
    var f', h' := f.Append(Encoding(r)).Sync(), h + [Event(r, true)];
    forall floor: nat, log | floor <= top && WalOk(f, floor, log, h, o) ensures WalOk(f', floor, log, h', o) {
      ConfirmOk(f, written, r, floor, log, h, o);
    }
    ConfirmHolds(f, written, r, top, o);
  }

  /** A write that is confirmed while a compaction is pending, whatever stage that has reached. */
  lemma WriteBeside(fs: FileSystem, h: History, m: Memory, l: Logs, r: Record, o: Options)
    requires Almost(fs, h, m, l, o) && m.Compacting() && m.wal.Some? && !m.poisoned
    requires Encodable(r, o) && r.sequence == m.lastSequence + 1
    ensures m.wal.value < |fs.files|
    ensures var after := fs.SetFile(m.wal.value, fs.files[m.wal.value].Append(Encoding(r)).Sync());
            Almost(after, h + [Event(r, true)], m.(lastSequence := r.sequence, mutable := Insert(m.mutable, r)),
                   l.(active := l.active + [r]), o)
  {
    hide *;
    AlmostParts(fs, h, m, l, o);
    AlmostOkParts(m, l, o);
    DiskAlmostIs(fs, h, m, l, o);
    PendingClaim(m, l, o);
    PendingFloor(m, l, o);
    NextMayFollow(m, l, r, o);
    OpenWalParts(fs, m, l, o);
    ViewsAlmostOk(fs, m.wal.value, ClaimOf(m, l, o), h, o);
    ConfirmAdvances(fs.files[m.wal.value], l.active, r, m.lastSequence, h, o);
    var f := fs.files[m.wal.value].Append(Encoding(r)).Sync();
    WriteInViews(fs, m.wal.value, ClaimOf(m, l, o), m.generation, m.lastSequence, f, h, h + [Event(r, true)], o);
    ExplainsTake(LogOf(m, l), h, r, true);
    var m', l' := m.(lastSequence := r.sequence, mutable := Insert(m.mutable, r)), l.(active := l.active + [r]);
    var after := fs.SetFile(m.wal.value, f);
    GrownLog(m, m', l, r);
    SameClaim(m, m', l, o);
    SameLogsClaim(m', l, l', o);
    EncodableSequence(r, o);
    GrownActive(m, l, r, o);
    GrownFrozen(m, l, r, o);
    SameReaders(m, m', l, l', o);
    SameCompactionLogs(m, m', l, l', o);
    FileSet(fs, m.wal.value, f);
    WalStillOk(fs, after, m, m', l', o);
    AlmostOkParts(m', l', o);
    CompactingParts(m);
    PartsCompacting(m');
    DiskAlmostIs(after, h + [Event(r, true)], m', l', o);
    AlmostParts(after, h + [Event(r, true)], m', l', o);
  }

  lemma PendingFloor(m: Memory, l: Logs, o: Options)
    requires ActiveLogOk(m, l, o) && m.immutable.None?
    ensures m.version.lastSequence <= m.lastSequence
  {
    hide Fold, AllEncodable, Rising;
  }

  lemma ViewsAlmostOk(fs: FileSystem, inode: Inode, c: Claim, h: History, o: Options)
    requires ViewsAlmost(fs, c, h, o) && inode < |fs.files|
    ensures fs.files[inode].Valid() && fs.Ok()
  {
    hide ViewAlmost, DirectoryOk, PerformAll;
  }

  lemma PartsCompacting(m: Memory)
    requires m.compaction.Some? && !m.compaction.value.versionPublished
    ensures m.Compacting()
  {
  }

  lemma OpenWalParts(fs: FileSystem, m: Memory, l: Logs, o: Options)
    requires WalFileOk(fs, m, l, o) && m.wal.Some? && !m.poisoned
    ensures Everywhere(fs, WalName(m.generation), m.wal.value) && m.wal.value < |fs.files| && Holds(fs.files[m.wal.value], l.active, o)
  {
    hide Holds, PerformAll;
  }

  lemma FileSet(fs: FileSystem, inode: Inode, f: File)
    requires inode < |fs.files|
    ensures fs.SetFile(inode, f).files == fs.files[inode := f]
  {
  }

  lemma WalStillOk(fs: FileSystem, after: FileSystem, m: Memory, m': Memory, l': Logs, o: Options)
    requires m'.wal == m.wal && m'.generation == m.generation && m.wal.Some?
    requires Everywhere(after, WalName(m.generation), m.wal.value) && m.wal.value < |after.files|
    requires Holds(after.files[m.wal.value], l'.active, o)
    ensures WalFileOk(after, m', l', o)
  {
    hide Holds, Everywhere;
  }

  lemma GrownLog(m: Memory, m': Memory, l: Logs, r: Record)
    requires m'.immutable == m.immutable
    ensures LogOf(m', l.(active := l.active + [r])) == LogOf(m, l) + [r]
  {
  }

  /** The candidate may be made beside writes as well. */
  lemma CandidateBeside(fs: FileSystem, h: History, m: Memory, l: Logs, v: Version, o: Options)
    requires Almost(fs, h, m, l, o) && m.Compacting() && m.compaction.value.candidate == None
    requires CandidateOk(m, m.compaction.value.(candidate := Some(v)), o)
    ensures Almost(fs, h, WithCandidate(m, v), l, o)
  {
    hide *;
    CompactingParts(m);
    var m' := WithCandidate(m, v);
    WithCandidateIs(m, v);
    AlmostParts(fs, h, m, l, o);
    AlmostOkParts(m, l, o);
    CandidateCompaction(m, l.(active := []), v, o);
    CandidateFields(fs, m, m', l, o);
    CandidateClaim(m, l, v, o);
    DiskAlmostIs(fs, h, m, l, o);
    PartsCompacting(m');
    DiskAlmostIs(fs, h, m', l, o);
    WeakerViews(fs, ClaimOf(m, l, o), ClaimOf(m', l, o), h, o);
    AlmostOkParts(m', l, o);
    AlmostParts(fs, h, m', l, o);
  }

  lemma WeakerViews(fs: FileSystem, c: Claim, c': Claim, h: History, o: Options)
    requires ViewsAlmost(fs, c, h, o) && c.Running? && c'.Running? && c == c'.(candidate := None)
    ensures ViewsAlmost(fs, c', h, o)
  {
    hide ViewHolds, InPlace, PinsOk, WalsAtMost, DirectoryOk, PerformAll;
  }

  lemma CandidateFields(fs: FileSystem, m: Memory, m': Memory, l: Logs, o: Options)
    requires m' == m.(compaction := m'.compaction)
    ensures ReadersOk(m', l, o) == ReadersOk(m, l, o) && GenerationsOk(m') == GenerationsOk(m) && LogOf(m', l) == LogOf(m, l)
    ensures FrozenLogOk(m', l, o) == FrozenLogOk(m, l, o) && ActiveLogOk(m', l, o) == ActiveLogOk(m, l, o)
    ensures PendingOk(m', o) == PendingOk(m, o) && WalFileOk(fs, m', l, o) == WalFileOk(fs, m, l, o)
  {
    hide StoredOk, Fold, AllEncodable, Rising, TopTable, BuiltTable, Everywhere, Holds, Opened, PerformAll;
  }

  // ----- The disk once the candidate is published ----------------------------------------------------

  /** An image holds one version and one content of its tables. */
  lemma HeldOnce(img: Image, s: Stored, s': Stored, o: Options)
    requires ManifestOk(img, s.version, o) && ManifestOk(img, s'.version, o) && TablesOk(img, s, o) && TablesOk(img, s', o)
    ensures s.version == s'.version && s.runs == s'.runs
  {
    hide DecodeManifest, OpenTable, Contents;
    forall i | 0 <= i < |s.runs| ensures s.runs[i] == s'.runs[i] {
      assert TableOk(img, s.version.tables[i].summary, s.runs[i], o) && TableOk(img, s'.version.tables[i].summary, s'.runs[i], o);
    }
  }

  lemma PlannedAgain(m: Memory, l: Logs, c: CompactionState, o: Options)
    requires m.compaction == Some(c) && !c.versionPublished && c.candidate.Some? && m.immutable.None? && GenerationsOk(m)
    requires ReadersOk(m, l, o) && PlanOk(m, l.(active := []), c, o) && PublishedOk(c, o) && CandidateOk(m, c, o)
    ensures Planned(m, l, c, c.candidate.value, o) && m.generation == m.version.nextFileNumber
  {
    hide ReadersOk, PublishedOk, CandidateOk, MergedOutputs, Picks, LevelZeroRange, Select, RunsOf;
  }

  /** Renaming the candidate's MANIFEST into place gives a disk that holds the candidate's version and tables. */
  lemma CandidateInPlace(fs: FileSystem, h: History, m: Memory, l: Logs, content: Bytes, o: Options)
    requires Almost(fs, h, m, l, o) && m.Compacting() && m.compaction.value.candidate.Some?
    requires Encodes(StableFile(content), m.compaction.value.candidate.value, o)
    ensures |m.compaction.value.picks| == |m.readers|
    ensures var img, c := Now(Renamed(fs, content)), m.compaction.value;
            var s' := CompactedStored(m, l, c, c.candidate.value, o);
            && StoredOk(s', o) && ManifestOk(img, s'.version, o) && TablesOk(img, s', o) && s'.log == l.tables
            && s'.version.nextFileNumber == m.version.nextFileNumber + |c.outputs|
            && s'.version.lastSequence == m.version.lastSequence
            && WalsAtMost(img, m.version.nextFileNumber)
    ensures Renamed(fs, content).pending == [] && Renamed(fs, content).Ok()
  {
    hide *;
    AlmostParts(fs, h, m, l, o);
    DiskAlmostIs(fs, h, m, l, o);
    PendingClaim(m, l, o);
    CompactingParts(m);
    var c, v := m.compaction.value, m.compaction.value.candidate.value;
    CurrentAlmost(fs, ClaimOf(m, l, o), h, o);
    RenamedView(fs, content);
    CompactedStoredIs(m, l, c, v, o);
    NowIs(fs);
    ViewAlmostIs(Now(fs), ClaimOf(m, l, o), h, o);
    CandidateTables(Now(fs), h, m, l, o);
    RenamedTables(Now(fs), CompactedStored(m, l, c, v, o), StableFile(content), o);
    RenamedManifest(Now(fs), v, StableFile(content), m.version.nextFileNumber, o);
  }

  lemma CurrentAlmost(fs: FileSystem, c: Claim, h: History, o: Options)
    requires ViewsAlmost(fs, c, h, o)
    ensures fs.Ok() && ViewAlmost(ImageOf(fs.Current(), fs.files), c, h, o)
  {
    hide ViewAlmost, DirectoryOk, PerformAll;
  }

  /** Whichever version a view holds, the candidate's tables are there. */
  lemma CandidateTables(img: Image, h: History, m: Memory, l: Logs, o: Options)
    requires AlmostOk(m, l, o) && m.Compacting() && m.compaction.value.candidate.Some? && ViewAlmost(img, ClaimOf(m, l, o), h, o)
    ensures |m.compaction.value.picks| == |m.readers|
    ensures TablesOk(img, CompactedStored(m, l, m.compaction.value, m.compaction.value.candidate.value, o), o)
  {
    hide *;
    PendingClaim(m, l, o);
    CompactingParts(m);
    var claim := ClaimOf(m, l, o);
    ViewAlmostIs(img, claim, h, o);
    if ViewHolds(img, claim.stored, h, o) {
      HoldsParts(img, claim.stored, h, o);
      CompactedTables(img, m, l, m.compaction.value, m.compaction.value.candidate.value, o);
    } else {
      InPlaceIs(img, claim.stored, claim.candidate.value, h, o);
    }
  }

  lemma RenamedManifest(img: Image, v: Version, f: File, limit: nat, o: Options)
    requires Encodes(f, v, o) && WalsAtMost(img, limit)
    ensures var after := (img - {ManifestTemporary})[FileName.Manifest := f];
            ManifestOk(after, v, o) && WalsAtMost(after, limit)
  {
    hide DecodeManifest;
  }

  // ----- What is lost -----------------------------------------------------------------------------------

  /** Nobody could tell from reading that the writes of `more` were made. */
  ghost predicate Unseen(log: seq<Record>, more: seq<Record>) {
    forall k: Key :: Visible(Last(log + more, k)) == Visible(Last(log, k))
  }

  lemma {:induction false} ExplainsBoth(a: seq<Record>, b: seq<Record>, h: History, g: History)
    requires Explains(a, h) && Explains(b, g)
    ensures Explains(a + b, h + g)
    decreases |g|
  {
    if g == [] {
      assert a + b == a && h + g == h;
    } else {
      var e, rest := g[|g| - 1], g[..|g| - 1];
      assert (h + g)[..|h + g| - 1] == h + rest && (h + g)[|h + g| - 1] == e;
      if b != [] && b[|b| - 1] == e.record && Explains(b[..|b| - 1], rest) {
        ExplainsBoth(a, b[..|b| - 1], h, rest);
        assert (a + b)[..|a + b| - 1] == a + b[..|b| - 1];
      } else {
        ExplainsBoth(a, b, h, rest);
      }
    }
  }

  /** A log that ends in `more` and reads like `log`: appending `more` to `log` changes nothing. */
  lemma EndsUnseen(log: seq<Record>, front: seq<Record>, more: seq<Record>)
    requires forall k: Key :: Visible(Last(front + more, k)) == Visible(Last(log, k))
    ensures Unseen(log, more)
  {
    hide Visible, Last;
    forall k: Key ensures Visible(Last(log + more, k)) == Visible(Last(log, k)) {
      LastConcat(front, more, k);
      LastConcat(log, more, k);
    }
  }

  /** Without logs at or above the frontier only the tables count. */
  lemma RetiredLogs(img: Image, s: Stored, limit: nat, h: History, o: Options)
    requires limit < s.version.nextFileNumber && WalsAtMost(img, limit)
    ensures WalsOk(img, s, h, o) <==> Explains(s.log, h)
  {
    hide Explains, TwoWalsOk, WalOk;
  }

  lemma BothMean(runs: seq<Run>, a: seq<Record>, b: seq<Record>)
    requires Means(runs, a) && Means(runs, b)
    ensures forall k: Key :: Visible(Last(b, k)) == Visible(Last(a, k))
  {
    forall k: Key ensures Visible(Last(b, k)) == Visible(Last(a, k)) {
      assert Visible(Newest(runs, k)) == Visible(Last(a, k)) && Visible(Newest(runs, k)) == Visible(Last(b, k));
    }
  }

  lemma UnseenMeans(runs: seq<Run>, log: seq<Record>, more: seq<Record>)
    requires Means(runs, log) && Unseen(log, more)
    ensures Means(runs, log + more)
  {
  }

  /**
    A view that holds the candidate, with no log at or above its frontier: it can be opened if and
    only if some explanation of what was written since cannot be seen.
   */
  lemma RetiredView(img: Image, s: Stored, limit: nat, before: History, since: History, o: Options)
    requires limit < s.version.nextFileNumber && WalsAtMost(img, limit)
    requires StoredOk(s, o) && ManifestOk(img, s.version, o) && TablesOk(img, s, o) && Explains(s.log, before)
    ensures ViewOk(img, before + since, o) <==> exists more :: Explains(more, since) && Unseen(s.log, more)
  {
    hide *;
    if ViewOk(img, before + since, o) {
      var more := RetiredUnseen(img, s, limit, before, since, o);
    }
    forall more | Explains(more, since) && Unseen(s.log, more) ensures ViewOk(img, before + since, o) {
      UnseenRetired(img, s, limit, before, since, more, o);
    }
  }

  lemma RetiredUnseen(img: Image, s: Stored, limit: nat, before: History, since: History, o: Options) returns (more: seq<Record>)
    requires limit < s.version.nextFileNumber && WalsAtMost(img, limit) && ViewOk(img, before + since, o)
    requires StoredOk(s, o) && ManifestOk(img, s.version, o) && TablesOk(img, s, o)
    ensures Explains(more, since) && Unseen(s.log, more)
  {
    hide *;
    var h := before + since;
    var s' := HeldByView(img, s, h, o);
    HoldsParts(img, s', h, o);
    HeldOnce(img, s, s', o);
    RetiredLogs(img, s', limit, h, o);
    StoredMeans(s, o);
    StoredMeans(s', o);
    BothMean(s.runs, s.log, s'.log);
    var front := ExplainsFront(s'.log, before, since);
    more := s'.log[front..];
    assert s'.log[..front] + more == s'.log;
    EndsUnseen(s.log, s'.log[..front], more);
  }

  lemma UnseenRetired(
    img: Image, s: Stored, limit: nat, before: History, since: History, more: seq<Record>, o: Options)
    requires limit < s.version.nextFileNumber && WalsAtMost(img, limit)
    requires StoredOk(s, o) && ManifestOk(img, s.version, o) && TablesOk(img, s, o) && Explains(s.log, before)
    requires Explains(more, since) && Unseen(s.log, more)
    ensures ViewOk(img, before + since, o)
  {
    hide *;
    var h, s' := before + since, s.(log := s.log + more);
    ExplainsBoth(s.log, more, before, since);
    StoredMeans(s, o);
    UnseenMeans(s.runs, s.log, more);
    OtherLog(s, s.log + more, o);
    TablesAgain(img, s, s.log + more, o);
    RetiredLogs(img, s', limit, h, o);
    PartsHold(img, s', h, o);
    HeldIsOk(img, s', h, o);
  }

  lemma OtherLog(s: Stored, log: seq<Record>, o: Options)
    requires StoredOk(s, o) && Means(s.runs, log)
    ensures StoredOk(s.(log := log), o)
  {
    hide Distinct, ValidVersion, InWidth, GenerationsAscend, Described, Encodable, Means;
  }

  lemma TablesAgain(img: Image, s: Stored, log: seq<Record>, o: Options)
    requires TablesOk(img, s, o)
    ensures TablesOk(img, s.(log := log), o)
  {
    hide TableOk;
  }

  lemma HeldByView(img: Image, s: Stored, h: History, o: Options) returns (found: Stored)
    requires ViewOk(img, h, o) && ManifestOk(img, s.version, o)
    ensures ViewHolds(img, found, h, o)
  {
    hide ViewHolds, DecodeManifest, Explains;
    found :| ViewHolds(img, found, h, o);
  }

  lemma HeldIsOk(img: Image, s: Stored, h: History, o: Options)
    requires ViewHolds(img, s, h, o)
    ensures ViewOk(img, h, o)
  {
    hide ViewHolds, Explains;
  }

  lemma RecoverableIs(fs: FileSystem, h: History, o: Options)
    ensures Recoverable(fs, h, o) == Keeps(fs, Anything, h, o)
  {
    hide Keeps;
  }

  /** A disk can be recovered if every view can be opened. */
  lemma RecoverableViews(fs: FileSystem, h: History, o: Options)
    requires fs.Ok()
    ensures Recoverable(fs, h, o) <==> forall kept :: 0 <= kept <= |fs.pending| ==> ViewOk(ImageOf(fs.View(kept), fs.files), h, o)
  {
    hide *;
    RecoverableIs(fs, h, o);
    forall img ensures ViewClaim(img, Anything, h, o) == ViewOk(img, h, o) {
      AnythingIsViewOk(img, h, o);
    }
    KeepsIs(fs, Anything, h, o);
  }

  lemma KeepsIs(fs: FileSystem, c: Claim, h: History, o: Options)
    ensures Keeps(fs, c, h, o) <==>
            fs.Ok() && forall kept :: 0 <= kept <= |fs.pending| ==> ViewClaim(ImageOf(fs.View(kept), fs.files), c, h, o)
  {
    hide ViewClaim, PerformAll, DirectoryOk;
  }

  // ----- When a write survives ----------------------------------------------------------------------------

  /** Some crash would find the candidate in place. */
  ghost predicate Exposed(fs: FileSystem, m: Memory, o: Options) {
    m.compaction.Some? && m.compaction.value.candidate.Some? && Renaming(fs, m.compaction.value.candidate.value, o)
  }

  /** One view: it can be opened unless it has the candidate in place and something written since can be seen. */
  lemma ViewBeside(img: Image, m: Memory, l: Logs, before: History, since: History, o: Options)
    requires AlmostOk(m, l, o) && m.Compacting() && ViewAlmost(img, ClaimOf(m, l, o), before + since, o)
    requires Explains(l.tables, before)
    ensures ViewOk(img, before + since, o) <==>
            || m.compaction.value.outputs == []
            || !(m.compaction.value.candidate.Some? && ManifestOk(img, m.compaction.value.candidate.value, o))
            || (exists more :: Explains(more, since) && Unseen(l.tables, more))
  {
    hide *;
    CompactingParts(m);
    PendingClaim(m, l, o);
    var h, claim, c := before + since, ClaimOf(m, l, o), m.compaction.value;
    ViewAlmostIs(img, claim, h, o);
    if ViewHolds(img, claim.stored, h, o) {
      HeldIsOk(img, claim.stored, h, o);
      HoldsParts(img, claim.stored, h, o);
      if c.candidate.Some? && ManifestOk(img, c.candidate.value, o) { OneManifest(img, m.version, c.candidate.value, o); }
    } else {
      var s' := claim.candidate.value;
      InPlaceIs(img, claim.stored, s', h, o);
      if c.outputs == [] {
        PartsHold(img, s', h, o);
        HeldIsOk(img, s', h, o);
      } else {
        RetiredView(img, s', m.version.nextFileNumber, before, since, o);
      }
    }
  }

  /**
    A database with a pending compaction and any writes taken since it was planned.  A crash now loses
    nothing if and only if the compaction has no outputs, or no view has its MANIFEST in place, or what was
    written since has an explanation that nobody could see.
   */
  lemma BesideRecoverable(fs: FileSystem, m: Memory, l: Logs, before: History, since: History, o: Options)
    requires Almost(fs, before + since, m, l, o) && m.Compacting() && Explains(l.tables, before)
    ensures Recoverable(fs, before + since, o) <==>
            || m.compaction.value.outputs == [] || !Exposed(fs, m, o)
            || (exists more :: Explains(more, since) && Unseen(l.tables, more))
  {
    hide *;
    CompactingParts(m);
    var h := before + since;
    AlmostParts(fs, h, m, l, o);
    DiskAlmostIs(fs, h, m, l, o);
    ViewsAlmostAre(fs, ClaimOf(m, l, o), h, o);
    RecoverableViews(fs, h, o);
    ExposedIs(fs, m, o);
    forall kept | 0 <= kept <= |fs.pending|
      ensures ViewOk(ImageOf(fs.View(kept), fs.files), h, o) <==>
              || m.compaction.value.outputs == []
              || !(m.compaction.value.candidate.Some? && ManifestOk(ImageOf(fs.View(kept), fs.files), m.compaction.value.candidate.value, o))
              || (exists more :: Explains(more, since) && Unseen(l.tables, more))
    {
      ViewBeside(ImageOf(fs.View(kept), fs.files), m, l, before, since, o);
    }
  }

  lemma ViewsAlmostAre(fs: FileSystem, c: Claim, h: History, o: Options)
    requires ViewsAlmost(fs, c, h, o)
    ensures fs.Ok() && forall kept :: 0 <= kept <= |fs.pending| ==> ViewAlmost(ImageOf(fs.View(kept), fs.files), c, h, o)
  {
    hide ViewAlmost, DirectoryOk, PerformAll;
  }

  lemma ExposedIs(fs: FileSystem, m: Memory, o: Options)
    ensures Exposed(fs, m, o) <==>
            && m.compaction.Some? && m.compaction.value.candidate.Some?
            && exists kept :: 0 <= kept <= |fs.pending| && ManifestOk(ImageOf(fs.View(kept), fs.files), m.compaction.value.candidate.value, o)
  {
    hide ManifestOk, PerformAll;
  }

  /** The MemTable holds a record whose loss a reader would notice: what a caller can check before going on. */
  ghost predicate Noticed(m: Memory, o: Options) {
    exists r :: r in m.mutable && Visible(Some(r)) != Visible(Newest(RunsOf(m.readers, o), r.key))
  }

  /** The same when everything written since was confirmed: what counts is whether the MemTable shows anything new. */
  lemma ConfirmedBeside(fs: FileSystem, m: Memory, l: Logs, before: History, o: Options)
    requires Almost(fs, before + Known(l.active), m, l, o) && m.Compacting() && Explains(l.tables, before)
    ensures Recoverable(fs, before + Known(l.active), o) <==>
            m.compaction.value.outputs == [] || !Exposed(fs, m, o) || Unseen(l.tables, l.active)
    ensures Unseen(l.tables, l.active) <==> !Noticed(m, o)
  {
    hide *;
    BesideRecoverable(fs, m, l, before, Known(l.active), o);
    KnownUnseen(l.tables, l.active);
    AlmostNoticed(fs, before + Known(l.active), m, l, o);
  }

  lemma KnownUnseen(log: seq<Record>, active: seq<Record>)
    ensures (exists more :: Explains(more, Known(active)) && Unseen(log, more)) <==> Unseen(log, active)
  {
    hide *;
    forall more ensures Explains(more, Known(active)) <==> more == active {
      KnownExplains(active, more);
    }
  }

  lemma AlmostNoticed(fs: FileSystem, h: History, m: Memory, l: Logs, o: Options)
    requires Almost(fs, h, m, l, o)
    ensures Unseen(l.tables, l.active) <==> !Noticed(m, o)
  {
    hide *;
    AlmostParts(fs, h, m, l, o);
    AlmostOkParts(m, l, o);
    ReadersParts(m, l, o);
    StoredMeans(StoredOf(m, l, o), o);
    NoticedIsSeen(m, l, o);
  }

  /**
    The step of a write.  A database with a pending compaction, at whatever stage that failed, takes one more
    record, synced and confirmed: it survives every crash if and only if the compaction has no outputs, or no
    rename of its MANIFEST is pending, or the record cannot be seen.
   */
  lemma WriteSurvives(fs: FileSystem, h: History, m: Memory, l: Logs, r: Record, o: Options)
    requires Inv(fs, h, m, l, o) && m.Compacting() && m.wal.Some? && !m.poisoned
    requires Encodable(r, o) && r.sequence == m.lastSequence + 1
    ensures m.wal.value < |fs.files|
    ensures Recoverable(fs.SetFile(m.wal.value, fs.files[m.wal.value].Append(Encoding(r)).Sync()), h + [Event(r, true)], o) <==>
            m.compaction.value.outputs == [] || !Exposed(fs, m, o) || Unseen(l.tables, [r])
  {
    hide *;
    CompactingParts(m);
    AlmostInv(fs, h, m, l, o);
    WriteBeside(fs, h, m, l, r, o);
    InvParts(fs, h, m, l, o);
    MemoryParts(m, l, o);
    CompactionParts(m, l, o);
    PendingLog(m, l);
    var f := fs.files[m.wal.value].Append(Encoding(r)).Sync();
    var m', l' := m.(lastSequence := r.sequence, mutable := Insert(m.mutable, r)), l.(active := l.active + [r]);
    KnownOne(r);
    assert l.active + [r] == [r];
    PartsCompacting(m');
    ConfirmedBeside(fs.SetFile(m.wal.value, f), m', l', h, o);
    OpenWalParts(fs, m, l, o);
    StillExposed(fs, m.wal.value, f, ClaimOf(m, l, o), h, m, m', o);
  }

  lemma PendingLog(m: Memory, l: Logs)
    requires m.immutable.None? && l.active == []
    ensures LogOf(m, l) == l.tables
  {
  }

  lemma KnownOne(r: Record)
    ensures Known([r]) == [Event(r, true)]
  {
  }

  /** A write to the active log does not touch any view's MANIFEST. */
  lemma StillExposed(
    fs: FileSystem, inode: Inode, f: File, c: Claim, h: History, m: Memory, m': Memory, o: Options)
    requires Keeps(fs, c, h, o) && Everywhere(fs, WalName(m.generation), inode) && inode < |fs.files| && m'.compaction == m.compaction
    ensures Exposed(fs.SetFile(inode, f), m', o) <==> Exposed(fs, m, o)
  {
    hide *;
    var after := fs.SetFile(inode, f);
    ExposedIs(fs, m, o);
    ExposedIs(after, m', o);
    KeepsIs(fs, c, h, o);
    SetFileViews(fs, inode, f);
    if m.compaction.Some? && m.compaction.value.candidate.Some? {
      forall kept | 0 <= kept <= |fs.pending|
        ensures after.View(kept) == fs.View(kept) && |after.pending| == |fs.pending|
        ensures ManifestOk(ImageOf(after.View(kept), after.files), m.compaction.value.candidate.value, o) <==>
                ManifestOk(ImageOf(fs.View(kept), fs.files), m.compaction.value.candidate.value, o)
      {
        WalNotManifest(fs, inode, f, WalName(m.generation), kept, m.compaction.value.candidate.value, o);
      }
    }
  }

  lemma SetFileViews(fs: FileSystem, inode: Inode, f: File)
    requires inode < |fs.files|
    ensures |fs.SetFile(inode, f).pending| == |fs.pending|
  {
  }

  lemma WalNotManifest(fs: FileSystem, inode: Inode, f: File, wal: FileName, kept: nat, v: Version, o: Options)
    requires fs.Ok() && Everywhere(fs, wal, inode) && inode < |fs.files| && wal.WalName? && kept <= |fs.pending|
    ensures fs.SetFile(inode, f).View(kept) == fs.View(kept) && |fs.SetFile(inode, f).pending| == |fs.pending|
    ensures ManifestOk(ImageOf(fs.SetFile(inode, f).View(kept), fs.SetFile(inode, f).files), v, o) <==>
            ManifestOk(ImageOf(fs.View(kept), fs.files), v, o)
  {
    hide PerformAll, DecodeManifest;
    var dir := fs.View(kept);
    assert DirectoryOk(dir, |fs.files|);
    ImageSetFile(dir, fs.files, wal, f);
  }

  // ----- Publishing over writes ------------------------------------------------------------------------------

  /**
    Publishing a pending compaction over writes that were taken meanwhile.  If it has no outputs nothing is
    lost.  Otherwise the disk stays recoverable if and only if what was written since the compaction was
    planned has an explanation that nobody could see.
   */
  lemma PublishBeside(
    fs: FileSystem, m: Memory, l: Logs, content: Bytes, before: History, since: History, o: Options)
    requires Almost(fs, before + since, m, l, o) && m.Compacting() && m.compaction.value.candidate.Some?
    requires Encodes(StableFile(content), m.compaction.value.candidate.value, o)
    requires Explains(l.tables, before)
    ensures Recoverable(Renamed(fs, content), before + since, o) <==>
            m.compaction.value.outputs == [] || exists more :: Explains(more, since) && Unseen(l.tables, more)
  {
    hide *;
    CompactingParts(m);
    var h, c, after := before + since, m.compaction.value, Renamed(fs, content);
    CandidateInPlace(fs, h, m, l, content, o);
    var s' := CompactedStored(m, l, c, c.candidate.value, o);
    OneView(after, h, o);
    if c.outputs == [] {
      AlmostParts(fs, h, m, l, o);
      DiskAlmostIs(fs, h, m, l, o);
      PendingClaim(m, l, o);
      CurrentAlmost(fs, ClaimOf(m, l, o), h, o);
      NowIs(fs);
      ViewAlmostIs(Now(fs), ClaimOf(m, l, o), h, o);
      InPlaceIs(Now(fs), StoredOf(m, l, o), s', h, o);
      SameFrontier(Now(fs), m, l, s', h, o);
      RenamedWals(Now(fs), s', StableFile(content), h, o);
      RenamedView(fs, content);
      PartsHold(Now(after), s', h, o);
      HeldIsOk(Now(after), s', h, o);
    } else {
      RetiredView(Now(after), s', m.version.nextFileNumber, before, since, o);
    }
  }

  lemma OneView(fs: FileSystem, h: History, o: Options)
    requires fs.Ok() && fs.pending == []
    ensures Recoverable(fs, h, o) <==> ViewOk(Now(fs), h, o)
  {
    RecoverableViews(fs, h, o);
    NowIs(fs);
    hide Recoverable, ViewOk, PerformAll, DirectoryOk;
    assert fs.View(0) == fs.Current();
  }

  lemma SameFrontier(img: Image, m: Memory, l: Logs, s': Stored, h: History, o: Options)
    requires ViewHolds(img, StoredOf(m, l, o), h, o) || WalsOk(img, s', h, o)
    requires s'.log == l.tables && s'.version.nextFileNumber == m.version.nextFileNumber
    requires s'.version.lastSequence == m.version.lastSequence
    ensures WalsOk(img, s', h, o)
  {
    hide WalOk, TwoWalsOk, Explains, StoredOk, TablesOk, ManifestOk, RunsOf;
    var s := StoredOf(m, l, o);
    if ViewHolds(img, s, h, o) && WalName(s.version.nextFileNumber + 1) in img {
      var frozen :| TwoWalsOk(img, s, frozen, h, o);
      SameTwoWals(img, s, s', frozen, h, o);
    }
  }

  lemma SameTwoWals(img: Image, s: Stored, s': Stored, frozen: seq<Record>, h: History, o: Options)
    requires TwoWalsOk(img, s, frozen, h, o) && s'.log == s.log && s'.version.nextFileNumber == s.version.nextFileNumber
    requires s'.version.lastSequence == s.version.lastSequence
    ensures TwoWalsOk(img, s', frozen, h, o)
  {
    hide WalOk, FrozenOk;
  }

  /**
    When everything written meanwhile was confirmed, publishing keeps the disk recoverable if and only if
    the compaction has no outputs or every key reads the same without the active log; and that is so if
    and only if the MemTable holds no record that the tables do not already show.
   */
  lemma PublishOverWrites(fs: FileSystem, m: Memory, l: Logs, content: Bytes, before: History, o: Options)
    requires Almost(fs, before + Known(l.active), m, l, o) && m.Compacting() && m.compaction.value.candidate.Some?
    requires Encodes(StableFile(content), m.compaction.value.candidate.value, o)
    requires Explains(l.tables, before)
    ensures Recoverable(Renamed(fs, content), before + Known(l.active), o) <==>
            m.compaction.value.outputs == [] || Unseen(l.tables, l.active)
    ensures Unseen(l.tables, l.active) <==> !Noticed(m, o)
  {
    hide *;
    PublishBeside(fs, m, l, content, before, Known(l.active), o);
    KnownUnseen(l.tables, l.active);
    AlmostNoticed(fs, before + Known(l.active), m, l, o);
  }

  lemma NoticedIsSeen(m: Memory, l: Logs, o: Options)
    requires ActiveLogOk(m, l, o) && Means(RunsOf(m.readers, o), l.tables)
    ensures Unseen(l.tables, l.active) <==> !Noticed(m, o)
  {
    hide Fold, AllEncodable, Rising, RunsOf, Floor, Newest;
    FoldSorted(l.active);
    if Noticed(m, o) {
      var r :| r in m.mutable && Visible(Some(r)) != Visible(Newest(RunsOf(m.readers, o), r.key));
      FoldLookup(l.active, r.key);
      LookupMember(m.mutable, r);
      LastConcat(l.tables, l.active, r.key);
      assert Visible(Last(l.tables + l.active, r.key)) != Visible(Last(l.tables, r.key));
    } else {
      forall k: Key ensures Visible(Last(l.tables + l.active, k)) == Visible(Last(l.tables, k)) {
        FoldLookup(l.active, k);
        LastConcat(l.tables, l.active, k);
        if Last(l.active, k).Some? {
          var r := Last(l.active, k).value;
          assert r in m.mutable;
        }
      }
    }
  }
}
