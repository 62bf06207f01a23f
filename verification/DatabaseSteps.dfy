/** Facts that the methods of a running database use between their calls to the environment. */
module DatabaseSteps {
  import opened Coding
  import opened Configuration
  import opened Keys
  import opened Runs
  import opened WalLog
  import opened Versions
  import opened Summaries
  import opened Manifest
  import opened Tables
  import opened FileSystem
  import opened Durability
  import opened Ledgers
  import opened WalFiles
  import opened Claims
  import opened PublishSteps
  import opened Engine
  import opened EngineSteps
  import opened FlushSteps
  import opened CompactionSteps
  import opened Publishing

  // ----- Sessions ------------------------------------------------------------------------------

  /**
    The worker's calls touch the directory and files of their own, a writer's calls its log's file alone.  So
    a call of the worker between a writer's append and its sync reaches no disk that taking turns does not.
   */
  lemma CallsCommute(fs: FileSystem, wal: Inode, f: File, name: FileName, op: DirectoryOp, other: Inode, g: File)
    requires wal < |fs.files| && other < |fs.files| && other != wal
    ensures fs.Create(name).SetFile(wal, f) == fs.SetFile(wal, f).Create(name)
    ensures fs.Issue(op).SetFile(wal, f) == fs.SetFile(wal, f).Issue(op)
    ensures fs.SyncDirectory().SetFile(wal, f) == fs.SetFile(wal, f).SyncDirectory()
    ensures fs.SetFile(other, g).SetFile(wal, f) == fs.SetFile(wal, f).SetFile(other, g)
  {
    hide PerformAll;
    assert (fs.files + [StableFile([])])[wal := f] == fs.files[wal := f] + [StableFile([])];
    assert fs.files[other := g][wal := f] == fs.files[wal := f][other := g];
  }

  /** From one state to a later one, the log grew by exactly the newly confirmed records. */
  ghost predicate Follows(h: History, log: seq<Record>, h': History, log': seq<Record>) {
    h <= h' && log' == log + Confirmed(h'[|h|..])
  }

  lemma FollowsSelf(h: History, log: seq<Record>)
    ensures Follows(h, log, h, log)
  {
    assert h[|h|..] == [];
    assert log + [] == log;
  }

  lemma FollowsOne(h: History, log: seq<Record>, r: Record, confirmed: bool)
    ensures Follows(h, log, h + [Event(r, confirmed)], if confirmed then log + [r] else log)
  {
    var tail := (h + [Event(r, confirmed)])[|h|..];
    assert tail == [Event(r, confirmed)] && tail[..0] == [];
    assert [] + [r] == [r] && log + [] == log;
  }

  lemma FollowsTransitive(
    h: History, log: seq<Record>, h': History, log': seq<Record>, h'': History, log'': seq<Record>)
    requires Follows(h, log, h', log') && Follows(h', log', h'', log'')
    ensures Follows(h, log, h'', log'')
  {
    hide Confirmed;
    ConfirmedConcat(h'[|h|..], h''[|h'|..]);
    assert h''[|h|..] == h'[|h|..] + h''[|h'|..];
  }

  // ----- Steps of the disk --------------------------------------------------------------------

  /** Only the contents of one file, the active log's, may differ. */
  ghost predicate OnlyFile(before: FileSystem, after: FileSystem, wal: Option<Inode>) {
    && after.synced == before.synced && after.pending == before.pending && |after.files| == |before.files|
    && forall i :: 0 <= i < |before.files| && wal != Some(i) ==> after.files[i] == before.files[i]
  }

  lemma OnlyFileSelf(fs: FileSystem, wal: Option<Inode>)
    ensures OnlyFile(fs, fs, wal)
  {
  }

  lemma OnlyFileTransitive(a: FileSystem, b: FileSystem, c: FileSystem, wal: Option<Inode>)
    requires OnlyFile(a, b, wal) && OnlyFile(b, c, wal)
    ensures OnlyFile(a, c, wal)
  {
  }

  lemma OnlyFileSet(fs: FileSystem, inode: Inode, f: File)
    requires inode < |fs.files|
    ensures OnlyFile(fs, fs.SetFile(inode, f), Some(inode))
  {
  }

  /** A placed file survives writes to the log. */
  lemma PlacedSurvives(fs: FileSystem, after: FileSystem, name: FileName, content: Bytes, h: History, m: Memory, l: Logs, o: Options)
    requires Inv(fs, h, m, l, o) && OnlyFile(fs, after, m.wal) && Placed(fs, name, content) && !name.WalName?
    ensures Placed(after, name, content)
  {
    hide *;
    InvParts(fs, h, m, l, o);
    CurrentClaim(fs, ClaimOf(m, l, o), h, o);
    PlacedIn(fs, name, content);
    WalNotPlaced(fs, name, m, l, o);
    PlacedAfter(fs, after, name, content, m.wal);
  }

  lemma WalNotPlaced(fs: FileSystem, name: FileName, m: Memory, l: Logs, o: Options)
    requires WalFileOk(fs, m, l, o) && DirectoryOk(fs.Current(), |fs.files|) && name in fs.Current() && !name.WalName?
    ensures m.wal != Some(fs.Current()[name])
  {
    hide PerformAll, Holds;
  }

  lemma PlacedAfter(fs: FileSystem, after: FileSystem, name: FileName, content: Bytes, wal: Option<Inode>)
    requires OnlyFile(fs, after, wal) && Placed(fs, name, content)
    requires name in fs.Current() ==> wal != Some(fs.Current()[name])
    ensures Placed(after, name, content)
  {
    hide PerformAll;
    assert after.Current() == fs.Current();
  }

  lemma PlacedIn(fs: FileSystem, name: FileName, content: Bytes)
    requires Placed(fs, name, content)
    ensures name in fs.Current() && fs.Current()[name] < |fs.files| && fs.files[fs.Current()[name]] == StableFile(content)
    ensures fs.files[fs.Current()[name]].current == content
  {
    hide PerformAll;
  }

  lemma MovedPlaced(fs: FileSystem, source: FileName, target: FileName, content: Bytes)
    requires Placed(fs, source, content)
    ensures Placed(fs.Issue(Move(source, target)), target, content)
  {
    hide PerformAll;
    ViewAfterIssue(fs, Move(source, target), |fs.pending| + 1);
  }

  lemma SyncedPlaced(fs: FileSystem, name: FileName, content: Bytes)
    requires Placed(fs, name, content)
    ensures Placed(fs.SyncDirectory(), name, content)
  {
    hide PerformAll;
    ViewAfterSync(fs);
  }

  /** Syncing the directory keeps the invariant and leaves one view. */
  lemma SyncInv(fs: FileSystem, h: History, m: Memory, l: Logs, o: Options)
    requires Inv(fs, h, m, l, o)
    ensures Inv(fs.SyncDirectory(), h, m, l, o) && fs.SyncDirectory().pending == []
    ensures fs.SyncDirectory().Current() == fs.Current() && fs.SyncDirectory().files == fs.files
  {
    hide *;
    InvParts(fs, h, m, l, o);
    SyncKeeps(fs, ClaimOf(m, l, o), h, o);
    SyncFrame(fs);
    FrameInv(fs, fs.SyncDirectory(), h, m, l, o);
    SyncedFields(fs);
  }

  lemma SyncedFields(fs: FileSystem)
    ensures fs.SyncDirectory().pending == [] && fs.SyncDirectory().Current() == fs.Current()
    ensures fs.SyncDirectory().files == fs.files
  {
    hide PerformAll;
    ViewAfterSync(fs);
  }

  /** Writing a temporary file keeps the invariant. */
  lemma WritingInv(fs: FileSystem, after: FileSystem, name: FileName, h: History, m: Memory, l: Logs, o: Options)
    requires Inv(fs, h, m, l, o) && Writing(after, fs, name, ClaimOf(m, l, o), h, o)
    ensures Inv(after, h, m, l, o)
  {
    hide *;
    WritingParts(after, fs, name, ClaimOf(m, l, o), h, o);
    FrameInv(fs, after, h, m, l, o);
  }

  // ----- A temporary file that is being written ---------------------------------------------------

  /** The file behind a temporary name and behind no other. */
  ghost predicate Draft(fs: FileSystem, name: FileName, inode: Inode, f: File) {
    && Temporary(name) && OnlyTemporary(fs, inode) && f.Valid()
    && name in fs.Current() && fs.Current()[name] == inode < |fs.files| && fs.files[inode] == f
  }

  lemma DraftParts(fs: FileSystem, name: FileName, inode: Inode, f: File)
    requires Draft(fs, name, inode, f)
    ensures OnlyTemporary(fs, inode) && name in fs.Current() && fs.Current()[name] == inode < |fs.files| && fs.files[inode] == f
    ensures Temporary(name) && f.Valid()
  {
    hide OnlyTemporary, PerformAll;
  }

  lemma DraftCreated(fs: FileSystem, name: FileName, h: History, m: Memory, l: Logs, o: Options)
    requires Inv(fs, h, m, l, o) && Temporary(name)
    ensures Inv(fs.Create(name), h, m, l, o) && Draft(fs.Create(name), name, |fs.files|, StableFile([]))
  {
    hide *;
    InvParts(fs, h, m, l, o);
    CreatedWriting(fs, name, ClaimOf(m, l, o), h, o);
    WritingInv(fs, fs.Create(name), name, h, m, l, o);
    StableValid([]);
    FreshDraft(fs.Create(name), fs, name, |fs.files|, StableFile([]));
  }

  lemma FreshDraft(fs: FileSystem, start: FileSystem, name: FileName, inode: Inode, f: File)
    requires Fresh(fs, start, name, inode) && Temporary(name) && f.Valid() && inode < |fs.files| && fs.files[inode] == f
    ensures Draft(fs, name, inode, f)
  {
    hide OnlyTemporary, PerformAll;
  }

  /** Writing to the temporary file, or syncing it, keeps the invariant. */
  lemma DraftSet(fs: FileSystem, name: FileName, inode: Inode, f: File, f': File, h: History, m: Memory, l: Logs, o: Options)
    requires Inv(fs, h, m, l, o) && Draft(fs, name, inode, f) && f'.Valid()
    ensures inode < |fs.files| && Inv(fs.SetFile(inode, f'), h, m, l, o) && Draft(fs.SetFile(inode, f'), name, inode, f')
  {
    hide *;
    DraftParts(fs, name, inode, f);
    InvParts(fs, h, m, l, o);
    SetTemporaryKeeps(fs, inode, f', ClaimOf(m, l, o), h, o);
    CurrentClaim(fs, ClaimOf(m, l, o), h, o);
    DraftWalFile(fs, inode, f', m, l, o);
    PartsInv(fs.SetFile(inode, f'), h, m, l, o);
    SetDraft(fs, name, inode, f, f');
  }

  lemma SetDraft(fs: FileSystem, name: FileName, inode: Inode, f: File, f': File)
    requires Draft(fs, name, inode, f) && f'.Valid() && OnlyTemporary(fs.SetFile(inode, f'), inode)
    ensures Draft(fs.SetFile(inode, f'), name, inode, f')
  {
    hide OnlyTemporary, PerformAll;
    assert fs.SetFile(inode, f').Current() == fs.Current();
  }

  lemma DraftWalFile(fs: FileSystem, inode: Inode, f: File, m: Memory, l: Logs, o: Options)
    requires WalFileOk(fs, m, l, o) && OnlyTemporary(fs, inode)
    ensures WalFileOk(fs.SetFile(inode, f), m, l, o)
  {
    hide PerformAll, Holds;
    var after := fs.SetFile(inode, f);
    assert forall kept :: 0 <= kept <= |fs.pending| ==> after.View(kept) == fs.View(kept);
    assert fs.Current() == fs.View(|fs.pending|) && after.Current() == fs.Current();
    assert OnlyTemporaryIn(fs.Current(), inode);
    if m.wal.Some? {
      assert WalName(m.generation) in fs.View(|fs.pending|);
    }
  }

  /** The temporary file is not the log that clients write to. */
  lemma DraftSurvives(
    fs: FileSystem, after: FileSystem, name: FileName, inode: Inode, f: File, h: History, m: Memory, l: Logs, o: Options)
    requires Inv(fs, h, m, l, o) && OnlyFile(fs, after, m.wal) && Draft(fs, name, inode, f)
    ensures Draft(after, name, inode, f)
  {
    hide *;
    DraftParts(fs, name, inode, f);
    InvParts(fs, h, m, l, o);
    CurrentClaim(fs, ClaimOf(m, l, o), h, o);
    TemporaryIsNoWal(name);
    WalNotPlaced(fs, name, m, l, o);
    DraftAfter(fs, after, name, inode, f, m.wal);
  }

  lemma TemporaryIsNoWal(name: FileName)
    requires Temporary(name)
    ensures !name.WalName?
  {
  }

  lemma DraftAfter(fs: FileSystem, after: FileSystem, name: FileName, inode: Inode, f: File, wal: Option<Inode>)
    requires OnlyFile(fs, after, wal) && Draft(fs, name, inode, f) && wal != Some(inode)
    ensures Draft(after, name, inode, f)
  {
    hide PerformAll;
    assert forall kept :: 0 <= kept <= |fs.pending| ==> after.View(kept) == fs.View(kept);
    assert after.Current() == fs.Current();
  }

  lemma DraftPlaced(fs: FileSystem, name: FileName, inode: Inode, content: Bytes)
    requires Draft(fs, name, inode, StableFile(content))
    ensures Placed(fs, name, content)
  {
    hide OnlyTemporary, PerformAll;
  }

  lemma DraftContent(data: Bytes)
    ensures StableFile([]).Append(data).Sync() == StableFile(data) && StableFile([]).Append(data).Valid() && StableFile(data).Valid()
    ensures forall n :: 0 <= n <= |data| ==> StableFile([]).Append(data[..n]).Valid()
    ensures data[..|data|] == data
  {
    assert [] + data == data;
  }

  // ----- Publishing tables ----------------------------------------------------------------------

  /** A number at or above the frontier that is not pinned: its table may be replaced. */
  ghost predicate Unpublished(m: Memory, l: Logs, g: nat, o: Options) {
    && g >= m.version.nextFileNumber && CandidateOf(m, l, o).None? && Table(g) !in PinsOf(m, l, o)
  }

  lemma RenameTableInv(fs: FileSystem, g: nat, h: History, m: Memory, l: Logs, o: Options)
    requires Inv(fs, h, m, l, o) && Unpublished(m, l, g, o) && TableTemporary(g) in fs.Current()
    ensures Inv(fs.Issue(Move(TableTemporary(g), Table(g))), h, m, l, o)
  {
    hide *;
    InvParts(fs, h, m, l, o);
    MemoryParts(m, l, o);
    ReadersParts(m, l, o);
    StoredVersion(StoredOf(m, l, o), o);
    CurrentClaim(fs, ClaimOf(m, l, o), h, o);
    TableStale(fs, g, h, m, l, o);
    TableNames(g);
    MoveStaleKeeps(fs, TableTemporary(g), Table(g), ClaimOf(m, l, o), h, o);
    IssueFrame(fs, Move(TableTemporary(g), Table(g)));
    FrameInv(fs, fs.Issue(Move(TableTemporary(g), Table(g))), h, m, l, o);
  }

  lemma TableNames(g: nat)
    ensures Temporary(TableTemporary(g)) && SparesWals(Move(TableTemporary(g), Table(g)))
  {
  }

  lemma TableStale(fs: FileSystem, g: nat, h: History, m: Memory, l: Logs, o: Options)
    requires Unpublished(m, l, g, o) && SoundVersion(m.version, o.maxKeySize)
    requires ViewClaim(ImageOf(fs.Current(), fs.files), ClaimOf(m, l, o), h, o)
    ensures Stale(Table(g), ImageOf(fs.Current(), fs.files), ClaimOf(m, l, o), h, o)
  {
    hide *;
    UnpublishedParts(m, l, g, o);
    ClaimParts(ImageOf(fs.Current(), fs.files), ClaimOf(m, l, o), h, o);
    HoldsStored(ImageOf(fs.Current(), fs.files), StoredOf(m, l, o), h, o);
    AboveFrontier(m.version, g, o.maxKeySize);
    PartsStale(Table(g), ImageOf(fs.Current(), fs.files), ClaimOf(m, l, o), h, o);
  }

  lemma UnpublishedParts(m: Memory, l: Logs, g: nat, o: Options)
    requires Unpublished(m, l, g, o)
    ensures g >= m.version.nextFileNumber && Table(g) !in PinsOf(m, l, o)
    ensures ClaimOf(m, l, o) == Running(StoredOf(m, l, o), None, PinsOf(m, l, o), LimitOf(m, l))
    ensures StoredOf(m, l, o).version == m.version
  {
    hide RunsOf, CandidateOf, PinsOf, LimitOf;
  }

  lemma PartsStale(n: FileName, img: Image, c: Claim, h: History, o: Options)
    requires c.Running? && n !in c.pins && ViewHolds(img, c.stored, h, o) && !Relevant(n, c.stored.version)
    ensures Stale(n, img, c, h, o)
  {
    hide ViewHolds, Relevant;
  }

  lemma FlushUnpublished(m: Memory, l: Logs, o: Options)
    requires GenerationsOk(m) && m.Flushing() && m.immutable.value.pending.None? && m.compaction.None?
    ensures Unpublished(m, l, m.immutable.value.generation, o)
  {
    hide LogBytes;
  }

  lemma OnlyFilePending(before: FileSystem, after: FileSystem, wal: Option<Inode>)
    requires OnlyFile(before, after, wal)
    ensures after.pending == before.pending
  {
  }

  /** The records that a flush writes. */
  lemma FlushRecords(fs: FileSystem, h: History, m: Memory, l: Logs, o: Options)
    requires Inv(fs, h, m, l, o) && m.Flushing()
    ensures m.immutable.Some? && Sorted(m.immutable.value.records) && AllEncodable(m.immutable.value.records, o) && o.Valid()
    ensures GenerationsOk(m)
  {
    hide *;
    FlushingParts(m);
    InvParts(fs, h, m, l, o);
    MemoryParts(m, l, o);
    FrozenBounds(m, l, o);
    AllAre(m.immutable.value.records, o);
  }

  /** Opening the bytes of a table gives the reader that its summary promises. */
  lemma BytesBuilt(g: nat, run: Run, o: Options)
    requires TableEncodable(g, run, o) && o.Valid() && Sorted(run) && run != [] && AllEncodable(run, o)
    ensures OpenTable(TableBytes(g, run, o), o).Some?
    ensures BuiltTable(OpenTable(TableBytes(g, run, o), o).value, g, run, o)
  {
    OpenTableBytes(g, run, o);
    hide TableBytes, TableEncodable, OpenTable, Contents, Sorted, AllEncodable;
  }

  /** The log that takes writes is in the current view if it has records. */
  lemma ActiveNamed(fs: FileSystem, h: History, m: Memory, l: Logs, o: Options)
    requires Inv(fs, h, m, l, o)
    ensures l.active != [] ==> WalName(m.generation) in ImageOf(fs.Current(), fs.files)
  {
    hide *;
    InvParts(fs, h, m, l, o);
    MemoryParts(m, l, o);
    CurrentClaim(fs, ClaimOf(m, l, o), h, o);
    ActiveOpen(m, l, o);
    OpenNamed(fs, m, l, o);
  }

  lemma ActiveOpen(m: Memory, l: Logs, o: Options)
    requires ActiveLogOk(m, l, o)
    ensures l.active != [] ==> m.wal.Some?
  {
    hide Fold, AllEncodable, Rising;
  }

  lemma OpenNamed(fs: FileSystem, m: Memory, l: Logs, o: Options)
    requires WalFileOk(fs, m, l, o) && DirectoryOk(fs.Current(), |fs.files|)
    ensures m.wal.Some? ==> WalName(m.generation) in ImageOf(fs.Current(), fs.files)
  {
    hide PerformAll, Holds;
  }

  /** What publishing the MANIFEST of a flush needs. */
  lemma FlushAllowed(fs: FileSystem, h: History, m: Memory, l: Logs, o: Options)
    requires Inv(fs, h, m, l, o) && m.Flushing() && m.immutable.value.pending.Some?
    requires Apply(m.version, FlushEdit(m), o.maxKeySize).Some?
    ensures CandidateOf(m, l, o).Some? && CandidateOf(m, l, o).value.version == Apply(m.version, FlushEdit(m), o.maxKeySize).value
    ensures Keeps(fs, ClaimOf(m, l, o), h, o) && Allows(ClaimOf(m, l, o), CandidateOf(m, l, o).value)
    ensures ReadyFor(Now(fs), CandidateOf(m, l, o).value, h, o)
  {
    hide *;
    FlushingParts(m);
    InvParts(fs, h, m, l, o);
    FlushCandidateIs(m, l, o);
    CurrentClaim(fs, ClaimOf(m, l, o), h, o);
    ActiveNamed(fs, h, m, l, o);
    FlushReady(ImageOf(fs.Current(), fs.files), h, m, l, o);
    FlushClaim(m, l, o);
    PartsAllows(ClaimOf(m, l, o), CandidateOf(m, l, o).value);
    NowIs(fs);
  }

  lemma FlushCandidateIs(m: Memory, l: Logs, o: Options)
    requires m.Flushing() && m.immutable.value.pending.Some? && Apply(m.version, FlushEdit(m), o.maxKeySize).Some?
    ensures CandidateOf(m, l, o).Some? && CandidateOf(m, l, o).value.version == Apply(m.version, FlushEdit(m), o.maxKeySize).value
  {
    hide Apply, FlushEdit, RunsOf;
  }

  lemma PartsAllows(c: Claim, s: Stored)
    requires c.Running? && c.candidate == Some(s) && FileName.Manifest !in c.pins
    ensures Allows(c, s)
  {
  }

  lemma NowIs(fs: FileSystem)
    ensures Now(fs) == ImageOf(fs.Current(), fs.files)
  {
    hide PerformAll;
  }

  /** What removing the flushed log needs. */
  lemma FlushedWal(fs: FileSystem, h: History, m: Memory, l: Logs, o: Options)
    requires Inv(fs, h, m, l, o) && m.immutable.Some? && m.immutable.value.published
    ensures !m.Flushing() && !m.Compacting()
    ensures !Relevant(WalName(m.immutable.value.generation), m.version)
    ensures m.immutable.value.generation < m.generation && m.compaction.None?
  {
    assert GenerationsOk(m) && CompactionOk(m, l, o) by {
      hide *;
      InvParts(fs, h, m, l, o);
      MemoryParts(m, l, o);
    }
    hide Inv, PlanOk, PublishedOk, CandidateOk, CleanupOk;
  }

  /** What freezing needs: unflushed records mean a non-empty MemTable, and conversely. */
  lemma FreezeAllowed(fs: FileSystem, h: History, m: Memory, l: Logs, o: Options)
    requires Inv(fs, h, m, l, o)
    ensures m.mutable != [] <==> l.active != []
    ensures m.mutable != [] ==> l.active != [] && MaximumSequence(m.mutable) == LastSequence(l.active)
    ensures m.generation <= MAX64
  {
    hide *;
    InvParts(fs, h, m, l, o);
    MemoryParts(m, l, o);
    NewWalNumbers(m, l, o);
    MutableEmpty(m, l, o);
    if l.active != [] { FrozenMaximum(l, m, o); }
  }

  lemma MutableEmpty(m: Memory, l: Logs, o: Options)
    requires ActiveLogOk(m, l, o)
    ensures m.mutable != [] <==> l.active != []
  {
    hide AllEncodable, Rising, Insert;
    FoldSorted(l.active);
  }

  lemma FrozenIs(m: Memory, maximum: nat)
    ensures Frozen(m, maximum) ==
            m.(immutable := Some(Immutable(m.generation, m.mutable, maximum, None, false, false)),
               mutable := [], generation := m.generation + 1, wal := None)
  {
  }

  /** After FreezeMutable(true) the next log may be opened. */
  lemma FrozenMayOpen(m: Memory, maximum: nat, l: Logs)
    requires m.compaction.None? && l.twoWals
    ensures MayOpenWal(Frozen(m, maximum), l)
  {
  }

  lemma PublishedIs(m: Memory, v: Version)
    requires m.immutable.Some? && m.immutable.value.pending.Some?
    ensures Published(m, v) ==
            m.(version := v, readers := m.readers + [m.immutable.value.pending.value],
               immutable := Some(m.immutable.value.(pending := None, published := true)))
  {
  }

  lemma WithPendingIs(m: Memory, rd: Reader)
    requires m.immutable.Some?
    ensures WithPending(m, rd) == m.(immutable := Some(m.immutable.value.(pending := Some(rd))))
  {
  }

  lemma FlushedMayOpen(m: Memory, l: Logs)
    requires m.immutable.Some? && m.immutable.value.published && m.compaction.None? && m.wal.None?
    ensures MayOpenWal(m, l)
  {
  }

  /** The table of the Immutable is durable and open. */
  ghost predicate TableReady(fs: FileSystem, i: Immutable, rd: Reader, o: Options) {
    && BuiltTable(rd, i.generation, i.records, o) && fs.pending == []
    && Placed(fs, Table(i.generation), TableBytes(i.generation, i.records, o))
  }

  lemma PartsTableReady(fs: FileSystem, i: Immutable, rd: Reader, o: Options)
    requires BuiltTable(rd, i.generation, i.records, o) && fs.pending == []
    requires Placed(fs, Table(i.generation), TableBytes(i.generation, i.records, o))
    ensures TableReady(fs, i, rd, o)
  {
    hide BuiltTable, Placed, TableBytes;
  }

  lemma TableReadyParts(fs: FileSystem, i: Immutable, rd: Reader, o: Options)
    requires TableReady(fs, i, rd, o)
    ensures BuiltTable(rd, i.generation, i.records, o) && fs.pending == []
    ensures Placed(fs, Table(i.generation), TableBytes(i.generation, i.records, o))
  {
    hide BuiltTable, Placed, TableBytes;
  }

  // ----- A MANIFEST that has been renamed --------------------------------------------------------------

  lemma RenamedView(fs: FileSystem, content: Bytes)
    requires fs.Ok()
    ensures Renamed(fs, content).pending == [] && Renamed(fs, content).Ok()
    ensures Now(Renamed(fs, content)) == (Now(fs) - {ManifestTemporary})[FileName.Manifest := StableFile(content)]
  {
    var n, dir, f := |fs.files|, fs.Current(), StableFile(content);
    CurrentDirectory(fs);
    RenamedDirectory(fs, content);
    hide *;
    var files := fs.files + [f];
    ImageLink(dir, files, ManifestTemporary, n);
    ImageMoreFiles(dir, fs.files, f);
    ImageMove(dir[ManifestTemporary := n], files, ManifestTemporary, FileName.Manifest);
    NowIs(fs);
    NowIs(Renamed(fs, content));
    SameRename(Now(fs), f);
    StableIsValid(content);
    RenamedOk(fs, Renamed(fs, content), f);
  }

  lemma CurrentDirectory(fs: FileSystem)
    requires fs.Ok()
    ensures DirectoryOk(fs.Current(), |fs.files|) && forall n :: n in fs.Current() ==> fs.Current()[n] != |fs.files|
    ensures DirectoryOk(fs.Current(), |fs.files| + 1)
  {
    hide PerformAll;
    assert DirectoryOk(fs.View(|fs.pending|), |fs.files|);
  }

  lemma RenamedDirectory(fs: FileSystem, content: Bytes)
    ensures Renamed(fs, content).pending == [] && Renamed(fs, content).files == fs.files + [StableFile(content)]
    ensures Renamed(fs, content).Current() ==
            Perform(fs.Current()[ManifestTemporary := |fs.files|], Move(ManifestTemporary, FileName.Manifest))
  {
    hide PerformAll, Perform;
    CreatedCurrent(fs, ManifestTemporary);
    var written := Written(fs, ManifestTemporary, content);
    assert written.Current() == fs.Create(ManifestTemporary).Current();
    ViewAfterIssue(written, Move(ManifestTemporary, FileName.Manifest), |written.pending| + 1);
    ViewAfterSync(written.Issue(Move(ManifestTemporary, FileName.Manifest)));
  }

  lemma SameRename(img: Image, f: File)
    ensures (img[ManifestTemporary := f] - {ManifestTemporary})[FileName.Manifest := f] ==
            (img - {ManifestTemporary})[FileName.Manifest := f]
  {
  }

  lemma StableIsValid(content: Bytes)
    ensures StableFile(content).Valid()
  {
  }

  lemma RenamedOk(fs: FileSystem, after: FileSystem, f: File)
    requires fs.Ok() && f.Valid() && after.pending == [] && after.files == fs.files + [f]
    requires DirectoryOk(after.Current(), |after.files|)
    ensures after.Ok()
  {
    hide PerformAll, DirectoryOk;
    assert forall kept :: 0 <= kept <= |after.pending| ==> after.View(kept) == after.Current();
  }

  /** After the rename and before the sync of the directory the current view has the new MANIFEST. */
  lemma MovedRenaming(fs: FileSystem, content: Bytes, v: Version, o: Options)
    requires fs.Ok() && Encodes(StableFile(content), v, o)
    ensures Renaming(Moved(fs, content), v, o)
  {
    RenamedView(fs, content);
    MovedView(fs, content);
    hide PerformAll, DecodeManifest, DirectoryOk;
    var moved := Moved(fs, content);
    assert ManifestOk(Now(Renamed(fs, content)), v, o);
    assert ManifestOk(ImageOf(moved.View(|moved.pending|), moved.files), v, o);
  }

  lemma MovedView(fs: FileSystem, content: Bytes)
    ensures ImageOf(Moved(fs, content).Current(), Moved(fs, content).files) == Now(Renamed(fs, content))
  {
    hide PerformAll;
    ViewAfterSync(Moved(fs, content));
  }

  lemma ManifestEncodes(v: Version, s: Stored, o: Options)
    requires ManifestEncodable(v, o.maxKeySize) && StoredOk(s, o) && s.version == v
    ensures Encodes(StableFile(ManifestBytes(v)), v, o)
  {
    hide ManifestBytes, DecodeManifest, ManifestEncodable, InWidth, ValidVersion, Means, Distinct;
    DecodeManifestBytes(v, o.maxKeySize);
  }
}
