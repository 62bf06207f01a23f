/** The steps of freezing, flushing and opening the next log (src/database.cpp:1197-1306). */
module FlushSteps {
  import opened Coding
  import opened Configuration
  import opened Keys
  import opened Runs
  import opened Wal
  import opened WalLog
  import opened Versions
  import opened Summaries
  import opened Compaction
  import opened Manifest
  import opened Tables
  import opened FileSystem
  import opened Durability
  import opened WalFiles
  import opened Claims
  import opened WalSteps
  import opened PublishSteps
  import opened Meaning
  import opened Engine
  import opened EngineSteps

  // ----- Freezing --------------------------------------------------------------------------

  function Frozen(m: Memory, maximumSequence: nat): Memory {
    m.(immutable := Some(Immutable(m.generation, m.mutable, maximumSequence, None, false, false)),
       mutable := [], generation := m.generation + 1, wal := None)
  }

  lemma FrozenMaximum(l: Logs, m: Memory, o: Options)
    requires ActiveLogOk(m, l, o) && l.active != []
    ensures m.mutable != [] && MaximumSequence(m.mutable) == LastSequence(l.active)
  {
    FoldMaximum(l.active, Floor(m, l));
    assert l.active[|l.active| - 1] in m.mutable;
  }

  lemma FrozenMemory(m: Memory, l: Logs, twoWals: bool, o: Options)
    requires MemoryOk(m, l, o) && m.immutable.None? && m.compaction.None? && l.active != [] && m.generation < MAX64
    ensures MemoryOk(Frozen(m, LastSequence(l.active)), Logs(l.tables, l.active, [], twoWals), o)
    ensures LogOf(Frozen(m, LastSequence(l.active)), Logs(l.tables, l.active, [], twoWals)) == LogOf(m, l)
  {
    hide StoredOk, Encodable, BuiltTable;
    assert l.tables + l.active + [] == l.tables + [] + l.active;
    assert Fold([]) == [];
  }

  /** FreezeMutable(false): the log is left as it is, nothing on disk changes. */
  lemma FreezeKeeps(fs: FileSystem, h: History, m: Memory, l: Logs, o: Options)
    requires Inv(fs, h, m, l, o) && m.immutable.None? && m.compaction.None? && l.active != [] && m.generation < MAX64
    ensures Inv(fs, h, Frozen(m, LastSequence(l.active)), Logs(l.tables, l.active, [], false), o)
    ensures LogOf(Frozen(m, LastSequence(l.active)), Logs(l.tables, l.active, [], false)) == LogOf(m, l)
  {
    hide *;
    var m', l' := Frozen(m, LastSequence(l.active)), Logs(l.tables, l.active, [], false);
    InvParts(fs, h, m, l, o);
    FrozenMemory(m, l, false, o);
    FreezeClaim(m, l, o);
    LimitWhenIdle(m, l) by { IdleNotFlushing(m); }
    NoWalAbove(fs, h, m, l, o, m.generation + 1);
    FrozenWalFile(fs, m, l, LastSequence(l.active), false, o);
    PartsInv(fs, h, m', l', o);
  }

  lemma IdleNotFlushing(m: Memory)
    requires m.immutable.None?
    ensures !m.Flushing()
  {
  }

  lemma FrozenWalFile(fs: FileSystem, m: Memory, l: Logs, maximumSequence: nat, twoWals: bool, o: Options)
    requires WalName(m.generation + 1) !in fs.Current()
    ensures WalFileOk(fs, Frozen(m, maximumSequence), Logs(l.tables, l.active, [], twoWals), o)
  {
    hide PerformAll;
  }

  lemma LimitWhenIdle(m: Memory, l: Logs)
    requires !m.Flushing()
    ensures LimitOf(m, l) == m.generation
  {
  }

  lemma FreezeClaim(m: Memory, l: Logs, o: Options)
    requires m.immutable.None? && m.compaction.None? && l.active != []
    ensures ClaimOf(Frozen(m, LastSequence(l.active)), Logs(l.tables, l.active, [], false), o) == ClaimOf(m, l, o)
  {
  }

  /** No log is numbered above the limit of the claim. */
  lemma NoWalAbove(fs: FileSystem, h: History, m: Memory, l: Logs, o: Options, n: nat)
    requires Keeps(fs, ClaimOf(m, l, o), h, o) && n > LimitOf(m, l)
    ensures WalName(n) !in fs.Current()
  {
    hide ViewClaim, PerformAll;
    CurrentClaim(fs, ClaimOf(m, l, o), h, o);
    assert WalsAtMost(ImageOf(fs.Current(), fs.files), LimitOf(m, l)) by {
      ClaimParts(ImageOf(fs.Current(), fs.files), ClaimOf(m, l, o), h, o);
    }
    ImageKeys(fs.Current(), fs.files);
  }

  lemma ClaimParts(img: Image, c: Claim, h: History, o: Options)
    requires ViewClaim(img, c, h, o) && c.Running?
    ensures HoldsOne(img, c.stored, c.candidate, h, o) && PinsOk(img, c.pins) && WalsAtMost(img, c.walLimit)
  {
  }

  lemma PartsClaim(img: Image, c: Claim, h: History, o: Options)
    requires c.Running? && HoldsOne(img, c.stored, c.candidate, h, o) && PinsOk(img, c.pins) && WalsAtMost(img, c.walLimit)
    ensures ViewClaim(img, c, h, o)
  {
  }

  /** FreezeMutable(true) after a synced write: the frozen log is pinned, its successor may be created. */
  lemma FreezeTwoKeeps(fs: FileSystem, h: History, m: Memory, l: Logs, o: Options)
    requires Inv(fs, h, m, l, o) && m.immutable.None? && m.compaction.None? && l.active != [] && m.generation < MAX64
    requires m.wal.Some? && !m.poisoned && m.wal.value < |fs.files| && fs.files[m.wal.value].Stable()
    ensures Inv(fs, h, Frozen(m, LastSequence(l.active)), Logs(l.tables, l.active, [], true), o)
    ensures LogOf(Frozen(m, LastSequence(l.active)), Logs(l.tables, l.active, [], true)) == LogOf(m, l)
  {
    hide *;
    var m', l' := Frozen(m, LastSequence(l.active)), Logs(l.tables, l.active, [], true);
    InvParts(fs, h, m, l, o);
    FrozenMemory(m, l, true, o);
    LimitWhenIdle(m, l) by { IdleNotFlushing(m); }
    NoWalAbove(fs, h, m, l, o, m.generation + 1);
    FrozenWalFile(fs, m, l, LastSequence(l.active), true, o);
    FreezeTwoViews(fs, h, m, l, o);
    PartsInv(fs, h, m', l', o);
  }

  lemma FreezeTwoViews(fs: FileSystem, h: History, m: Memory, l: Logs, o: Options)
    requires Keeps(fs, ClaimOf(m, l, o), h, o) && WalFileOk(fs, m, l, o)
    requires m.immutable.None? && m.compaction.None? && l.active != []
    requires m.wal.Some? && !m.poisoned && m.wal.value < |fs.files| && fs.files[m.wal.value].Stable()
    ensures Keeps(fs, ClaimOf(Frozen(m, LastSequence(l.active)), Logs(l.tables, l.active, [], true), o), h, o)
  {
    hide LogBytes, ViewClaim, PerformAll, ClaimOf, AllEncodable, Rising, HoldsOne;
    var c, c' := ClaimOf(m, l, o), ClaimOf(Frozen(m, LastSequence(l.active)), Logs(l.tables, l.active, [], true), o);
    FreezeTwoClaim(m, l, o);
    forall kept | 0 <= kept <= |fs.pending| ensures ViewClaim(ImageOf(fs.View(kept), fs.files), c', h, o) {
      var img := ImageOf(fs.View(kept), fs.files);
      ClaimParts(img, c, h, o);
      assert img[WalName(m.generation)] == fs.files[m.wal.value];
      PartsClaim(img, c', h, o);
    }
  }

  lemma FreezeTwoClaim(m: Memory, l: Logs, o: Options)
    requires m.immutable.None? && m.compaction.None? && l.active != []
    ensures var c, c' := ClaimOf(m, l, o), ClaimOf(Frozen(m, LastSequence(l.active)), Logs(l.tables, l.active, [], true), o);
            && c.Running? && c'.Running? && c'.stored == c.stored && c'.candidate == c.candidate == None
            && c'.pins == map[WalName(m.generation) := LogBytes(l.active)]
            && c.walLimit == m.generation && c'.walLimit == m.generation + 1
  {
    hide LogBytes;
  }

  // ----- The published table ---------------------------------------------------------------------

  function WithPending(m: Memory, rd: Reader): Memory
    requires m.immutable.Some?
  {
    m.(immutable := Some(m.immutable.value.(pending := Some(rd))))
  }

  /** PublishTable succeeded: the table is durable under its final name. */
  lemma PendingKeeps(fs: FileSystem, h: History, m: Memory, l: Logs, rd: Reader, o: Options)
    requires Inv(fs, h, m, l, o) && m.Flushing() && m.immutable.value.pending.None? && m.compaction.None? && fs.pending == []
    requires var i := m.immutable.value;
             && BuiltTable(rd, i.generation, i.records, o)
             && Table(i.generation) in fs.Current() && fs.Current()[Table(i.generation)] < |fs.files|
             && fs.files[fs.Current()[Table(i.generation)]] == StableFile(TableBytes(i.generation, i.records, o))
    ensures Inv(fs, h, WithPending(m, rd), l, o) && LogOf(WithPending(m, rd), l) == LogOf(m, l)
  {
    hide *;
    FlushingParts(m);
    InvParts(fs, h, m, l, o);
    PendingViews(fs, h, m, l, rd, o);
    PendingMemory(m, l, rd, o);
    PendingLog(m, l, rd);
    PendingWalFile(fs, m, l, rd, o);
    PartsInv(fs, h, WithPending(m, rd), l, o);
  }

  lemma FlushingParts(m: Memory)
    requires m.Flushing()
    ensures m.immutable.Some? && !m.immutable.value.published
  {
  }

  lemma PendingWalFile(fs: FileSystem, m: Memory, l: Logs, rd: Reader, o: Options)
    requires WalFileOk(fs, m, l, o) && m.immutable.Some?
    ensures WalFileOk(fs, WithPending(m, rd), l, o)
  {
    hide Everywhere, Holds, PerformAll;
  }

  lemma PendingViews(fs: FileSystem, h: History, m: Memory, l: Logs, rd: Reader, o: Options)
    requires Keeps(fs, ClaimOf(m, l, o), h, o)
    requires m.Flushing() && m.immutable.value.pending.None? && m.compaction.None? && fs.pending == []
    requires var i := m.immutable.value;
             && Table(i.generation) in fs.Current() && fs.Current()[Table(i.generation)] < |fs.files|
             && fs.files[fs.Current()[Table(i.generation)]] == StableFile(TableBytes(i.generation, i.records, o))
    ensures Keeps(fs, ClaimOf(WithPending(m, rd), l, o), h, o)
  {
    hide ViewClaim, PerformAll, ClaimOf, DirectoryOk, TableBytes, HoldsOne;
    var c, c' := ClaimOf(m, l, o), ClaimOf(WithPending(m, rd), l, o);
    var img := ImageOf(fs.Current(), fs.files);
    CurrentClaim(fs, c, h, o);
    PendingClaim(m, l, rd, o);
    ClaimParts(img, c, h, o);
    CandidateOptional(img, c.stored, c'.candidate, h, o);
    PartsClaim(img, c', h, o);
    SyncedKeeps(fs, c', h, o);
  }

  lemma PendingLog(m: Memory, l: Logs, rd: Reader)
    requires m.immutable.Some?
    ensures LogOf(WithPending(m, rd), l) == LogOf(m, l)
  {
  }

  lemma PendingClaim(m: Memory, l: Logs, rd: Reader, o: Options)
    requires m.Flushing() && m.immutable.value.pending.None?
    ensures var c, c', i := ClaimOf(m, l, o), ClaimOf(WithPending(m, rd), l, o), m.immutable.value;
            && c.Running? && c'.Running? && c'.stored == c.stored && c'.walLimit == c.walLimit
            && (m.compaction.None? ==> c.candidate.None?)
            && c'.pins == c.pins[Table(i.generation) := TableBytes(i.generation, i.records, o)]
  {
    hide LogBytes, TableBytes, Apply, RunsOf, Select;
  }

  lemma CandidateOptional(img: Image, stored: Stored, candidate: Option<Stored>, h: History, o: Options)
    requires HoldsOne(img, stored, None, h, o)
    ensures HoldsOne(img, stored, candidate, h, o)
  {
    hide ViewHolds;
  }

  lemma PendingMemory(m: Memory, l: Logs, rd: Reader, o: Options)
    requires MemoryOk(m, l, o) && m.Flushing()
    requires BuiltTable(rd, m.immutable.value.generation, m.immutable.value.records, o)
    ensures MemoryOk(WithPending(m, rd), l, o)
  {
    hide StoredOk, Encodable, BuiltTable, Fold, Rising, PlanOk, PublishedOk, CandidateOk, CleanupOk;
    SameReaders(m, WithPending(m, rd), l, l, o);
  }

  // ----- The candidate of a flush --------------------------------------------------------------------

  /** An edit that adds one table above the frontier appends it. */
  lemma FlushTablesAppended(v: Version, t: VersionTable, next: nat, last: nat, maxKeySize: nat)
    requires SoundVersion(v, maxKeySize) && GenerationsAscend(v.tables) && Generation(t) >= v.nextFileNumber
    ensures Candidate(v, VersionEdit([t], [], Some(next), Some(last))).tables == v.tables + [t]
    ensures GenerationsAscend(v.tables + [t])
  {
    hide LevelOneApart, SortByGeneration;
    RemainingAll(v.tables);
    forall i | 0 <= i < |v.tables| ensures Generation(v.tables[i]) < Generation(t) {
      assert ValidTable(v.tables[i], v.nextFileNumber, maxKeySize);
    }
    SortOrders(v.tables + [t]);
  }

  lemma {:induction false} RemainingAll(tables: seq<VersionTable>)
    ensures Remaining(tables, []) == tables
  {
    if tables != [] {
      RemainingAll(tables[..|tables| - 1]);
    }
  }

  /** The version a flush publishes, if its edit is accepted. */
  lemma FlushCandidate(m: Memory, l: Logs, o: Options)
    requires MemoryOk(m, l, o) && m.Flushing() && m.immutable.value.pending.Some? && CandidateOf(m, l, o).Some?
    ensures FlushOf(StoredOf(m, l, o), CandidateOf(m, l, o).value, l.frozen, m.generation)
    ensures CandidateOf(m, l, o).value.version.tables ==
            m.version.tables + [VersionTable(0, m.immutable.value.pending.value.summary)]
    ensures ValidVersion(CandidateOf(m, l, o).value.version, o.maxKeySize)
    ensures GenerationsAscend(CandidateOf(m, l, o).value.version.tables)
    ensures CandidateOf(m, l, o).value.version.id == m.version.id + 1 && m.version.id != MAX64
  {
    hide StoredOk, Encodable, Fold, Rising, CompactionOk, ValidVersion, DeletionsOk, AdditionsOk, SortByGeneration, Remaining,
         LogBytes, TableBytes, Contents, TableEncodable, OpenTable, MinimumSequence, MaximumSequence;
    var i := m.immutable.value;
    var t := VersionTable(0, i.pending.value.summary);
    StoredVersion(StoredOf(m, l, o), o);
    FlushTablesAppended(m.version, t, m.generation, i.maximumSequence, o.maxKeySize);
  }

  lemma StoredVersion(s: Stored, o: Options)
    requires StoredOk(s, o)
    ensures SoundVersion(s.version, o.maxKeySize) && GenerationsAscend(s.version.tables) && InWidth(s.version)
    ensures |s.runs| == |s.version.tables|
  {
    hide SoundVersion, ValidVersion, Means;
    ValidVersionIsSound(s.version, o.maxKeySize);
  }

  lemma FlushInWidth(m: Memory, l: Logs, o: Options)
    requires MemoryOk(m, l, o) && m.Flushing() && m.immutable.value.pending.Some? && CandidateOf(m, l, o).Some?
    ensures InWidth(CandidateOf(m, l, o).value.version)
  {
    hide *;
    FlushingParts(m);
    MemoryParts(m, l, o);
    FlushCandidate(m, l, o);
    FrozenBounds(m, l, o);
    StoredVersion(StoredOf(m, l, o), o);
    CandidateVersion(m, l, o);
    PendingInWidth(m, l, o);
    AppendedInWidth(m.version, CandidateOf(m, l, o).value.version, VersionTable(0, m.immutable.value.pending.value.summary));
  }

  lemma CandidateVersion(m: Memory, l: Logs, o: Options)
    requires MemoryOk(m, l, o) && m.Flushing() && m.immutable.value.pending.Some? && CandidateOf(m, l, o).Some?
    ensures var v := CandidateOf(m, l, o).value.version;
            && StoredOf(m, l, o).version == m.version
            && v.nextFileNumber == m.generation <= MAX64 && v.lastSequence == LastSequence(l.frozen)
  {
    FlushCandidateFrontier(m, o);
    hide Apply, ReadersOk, CompactionOk, PendingOk, ActiveLogOk, Fold, Rising, AllEncodable, RunsOf;
  }

  lemma PendingInWidth(m: Memory, l: Logs, o: Options)
    requires PendingOk(m, o) && m.immutable.Some? && m.immutable.value.pending.Some? && GenerationsOk(m)
    requires m.immutable.value.records != []
    requires MinimumSequence(m.immutable.value.records) <= MaximumSequence(m.immutable.value.records) <= MAX64
    ensures TableInWidth(VersionTable(0, m.immutable.value.pending.value.summary))
  {
    hide TableBytes, TableEncodable, OpenTable, Contents, MinimumSequence, MaximumSequence;
  }

  lemma AppendedInWidth(v: Version, v': Version, t: VersionTable)
    requires InWidth(v) && TableInWidth(t) && v'.tables == v.tables + [t]
    requires v'.id == v.id + 1 && v.id != MAX64 && v'.nextFileNumber <= MAX64 && v'.lastSequence <= MAX64
    ensures InWidth(v')
  {
    hide TableInWidth;
  }

  /** The frozen records: sorted, encodable, and bounded by the sequence counter. */
  lemma FrozenBounds(m: Memory, l: Logs, o: Options)
    requires FrozenLogOk(m, l, o) && ActiveLogOk(m, l, o) && m.Flushing()
    ensures var records := m.immutable.value.records;
            && records != [] && Sorted(records)
            && (forall r :: r in records ==> Encodable(r, o) && m.version.lastSequence < r.sequence <= LastSequence(l.frozen))
            && MinimumSequence(records) <= MaximumSequence(records) == LastSequence(l.frozen) <= MAX64
            && m.version.lastSequence < LastSequence(l.frozen)
  {
    hide Encodable, Fold;
    var records := m.immutable.value.records;
    FoldSorted(l.frozen);
    FoldMaximum(l.frozen, m.version.lastSequence);
    assert l.frozen[|l.frozen| - 1] in records;
    assert records[0] in records;
  }

  /** Adding one described table to a stored version. */
  lemma AppendedStored(s: Stored, s': Stored, summary: TableSummary, run: Run, o: Options)
    requires StoredOk(s, o) && s'.runs == s.runs + [run]
    requires |s'.version.tables| == |s.version.tables| + 1
    requires s'.version.tables[..|s.version.tables|] == s.version.tables
    requires s'.version.tables[|s.version.tables|].summary == summary && Describes(summary, run)
    requires forall r :: r in run ==> Encodable(r, o) && r.sequence <= s'.version.lastSequence
    requires s.version.lastSequence <= s'.version.lastSequence
    requires forall r :: r in run ==> s.version.lastSequence < r.sequence
    requires ValidVersion(s'.version, o.maxKeySize) && InWidth(s'.version) && GenerationsAscend(s'.version.tables)
    requires Means(s'.runs, s'.log)
    ensures StoredOk(s', o)
  {
    hide Encodable, ValidVersion, InWidth, GenerationsAscend, Means, Describes;
    assert Distinct(s'.runs) by { hide Described; }
    hide Distinct;
    var n := |s.version.tables|;
    forall k | 0 <= k < |s'.version.tables| ensures Describes(s'.version.tables[k].summary, s'.runs[k]) {
      if k < n {
        assert s'.version.tables[k] == s'.version.tables[..n][k];
      }
    }
    forall k, r | 0 <= k < |s'.runs| && r in s'.runs[k] ensures Encodable(r, o) && r.sequence <= s'.version.lastSequence {
      if k < n {
        assert s'.runs[k] == s.runs[k];
      }
    }
  }

  lemma FlushMeaning(m: Memory, l: Logs, o: Options)
    requires StoredOk(StoredOf(m, l, o), o) && FrozenLogOk(m, l, o) && m.Flushing()
    ensures Means(RunsOf(m.readers, o) + [m.immutable.value.records], l.tables + l.frozen)
  {
    hide Encodable, Fold, ValidVersion, InWidth, GenerationsAscend, Means, Described;
    FlushMeans(RunsOf(m.readers, o), l.tables, l.frozen, m.version.lastSequence);
  }

  lemma MemoryParts(m: Memory, l: Logs, o: Options)
    requires MemoryOk(m, l, o)
    ensures ReadersOk(m, l, o) && GenerationsOk(m) && FrozenLogOk(m, l, o) && ActiveLogOk(m, l, o) && PendingOk(m, o)
    ensures CompactionOk(m, l, o) && o.Valid() && StoredOk(StoredOf(m, l, o), o)
  {
    hide StoredOk, GenerationsOk, FrozenLogOk, ActiveLogOk, PendingOk, CompactionOk;
  }

  lemma FlushStoredOk(m: Memory, l: Logs, o: Options)
    requires MemoryOk(m, l, o) && m.Flushing() && m.immutable.value.pending.Some? && CandidateOf(m, l, o).Some?
    ensures StoredOk(CandidateOf(m, l, o).value, o)
  {
    var s, s', i := StoredOf(m, l, o), CandidateOf(m, l, o).value, m.immutable.value;
    hide *;
    MemoryParts(m, l, o);
    FlushInWidth(m, l, o);
    FlushCandidate(m, l, o);
    FrozenBounds(m, l, o);
    FlushMeaning(m, l, o);
    PendingDescribed(m, l, o);
    FlushParts(m, l, o);
    AppendedStored(s, s', i.pending.value.summary, i.records, o);
  }

  lemma PendingDescribed(m: Memory, l: Logs, o: Options)
    requires PendingOk(m, o) && m.immutable.Some? && m.immutable.value.pending.Some? && Sorted(m.immutable.value.records)
    ensures Describes(m.immutable.value.pending.value.summary, m.immutable.value.records)
  {
    hide TableBytes, TableEncodable, OpenTable, Contents, MinimumSequence, MaximumSequence, Less;
  }

  lemma FlushParts(m: Memory, l: Logs, o: Options)
    requires m.Flushing() && m.immutable.value.pending.Some? && CandidateOf(m, l, o).Some?
    requires FlushOf(StoredOf(m, l, o), CandidateOf(m, l, o).value, l.frozen, m.generation)
    requires CandidateOf(m, l, o).value.version.tables ==
             m.version.tables + [VersionTable(0, m.immutable.value.pending.value.summary)]
    requires m.version.lastSequence < LastSequence(l.frozen)
    ensures var s, s' := StoredOf(m, l, o), CandidateOf(m, l, o).value;
            && s'.runs == s.runs + [m.immutable.value.records] && s'.log == l.tables + l.frozen
            && s.runs == RunsOf(m.readers, o) && s.version == m.version
            && |s'.version.tables| == |s.version.tables| + 1
            && s'.version.tables[..|s.version.tables|] == s.version.tables
            && s'.version.tables[|s.version.tables|].summary == m.immutable.value.pending.value.summary
            && s.version.lastSequence <= s'.version.lastSequence == LastSequence(l.frozen)
  {
    hide Apply, RunsOf;
  }

  // ----- Publishing the flush ---------------------------------------------------------------------

  /** Whatever the current view holds, it is ready for the candidate of the flush. */
  lemma FlushReady(img: Image, h: History, m: Memory, l: Logs, o: Options)
    requires MemoryOk(m, l, o) && Explains(LogOf(m, l), h) && ViewClaim(img, ClaimOf(m, l, o), h, o)
    requires m.Flushing() && m.immutable.value.pending.Some? && CandidateOf(m, l, o).Some?
    requires l.active != [] ==> WalName(m.generation) in img
    ensures ReadyFor(img, CandidateOf(m, l, o).value, h, o)
  {
    hide *;
    FlushingParts(m);
    var c, s' := ClaimOf(m, l, o), CandidateOf(m, l, o).value;
    FlushClaim(m, l, o);
    ClaimParts(img, c, h, o);
    HoldsEither(img, c.stored, c.candidate, h, o);
    if ViewHolds(img, s', h, o) {
      HoldsReady(img, s', h, o);
    } else {
      HoldsParts(img, c.stored, h, o);
      FlushCandidate(m, l, o);
      FlushStoredOk(m, l, o);
      FlushTableReady(img, m, l, o);
      FlushFileNumber(m, l, o);
      FlushTables(img, c.stored, s', l.frozen, m.generation, o);
      FlushWalsReady(img, h, m, l, o);
      FlushWals(img, c.stored, s', l.frozen, m.generation, h, o);
      PartsReady(img, s', h, o);
    }
  }

  lemma HoldsEither(img: Image, stored: Stored, candidate: Option<Stored>, h: History, o: Options)
    requires HoldsOne(img, stored, candidate, h, o) && candidate.Some?
    ensures ViewHolds(img, stored, h, o) || ViewHolds(img, candidate.value, h, o)
  {
  }

  lemma FlushClaim(m: Memory, l: Logs, o: Options)
    requires m.Flushing() && m.immutable.value.pending.Some?
    ensures var c, i := ClaimOf(m, l, o), m.immutable.value;
            && c.Running? && c.stored == StoredOf(m, l, o) && c.candidate == CandidateOf(m, l, o)
            && c.walLimit == LimitOf(m, l) && FileName.Manifest !in c.pins
            && Table(i.generation) in c.pins && c.pins[Table(i.generation)] == TableBytes(i.generation, i.records, o)
            && (l.twoWals ==> WalName(i.generation) in c.pins && c.pins[WalName(i.generation)] == LogBytes(l.frozen))
            && LimitOf(m, l) == (if l.twoWals then m.generation else i.generation)
  {
    hide TableBytes, LogBytes, StoredOf, CandidateOf;
  }

  lemma FlushFileNumber(m: Memory, l: Logs, o: Options)
    requires MemoryOk(m, l, o) && m.Flushing() && m.immutable.value.pending.Some? && CandidateOf(m, l, o).Some?
    requires CandidateOf(m, l, o).value.version.tables ==
             m.version.tables + [VersionTable(0, m.immutable.value.pending.value.summary)]
    ensures |StoredOf(m, l, o).version.tables| < |CandidateOf(m, l, o).value.version.tables|
    ensures CandidateOf(m, l, o).value.version.tables[|StoredOf(m, l, o).version.tables|].summary ==
            m.immutable.value.pending.value.summary
    ensures m.immutable.value.records == Fold(l.frozen)
  {
    hide CandidateOf, RunsOf, Fold, ReadersOk, ActiveLogOk, CompactionOk, PendingOk;
  }

  lemma FlushTableReady(img: Image, m: Memory, l: Logs, o: Options)
    requires MemoryOk(m, l, o) && m.Flushing() && m.immutable.value.pending.Some?
    requires PinsOk(img, ClaimOf(m, l, o).pins)
    ensures TableOk(img, m.immutable.value.pending.value.summary, Fold(l.frozen), o)
  {
    FlushClaim(m, l, o);
    hide ClaimOf, Fold, ReadersOk, ActiveLogOk, CompactionOk, Rising, AllEncodable, MinimumSequence, MaximumSequence, TableEncodable;
  }

  lemma FlushWalsReady(img: Image, h: History, m: Memory, l: Logs, o: Options)
    requires MemoryOk(m, l, o) && Explains(LogOf(m, l), h) && m.Flushing() && m.immutable.value.pending.Some?
    requires CandidateOf(m, l, o).Some?
    requires FlushOf(StoredOf(m, l, o), CandidateOf(m, l, o).value, l.frozen, m.generation)
    requires WalsOk(img, StoredOf(m, l, o), h, o) && PinsOk(img, ClaimOf(m, l, o).pins) && WalsAtMost(img, LimitOf(m, l))
    requires l.active != [] ==> WalName(m.generation) in img
    ensures WalsAtMost(img, m.generation)
    ensures WalName(m.generation) in img ==> FrozenBelow(img, StoredOf(m, l, o), m.generation, l.frozen, o)
    ensures WalName(m.generation) !in img ==> Explains(CandidateOf(m, l, o).value.log, h)
  {
    FlushClaim(m, l, o);
    NewWalNumbers(m, l, o);
    hide MemoryOk, ClaimOf, StoredOf, LogOf, LimitOf, LogBytes, WalsOk, Explains, CandidateOf, AllEncodable;
    if WalName(m.generation) !in img {
      assert l.tables + l.frozen + [] == l.tables + l.frozen;
    }
  }

  /** The memory once the flushed table is part of the version. */
  function Published(m: Memory, v: Version): Memory
    requires m.immutable.Some? && m.immutable.value.pending.Some?
  {
    m.(version := v, readers := m.readers + [m.immutable.value.pending.value],
       immutable := Some(m.immutable.value.(pending := None, published := true)))
  }

  lemma PublishedStored(m: Memory, l: Logs, o: Options)
    requires MemoryOk(m, l, o) && m.Flushing() && m.immutable.value.pending.Some? && CandidateOf(m, l, o).Some?
    ensures StoredOf(Published(m, CandidateOf(m, l, o).value.version), l.(tables := l.tables + l.frozen), o) ==
            CandidateOf(m, l, o).value
  {
    hide *;
    FlushingParts(m);
    MemoryParts(m, l, o);
    PendingContents(m, o);
    RunsAppend(m.readers, m.immutable.value.pending.value, o);
    FlushStored(m, l, o);
    PublishedParts(m, CandidateOf(m, l, o).value.version);
    StoredIs(Published(m, CandidateOf(m, l, o).value.version), l.(tables := l.tables + l.frozen), o);
  }

  lemma RunsAppend(readers: seq<Reader>, rd: Reader, o: Options)
    ensures RunsOf(readers + [rd], o) == RunsOf(readers, o) + [Contents(rd, o)]
  {
    hide Contents;
  }

  lemma FlushStored(m: Memory, l: Logs, o: Options)
    requires m.Flushing() && m.immutable.value.pending.Some? && CandidateOf(m, l, o).Some?
    ensures var s := CandidateOf(m, l, o).value;
            s == Stored(s.version, RunsOf(m.readers, o) + [m.immutable.value.records], l.tables + l.frozen)
  {
    hide RunsOf, Apply;
  }

  lemma PublishedParts(m: Memory, v: Version)
    requires m.immutable.Some? && m.immutable.value.pending.Some?
    ensures Published(m, v).version == v && Published(m, v).readers == m.readers + [m.immutable.value.pending.value]
  {
  }

  lemma StoredIs(m: Memory, l: Logs, o: Options)
    ensures StoredOf(m, l, o) == Stored(m.version, RunsOf(m.readers, o), l.tables)
  {
    hide RunsOf;
  }

  lemma PublishedMemory(m: Memory, l: Logs, o: Options)
    requires MemoryOk(m, l, o) && m.Flushing() && m.immutable.value.pending.Some? && CandidateOf(m, l, o).Some?
    requires m.compaction.None?
    ensures var m', l' := Published(m, CandidateOf(m, l, o).value.version), l.(tables := l.tables + l.frozen);
            MemoryOk(m', l', o) && LogOf(m', l') == LogOf(m, l)
  {
    hide *;
    FlushingParts(m);
    var m', l' := Published(m, CandidateOf(m, l, o).value.version), l.(tables := l.tables + l.frozen);
    MemoryParts(m, l, o);
    FlushCandidate(m, l, o);
    FlushStoredOk(m, l, o);
    CandidateVersion(m, l, o);
    PublishedStored(m, l, o);
    PendingOpened(m, o);
    PublishedReaders(m, l, o);
    PublishedTop(m, l, o);
    PublishedRest(m, l, CandidateOf(m, l, o).value.version, o);
    PartsMemory(m', l', o);
  }

  lemma PartsMemory(m: Memory, l: Logs, o: Options)
    requires ReadersOk(m, l, o) && GenerationsOk(m) && FrozenLogOk(m, l, o) && ActiveLogOk(m, l, o) && PendingOk(m, o)
    requires CompactionOk(m, l, o) && o.Valid()
    ensures MemoryOk(m, l, o)
  {
    hide ReadersOk, GenerationsOk, FrozenLogOk, ActiveLogOk, PendingOk, CompactionOk;
  }

  lemma PendingOpened(m: Memory, o: Options)
    requires PendingOk(m, o) && m.immutable.Some? && m.immutable.value.pending.Some?
    ensures Opened(m.immutable.value.pending.value, o)
  {
    hide TableBytes, TableEncodable, OpenTable, Contents, Opened, MinimumSequence, MaximumSequence;
    OpenTableOpened(TableBytes(m.immutable.value.generation, m.immutable.value.records, o), o);
  }

  lemma PublishedReaders(m: Memory, l: Logs, o: Options)
    requires ReadersOk(m, l, o) && m.Flushing() && m.immutable.value.pending.Some? && CandidateOf(m, l, o).Some?
    requires CandidateOf(m, l, o).value.version.tables ==
             m.version.tables + [VersionTable(0, m.immutable.value.pending.value.summary)]
    requires StoredOk(CandidateOf(m, l, o).value, o)
    requires StoredOf(Published(m, CandidateOf(m, l, o).value.version), l.(tables := l.tables + l.frozen), o) ==
             CandidateOf(m, l, o).value
    requires Opened(m.immutable.value.pending.value, o)
    ensures ReadersOk(Published(m, CandidateOf(m, l, o).value.version), l.(tables := l.tables + l.frozen), o)
  {
    hide StoredOk, CandidateOf, StoredOf, Opened;
  }

  /** The flushed table is the newest of all. */
  lemma PublishedTop(m: Memory, l: Logs, o: Options)
    requires MemoryOk(m, l, o) && m.Flushing() && m.immutable.value.pending.Some?
    ensures TopTable(m.readers + [m.immutable.value.pending.value], m.immutable.value.records, o)
  {
    hide *;
    FlushingParts(m);
    MemoryParts(m, l, o);
    FrozenBounds(m, l, o);
    PendingContents(m, o);
    StoredSequences(m, l, o);
    TopTableIs(m.readers, m.immutable.value.pending.value, m.immutable.value.records, m.version.lastSequence, o);
  }

  lemma PendingContents(m: Memory, o: Options)
    requires PendingOk(m, o) && m.immutable.Some? && m.immutable.value.pending.Some?
    ensures Contents(m.immutable.value.pending.value, o) == m.immutable.value.records
  {
    hide TableBytes, TableEncodable, OpenTable, Contents, MinimumSequence, MaximumSequence;
  }

  lemma StoredSequences(m: Memory, l: Logs, o: Options)
    requires StoredOk(StoredOf(m, l, o), o)
    ensures forall j, r :: 0 <= j < |m.readers| && r in Contents(m.readers[j], o) ==> r.sequence <= m.version.lastSequence
  {
    hide Encodable, ValidVersion, InWidth, GenerationsAscend, Means, Described, Contents, Distinct;
    var runs := RunsOf(m.readers, o);
    forall j, r | 0 <= j < |m.readers| && r in Contents(m.readers[j], o) ensures r.sequence <= m.version.lastSequence {
      assert r in runs[j];
    }
  }

  lemma TopTableIs(readers: seq<Reader>, top: Reader, records: Run, floor: nat, o: Options)
    requires Contents(top, o) == records && forall r :: r in records ==> floor < r.sequence
    requires forall j, r :: 0 <= j < |readers| && r in Contents(readers[j], o) ==> r.sequence <= floor
    ensures TopTable(readers + [top], records, o)
  {
    hide Contents;
  }

  lemma PublishedRest(m: Memory, l: Logs, v: Version, o: Options)
    requires GenerationsOk(m) && FrozenLogOk(m, l, o) && ActiveLogOk(m, l, o) && m.Flushing() && m.compaction.None?
    requires m.immutable.value.pending.Some? && v.nextFileNumber == m.generation && v.lastSequence == LastSequence(l.frozen)
    requires TopTable(m.readers + [m.immutable.value.pending.value], m.immutable.value.records, o)
    ensures var m', l' := Published(m, v), l.(tables := l.tables + l.frozen);
            && GenerationsOk(m') && FrozenLogOk(m', l', o) && ActiveLogOk(m', l', o) && PendingOk(m', o)
            && CompactionOk(m', l', o) && LogOf(m', l') == LogOf(m, l)
  {
    hide Fold, AllEncodable, TopTable;
    assert l.tables + l.frozen + [] + l.active == l.tables + l.frozen + l.active;
  }

  /** The new MANIFEST is durable: the flush is part of the version. */
  lemma PublishedKeeps(fs: FileSystem, h: History, m: Memory, l: Logs, o: Options)
    requires Inv(fs, h, m, l, o) && m.Flushing() && m.immutable.value.pending.Some? && CandidateOf(m, l, o).Some?
    requires m.compaction.None? && fs.pending == []
    requires ViewHolds(ImageOf(fs.Current(), fs.files), CandidateOf(m, l, o).value, h, o)
    ensures Inv(fs, h, Published(m, CandidateOf(m, l, o).value.version), l.(tables := l.tables + l.frozen), o)
    ensures LogOf(Published(m, CandidateOf(m, l, o).value.version), l.(tables := l.tables + l.frozen)) == LogOf(m, l)
  {
    hide *;
    FlushingParts(m);
    var s' := CandidateOf(m, l, o).value;
    var m', l' := Published(m, s'.version), l.(tables := l.tables + l.frozen);
    InvParts(fs, h, m, l, o);
    PublishedMemory(m, l, o);
    PublishedStored(m, l, o);
    PublishedViews(fs, h, m, l, o);
    PublishedWalFile(fs, m, l, s'.version, o);
    PartsInv(fs, h, m', l', o);
  }

  lemma PublishedClaim(m: Memory, l: Logs, v: Version, o: Options)
    requires m.Flushing() && m.immutable.value.pending.Some? && m.compaction.None?
    ensures ClaimOf(Published(m, v), l.(tables := l.tables + l.frozen), o) ==
            Running(StoredOf(Published(m, v), l.(tables := l.tables + l.frozen), o), None, map[], m.generation)
  {
    hide StoredOf;
  }

  lemma PublishedViews(fs: FileSystem, h: History, m: Memory, l: Logs, o: Options)
    requires MemoryOk(m, l, o) && Keeps(fs, ClaimOf(m, l, o), h, o)
    requires m.Flushing() && m.immutable.value.pending.Some? && CandidateOf(m, l, o).Some?
    requires m.compaction.None? && fs.pending == []
    requires ViewHolds(ImageOf(fs.Current(), fs.files), CandidateOf(m, l, o).value, h, o)
    requires StoredOf(Published(m, CandidateOf(m, l, o).value.version), l.(tables := l.tables + l.frozen), o) ==
             CandidateOf(m, l, o).value
    ensures Keeps(fs, ClaimOf(Published(m, CandidateOf(m, l, o).value.version), l.(tables := l.tables + l.frozen), o), h, o)
  {
    hide ViewClaim, PerformAll, ClaimOf, MemoryOk, DirectoryOk, CandidateOf, StoredOf, LimitOf, ViewHolds;
    var c := ClaimOf(m, l, o);
    var c' := Running(CandidateOf(m, l, o).value, None, map[], m.generation);
    PublishedClaim(m, l, CandidateOf(m, l, o).value.version, o);
    FlushClaim(m, l, o);
    LimitBelow(m, l, o);
    var img := ImageOf(fs.Current(), fs.files);
    CurrentClaim(fs, c, h, o);
    ClaimParts(img, c, h, o);
    PartsClaim(img, c', h, o);
    SyncedKeeps(fs, c', h, o);
  }

  lemma LimitBelow(m: Memory, l: Logs, o: Options)
    requires MemoryOk(m, l, o)
    ensures LimitOf(m, l) <= m.generation
  {
    hide ReadersOk, FrozenLogOk, ActiveLogOk, PendingOk, CompactionOk;
  }

  lemma PublishedWalFile(fs: FileSystem, m: Memory, l: Logs, v: Version, o: Options)
    requires WalFileOk(fs, m, l, o) && m.immutable.Some? && m.immutable.value.pending.Some?
    ensures WalFileOk(fs, Published(m, v), l.(tables := l.tables + l.frozen), o)
  {
    hide Everywhere, Holds, PerformAll;
  }

  // ----- Removing stale names, opening the next log, retiring ----------------------------------------

  /** A name that the published version does not read, other than the active log's. */
  lemma UnlinkInv(fs: FileSystem, n: FileName, h: History, m: Memory, l: Logs, o: Options)
    requires Inv(fs, h, m, l, o) && !m.Flushing() && !m.Compacting()
    requires !Relevant(n, m.version) && n != WalName(m.generation)
    ensures Inv(fs.Issue(Unlink(n)), h, m, l, o)
  {
    hide *;
    InvParts(fs, h, m, l, o);
    QuietClaim(m, l, o);
    StaleNow(fs, n, h, m, l, o);
    UnlinkStaleKeeps(fs, n, ClaimOf(m, l, o), h, o);
    UnlinkWalFile(fs, n, m, l, o);
    PartsInv(fs.Issue(Unlink(n)), h, m, l, o);
  }

  lemma QuietClaim(m: Memory, l: Logs, o: Options)
    requires !m.Flushing() && !m.Compacting()
    ensures ClaimOf(m, l, o) == Running(StoredOf(m, l, o), None, map[], m.generation)
    ensures StoredOf(m, l, o).version == m.version && StoredOf(m, l, o).log == l.tables
  {
    hide RunsOf;
  }

  lemma StaleNow(fs: FileSystem, n: FileName, h: History, m: Memory, l: Logs, o: Options)
    requires Keeps(fs, ClaimOf(m, l, o), h, o)
    requires ClaimOf(m, l, o) == Running(StoredOf(m, l, o), None, map[], m.generation)
    requires StoredOf(m, l, o).version == m.version && !Relevant(n, m.version)
    ensures Stale(n, ImageOf(fs.Current(), fs.files), ClaimOf(m, l, o), h, o)
  {
    hide ClaimOf, StoredOf, Relevant, ViewHolds, PerformAll, DirectoryOk;
    CurrentClaim(fs, ClaimOf(m, l, o), h, o);
  }

  lemma UnlinkWalFile(fs: FileSystem, n: FileName, m: Memory, l: Logs, o: Options)
    requires WalFileOk(fs, m, l, o) && n != WalName(m.generation)
    ensures WalFileOk(fs.Issue(Unlink(n)), m, l, o)
  {
    hide Holds, PerformAll;
    var after := fs.Issue(Unlink(n));
    ViewAfterIssue(fs, Unlink(n), |fs.pending| + 1);
    if m.wal.Some? {
      forall kept | 0 <= kept <= |after.pending|
        ensures WalName(m.generation) in after.View(kept) && after.View(kept)[WalName(m.generation)] == m.wal.value
      {
        ViewAfterIssue(fs, Unlink(n), kept);
        assert WalName(m.generation) in fs.View(|fs.pending|);
      }
    }
  }

  /** A database that may open its next log: no unpublished change, or a frozen log pinned below it. */
  predicate MayOpenWal(m: Memory, l: Logs) {
    && m.wal.None? && !m.Compacting()
    && (m.Flushing() ==> l.twoWals && m.immutable.value.pending.None?)
    && (m.compaction.Some? ==> m.compaction.value.cleanupSynced)
  }

  lemma MayOpenWalParts(m: Memory, l: Logs)
    requires MayOpenWal(m, l)
    ensures m.wal.None? && !m.Compacting() && (m.Flushing() ==> m.immutable.Some? && l.twoWals)
  {
  }

  lemma CreateWalInv(fs: FileSystem, h: History, m: Memory, l: Logs, o: Options)
    requires Inv(fs, h, m, l, o) && MayOpenWal(m, l) && WalName(m.generation) !in fs.Current()
    ensures Inv(fs.Create(WalName(m.generation)), h, m, l, o)
  {
    hide *;
    MayOpenWalParts(m, l);
    InvParts(fs, h, m, l, o);
    CurrentClaim(fs, ClaimOf(m, l, o), h, o);
    ImageHasNot(fs, WalName(m.generation));
    NewWalClaim(ImageOf(fs.Current(), fs.files), h, m, l, o);
    CreateKeeps(fs, WalName(m.generation), ClaimOf(m, l, o), h, o);
    CreatedWalFile(fs, m, l, o);
    PartsInv(fs.Create(WalName(m.generation)), h, m, l, o);
  }

  lemma ImageHasNot(fs: FileSystem, n: FileName)
    requires DirectoryOk(fs.Current(), |fs.files|) && n !in fs.Current()
    ensures n !in ImageOf(fs.Current(), fs.files)
  {
    hide PerformAll;
  }

  lemma CreatedWalFile(fs: FileSystem, m: Memory, l: Logs, o: Options)
    requires m.wal.None?
    ensures WalFileOk(fs.Create(WalName(m.generation)), m, l, o)
  {
    hide PerformAll, Perform;
    var name := WalName(m.generation);
    ViewAfterIssue(fs, Link(name, |fs.files|), |fs.pending| + 1);
    CreatedCurrent(fs, name);
  }

  lemma CreatedCurrent(fs: FileSystem, name: FileName)
    ensures fs.Create(name).Current() == fs.Current()[name := |fs.files|]
    ensures |fs.Create(name).files| == |fs.files| + 1 && fs.Create(name).files[|fs.files|] == StableFile([])
  {
    hide PerformAll;
    ViewAfterIssue(fs, Link(name, |fs.files|), |fs.pending| + 1);
    assert fs.Create(name).Current() == fs.Issue(Link(name, |fs.files|)).Current();
  }

  lemma NewWalClaim(img: Image, h: History, m: Memory, l: Logs, o: Options)
    requires MemoryOk(m, l, o) && Explains(LogOf(m, l), h) && ViewClaim(img, ClaimOf(m, l, o), h, o)
    requires MayOpenWal(m, l) && WalName(m.generation) !in img
    ensures ViewClaim(img[WalName(m.generation) := StableFile([])], ClaimOf(m, l, o), h, o)
  {
    hide *;
    MayOpenWalParts(m, l);
    NewWalKind(m, l, o);
    var c := ClaimOf(m, l, o);
    ClaimParts(img, c, h, o);
    HoldsStored(img, c.stored, h, o);
    NewWalNumbers(m, l, o);
    NewWalHolds(img, h, m, l, o);
    NewWalPins(img, c, m.generation);
    StoredHolds(img[WalName(m.generation) := StableFile([])], c.stored, c.candidate, h, o);
    PartsClaim(img[WalName(m.generation) := StableFile([])], c, h, o);
  }

  lemma NewWalNumbers(m: Memory, l: Logs, o: Options)
    requires MemoryOk(m, l, o)
    ensures StoredOf(m, l, o).version == m.version && StoredOf(m, l, o).log == l.tables
    ensures m.Flushing() ==> m.generation == m.version.nextFileNumber + 1 && m.immutable.value.generation == m.version.nextFileNumber
    ensures m.generation <= MAX64
    ensures !m.Flushing() ==> m.generation == m.version.nextFileNumber
    ensures m.Flushing() ==>
              && LogOf(m, l) == l.tables + l.frozen + l.active && l.frozen != []
              && AllEncodable(l.frozen, o) && Rising(l.frozen, m.version.lastSequence)
    ensures !m.Flushing() ==> LogOf(m, l) == l.tables + l.active
    ensures m.wal.None? ==> l.active == []
  {
    hide StoredOk, Fold, PendingOk, CompactionOk, RunsOf, AllEncodable, Rising;
    assert l.tables + [] + l.active == l.tables + l.active;
  }

  lemma NewWalHolds(img: Image, h: History, m: Memory, l: Logs, o: Options)
    requires Explains(LogOf(m, l), h) && ViewHolds(img, StoredOf(m, l, o), h, o) && m.wal.None? && m.generation <= MAX64
    requires PinsOk(img, ClaimOf(m, l, o).pins) && WalsAtMost(img, m.generation) && WalName(m.generation) !in img
    requires StoredOf(m, l, o).version == m.version && StoredOf(m, l, o).log == l.tables && l.active == []
    requires m.Flushing() ==>
              && m.immutable.Some? && l.twoWals
              && m.generation == m.version.nextFileNumber + 1 && m.immutable.value.generation == m.version.nextFileNumber
              && LogOf(m, l) == l.tables + l.frozen + l.active && l.frozen != []
              && AllEncodable(l.frozen, o) && Rising(l.frozen, m.version.lastSequence)
    requires !m.Flushing() ==> m.generation == m.version.nextFileNumber && LogOf(m, l) == l.tables + l.active
    ensures ViewHolds(img[WalName(m.generation) := StableFile([])], StoredOf(m, l, o), h, o)
  {
    hide ViewHolds, Explains, LogOf, StoredOf, LogBytes, Rising, AllEncodable, Memory.Flushing, Memory.Compacting;
    var s := StoredOf(m, l, o);
    if m.Flushing() {
      TwoWalPins(m, l, o);
      assert l.tables + l.frozen + [] == l.tables + l.frozen;
      SecondWalHolds(img, s, l.frozen, h, o);
    } else {
      assert WalName(m.generation + 1) !in img;
      FirstWalHolds(img, s, h, o);
    }
  }

  lemma TwoWalPins(m: Memory, l: Logs, o: Options)
    requires m.Flushing() && l.twoWals
    ensures var c, n := ClaimOf(m, l, o), WalName(m.immutable.value.generation);
            c.Running? && n in c.pins && c.pins[n] == LogBytes(l.frozen)
  {
    hide StoredOf, CandidateOf, LogBytes, TableBytes;
  }

  lemma NewWalKind(m: Memory, l: Logs, o: Options)
    requires MayOpenWal(m, l)
    ensures var c := ClaimOf(m, l, o);
            c.Running? && c.stored == StoredOf(m, l, o) && c.candidate == None && c.walLimit == m.generation
  {
    hide StoredOf, LogBytes, TableBytes;
  }

  lemma HoldsStored(img: Image, s: Stored, h: History, o: Options)
    requires HoldsOne(img, s, None, h, o)
    ensures ViewHolds(img, s, h, o)
  {
    hide ViewHolds;
  }

  lemma StoredHolds(img: Image, s: Stored, candidate: Option<Stored>, h: History, o: Options)
    requires ViewHolds(img, s, h, o)
    ensures HoldsOne(img, s, candidate, h, o)
  {
    hide ViewHolds;
  }

  lemma NewWalPins(img: Image, c: Claim, n: nat)
    requires c.Running? && PinsOk(img, c.pins) && WalsAtMost(img, c.walLimit) && n <= c.walLimit && WalName(n) !in img
    ensures PinsOk(img[WalName(n) := StableFile([])], c.pins) && WalsAtMost(img[WalName(n) := StableFile([])], c.walLimit)
  {
  }

  /** The new log is durable under its name: it may take writes. */
  lemma WalOpenedInv(fs: FileSystem, h: History, m: Memory, l: Logs, o: Options)
    requires Inv(fs, h, m, l, o) && MayOpenWal(m, l) && fs.pending == [] && WalName(m.generation) in fs.Current()
    ensures fs.Current()[WalName(m.generation)] < |fs.files|
    ensures Inv(fs, h, m.(wal := Some(fs.Current()[WalName(m.generation)])), l, o)
    ensures LogOf(m.(wal := Some(fs.Current()[WalName(m.generation)])), l) == LogOf(m, l)
  {
    hide *;
    MayOpenWalParts(m, l);
    InvParts(fs, h, m, l, o);
    MemoryParts(m, l, o);
    var m' := m.(wal := Some(fs.Current()[WalName(m.generation)]));
    OpenedMemory(m, m', l, o);
    PartsMemory(m', l, o);
    OpenedWalFile(fs, m, l, o);
    SameClaim(m, m', l, o);
    PartsInv(fs, h, m', l, o);
  }

  lemma OpenedMemory(m: Memory, m': Memory, l: Logs, o: Options)
    requires ReadersOk(m, l, o) && GenerationsOk(m) && FrozenLogOk(m, l, o) && ActiveLogOk(m, l, o) && PendingOk(m, o)
    requires CompactionOk(m, l, o) && MayOpenWal(m, l) && m' == m.(wal := m'.wal)
    ensures ReadersOk(m', l, o) && GenerationsOk(m') && FrozenLogOk(m', l, o) && ActiveLogOk(m', l, o) && PendingOk(m', o)
    ensures CompactionOk(m', l, o) && l.active == [] && LogOf(m', l) == LogOf(m, l)
  {
    hide ReadersOk, Fold, AllEncodable, Rising, BuiltTable, CompactionOk;
    SameReaders(m, m', l, l, o);
    SameCompaction(m, m', l, l, o);
  }

  lemma OpenedWalFile(fs: FileSystem, m: Memory, l: Logs, o: Options)
    requires WalFileOk(fs, m, l, o) && m.wal.None? && l.active == [] && fs.pending == []
    requires WalName(m.generation) in fs.Current()
    ensures fs.Current()[WalName(m.generation)] < |fs.files|
    ensures WalFileOk(fs, m.(wal := Some(fs.Current()[WalName(m.generation)])), l, o)
  {
    hide PerformAll;
  }

  lemma WalRemovedInv(fs: FileSystem, h: History, m: Memory, l: Logs, o: Options)
    requires Inv(fs, h, m, l, o) && m.immutable.Some? && m.immutable.value.published
    ensures Inv(fs, h, m.(immutable := Some(m.immutable.value.(walRemoved := true))), l, o)
    ensures LogOf(m.(immutable := Some(m.immutable.value.(walRemoved := true))), l) == LogOf(m, l)
  {
    hide *;
    var m' := m.(immutable := Some(m.immutable.value.(walRemoved := true)));
    InvParts(fs, h, m, l, o);
    MemoryParts(m, l, o);
    WalRemovedParts(fs, m, l, o);
    PartsMemory(m', l, o);
    PartsInv(fs, h, m', l, o);
  }

  lemma WalRemovedParts(fs: FileSystem, m: Memory, l: Logs, o: Options)
    requires ReadersOk(m, l, o) && GenerationsOk(m) && FrozenLogOk(m, l, o) && ActiveLogOk(m, l, o) && PendingOk(m, o)
    requires CompactionOk(m, l, o) && WalFileOk(fs, m, l, o) && m.immutable.Some? && m.immutable.value.published
    ensures var m' := m.(immutable := Some(m.immutable.value.(walRemoved := true)));
            && ReadersOk(m', l, o) && GenerationsOk(m') && FrozenLogOk(m', l, o) && ActiveLogOk(m', l, o) && PendingOk(m', o)
            && CompactionOk(m', l, o) && WalFileOk(fs, m', l, o)
            && LogOf(m', l) == LogOf(m, l) && ClaimOf(m', l, o) == ClaimOf(m, l, o)
  {
    hide ReadersOk, Fold, AllEncodable, Rising, BuiltTable, Everywhere, Holds, PerformAll, StoredOf;
    var m' := m.(immutable := Some(m.immutable.value.(walRemoved := true)));
    SameReaders(m, m', l, l, o);
    assert StoredOf(m', l, o) == StoredOf(m, l, o) by { SameStored(m, m', l, l, o); }
  }

  /** The flush is complete. */
  lemma RetireInv(fs: FileSystem, h: History, m: Memory, l: Logs, o: Options)
    requires Inv(fs, h, m, l, o) && m.immutable.Some? && m.immutable.value.published
    ensures Inv(fs, h, m.(immutable := None), l.(frozen := [], twoWals := false), o)
    ensures LogOf(m.(immutable := None), l.(frozen := [], twoWals := false)) == LogOf(m, l)
  {
    hide *;
    var m', l' := m.(immutable := None), l.(frozen := [], twoWals := false);
    InvParts(fs, h, m, l, o);
    MemoryParts(m, l, o);
    RetireParts(fs, m, l, o);
    PartsMemory(m', l', o);
    PartsInv(fs, h, m', l', o);
  }

  lemma RetireParts(fs: FileSystem, m: Memory, l: Logs, o: Options)
    requires ReadersOk(m, l, o) && GenerationsOk(m) && FrozenLogOk(m, l, o) && ActiveLogOk(m, l, o) && PendingOk(m, o)
    requires CompactionOk(m, l, o) && WalFileOk(fs, m, l, o) && m.immutable.Some? && m.immutable.value.published
    ensures var m', l' := m.(immutable := None), l.(frozen := [], twoWals := false);
            && ReadersOk(m', l', o) && GenerationsOk(m') && FrozenLogOk(m', l', o) && ActiveLogOk(m', l', o) && PendingOk(m', o)
            && CompactionOk(m', l', o) && WalFileOk(fs, m', l', o)
            && LogOf(m', l') == LogOf(m, l) && ClaimOf(m', l', o) == ClaimOf(m, l, o)
  {
    hide ReadersOk, Fold, AllEncodable, Rising, BuiltTable, Everywhere, Holds, PerformAll, StoredOf;
    var m', l' := m.(immutable := None), l.(frozen := [], twoWals := false);
    SameReaders(m, m', l, l', o);
    assert StoredOf(m', l', o) == StoredOf(m, l, o) by { SameStored(m, m', l, l', o); }
  }

  lemma SameStored(m: Memory, m': Memory, l: Logs, l': Logs, o: Options)
    requires m'.version == m.version && m'.readers == m.readers && l'.tables == l.tables
    ensures StoredOf(m', l', o) == StoredOf(m, l, o)
  {
  }
}
