/** The steps of a compaction (src/database.cpp:910-1122). */
module CompactionSteps {
  import opened Coding
  import opened Configuration
  import opened Keys
  import opened Runs
  import opened Wal
  import opened WalLog
  import opened Versions
  import opened Summaries
  import opened Compaction
  import opened Manifest
  import opened Tables
  import opened FileSystem
  import opened Durability
  import opened WalFiles
  import opened Claims
  import opened WalSteps
  import opened PublishSteps
  import opened Meaning
  import opened Engine
  import opened EngineSteps
  import opened FlushSteps

  // ----- Planning ----------------------------------------------------------------------------

  /** Every part of the invariant but the compaction itself. */
  lemma SameButCompaction(fs: FileSystem, m: Memory, m': Memory, l: Logs, o: Options)
    requires MemoryOk(m, l, o) && WalFileOk(fs, m, l, o)
    requires m' == m.(compaction := m'.compaction) && CompactionOk(m', l, o)
    ensures MemoryOk(m', l, o) && WalFileOk(fs, m', l, o) && LogOf(m', l) == LogOf(m, l) && StoredOf(m', l, o) == StoredOf(m, l, o)
    ensures LimitOf(m', l) == LimitOf(m, l) && m'.Flushing() == m.Flushing()
  {
    hide ReadersOk, FrozenLogOk, ActiveLogOk, PendingOk, CompactionOk, Everywhere, Holds, PerformAll;
    MemoryParts(m, l, o);
    SameReaders(m, m', l, l, o);
    assert FrozenLogOk(m', l, o) && ActiveLogOk(m', l, o) && PendingOk(m', o) by { SameLogs(m, m', l, o); }
    PartsMemory(m', l, o);
  }

  lemma SameLogs(m: Memory, m': Memory, l: Logs, o: Options)
    requires FrozenLogOk(m, l, o) && ActiveLogOk(m, l, o) && PendingOk(m, o) && m' == m.(compaction := m'.compaction)
    ensures FrozenLogOk(m', l, o) && ActiveLogOk(m', l, o) && PendingOk(m', o)
  {
    hide Fold, AllEncodable, Rising, BuiltTable;
  }

  /** PrepareCompaction: the plan is made in memory only. */
  lemma PreparedInv(fs: FileSystem, h: History, m: Memory, l: Logs, c: CompactionState, o: Options)
    requires Inv(fs, h, m, l, o) && m.compaction.None? && m.immutable.None? && l.active == []
    requires PlanOk(m, l, c, o) && c.published == [] && c.candidate == None && !c.versionPublished && !c.walAdvanced
    requires c.cleanupIndex == 0
    ensures Inv(fs, h, m.(compaction := Some(c)), l, o) && LogOf(m.(compaction := Some(c)), l) == LogOf(m, l)
  {
    hide *;
    var m' := m.(compaction := Some(c));
    InvParts(fs, h, m, l, o);
    PreparedCompaction(m, l, c, o);
    SameButCompaction(fs, m, m', l, o);
    PreparedClaim(m, m', l, o);
    PartsInv(fs, h, m', l, o);
  }

  lemma PreparedCompaction(m: Memory, l: Logs, c: CompactionState, o: Options)
    requires m.immutable.None? && l.active == []
    requires PlanOk(m, l, c, o) && c.published == [] && c.candidate == None && !c.versionPublished && !c.walAdvanced
    requires c.cleanupIndex == 0
    ensures CompactionOk(m.(compaction := Some(c)), l, o)
  {
    var m' := m.(compaction := Some(c));
    assert PlanOk(m', l, c, o) by { SamePlan(m, m', l, c, o); }
    hide MergedOutputs, RunsOf, Picks, LevelZeroRange, Select, BuiltTable;
  }

  lemma SamePlan(m: Memory, m': Memory, l: Logs, c: CompactionState, o: Options)
    requires PlanOk(m, l, c, o) && m'.version == m.version && m'.readers == m.readers
    ensures PlanOk(m', l, c, o)
  {
    hide MergedOutputs, Picks, LevelZeroRange, Select;
  }

  lemma PreparedClaim(m: Memory, m': Memory, l: Logs, o: Options)
    requires m.immutable.None? && m.compaction.None? && m' == m.(compaction := m'.compaction) && m'.compaction.Some?
    requires m'.compaction.value.published == [] && m'.compaction.value.candidate == None
    ensures ClaimOf(m', l, o) == ClaimOf(m, l, o)
  {
    hide StoredOf;
    SameStored(m, m', l, l, o);
  }

  // ----- The published outputs -----------------------------------------------------------------

  function WithOutputs(m: Memory, readers: seq<Reader>): Memory
    requires m.compaction.Some?
  {
    m.(compaction := Some(m.compaction.value.(published := readers)))
  }

  ghost predicate OutputsDurable(fs: FileSystem, c: CompactionState, o: Options) {
    forall i :: 0 <= i < |c.outputs| ==> OutputDurable(fs, c, i, o)
  }

  ghost predicate OutputDurable(fs: FileSystem, c: CompactionState, i: nat, o: Options)
    requires i < |c.outputs|
  {
    var n := Table(c.firstOutput + i);
    && n in fs.Current() && fs.Current()[n] < |fs.files|
    && fs.files[fs.Current()[n]] == StableFile(TableBytes(c.firstOutput + i, c.outputs[i], o))
  }

  /** PublishCompactionTables succeeded: every output is durable under its final name. */
  lemma OutputsInv(fs: FileSystem, h: History, m: Memory, l: Logs, readers: seq<Reader>, o: Options)
    requires Inv(fs, h, m, l, o) && m.Compacting() && fs.pending == []
    requires m.compaction.value.published == [] && m.compaction.value.candidate == None
    requires PublishedOk(m.compaction.value.(published := readers), o) && OutputsDurable(fs, m.compaction.value, o)
    ensures Inv(fs, h, WithOutputs(m, readers), l, o) && LogOf(WithOutputs(m, readers), l) == LogOf(m, l)
  {
    hide *;
    CompactingParts(m);
    var m' := WithOutputs(m, readers);
    InvParts(fs, h, m, l, o);
    MemoryParts(m, l, o);
    OutputsCompaction(m, l, readers, o);
    SameButCompaction(fs, m, m', l, o);
    OutputsViews(fs, h, m, l, readers, o);
    PartsInv(fs, h, m', l, o);
  }

  lemma CompactingParts(m: Memory)
    requires m.Compacting()
    ensures m.compaction.Some? && !m.compaction.value.versionPublished
  {
  }

  lemma OutputsCompaction(m: Memory, l: Logs, readers: seq<Reader>, o: Options)
    requires CompactionOk(m, l, o) && m.Compacting() && m.compaction.value.candidate == None
    requires PublishedOk(m.compaction.value.(published := readers), o)
    ensures CompactionOk(WithOutputs(m, readers), l, o) && m.immutable.None?
    ensures WithOutputs(m, readers) == m.(compaction := WithOutputs(m, readers).compaction)
  {
    hide MergedOutputs, RunsOf, Picks, LevelZeroRange, Select, BuiltTable;
  }

  lemma OutputsViews(fs: FileSystem, h: History, m: Memory, l: Logs, readers: seq<Reader>, o: Options)
    requires Keeps(fs, ClaimOf(m, l, o), h, o) && m.Compacting() && m.immutable.None? && fs.pending == []
    requires m.compaction.value.published == [] && m.compaction.value.candidate == None
    requires PublishedOk(m.compaction.value.(published := readers), o) && OutputsDurable(fs, m.compaction.value, o)
    ensures Keeps(fs, ClaimOf(WithOutputs(m, readers), l, o), h, o)
  {
    hide *;
    CompactingParts(m);
    OutputsClaim(m, l, readers, o);
    var c, c' := ClaimOf(m, l, o), ClaimOf(WithOutputs(m, readers), l, o);
    var img := ImageOf(fs.Current(), fs.files);
    CurrentClaim(fs, c, h, o);
    ClaimParts(img, c, h, o);
    OutputsPinned(fs, m.compaction.value, |readers|, o);
    PartsClaim(img, c', h, o);
    KeepsOk(fs, c, h, o);
    SyncedKeeps(fs, c', h, o);
  }

  lemma KeepsOk(fs: FileSystem, c: Claim, h: History, o: Options)
    requires Keeps(fs, c, h, o)
    ensures fs.Ok()
  {
  }

  lemma OutputsPinned(fs: FileSystem, c: CompactionState, count: nat, o: Options)
    requires DirectoryOk(fs.Current(), |fs.files|) && OutputsDurable(fs, c, o)
    ensures PinsOk(ImageOf(fs.Current(), fs.files), OutputPins(c.firstOutput, c.outputs, count, o))
  {
    hide TableBytes, OutputPins, PerformAll;
    var pins, img := OutputPins(c.firstOutput, c.outputs, count, o), ImageOf(fs.Current(), fs.files);
    forall n | n in pins ensures !Temporary(n) && n in img && img[n] == StableFile(pins[n]) {
      assert OutputDurable(fs, c, n.number - c.firstOutput, o);
      OutputPinsAt(c.firstOutput, c.outputs, count, n.number - c.firstOutput, o);
    }
  }

  lemma OutputsClaim(m: Memory, l: Logs, readers: seq<Reader>, o: Options)
    requires m.Compacting() && m.immutable.None?
    requires m.compaction.value.published == [] && m.compaction.value.candidate == None
    ensures var c, c', state := ClaimOf(m, l, o), ClaimOf(WithOutputs(m, readers), l, o), m.compaction.value;
            && c.Running? && c'.Running? && c'.stored == c.stored && c'.walLimit == c.walLimit && c'.candidate == c.candidate
            && c'.pins == OutputPins(state.firstOutput, state.outputs, |readers|, o)
  {
    hide StoredOf, OutputPins;
    SameStored(m, WithOutputs(m, readers), l, l, o);
  }

  // ----- The candidate ---------------------------------------------------------------------------

  function WithCandidate(m: Memory, v: Version): Memory
    requires m.compaction.Some?
  {
    m.(compaction := Some(m.compaction.value.(candidate := Some(v))))
  }

  lemma WithCandidateIs(m: Memory, v: Version)
    requires m.compaction.Some?
    ensures WithCandidate(m, v) == m.(compaction := Some(m.compaction.value.(candidate := Some(v))))
  {
  }

  /** The edit was accepted: views may hold the candidate from now on. */
  lemma CandidateInv(fs: FileSystem, h: History, m: Memory, l: Logs, v: Version, o: Options)
    requires Inv(fs, h, m, l, o) && m.Compacting() && m.compaction.value.candidate == None
    requires CandidateOk(m, m.compaction.value.(candidate := Some(v)), o)
    ensures Inv(fs, h, WithCandidate(m, v), l, o) && LogOf(WithCandidate(m, v), l) == LogOf(m, l)
  {
    hide *;
    CompactingParts(m);
    var m' := WithCandidate(m, v);
    InvParts(fs, h, m, l, o);
    MemoryParts(m, l, o);
    CandidateCompaction(m, l, v, o);
    SameButCompaction(fs, m, m', l, o);
    CandidateClaim(m, l, v, o);
    WeakerKeeps(fs, ClaimOf(m, l, o), ClaimOf(m', l, o), h, o);
    PartsInv(fs, h, m', l, o);
  }

  lemma CandidateCompaction(m: Memory, l: Logs, v: Version, o: Options)
    requires CompactionOk(m, l, o) && m.Compacting() && CandidateOk(m, m.compaction.value.(candidate := Some(v)), o)
    ensures CompactionOk(WithCandidate(m, v), l, o) && m.immutable.None?
    ensures WithCandidate(m, v) == m.(compaction := WithCandidate(m, v).compaction)
  {
    hide MergedOutputs, RunsOf, Picks, LevelZeroRange, Select, BuiltTable, Apply, Added, CompactionEdit, Sizes;
  }

  lemma CandidateClaim(m: Memory, l: Logs, v: Version, o: Options)
    requires m.Compacting() && m.immutable.None? && m.compaction.value.candidate == None
    ensures var c, c' := ClaimOf(m, l, o), ClaimOf(WithCandidate(m, v), l, o);
            c.Running? && c'.Running? && c == c'.(candidate := None)
  {
    hide StoredOf, OutputPins;
    SameStored(m, WithCandidate(m, v), l, l, o);
  }

  /** Allowing a candidate weakens a claim. */
  lemma WeakerKeeps(fs: FileSystem, c: Claim, c': Claim, h: History, o: Options)
    requires Keeps(fs, c, h, o) && c.Running? && c'.Running? && c == c'.(candidate := None)
    ensures Keeps(fs, c', h, o)
  {
    hide ViewClaim, PerformAll, DirectoryOk;
    forall kept | 0 <= kept <= |fs.pending| ensures ViewClaim(ImageOf(fs.View(kept), fs.files), c', h, o) {
      var img := ImageOf(fs.View(kept), fs.files);
      assert ViewClaim(img, c, h, o);
      WeakerClaim(img, c, c', h, o);
    }
  }

  lemma WeakerClaim(img: Image, c: Claim, c': Claim, h: History, o: Options)
    requires ViewClaim(img, c, h, o) && c.Running? && c'.Running? && c == c'.(candidate := None)
    ensures ViewClaim(img, c', h, o)
  {
    hide ViewHolds;
  }

  /** How many positions have the wanted flag. */
  function Wanted(flags: seq<bool>, wanted: bool): nat {
    if flags == [] then 0
    else Wanted(flags[..|flags| - 1], wanted) + (if flags[|flags| - 1] == wanted then 1 else 0)
  }

  /** The j-th such position. */
  function Position(flags: seq<bool>, wanted: bool, j: nat): (i: nat)
    requires j < Wanted(flags, wanted)
    ensures i < |flags| && flags[i] == wanted
  {
    var n := |flags| - 1;
    if flags[n] == wanted && j == Wanted(flags[..n], wanted) then n else Position(flags[..n], wanted, j)
  }

  lemma {:induction false} SelectLength<T>(items: seq<T>, flags: seq<bool>, wanted: bool)
    requires |flags| == |items|
    ensures |Select(items, flags, wanted)| == Wanted(flags, wanted)
  {
    if items != [] {
      SelectLength(items[..|items| - 1], flags[..|items| - 1], wanted);
    }
  }

  /** Selecting picks the same positions of every sequence. */
  lemma {:induction false} SelectedAt<T>(items: seq<T>, flags: seq<bool>, wanted: bool, j: nat)
    requires |flags| == |items| && j < Wanted(flags, wanted)
    ensures |Select(items, flags, wanted)| == Wanted(flags, wanted)
    ensures Select(items, flags, wanted)[j] == items[Position(flags, wanted, j)]
  {
    var n := |items| - 1;
    SelectLength(items, flags, wanted);
    SelectLength(items[..n], flags[..n], wanted);
    if !(flags[n] == wanted && j == Wanted(flags[..n], wanted)) {
      SelectedAt(items[..n], flags[..n], wanted, j);
    }
  }

  /** What a compaction that has a candidate is about. */
  ghost predicate Planned(m: Memory, l: Logs, c: CompactionState, v: Version, o: Options) {
    && m.compaction == Some(c) && !c.versionPublished && c.candidate == Some(v)
    && ReadersOk(m, l, o) && PlanOk(m, l, c, o) && PublishedOk(c, o) && CandidateOk(m, c, o)
  }

  lemma PlannedOf(m: Memory, l: Logs, o: Options)
    requires MemoryOk(m, l, o) && m.Compacting() && m.compaction.value.candidate.Some?
    ensures Planned(m, l, m.compaction.value, m.compaction.value.candidate.value, o)
    ensures m.immutable.None? && l.active == [] && m.generation == m.version.nextFileNumber && LogOf(m, l) == l.tables
  {
    hide ReadersOk, PlanOk, PublishedOk, CandidateOk, ActiveLogOk, PendingOk, FrozenLogOk;
    assert l.tables + [] + [] == l.tables;
  }

  function Outputs(c: CompactionState): seq<VersionTable>
    requires |c.published| == |c.outputs| && forall i :: 0 <= i < |c.outputs| ==> c.outputs[i] != []
  {
    Added(c.firstOutput, c.outputs, Sizes(c.published))
  }

  lemma PlannedSizes(m: Memory, l: Logs, c: CompactionState, v: Version, o: Options)
    requires Planned(m, l, c, v, o)
    ensures |c.published| == |c.outputs| && (forall i :: 0 <= i < |c.outputs| ==> c.outputs[i] != [])
    ensures |c.picks| == |m.version.tables| == |m.readers|
  {
    hide *;
    PlannedParts(m, l, c, v, o);
    PlanParts(m, l, c, o);
    CandidateCounts(m, c, o);
  }

  lemma CandidateCounts(m: Memory, c: CompactionState, o: Options)
    requires CandidateOk(m, c, o) && c.candidate.Some?
    ensures |c.published| == |c.outputs| && (forall i :: 0 <= i < |c.outputs| ==> c.outputs[i] != [])
  {
    hide Apply, CompactionEdit, Added, Sizes;
  }

  lemma PlannedTable(m: Memory, l: Logs, c: CompactionState, v: Version, o: Options, i: nat)
    requires Planned(m, l, c, v, o) && i < |c.outputs|
    ensures |c.published| == |c.outputs| && BuiltTable(c.published[i], c.firstOutput + i, c.outputs[i], o)
    ensures forall j :: 0 <= j < |c.outputs| ==> c.outputs[j] != []
    ensures Outputs(c)[i] == VersionTable(1, c.published[i].summary)
  {
    hide *;
    PlannedSizes(m, l, c, v, o);
    PlannedParts(m, l, c, v, o);
    PublishedAt(c, i, o);
    BuiltSummary(c.published[i], c.firstOutput + i, c.outputs[i], o);
    OutputAt(c, i);
  }

  lemma PublishedAt(c: CompactionState, i: nat, o: Options)
    requires PublishedOk(c, o) && i < |c.published| == |c.outputs|
    ensures BuiltTable(c.published[i], c.firstOutput + i, c.outputs[i], o)
  {
    hide BuiltTable;
  }

  lemma BuiltSummary(rd: Reader, generation: nat, run: Run, o: Options)
    requires BuiltTable(rd, generation, run, o)
    ensures run != [] && rd.summary == SummaryOf(generation, run, rd.summary.fileSize)
  {
    hide TableBytes, TableEncodable, OpenTable, Contents, MinimumSequence, MaximumSequence;
  }

  lemma OutputAt(c: CompactionState, i: nat)
    requires |c.published| == |c.outputs| && (forall i :: 0 <= i < |c.outputs| ==> c.outputs[i] != []) && i < |c.outputs|
    ensures Outputs(c)[i] == VersionTable(1, SummaryOf(c.firstOutput + i, c.outputs[i], c.published[i].summary.fileSize))
  {
    hide MinimumSequence, MaximumSequence;
  }

  lemma PlannedCompactable(m: Memory, l: Logs, c: CompactionState, v: Version, o: Options)
    requires Planned(m, l, c, v, o)
    ensures LevelZeroRange(m.version.tables).Some? && |c.published| == |c.outputs|
    ensures Compactable(m.version, RunsOf(m.readers, o), o.maxKeySize, LevelZeroRange(m.version.tables).value, c.outputs, Sizes(c.published))
    ensures c.picks == Picks(m.version.tables, LevelZeroRange(m.version.tables).value)
  {
    hide *;
    PlannedParts(m, l, c, v, o);
    PlanParts(m, l, c, o);
    PlannedSizes(m, l, c, v, o);
    ReadersParts(m, l, o);
    StoredVersion(StoredOf(m, l, o), o);
    StoredRecords(StoredOf(m, l, o), o);
    forall i | 0 <= i < |c.outputs| ensures BuiltTable(c.published[i], c.firstOutput + i, c.outputs[i], o) {
      PlannedTable(m, l, c, v, o, i);
    }
    PlannedBuilt(c, o);
    PartsCompactable(m.version, RunsOf(m.readers, o), o.maxKeySize, LevelZeroRange(m.version.tables).value, c.outputs, Sizes(c.published));
  }

  lemma PlannedParts(m: Memory, l: Logs, c: CompactionState, v: Version, o: Options)
    requires Planned(m, l, c, v, o)
    ensures m.compaction == Some(c) && !c.versionPublished && c.candidate == Some(v)
    ensures ReadersOk(m, l, o) && PlanOk(m, l, c, o) && PublishedOk(c, o) && CandidateOk(m, c, o)
  {
    hide ReadersOk, PlanOk, PublishedOk, CandidateOk;
  }

  lemma PlanParts(m: Memory, l: Logs, c: CompactionState, o: Options)
    requires PlanOk(m, l, c, o)
    ensures LevelZeroRange(m.version.tables).Some?
    ensures |c.picks| == |m.version.tables| == |m.readers|
    ensures c.picks == Picks(m.version.tables, LevelZeroRange(m.version.tables).value)
    ensures MergedOutputs(Select(RunsOf(m.readers, o), Picks(m.version.tables, LevelZeroRange(m.version.tables).value), true), c.outputs)
    ensures c.firstOutput == m.version.nextFileNumber && c.firstOutput + |c.outputs| <= MAX64
    ensures c.cleanup == InputNames(m.version, c.picks)
  {
    hide MergedOutputs, Picks, LevelZeroRange, Select;
  }

  lemma ReadersParts(m: Memory, l: Logs, o: Options)
    requires ReadersOk(m, l, o)
    ensures |m.readers| == |m.version.tables|
    ensures forall i :: 0 <= i < |m.readers| ==> m.readers[i].summary == m.version.tables[i].summary && Opened(m.readers[i], o)
    ensures StoredOk(StoredOf(m, l, o), o)
    ensures StoredOf(m, l, o).version == m.version && StoredOf(m, l, o).runs == RunsOf(m.readers, o)
    ensures StoredOf(m, l, o).log == l.tables
  {
    hide StoredOk;
  }

  lemma PlannedBuilt(c: CompactionState, o: Options)
    requires |c.published| == |c.outputs|
    requires forall i :: 0 <= i < |c.outputs| ==> BuiltTable(c.published[i], c.firstOutput + i, c.outputs[i], o)
    ensures forall i :: 0 <= i < |c.outputs| ==> c.outputs[i] != [] && Sizes(c.published)[i] != 0
  {
    hide BuiltTable;
    forall i | 0 <= i < |c.outputs| ensures c.outputs[i] != [] && Sizes(c.published)[i] != 0 {
      BuiltSize(c.published[i], c.firstOutput + i, c.outputs[i], o);
    }
  }

  lemma PartsCompactable(v: Version, runs: seq<Run>, maxKeySize: nat, range: KeyRange, outputs: seq<Run>, sizes: seq<nat>)
    requires SoundVersion(v, maxKeySize) && GenerationsAscend(v.tables)
    requires Described(v.tables, runs) && RecordsOk(runs, v.lastSequence, maxKeySize)
    requires LevelZeroRange(v.tables) == Some(range) && |runs| == |v.tables|
    requires MergedOutputs(Select(runs, Picks(v.tables, range), true), outputs)
    requires |sizes| == |outputs| && (forall i :: 0 <= i < |outputs| ==> outputs[i] != [] && sizes[i] != 0)
    ensures Compactable(v, runs, maxKeySize, range, outputs, sizes)
  {
    hide SoundVersion, GenerationsAscend, Described, RecordsOk, LevelZeroRange, MergedOutputs, Select, Picks;
  }

  lemma BuiltSize(rd: Reader, generation: nat, run: Run, o: Options)
    requires BuiltTable(rd, generation, run, o)
    ensures run != [] && 0 < rd.summary.fileSize <= MAX64 && 0 < rd.summary.recordCount <= MAX64
  {
  }

  lemma StoredRecords(s: Stored, o: Options)
    requires StoredOk(s, o)
    ensures RecordsOk(s.runs, s.version.lastSequence, o.maxKeySize) && Described(s.version.tables, s.runs)
  {
    hide Means, ValidVersion, Described;
  }

  /** The candidate: the unselected tables and then the outputs. */
  lemma CandidateIs(m: Memory, l: Logs, c: CompactionState, v: Version, o: Options)
    requires Planned(m, l, c, v, o)
    ensures |c.published| == |c.outputs| && (forall i :: 0 <= i < |c.outputs| ==> c.outputs[i] != [])
    ensures |c.picks| == |m.version.tables|
    ensures m.version.id != MAX64
    ensures v == Version(m.version.id + 1, m.version.nextFileNumber + |c.outputs|, m.version.lastSequence,
                         NewTables(m.version, c.picks, Outputs(c)))
    ensures ValidVersion(v, o.maxKeySize) && GenerationsAscend(v.tables)
  {
    hide *;
    PlannedSizes(m, l, c, v, o);
    PlannedCompactable(m, l, c, v, o);
    PlannedParts(m, l, c, v, o);
    PlanParts(m, l, c, o);
    var range := LevelZeroRange(m.version.tables).value;
    CompactionAccepted(m.version, RunsOf(m.readers, o), o.maxKeySize, range, c.outputs, Sizes(c.published));
    OutputsAre(c);
    CandidateApplied(m, c, v, o);
    var edit := CompactionEdit(m.version, c.picks, Outputs(c));
    ApplyAccepted(m.version, edit, o.maxKeySize);
    ValidVersionIsSound(v, o.maxKeySize);
  }

  lemma OutputsAre(c: CompactionState)
    requires |c.published| == |c.outputs| && forall i :: 0 <= i < |c.outputs| ==> c.outputs[i] != []
    ensures Outputs(c) == Added(c.firstOutput, c.outputs, Sizes(c.published)) && |Outputs(c)| == |c.outputs|
  {
    hide Sizes;
  }

  lemma CandidateApplied(m: Memory, c: CompactionState, v: Version, o: Options)
    requires CandidateOk(m, c, o) && c.candidate == Some(v)
    requires |c.published| == |c.outputs| && forall i :: 0 <= i < |c.outputs| ==> c.outputs[i] != []
    requires |c.picks| == |m.version.tables|
    ensures Apply(m.version, CompactionEdit(m.version, c.picks, Outputs(c)), o.maxKeySize) == Some(v)
  {
    hide Apply, CompactionEdit, Added, Sizes;
  }

  ghost function CompactedRuns(m: Memory, c: CompactionState, o: Options): seq<Run>
    requires |c.picks| == |m.readers|
  {
    Select(RunsOf(m.readers, o), c.picks, false) + c.outputs
  }

  /** The readers once the compaction is published. */
  function CompactedReaders(m: Memory, c: CompactionState): seq<Reader>
    requires |c.picks| == |m.readers|
  {
    Select(m.readers, c.picks, false) + c.published
  }

  lemma CompactedLengths(m: Memory, l: Logs, c: CompactionState, v: Version, o: Options)
    requires Planned(m, l, c, v, o)
    ensures |c.picks| == |m.version.tables| == |m.readers| && |c.published| == |c.outputs|
    ensures |v.tables| == |CompactedReaders(m, c)| == |CompactedRuns(m, c, o)| == Wanted(c.picks, false) + |c.outputs|
  {
    hide *;
    CandidateIs(m, l, c, v, o);
    PlannedSizes(m, l, c, v, o);
    SelectLength(m.version.tables, c.picks, false);
    SelectLength(m.readers, c.picks, false);
    SelectLength(RunsOf(m.readers, o), c.picks, false);
    CompactedAdded(m, c, v, o);
  }

  lemma CompactedAdded(m: Memory, c: CompactionState, v: Version, o: Options)
    requires |c.published| == |c.outputs| && (forall i :: 0 <= i < |c.outputs| ==> c.outputs[i] != [])
    requires |c.picks| == |m.version.tables| == |m.readers|
    requires v.tables == NewTables(m.version, c.picks, Outputs(c))
    ensures v.tables == Select(m.version.tables, c.picks, false) + Outputs(c) && |Outputs(c)| == |c.outputs|
    ensures CompactedReaders(m, c) == Select(m.readers, c.picks, false) + c.published
    ensures CompactedRuns(m, c, o) == Select(RunsOf(m.readers, o), c.picks, false) + c.outputs
  {
    hide Select, RunsOf, Sizes;
  }

  /** A table that was not selected stays where it is. */
  lemma CandidateKept(m: Memory, l: Logs, c: CompactionState, v: Version, o: Options, j: nat) returns (i: nat)
    requires Planned(m, l, c, v, o) && j < Wanted(c.picks, false)
    ensures |c.picks| == |m.version.tables| == |m.readers|
    ensures |v.tables| == |CompactedReaders(m, c)| == |CompactedRuns(m, c, o)| && j < |v.tables|
    ensures i == Position(c.picks, false, j) && i < |m.readers| && !c.picks[i]
    ensures v.tables[j] == m.version.tables[i]
    ensures CompactedRuns(m, c, o)[j] == RunsOf(m.readers, o)[i] && CompactedReaders(m, c)[j] == m.readers[i]
  {
    hide *;
    CompactedLengths(m, l, c, v, o);
    CandidateIs(m, l, c, v, o);
    CompactedAdded(m, c, v, o);
    SelectedAt(m.version.tables, c.picks, false, j);
    SelectedAt(m.readers, c.picks, false, j);
    SelectedAt(RunsOf(m.readers, o), c.picks, false, j);
    i := Position(c.picks, false, j);
  }

  /** The outputs follow. */
  lemma CandidateOutput(m: Memory, l: Logs, c: CompactionState, v: Version, o: Options, i: nat)
    requires Planned(m, l, c, v, o) && i < |c.outputs|
    ensures |c.picks| == |m.version.tables| == |m.readers| && |c.published| == |c.outputs|
    ensures |v.tables| == |CompactedReaders(m, c)| == |CompactedRuns(m, c, o)| == Wanted(c.picks, false) + |c.outputs|
    ensures var j := Wanted(c.picks, false) + i;
            && v.tables[j] == VersionTable(1, c.published[i].summary)
            && CompactedRuns(m, c, o)[j] == c.outputs[i] && CompactedReaders(m, c)[j] == c.published[i]
    ensures BuiltTable(c.published[i], c.firstOutput + i, c.outputs[i], o)
  {
    hide *;
    CompactedLengths(m, l, c, v, o);
    CandidateIs(m, l, c, v, o);
    PlannedTable(m, l, c, v, o, i);
    CompactedAdded(m, c, v, o);
    SelectLength(m.version.tables, c.picks, false);
    SelectLength(m.readers, c.picks, false);
    SelectLength(RunsOf(m.readers, o), c.picks, false);
  }

  // ----- What the candidate stores -------------------------------------------------------------

  ghost function CompactedStored(m: Memory, l: Logs, c: CompactionState, v: Version, o: Options): Stored
    requires |c.picks| == |m.readers|
  {
    Stored(v, CompactedRuns(m, c, o), l.tables)
  }

  lemma CompactionCandidate(m: Memory, l: Logs, o: Options)
    requires m.Compacting() && m.immutable.None? && m.compaction.value.candidate.Some?
    requires |m.compaction.value.picks| == |m.readers|
    ensures var c := m.compaction.value;
            && CandidateOf(m, l, o) == Some(CompactedStored(m, l, c, c.candidate.value, o))
            && ClaimOf(m, l, o) == Running(StoredOf(m, l, o), CandidateOf(m, l, o),
                                           OutputPins(c.firstOutput, c.outputs, |c.published|, o), m.generation)
  {
    hide StoredOf, OutputPins, Select, RunsOf;
  }

  lemma CompactedDescribed(m: Memory, l: Logs, c: CompactionState, v: Version, o: Options)
    requires Planned(m, l, c, v, o)
    ensures |c.picks| == |m.readers| && Described(v.tables, CompactedRuns(m, c, o))
  {
    hide *;
    CompactedLengths(m, l, c, v, o);
    PlannedParts(m, l, c, v, o);
    ReadersParts(m, l, o);
    StoredRecords(StoredOf(m, l, o), o);
    var runs := CompactedRuns(m, c, o);
    forall j | 0 <= j < |v.tables| ensures Describes(v.tables[j].summary, runs[j]) {
      if j < Wanted(c.picks, false) {
        var i := CandidateKept(m, l, c, v, o, j);
        DescribedAt(m.version.tables, RunsOf(m.readers, o), i);
      } else {
        var i := j - Wanted(c.picks, false);
        CandidateOutput(m, l, c, v, o, i);
        PlannedOutput(m, l, c, v, o, i);
        BuiltDescribes(c.published[i], c.firstOutput + i, c.outputs[i], o);
      }
    }
    PartsDescribed(v.tables, runs);
  }

  lemma PartsDescribed(tables: seq<VersionTable>, runs: seq<Run>)
    requires |runs| == |tables| && forall i :: 0 <= i < |tables| ==> Describes(tables[i].summary, runs[i])
    ensures Described(tables, runs)
  {
    hide Describes;
  }

  lemma BuiltDescribes(rd: Reader, generation: nat, run: Run, o: Options)
    requires BuiltTable(rd, generation, run, o) && Sorted(run)
    ensures Describes(rd.summary, run)
  {
    hide TableBytes, TableEncodable, OpenTable, Contents, MinimumSequence, MaximumSequence, Sorted;
  }

  /** The records of an output come from the selected tables. */
  lemma PlannedOutput(m: Memory, l: Logs, c: CompactionState, v: Version, o: Options, i: nat)
    requires Planned(m, l, c, v, o) && i < |c.outputs|
    ensures Sorted(c.outputs[i])
    ensures forall r :: r in c.outputs[i] ==> Encodable(r, o) && r.sequence <= m.version.lastSequence
  {
    hide *;
    PlannedParts(m, l, c, v, o);
    PlanParts(m, l, c, o);
    ReadersParts(m, l, o);
    MergedSorted(Select(RunsOf(m.readers, o), c.picks, true), c.outputs);
    FlattenSorted(c.outputs, i);
    forall r | r in c.outputs[i] ensures Encodable(r, o) && r.sequence <= m.version.lastSequence {
      FlattenMembers(c.outputs, i, r);
      var k := OutputRecord(RunsOf(m.readers, o), c.picks, c.outputs, r);
      StoredRecordAt(StoredOf(m, l, o), o, k, r);
    }
  }

  lemma MergedSorted(inputs: seq<Run>, outputs: seq<Run>)
    requires MergedOutputs(inputs, outputs)
    ensures Sorted(Flatten(outputs))
  {
  }

  lemma StoredRecordAt(s: Stored, o: Options, i: nat, r: Record)
    requires StoredOk(s, o) && i < |s.runs| && r in s.runs[i]
    ensures Encodable(r, o) && r.sequence <= s.version.lastSequence
  {
    hide Means, ValidVersion, Described, Encodable;
  }

  lemma CompactedInWidth(m: Memory, l: Logs, c: CompactionState, v: Version, o: Options)
    requires Planned(m, l, c, v, o)
    ensures InWidth(v)
  {
    hide *;
    CompactedLengths(m, l, c, v, o);
    CandidateIs(m, l, c, v, o);
    PlannedParts(m, l, c, v, o);
    PlanParts(m, l, c, o);
    ReadersParts(m, l, o);
    StoredVersion(StoredOf(m, l, o), o);
    WidthParts(m.version);
    forall j | 0 <= j < |v.tables| ensures TableInWidth(v.tables[j]) {
      if j < Wanted(c.picks, false) {
        var i := CandidateKept(m, l, c, v, o, j);
      } else {
        var i := j - Wanted(c.picks, false);
        CandidateOutput(m, l, c, v, o, i);
        PlannedOutput(m, l, c, v, o, i);
        BuiltInWidth(c.published[i], c.firstOutput + i, c.outputs[i], m.version.lastSequence, o);
      }
    }
    PartsWidth(v);
  }

  lemma WidthParts(v: Version)
    requires InWidth(v)
    ensures v.id <= MAX64 && v.nextFileNumber <= MAX64 && v.lastSequence <= MAX64
    ensures forall i :: 0 <= i < |v.tables| ==> TableInWidth(v.tables[i])
  {
    hide TableInWidth;
  }

  lemma PartsWidth(v: Version)
    requires v.id <= MAX64 && v.nextFileNumber <= MAX64 && v.lastSequence <= MAX64
    requires forall i :: 0 <= i < |v.tables| ==> TableInWidth(v.tables[i])
    ensures InWidth(v)
  {
    hide TableInWidth;
  }

  lemma BuiltInWidth(rd: Reader, generation: nat, run: Run, last: nat, o: Options)
    requires BuiltTable(rd, generation, run, o) && generation <= MAX64 && last <= MAX64
    requires forall r :: r in run ==> r.sequence <= last
    ensures TableInWidth(VersionTable(1, rd.summary))
  {
    hide TableBytes, TableEncodable, OpenTable, Contents;
    var least, most :| least in run && least.sequence == MinimumSequence(run) && most in run && most.sequence == MaximumSequence(run);
    hide MinimumSequence, MaximumSequence;
  }

  lemma CompactedRecords(m: Memory, l: Logs, c: CompactionState, v: Version, o: Options, j: nat, r: Record)
    requires Planned(m, l, c, v, o) && |c.picks| == |m.readers| && j < |CompactedRuns(m, c, o)| && r in CompactedRuns(m, c, o)[j]
    ensures Encodable(r, o) && r.sequence <= v.lastSequence
  {
    hide *;
    CompactedLengths(m, l, c, v, o);
    CandidateIs(m, l, c, v, o);
    PlannedParts(m, l, c, v, o);
    ReadersParts(m, l, o);
    if j < Wanted(c.picks, false) {
      var i := CandidateKept(m, l, c, v, o, j);
      StoredRecordAt(StoredOf(m, l, o), o, i, r);
    } else {
      var i := j - Wanted(c.picks, false);
      CandidateOutput(m, l, c, v, o, i);
      PlannedOutput(m, l, c, v, o, i);
    }
  }

  lemma CompactedMeans(m: Memory, l: Logs, c: CompactionState, v: Version, o: Options)
    requires Planned(m, l, c, v, o) && |c.picks| == |m.readers|
    ensures Means(CompactedRuns(m, c, o), l.tables)
  {
    hide *;
    PlannedParts(m, l, c, v, o);
    PlanParts(m, l, c, o);
    ReadersParts(m, l, o);
    StoredVersion(StoredOf(m, l, o), o);
    StoredRecords(StoredOf(m, l, o), o);
    StoredMeans(StoredOf(m, l, o), o);
    CompactionMeans(m.version, RunsOf(m.readers, o), l.tables, o.maxKeySize, LevelZeroRange(m.version.tables).value, c.outputs);
    CompactedRunsAre(m, c, o);
  }

  lemma CompactedRunsAre(m: Memory, c: CompactionState, o: Options)
    requires |c.picks| == |m.readers|
    ensures CompactedRuns(m, c, o) == Select(RunsOf(m.readers, o), c.picks, false) + c.outputs
  {
  }

  lemma StoredMeans(s: Stored, o: Options)
    requires StoredOk(s, o)
    ensures Means(s.runs, s.log)
  {
    hide Means, ValidVersion, Described;
  }

  lemma {:induction false} PositionAscends(flags: seq<bool>, wanted: bool, j: nat, k: nat)
    requires j < k < Wanted(flags, wanted)
    ensures Position(flags, wanted, j) < Position(flags, wanted, k)
  {
    var n := |flags| - 1;
    if k < Wanted(flags[..n], wanted) {
      PositionAscends(flags[..n], wanted, j, k);
    }
  }

  /** Where a record of the compacted runs comes from: position `i` of the old runs. */
  lemma CompactedOrigin(m: Memory, l: Logs, c: CompactionState, v: Version, o: Options, j: nat, r: Record) returns (i: nat)
    requires Planned(m, l, c, v, o) && |c.picks| == |m.readers| && j < |CompactedRuns(m, c, o)| && r in CompactedRuns(m, c, o)[j]
    ensures i < |m.readers| && r in RunsOf(m.readers, o)[i]
    ensures j < Wanted(c.picks, false) ==> i == Position(c.picks, false, j)
    ensures j >= Wanted(c.picks, false) ==> c.picks[i] && j - Wanted(c.picks, false) < |c.outputs| && r in c.outputs[j - Wanted(c.picks, false)]
  {
    hide *;
    CompactedLengths(m, l, c, v, o);
    PlannedParts(m, l, c, v, o);
    PlanParts(m, l, c, o);
    if j < Wanted(c.picks, false) {
      i := CandidateKept(m, l, c, v, o, j);
    } else {
      var k := j - Wanted(c.picks, false);
      CandidateOutput(m, l, c, v, o, k);
      FlattenMembers(c.outputs, k, r);
      i := OutputRecord(RunsOf(m.readers, o), c.picks, c.outputs, r);
    }
  }

  lemma CompactedDistinct(m: Memory, l: Logs, c: CompactionState, v: Version, o: Options)
    requires Planned(m, l, c, v, o) && |c.picks| == |m.readers|
    ensures Distinct(CompactedRuns(m, c, o))
  {
    hide *;
    var runs := CompactedRuns(m, c, o);
    forall j, k, r: Record, t: Record | 0 <= j < k < |runs| && r in runs[j] && t in runs[k] && r.key == t.key ensures r.sequence != t.sequence {
      CompactedApart(m, l, c, v, o, j, k, r, t);
    }
    PartsDistinct(runs);
  }

  lemma PartsDistinct(runs: seq<Run>)
    requires forall j, k, r: Record, t: Record :: 0 <= j < k < |runs| && r in runs[j] && t in runs[k] && r.key == t.key ==> r.sequence != t.sequence
    ensures Distinct(runs)
  {
  }

  lemma DistinctAt(s: Stored, o: Options, i: nat, j: nat, r: Record, t: Record)
    requires StoredOk(s, o) && i < |s.runs| && j < |s.runs| && i != j && r in s.runs[i] && t in s.runs[j] && r.key == t.key
    ensures r.sequence != t.sequence
  {
    hide Means, ValidVersion, Described, Encodable;
  }

  lemma CompactedApart(m: Memory, l: Logs, c: CompactionState, v: Version, o: Options, j: nat, k: nat, r: Record, t: Record)
    requires Planned(m, l, c, v, o) && |c.picks| == |m.readers| && j < k < |CompactedRuns(m, c, o)|
    requires r in CompactedRuns(m, c, o)[j] && t in CompactedRuns(m, c, o)[k] && r.key == t.key
    ensures r.sequence != t.sequence
  {
    hide *;
    PlannedParts(m, l, c, v, o);
    PlanParts(m, l, c, o);
    ReadersParts(m, l, o);
    StoredVersion(StoredOf(m, l, o), o);
    StoredRecords(StoredOf(m, l, o), o);
    var i := CompactedOrigin(m, l, c, v, o, j, r);
    var i' := CompactedOrigin(m, l, c, v, o, k, t);
    var runs := RunsOf(m.readers, o);
    if k < Wanted(c.picks, false) {
      PositionAscends(c.picks, false, j, k);
      DistinctAt(StoredOf(m, l, o), o, i, i', r, t);
    } else if j < Wanted(c.picks, false) {
      PositionWanted(c.picks, false, j);
      DistinctAt(StoredOf(m, l, o), o, i, i', r, t);
    } else {
      MergedSorted(Select(runs, c.picks, true), c.outputs);
      FlattenApart(c.outputs, j - Wanted(c.picks, false), k - Wanted(c.picks, false), r, t);
      NotBelowItself(r.key);
    }
  }

  lemma NotBelowItself(k: Key)
    ensures !Less(k, k)
  {
  }

  lemma PositionWanted(flags: seq<bool>, wanted: bool, j: nat)
    requires j < Wanted(flags, wanted)
    ensures Position(flags, wanted, j) < |flags| && flags[Position(flags, wanted, j)] == wanted
  {
  }

  lemma CompactedStoredOk(m: Memory, l: Logs, c: CompactionState, v: Version, o: Options)
    requires Planned(m, l, c, v, o)
    ensures |c.picks| == |m.readers| && StoredOk(CompactedStored(m, l, c, v, o), o)
  {
    hide *;
    CompactedLengths(m, l, c, v, o);
    CandidateIs(m, l, c, v, o);
    CompactedDescribed(m, l, c, v, o);
    CompactedInWidth(m, l, c, v, o);
    CompactedMeans(m, l, c, v, o);
    CompactedDistinct(m, l, c, v, o);
    forall j, r | 0 <= j < |CompactedRuns(m, c, o)| && r in CompactedRuns(m, c, o)[j]
      ensures Encodable(r, o) && r.sequence <= v.lastSequence
    {
      CompactedRecords(m, l, c, v, o, j, r);
    }
    PartsStored(v, CompactedRuns(m, c, o), l.tables, o);
    CompactedStoredIs(m, l, c, v, o);
  }

  lemma CompactedStoredIs(m: Memory, l: Logs, c: CompactionState, v: Version, o: Options)
    requires |c.picks| == |m.readers|
    ensures CompactedStored(m, l, c, v, o) == Stored(v, CompactedRuns(m, c, o), l.tables)
  {
  }

  lemma PartsStored(v: Version, runs: seq<Run>, log: seq<Record>, o: Options)
    requires ValidVersion(v, o.maxKeySize) && InWidth(v) && GenerationsAscend(v.tables) && Described(v.tables, runs)
    requires forall i, r :: 0 <= i < |runs| && r in runs[i] ==> Encodable(r, o) && r.sequence <= v.lastSequence
    requires Means(runs, log) && Distinct(runs)
    ensures StoredOk(Stored(v, runs, log), o)
  {
    hide Distinct, ValidVersion, InWidth, GenerationsAscend, Described, Encodable, Means;
  }

  // ----- Publishing ---------------------------------------------------------------------------------

  /** Whatever the current view holds, it is ready for the candidate of the compaction. */
  lemma CompactionReady(img: Image, h: History, m: Memory, l: Logs, o: Options)
    requires MemoryOk(m, l, o) && Explains(LogOf(m, l), h) && ViewClaim(img, ClaimOf(m, l, o), h, o)
    requires m.Compacting() && m.compaction.value.candidate.Some?
    ensures CandidateOf(m, l, o).Some? && ReadyFor(img, CandidateOf(m, l, o).value, h, o)
  {
    hide *;
    CompactingParts(m);
    var c, v := m.compaction.value, m.compaction.value.candidate.value;
    PlannedOf(m, l, o);
    CompactedLengths(m, l, c, v, o);
    CompactionCandidate(m, l, o);
    var claim, s' := ClaimOf(m, l, o), CandidateOf(m, l, o).value;
    ClaimParts(img, claim, h, o);
    HoldsEither(img, claim.stored, claim.candidate, h, o);
    if ViewHolds(img, s', h, o) {
      HoldsReady(img, s', h, o);
    } else {
      HoldsParts(img, claim.stored, h, o);
      CompactedStoredOk(m, l, c, v, o);
      CompactedStoredIs(m, l, c, v, o);
      CompactedTables(img, m, l, c, v, o);
      CandidateIs(m, l, c, v, o);
      PlannedParts(m, l, c, v, o);
      ReadersParts(m, l, o);
      CompactionFollows(StoredOf(m, l, o), s');
      CompactionWals(img, StoredOf(m, l, o), s', h, o);
      PartsReady(img, s', h, o);
    }
  }

  lemma CompactionFollows(s: Stored, s': Stored)
    requires s'.log == s.log && s'.version.lastSequence == s.version.lastSequence
    requires s'.version.nextFileNumber >= s.version.nextFileNumber
    ensures CompactionOf(s, s')
  {
  }

  lemma CompactedTables(img: Image, m: Memory, l: Logs, c: CompactionState, v: Version, o: Options)
    requires Planned(m, l, c, v, o) && TablesOk(img, StoredOf(m, l, o), o) && |c.picks| == |m.readers|
    requires PinsOk(img, OutputPins(c.firstOutput, c.outputs, |c.published|, o))
    ensures TablesOk(img, CompactedStored(m, l, c, v, o), o)
  {
    hide *;
    CompactedLengths(m, l, c, v, o);
    PlannedParts(m, l, c, v, o);
    ReadersParts(m, l, o);
    CompactedStoredIs(m, l, c, v, o);
    var runs := CompactedRuns(m, c, o);
    forall j | 0 <= j < |runs| ensures TableOk(img, v.tables[j].summary, runs[j], o) {
      if j < Wanted(c.picks, false) {
        var i := CandidateKept(m, l, c, v, o, j);
        TablesAt(img, StoredOf(m, l, o), o, i);
      } else {
        var i := j - Wanted(c.picks, false);
        CandidateOutput(m, l, c, v, o, i);
        PinnedTable(img, c, i, o);
      }
    }
    PartsTables(img, CompactedStored(m, l, c, v, o), o);
  }

  lemma TablesAt(img: Image, s: Stored, o: Options, i: nat)
    requires TablesOk(img, s, o) && i < |s.runs|
    ensures i < |s.version.tables| && TableOk(img, s.version.tables[i].summary, s.runs[i], o)
  {
    hide TableOk;
  }

  lemma PartsTables(img: Image, s: Stored, o: Options)
    requires |s.runs| == |s.version.tables|
    requires forall i :: 0 <= i < |s.runs| ==> TableOk(img, s.version.tables[i].summary, s.runs[i], o)
    ensures TablesOk(img, s, o)
  {
    hide TableOk;
  }

  lemma PinnedTable(img: Image, c: CompactionState, i: nat, o: Options)
    requires PinsOk(img, OutputPins(c.firstOutput, c.outputs, |c.published|, o))
    requires i < |c.outputs| == |c.published| && BuiltTable(c.published[i], c.firstOutput + i, c.outputs[i], o)
    ensures TableOk(img, c.published[i].summary, c.outputs[i], o)
  {
    hide OutputPins, TableBytes, TableEncodable, OpenTable, Contents, MinimumSequence, MaximumSequence;
    var n := Table(c.firstOutput + i);
    OutputPinsAt(c.firstOutput, c.outputs, |c.published|, i, o);
    assert n in OutputPins(c.firstOutput, c.outputs, |c.published|, o);
  }

  /** The memory once the candidate is the version: with outputs, the file frontier has moved past the old log. */
  function Compacted(m: Memory, c: CompactionState, v: Version): Memory
    requires |c.picks| == |m.readers|
  {
    var state := c.(versionPublished := true);
    var after := m.(version := v, readers := CompactedReaders(m, c));
    if c.outputs == [] then after.(compaction := Some(state))
    else
      after.(compaction := Some(state.(cleanup := c.cleanup + [WalName(m.generation)], walAdvanced := true)),
             wal := None, generation := v.nextFileNumber)
  }

  /** The new MANIFEST is durable: the compaction is part of the version. */
  lemma CompactedInv(fs: FileSystem, h: History, m: Memory, l: Logs, o: Options)
    requires Inv(fs, h, m, l, o) && m.Compacting() && m.compaction.value.candidate.Some? && fs.pending == []
    requires |m.compaction.value.picks| == |m.readers| && CandidateOf(m, l, o).Some?
    requires ViewHolds(ImageOf(fs.Current(), fs.files), CandidateOf(m, l, o).value, h, o)
    ensures Inv(fs, h, Compacted(m, m.compaction.value, m.compaction.value.candidate.value), l, o)
    ensures LogOf(Compacted(m, m.compaction.value, m.compaction.value.candidate.value), l) == LogOf(m, l)
  {
    hide *;
    CompactingParts(m);
    var c, v := m.compaction.value, m.compaction.value.candidate.value;
    var m' := Compacted(m, c, v);
    InvParts(fs, h, m, l, o);
    MemoryParts(m, l, o);
    PlannedOf(m, l, o);
    CompactionCandidate(m, l, o);
    CompactedMemory(m, l, c, v, o);
    CompactedFields(m, l, c, v, o);
    CompactedStoredAgain(m, l, c, v, o);
    var img := ImageOf(fs.Current(), fs.files);
    CurrentClaim(fs, ClaimOf(m, l, o), h, o);
    ClaimParts(img, ClaimOf(m, l, o), h, o);
    CompactedWalFile(fs, m, l, c, v, o);
    QuietClaim(m', l, o);
    CompactedClaim(img, h, m, l, c, v, o);
    KeepsOk(fs, ClaimOf(m, l, o), h, o);
    SyncedKeeps(fs, ClaimOf(m', l, o), h, o);
    PartsInv(fs, h, m', l, o);
  }

  lemma CompactedFields(m: Memory, l: Logs, c: CompactionState, v: Version, o: Options)
    requires Planned(m, l, c, v, o) && |c.picks| == |m.readers| && m.immutable.None? && l.active == [] && LogOf(m, l) == l.tables
    requires m.generation == m.version.nextFileNumber
    ensures var m' := Compacted(m, c, v);
            && !m'.Flushing() && !m'.Compacting() && LogOf(m', l) == l.tables && m'.version == v
            && m'.generation == v.nextFileNumber && m.generation <= m'.generation
            && m'.poisoned == m.poisoned && m'.immutable.None?
            && (if c.outputs == [] then m'.wal == m.wal && m'.generation == m.generation
                else m'.wal.None? && m.generation < m'.generation)
  {
    hide Planned, CompactedReaders, NewTables, Outputs, ValidVersion, GenerationsAscend;
    CandidateIs(m, l, c, v, o);
    assert l.tables + [] + [] == l.tables;
  }

  lemma CompactedStoredAgain(m: Memory, l: Logs, c: CompactionState, v: Version, o: Options)
    requires Planned(m, l, c, v, o) && |c.picks| == |m.readers|
    ensures StoredOf(Compacted(m, c, v), l, o) == CompactedStored(m, l, c, v, o)
  {
    hide *;
    CompactedLengths(m, l, c, v, o);
    CompactedStoredIs(m, l, c, v, o);
    CompactedReadersAre(m, l, c, v, o);
    var readers, runs := CompactedReaders(m, c), CompactedRuns(m, c, o);
    forall j | 0 <= j < |runs| ensures Contents(readers[j], o) == runs[j] {
      if j < Wanted(c.picks, false) {
        var i := CandidateKept(m, l, c, v, o, j);
        assert RunsOf(m.readers, o)[i] == Contents(m.readers[i], o);
      } else {
        var i := j - Wanted(c.picks, false);
        CandidateOutput(m, l, c, v, o, i);
        BuiltContents(c.published[i], c.firstOutput + i, c.outputs[i], o);
      }
    }
    assert RunsOf(readers, o) == runs;
  }

  lemma CompactedReadersAre(m: Memory, l: Logs, c: CompactionState, v: Version, o: Options)
    requires |c.picks| == |m.readers|
    ensures StoredOf(Compacted(m, c, v), l, o) == Stored(v, RunsOf(CompactedReaders(m, c), o), l.tables)
    ensures Compacted(m, c, v).readers == CompactedReaders(m, c) && Compacted(m, c, v).version == v
  {
    hide RunsOf, CompactedReaders;
  }

  lemma BuiltOpened(rd: Reader, generation: nat, run: Run, o: Options)
    requires BuiltTable(rd, generation, run, o)
    ensures Opened(rd, o)
  {
    hide TableBytes, TableEncodable, OpenTable, Contents, Opened, MinimumSequence, MaximumSequence;
    OpenTableOpened(TableBytes(generation, run, o), o);
  }

  lemma BuiltContents(rd: Reader, generation: nat, run: Run, o: Options)
    requires BuiltTable(rd, generation, run, o)
    ensures Contents(rd, o) == run
  {
    hide TableBytes, TableEncodable, OpenTable, Contents;
  }

  lemma CompactedMemory(m: Memory, l: Logs, c: CompactionState, v: Version, o: Options)
    requires MemoryOk(m, l, o) && Planned(m, l, c, v, o) && |c.picks| == |m.readers| && m.immutable.None? && l.active == []
    ensures MemoryOk(Compacted(m, c, v), l, o)
  {
    hide *;
    MemoryParts(m, l, o);
    var m' := Compacted(m, c, v);
    PlannedParts(m, l, c, v, o);
    PlanParts(m, l, c, o);
    CandidateIs(m, l, c, v, o);
    CompactedStoredOk(m, l, c, v, o);
    CompactedStoredAgain(m, l, c, v, o);
    CompactedReadersOk(m, l, c, v, o);
    CompactedLogs(m, l, c, v, o);
    CompactedCleanup(m, l, c, v, o);
    PartsMemory(m', l, o);
  }

  lemma CompactedReadersOk(m: Memory, l: Logs, c: CompactionState, v: Version, o: Options)
    requires Planned(m, l, c, v, o) && |c.picks| == |m.readers|
    requires StoredOk(StoredOf(Compacted(m, c, v), l, o), o)
    ensures ReadersOk(Compacted(m, c, v), l, o)
  {
    hide *;
    CompactedLengths(m, l, c, v, o);
    PlannedParts(m, l, c, v, o);
    ReadersParts(m, l, o);
    CompactedReadersAre(m, l, c, v, o);
    var readers := CompactedReaders(m, c);
    forall j | 0 <= j < |readers| ensures readers[j].summary == v.tables[j].summary && Opened(readers[j], o) {
      if j < Wanted(c.picks, false) {
        var i := CandidateKept(m, l, c, v, o, j);
      } else {
        var i := j - Wanted(c.picks, false);
        CandidateOutput(m, l, c, v, o, i);
        BuiltOpened(c.published[i], c.firstOutput + i, c.outputs[i], o);
      }
    }
    PartsReaders(Compacted(m, c, v), l, o);
  }

  lemma PartsReaders(m: Memory, l: Logs, o: Options)
    requires |m.readers| == |m.version.tables|
    requires forall i :: 0 <= i < |m.readers| ==> m.readers[i].summary == m.version.tables[i].summary && Opened(m.readers[i], o)
    requires StoredOk(StoredOf(m, l, o), o)
    ensures ReadersOk(m, l, o)
  {
    hide StoredOk, StoredOf, Opened;
  }

  lemma CompactedLogs(m: Memory, l: Logs, c: CompactionState, v: Version, o: Options)
    requires GenerationsOk(m) && FrozenLogOk(m, l, o) && ActiveLogOk(m, l, o) && m.immutable.None? && l.active == []
    requires |c.picks| == |m.readers| && v.lastSequence == m.version.lastSequence
    requires v.nextFileNumber == m.version.nextFileNumber + |c.outputs| <= MAX64
    ensures var m' := Compacted(m, c, v);
            GenerationsOk(m') && FrozenLogOk(m', l, o) && ActiveLogOk(m', l, o) && PendingOk(m', o)
  {
    hide CompactedReaders, Fold, AllEncodable;
  }

  lemma CompactedCleanup(m: Memory, l: Logs, c: CompactionState, v: Version, o: Options)
    requires CompactionOk(m, l, o) && Planned(m, l, c, v, o) && |c.picks| == |m.readers|
    requires m.immutable.None? && l.active == [] && GenerationsOk(m)
    ensures CompactionOk(Compacted(m, c, v), l, o)
  {
    hide *;
    PlannedParts(m, l, c, v, o);
    CandidateIs(m, l, c, v, o);
    InputsGone(m, l, c, v, o);
    CleanupParts(m, l, c, o);
    CandidateLevels(m, l, c, v, o);
    CleanupNow(m, l, c, v, o);
  }

  /** A compaction leaves no level-zero table. */
  lemma CandidateLevels(m: Memory, l: Logs, c: CompactionState, v: Version, o: Options)
    requires Planned(m, l, c, v, o)
    ensures LevelZeroRange(v.tables).None?
  {
    hide *;
    PlannedParts(m, l, c, v, o);
    PlanParts(m, l, c, o);
    CandidateIs(m, l, c, v, o);
    NoneAtLevelZero(m.version, c, v.tables, LevelZeroRange(m.version.tables).value);
  }

  lemma NoneAtLevelZero(v: Version, c: CompactionState, tables: seq<VersionTable>, range: KeyRange)
    requires |c.published| == |c.outputs| && (forall i :: 0 <= i < |c.outputs| ==> c.outputs[i] != [])
    requires |c.picks| == |v.tables| && c.picks == Picks(v.tables, range) && tables == NewTables(v, c.picks, Outputs(c))
    ensures LevelZeroRange(tables).None?
  {
    hide LevelZeroRange, Select, SummaryOf, Overlaps;
    var kept := Select(v.tables, c.picks, false);
    forall t | t in tables ensures t.level != 0 {
      var j :| 0 <= j < |tables| && tables[j] == t;
      if j < |kept| {
        var i := SelectIndex(v.tables, c.picks, false, j);
      } else {
        assert t == Outputs(c)[j - |kept|];
      }
    }
  }

  lemma CleanupParts(m: Memory, l: Logs, c: CompactionState, o: Options)
    requires CompactionOk(m, l, o) && m.compaction == Some(c)
    ensures c.cleanupIndex <= |c.cleanup|
    ensures forall i :: 0 <= i < |c.cleanup| ==> c.cleanup[i].Table? || c.cleanup[i].WalName?
    ensures !c.versionPublished ==> !c.walAdvanced
  {
    hide PlanOk, PublishedOk, CandidateOk;
  }

  lemma CleanupNow(m: Memory, l: Logs, c: CompactionState, v: Version, o: Options)
    requires m.immutable.None? && l.active == [] && |c.picks| == |m.readers| && !c.walAdvanced
    requires GenerationsOk(m) && v.nextFileNumber == m.version.nextFileNumber + |c.outputs|
    requires c.cleanupIndex <= |c.cleanup| && |c.published| == |c.outputs| && c.candidate.Some?
    requires forall i :: 0 <= i < |c.cleanup| ==> c.cleanup[i].Table? && !Relevant(c.cleanup[i], v)
    requires LevelZeroRange(v.tables).None?
    ensures CompactionOk(Compacted(m, c, v), l, o)
  {
    hide PlanOk, PublishedOk, CandidateOk, CompactedReaders, LevelZeroRange;
    var m' := Compacted(m, c, v);
    assert m'.version == v;
    assert c.outputs != [] ==> !Relevant(WalName(m.generation), v);
  }

  /** The selected tables are not part of the candidate. */
  lemma InputsGone(m: Memory, l: Logs, c: CompactionState, v: Version, o: Options)
    requires Planned(m, l, c, v, o)
    ensures forall i :: 0 <= i < |c.cleanup| ==> c.cleanup[i].Table? && !Relevant(c.cleanup[i], v)
  {
    hide *;
    CompactedLengths(m, l, c, v, o);
    PlannedParts(m, l, c, v, o);
    PlanParts(m, l, c, o);
    CandidateIs(m, l, c, v, o);
    ReadersParts(m, l, o);
    StoredVersion(StoredOf(m, l, o), o);
    SelectLength(m.version.tables, c.picks, true);
    forall i | 0 <= i < |c.cleanup| ensures c.cleanup[i].Table? && !Relevant(c.cleanup[i], v) {
      SelectedAt(m.version.tables, c.picks, true, i);
      var p := Position(c.picks, true, i);
      var number := Generation(m.version.tables[p]);
      forall j | 0 <= j < |v.tables| ensures Generation(v.tables[j]) != number {
        if j < Wanted(c.picks, false) {
          var q := CandidateKept(m, l, c, v, o, j);
          AscendDistinct(m.version.tables, p, q);
        } else {
          CandidateOutput(m, l, c, v, o, j - Wanted(c.picks, false));
          var k := j - Wanted(c.picks, false);
          BuiltGeneration(c.published[k], c.firstOutput + k, c.outputs[k], o);
          BelowFrontier(m.version, o.maxKeySize, p);
          GenerationOf(v.tables[j]);
        }
      }
      NotRelevantTable(number, v);
    }
  }

  lemma GenerationOf(t: VersionTable)
    ensures Generation(t) == t.summary.generation
  {
  }

  lemma AscendDistinct(tables: seq<VersionTable>, p: nat, q: nat)
    requires GenerationsAscend(tables) && p < |tables| && q < |tables| && p != q
    ensures Generation(tables[p]) != Generation(tables[q])
  {
    hide Generation;
  }

  lemma BuiltGeneration(rd: Reader, generation: nat, run: Run, o: Options)
    requires BuiltTable(rd, generation, run, o)
    ensures rd.summary.generation == generation
  {
    hide TableBytes, TableEncodable, OpenTable, Contents, MinimumSequence, MaximumSequence;
  }

  lemma BelowFrontier(v: Version, maxKeySize: nat, i: nat)
    requires SoundVersion(v, maxKeySize) && i < |v.tables|
    ensures Generation(v.tables[i]) < v.nextFileNumber
  {
    assert ValidTable(v.tables[i], v.nextFileNumber, maxKeySize);
  }

  lemma NotRelevantTable(number: nat, v: Version)
    requires forall j :: 0 <= j < |v.tables| ==> Generation(v.tables[j]) != number
    ensures !Relevant(Table(number), v)
  {
    hide Generation;
  }

  lemma CompactedWalFile(fs: FileSystem, m: Memory, l: Logs, c: CompactionState, v: Version, o: Options)
    requires WalFileOk(fs, m, l, o) && |c.picks| == |m.readers| && DirectoryOk(fs.Current(), |fs.files|)
    requires WalsAtMost(ImageOf(fs.Current(), fs.files), m.generation)
    requires Compacted(m, c, v).poisoned == m.poisoned
    requires if c.outputs == [] then Compacted(m, c, v).wal == m.wal && Compacted(m, c, v).generation == m.generation
             else Compacted(m, c, v).wal.None? && m.generation < Compacted(m, c, v).generation
    ensures WalFileOk(fs, Compacted(m, c, v), l, o)
  {
    hide Compacted, Everywhere, Holds, PerformAll;
    var img := ImageOf(fs.Current(), fs.files);
    var n := Compacted(m, c, v).generation;
    assert WalName(n) in fs.Current() ==> WalName(n) in img;
  }

  lemma CompactedClaim(img: Image, h: History, m: Memory, l: Logs, c: CompactionState, v: Version, o: Options)
    requires |c.picks| == |m.readers| && WalsAtMost(img, m.generation)
    requires ViewHolds(img, CompactedStored(m, l, c, v, o), h, o)
    requires var m' := Compacted(m, c, v);
             && m.generation <= m'.generation && StoredOf(m', l, o) == CompactedStored(m, l, c, v, o)
             && ClaimOf(m', l, o) == Running(StoredOf(m', l, o), None, map[], m'.generation)
    ensures ViewClaim(img, ClaimOf(Compacted(m, c, v), l, o), h, o)
  {
    hide Compacted, ViewHolds, StoredOf, ClaimOf, CompactedStored;
  }

  // ----- Cleaning up ------------------------------------------------------------------------------

  /** Bookkeeping of a compaction whose version is published. */
  lemma BookkeepingInv(fs: FileSystem, h: History, m: Memory, m': Memory, l: Logs, o: Options)
    requires Inv(fs, h, m, l, o) && !m.Compacting() && !m'.Compacting() && m.immutable.None?
    requires m' == m.(compaction := m'.compaction) && CompactionOk(m', l, o)
    ensures Inv(fs, h, m', l, o) && LogOf(m', l) == LogOf(m, l)
  {
    hide *;
    InvParts(fs, h, m, l, o);
    SameButCompaction(fs, m, m', l, o);
    IdleNotFlushing(m);
    QuietClaim(m, l, o);
    QuietClaim(m', l, o);
    PartsInv(fs, h, m', l, o);
  }

  /** Removing one of the files that the compaction replaced. */
  lemma CleanupInv(fs: FileSystem, h: History, m: Memory, l: Logs, o: Options)
    requires Inv(fs, h, m, l, o) && m.compaction.Some? && m.compaction.value.versionPublished
    requires m.compaction.value.cleanupIndex < |m.compaction.value.cleanup|
    ensures Inv(fs.Issue(Unlink(m.compaction.value.cleanup[m.compaction.value.cleanupIndex])), h, m, l, o)
  {
    hide *;
    InvParts(fs, h, m, l, o);
    MemoryParts(m, l, o);
    CleanupTarget(m, l, o);
    UnlinkInv(fs, m.compaction.value.cleanup[m.compaction.value.cleanupIndex], h, m, l, o);
  }

  lemma CleanupTarget(m: Memory, l: Logs, o: Options)
    requires CompactionOk(m, l, o) && GenerationsOk(m) && m.compaction.Some? && m.compaction.value.versionPublished
    requires m.compaction.value.cleanupIndex < |m.compaction.value.cleanup|
    ensures var n := m.compaction.value.cleanup[m.compaction.value.cleanupIndex];
            !Relevant(n, m.version) && n != WalName(m.generation) && !m.Flushing() && !m.Compacting()
  {
    hide PlanOk, PublishedOk, CandidateOk, LevelZeroRange;
    assert Relevant(WalName(m.generation), m.version);
  }

  // ----- What the methods of a database need ------------------------------------------------------

  lemma CompactionParts(m: Memory, l: Logs, o: Options)
    requires CompactionOk(m, l, o) && m.compaction.Some?
    ensures var c := m.compaction.value;
            && m.immutable.None? && l.active == [] && CleanupOk(m, c)
            && (c.versionPublished && c.walAdvanced ==> m.wal.None? || c.cleanupSynced)
            && (c.versionPublished ==> |c.published| == |c.outputs| && c.candidate.Some? && LevelZeroRange(m.version.tables).None?)
            && (!c.versionPublished ==> PlanOk(m, l, c, o) && PublishedOk(c, o) && CandidateOk(m, c, o) && !c.walAdvanced)
  {
    hide PlanOk, PublishedOk, CandidateOk, CleanupOk, LevelZeroRange;
  }

  /** The edit of ContinueCompaction is accepted: the candidate may be recorded. */
  lemma PartsCandidate(m: Memory, c: CompactionState, v: Version, o: Options)
    requires |c.published| == |c.outputs| && |c.picks| == |m.version.tables|
    requires forall i :: 0 <= i < |c.outputs| ==> c.outputs[i] != []
    requires Apply(m.version, CompactionEdit(m.version, c.picks, Added(c.firstOutput, c.outputs, Sizes(c.published))), o.maxKeySize) == Some(v)
    ensures CandidateOk(m, c.(candidate := Some(v)), o)
  {
    hide Apply, CompactionEdit, Added, Sizes;
  }

  lemma PartsPublished(c: CompactionState, o: Options)
    requires |c.published| == |c.outputs|
    requires forall i :: 0 <= i < |c.published| ==> BuiltTable(c.published[i], c.firstOutput + i, c.outputs[i], o)
    ensures PublishedOk(c, o)
  {
    hide BuiltTable;
  }

  /** What publishing the MANIFEST of a compaction needs. */
  lemma CompactionAllowed(fs: FileSystem, h: History, m: Memory, l: Logs, o: Options)
    requires Inv(fs, h, m, l, o) && m.Compacting() && m.compaction.value.candidate.Some?
    ensures |m.compaction.value.picks| == |m.readers|
    ensures CandidateOf(m, l, o).Some? && CandidateOf(m, l, o).value.version == m.compaction.value.candidate.value
    ensures ClaimOf(m, l, o).Running? && ClaimOf(m, l, o).candidate == CandidateOf(m, l, o)
    ensures FileName.Manifest !in ClaimOf(m, l, o).pins
    ensures Keeps(fs, ClaimOf(m, l, o), h, o)
    ensures ReadyFor(ImageOf(fs.Current(), fs.files), CandidateOf(m, l, o).value, h, o)
  {
    hide *;
    CompactingParts(m);
    InvParts(fs, h, m, l, o);
    var c, v := m.compaction.value, m.compaction.value.candidate.value;
    PlannedOf(m, l, o);
    CompactedLengths(m, l, c, v, o);
    CompactionCandidate(m, l, o);
    CompactedStoredIs(m, l, c, v, o);
    CurrentClaim(fs, ClaimOf(m, l, o), h, o);
    CompactionReady(ImageOf(fs.Current(), fs.files), h, m, l, o);
    assert FileName.Manifest !in OutputPins(c.firstOutput, c.outputs, |c.published|, o);
  }

  /** The plan of a compaction whose outputs are not yet published. */
  lemma PlannedOutputs(m: Memory, l: Logs, c: CompactionState, o: Options)
    requires ReadersOk(m, l, o) && PlanOk(m, l, c, o)
    ensures forall i :: 0 <= i < |c.outputs| ==> c.outputs[i] != [] && Sorted(c.outputs[i]) && AllEncodable(c.outputs[i], o)
    ensures c.firstOutput == m.version.nextFileNumber && |c.picks| == |m.version.tables| == |m.readers|
    ensures c.firstOutput + |c.outputs| <= MAX64
  {
    hide *;
    PlanParts(m, l, c, o);
    PlanNonempty(m, l, c, o);
    ReadersParts(m, l, o);
    MergedSorted(Select(RunsOf(m.readers, o), c.picks, true), c.outputs);
    forall i | 0 <= i < |c.outputs| ensures Sorted(c.outputs[i]) && AllEncodable(c.outputs[i], o) {
      FlattenSorted(c.outputs, i);
      forall r | r in c.outputs[i] ensures Encodable(r, o) {
        FlattenMembers(c.outputs, i, r);
        var k := OutputRecord(RunsOf(m.readers, o), c.picks, c.outputs, r);
        StoredRecordAt(StoredOf(m, l, o), o, k, r);
      }
      AllAre(c.outputs[i], o);
    }
  }

  lemma AllAre(log: seq<Record>, o: Options)
    requires forall r :: r in log ==> Encodable(r, o)
    ensures AllEncodable(log, o)
  {
    hide Encodable;
  }

  lemma PlanNonempty(m: Memory, l: Logs, c: CompactionState, o: Options)
    requires PlanOk(m, l, c, o)
    ensures forall i :: 0 <= i < |c.outputs| ==> c.outputs[i] != []
  {
    hide MergedOutputs, Picks, LevelZeroRange, Select;
  }

  lemma PartsPlan(m: Memory, l: Logs, c: CompactionState, range: KeyRange, o: Options)
    requires LevelZeroRange(m.version.tables) == Some(range) && |m.readers| == |m.version.tables|
    requires c.picks == Picks(m.version.tables, range) && |c.picks| == |m.readers|
    requires MergedOutputs(Select(RunsOf(m.readers, o), c.picks, true), c.outputs)
    requires forall i :: 0 <= i < |c.outputs| ==> c.outputs[i] != []
    requires c.firstOutput == m.version.nextFileNumber && c.firstOutput + |c.outputs| <= MAX64
    requires c.cleanup == InputNames(m.version, c.picks)
    ensures PlanOk(m, l, c, o)
  {
    hide MergedOutputs, Picks, LevelZeroRange, Select;
  }

  lemma CompactedIs(m: Memory, c: CompactionState, v: Version)
    requires |c.picks| == |m.readers|
    ensures Compacted(m, c, v) ==
            var state := c.(versionPublished := true);
            var after := m.(version := v, readers := Select(m.readers, c.picks, false) + c.published);
            if c.outputs == [] then after.(compaction := Some(state))
            else
              after.(compaction := Some(state.(cleanup := c.cleanup + [WalName(m.generation)], walAdvanced := true)),
                     wal := None, generation := v.nextFileNumber)
  {
    hide Select;
  }

  /** Bookkeeping keeps what CompactionOk says of a published compaction. */
  lemma PartsBookkeeping(m: Memory, m': Memory, l: Logs, c: CompactionState, o: Options)
    requires CompactionOk(m, l, o) && m.compaction.Some? && m.compaction.value.versionPublished
    requires m' == m.(compaction := Some(c))
    requires c == m.compaction.value.(cleanupIndex := c.cleanupIndex, cleanupSynced := c.cleanupSynced)
    requires c.cleanupIndex <= |c.cleanup|
    requires m.compaction.value.cleanupSynced ==> c.cleanupSynced
    ensures CompactionOk(m', l, o) && !m'.Compacting() && m.immutable.None?
  {
    hide PlanOk, PublishedOk, CandidateOk, LevelZeroRange;
  }

  lemma CompactionGone(m: Memory, l: Logs, o: Options)
    requires CompactionOk(m, l, o) && m.compaction.Some? && m.compaction.value.versionPublished
    ensures CompactionOk(m.(compaction := None), l, o) && !m.(compaction := None).Compacting() && m.immutable.None? && !m.Compacting()
  {
    hide PlanOk, PublishedOk, CandidateOk, CleanupOk;
  }

  /** Outputs that no view reads yet. */
  lemma OutputsSpare(m: Memory, l: Logs, o: Options)
    requires ReadersOk(m, l, o) && m.Compacting() && m.immutable.None? && PlanOk(m, l, m.compaction.value, o)
    requires m.compaction.value.published == [] && m.compaction.value.candidate == None
    ensures var c, claim := m.compaction.value, ClaimOf(m, l, o);
            && claim.Running? && claim.candidate == None && claim.pins == map[] && claim.stored.version == m.version
            && forall g: nat :: c.firstOutput <= g ==> !Relevant(Table(g), m.version)
  {
    hide *;
    CompactingParts(m);
    ReadersParts(m, l, o);
    StoredVersion(StoredOf(m, l, o), o);
    PlanParts(m, l, m.compaction.value, o);
    PlainClaim(m, l, o);
    forall g: nat | m.compaction.value.firstOutput <= g ensures !Relevant(Table(g), m.version) {
      AboveFrontier(m.version, g, o.maxKeySize);
    }
  }

  lemma AboveFrontier(v: Version, g: nat, maxKeySize: nat)
    requires SoundVersion(v, maxKeySize) && g >= v.nextFileNumber
    ensures !Relevant(Table(g), v)
  {
    hide SoundVersion;
    if Live(v.tables, g) { LiveBelow(v, maxKeySize, g); }
  }

  lemma PlainClaim(m: Memory, l: Logs, o: Options)
    requires m.Compacting() && m.immutable.None?
    requires m.compaction.value.published == [] && m.compaction.value.candidate == None
    ensures ClaimOf(m, l, o) == Running(StoredOf(m, l, o), None, map[], m.generation)
  {
    hide StoredOf;
  }

  // ----- A rename that was not synced ---------------------------------------------------------------------

  /** Some crash would find the MANIFEST of this version in place. */
  ghost predicate Renaming(fs: FileSystem, v: Version, o: Options) {
    exists kept :: 0 <= kept <= |fs.pending| && ManifestOk(ImageOf(fs.View(kept), fs.files), v, o)
  }

  /** An image has the MANIFEST of one version. */
  lemma OneManifest(img: Image, v: Version, v': Version, o: Options)
    requires ManifestOk(img, v, o) && ManifestOk(img, v', o)
    ensures v == v'
  {
    hide DecodeManifest;
  }

  /** Before a candidate is made no view has its MANIFEST. */
  lemma NotRenaming(fs: FileSystem, h: History, m: Memory, l: Logs, v: Version, o: Options)
    requires Inv(fs, h, m, l, o) && m.Compacting() && m.compaction.value.candidate == None && v != m.version
    ensures !Renaming(fs, v, o)
  {
    hide *;
    CompactingParts(m);
    InvParts(fs, h, m, l, o);
    MemoryParts(m, l, o);
    CompactionParts(m, l, o);
    PlainCompactionClaim(m, l, o);
    ReadersParts(m, l, o);
    ClaimNotRenaming(fs, ClaimOf(m, l, o), h, v, o);
  }

  lemma ClaimNotRenaming(fs: FileSystem, c: Claim, h: History, v: Version, o: Options)
    requires Keeps(fs, c, h, o) && c.Running? && c.candidate == None && v != c.stored.version
    ensures !Renaming(fs, v, o)
  {
    hide StoredOk, ManifestOk, TablesOk, WalsOk, PerformAll;
    forall kept | 0 <= kept <= |fs.pending| ensures !ManifestOk(ImageOf(fs.View(kept), fs.files), v, o) {
      var img := ImageOf(fs.View(kept), fs.files);
      assert ViewClaim(img, c, h, o);
      if ManifestOk(img, v, o) { OneManifest(img, v, c.stored.version, o); }
    }
  }

  lemma PlainCompactionClaim(m: Memory, l: Logs, o: Options)
    requires m.Compacting() && m.immutable.None? && m.compaction.value.candidate == None
    ensures var c := m.compaction.value;
            ClaimOf(m, l, o) == Running(StoredOf(m, l, o), None, OutputPins(c.firstOutput, c.outputs, |c.published|, o), m.generation)
  {
    hide StoredOf, OutputPins;
  }
}
