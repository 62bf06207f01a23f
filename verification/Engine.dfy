/**
  The state of a running database and the invariant that ties it to the disk
  (src/database.cpp).  Everything here is about values; the class in Database updates
  its fields and uses these lemmas.
 */
module Engine {
  import opened Coding
  import opened Configuration
  import opened Keys
  import opened Runs
  import opened WalLog
  import opened Versions
  import opened Summaries
  import opened Compaction
  import opened Tables
  import opened FileSystem
  import opened Durability
  import opened WalFiles
  import opened Claims
  import opened WalSteps

  // ----- Memory ------------------------------------------------------------------------

  datatype Immutable = Immutable(
    generation: nat,
    records: Run,
    maximumSequence: nat,
    pending: Option<Reader>,
    published: bool,
    walRemoved: bool)

  datatype CompactionState = CompactionState(
    picks: seq<bool>,
    outputs: seq<Run>,
    firstOutput: nat,
    published: seq<Reader>,
    candidate: Option<Version>,
    versionPublished: bool,
    cleanup: seq<FileName>,
    cleanupIndex: nat,
    cleanupSynced: bool,
    walAdvanced: bool)

  /** The fields of class Database. */
  datatype Memory = Memory(
    version: Version,
    readers: seq<Reader>,
    mutable: Run,
    generation: nat,
    wal: Option<Inode>,
    immutable: Option<Immutable>,
    compaction: Option<CompactionState>,
    lastSequence: nat,
    poisoned: bool)
  {
    /** A frozen MemTable whose table is not yet part of the version. */
    predicate Flushing() {
      immutable.Some? && !immutable.value.published
    }

    predicate Compacting() {
      compaction.Some? && !compaction.value.versionPublished
    }
  }

  /**
    The records behind the memory: those the tables mean, those of the frozen log and those of
    the active log.  `twoWals` says that the active log may exist beside the frozen one.
   */
  datatype Logs = Logs(tables: seq<Record>, frozen: seq<Record>, active: seq<Record>, twoWals: bool)

  ghost function RunsOf(readers: seq<Reader>, o: Options): (runs: seq<Run>)
    ensures |runs| == |readers| && forall i :: 0 <= i < |runs| ==> runs[i] == Contents(readers[i], o)
  {
    seq(|readers|, i requires 0 <= i < |readers| => Contents(readers[i], o))
  }

  /** Everything written and not known to be lost, in order. */
  function LogOf(m: Memory, l: Logs): seq<Record> {
    l.tables + (if m.Flushing() then l.frozen else []) + l.active
  }

  /** The sequence number below all records of the active log. */
  function Floor(m: Memory, l: Logs): nat {
    if m.Flushing() && l.frozen != [] then LastSequence(l.frozen) else m.version.lastSequence
  }

  // ----- What the memory must satisfy ----------------------------------------------------

  ghost function StoredOf(m: Memory, l: Logs, o: Options): Stored {
    Stored(m.version, RunsOf(m.readers, o), l.tables)
  }

  ghost predicate ReadersOk(m: Memory, l: Logs, o: Options) {
    && |m.readers| == |m.version.tables|
    && (forall i :: 0 <= i < |m.readers| ==> m.readers[i].summary == m.version.tables[i].summary && Opened(m.readers[i], o))
    && StoredOk(StoredOf(m, l, o), o)
  }

  predicate GenerationsOk(m: Memory) {
    && m.generation <= MAX64
    && match m.immutable
       case None => m.generation == m.version.nextFileNumber
       case Some(i) =>
         && m.generation == i.generation + 1
         && m.version.nextFileNumber == if i.published then m.generation else i.generation
  }

  predicate EndsWith(log: seq<Record>, end: seq<Record>) {
    |end| <= |log| && log[|log| - |end|..] == end
  }

  /** The last table holds exactly these records, which are newer than those of every other table. */
  ghost predicate TopTable(readers: seq<Reader>, records: Run, o: Options) {
    && readers != [] && Contents(readers[|readers| - 1], o) == records
    && (forall j, r, t :: 0 <= j < |readers| - 1 && r in Contents(readers[j], o) && t in records ==> r.sequence < t.sequence)
  }

  ghost predicate FrozenLogOk(m: Memory, l: Logs, o: Options) {
    match m.immutable
    case None => l.frozen == [] && !l.twoWals
    case Some(i) =>
      && l.frozen != [] && i.records == Fold(l.frozen) && i.maximumSequence == LastSequence(l.frozen)
      && AllEncodable(l.frozen, o) && Rising(l.frozen, if i.published then 0 else m.version.lastSequence)
      && (i.published ==> i.pending.None? && LastSequence(l.frozen) <= m.version.lastSequence && EndsWith(l.tables, l.frozen))
      && (i.published ==> TopTable(m.readers, i.records, o))
      && (!i.published && !l.twoWals ==> m.wal.None?)
  }

  ghost predicate ActiveLogOk(m: Memory, l: Logs, o: Options) {
    && m.mutable == Fold(l.active) && AllEncodable(l.active, o) && Rising(l.active, Floor(m, l))
    && (m.wal.None? ==> l.active == [])
    && Floor(m, l) <= m.lastSequence <= MAX64
    && (forall i :: 0 <= i < |l.active| ==> l.active[i].sequence <= m.lastSequence)
  }

  /** A reader of the table that these records are written to. */
  ghost predicate BuiltTable(rd: Reader, generation: nat, run: Run, o: Options) {
    && run != [] && TableEncodable(generation, run, o)
    && OpenTable(TableBytes(generation, run, o), o) == Some(rd)
    && rd.summary == SummaryOf(generation, run, |TableBytes(generation, run, o)|)
    && 0 < |run| <= rd.summary.fileSize <= MAX64
    && Contents(rd, o) == run
  }

  ghost predicate PendingOk(m: Memory, o: Options) {
    m.immutable.Some? && m.immutable.value.pending.Some? ==>
      var i := m.immutable.value;
      BuiltTable(i.pending.value, i.generation, i.records, o)
  }

  ghost predicate MemoryOk(m: Memory, l: Logs, o: Options) {
    && o.Valid() && ReadersOk(m, l, o) && GenerationsOk(m)
    && FrozenLogOk(m, l, o) && ActiveLogOk(m, l, o) && PendingOk(m, o)
    && CompactionOk(m, l, o)
  }

  // ----- Compactions ---------------------------------------------------------------------

  function Sizes(readers: seq<Reader>): (sizes: seq<nat>)
    ensures |sizes| == |readers| && forall i :: 0 <= i < |sizes| ==> sizes[i] == readers[i].summary.fileSize
  {
    seq(|readers|, i requires 0 <= i < |readers| => readers[i].summary.fileSize)
  }

  /** The files of the selected tables. */
  function InputNames(v: Version, picks: seq<bool>): (names: seq<FileName>)
    requires |picks| == |v.tables|
    ensures |names| == |Select(v.tables, picks, true)|
    ensures forall i :: 0 <= i < |names| ==> names[i] == Table(Generation(Select(v.tables, picks, true)[i]))
  {
    var inputs := Select(v.tables, picks, true);
    seq(|inputs|, i requires 0 <= i < |inputs| => Table(Generation(inputs[i])))
  }

  /** The inputs and outputs of a compaction whose version is not yet published. */
  ghost predicate PlanOk(m: Memory, l: Logs, c: CompactionState, o: Options) {
    var runs := RunsOf(m.readers, o);
    && LevelZeroRange(m.version.tables).Some?
    && |c.picks| == |m.version.tables| == |m.readers|
    && c.picks == Picks(m.version.tables, LevelZeroRange(m.version.tables).value)
    && MergedOutputs(Select(runs, c.picks, true), c.outputs)
    && (forall i :: 0 <= i < |c.outputs| ==> c.outputs[i] != [])
    && c.firstOutput == m.version.nextFileNumber && c.firstOutput + |c.outputs| <= MAX64
    && c.cleanup == InputNames(m.version, c.picks)
  }

  ghost predicate PublishedOk(c: CompactionState, o: Options) {
    && (c.published == [] || |c.published| == |c.outputs|)
    && (forall i :: 0 <= i < |c.published| ==> BuiltTable(c.published[i], c.firstOutput + i, c.outputs[i], o))
  }

  /** The candidate follows from the plan and the published outputs. */
  ghost predicate CandidateOk(m: Memory, c: CompactionState, o: Options) {
    c.candidate.Some? ==>
      && |c.published| == |c.outputs| && |c.picks| == |m.version.tables|
      && (forall i :: 0 <= i < |c.outputs| ==> c.outputs[i] != [])
      && var added := Added(c.firstOutput, c.outputs, Sizes(c.published));
         Apply(m.version, CompactionEdit(m.version, c.picks, added), o.maxKeySize) == c.candidate
  }

  /** Once the new version is published, only names it does not read are left to remove. */
  ghost predicate CleanupOk(m: Memory, c: CompactionState) {
    && c.cleanupIndex <= |c.cleanup|
    && (forall i :: 0 <= i < |c.cleanup| ==> (c.cleanup[i].Table? || c.cleanup[i].WalName?))
    && (c.versionPublished ==> forall i :: 0 <= i < |c.cleanup| ==> !Relevant(c.cleanup[i], m.version))
  }

  ghost predicate CompactionOk(m: Memory, l: Logs, o: Options) {
    m.compaction.Some? ==>
      var c := m.compaction.value;
      && m.immutable.None? && l.active == [] && CleanupOk(m, c)
      && (c.versionPublished && c.walAdvanced ==> m.wal.None? || c.cleanupSynced)
      && (c.versionPublished ==> |c.published| == |c.outputs| && c.candidate.Some? && LevelZeroRange(m.version.tables).None?)
      && (!c.versionPublished ==> PlanOk(m, l, c, o) && PublishedOk(c, o) && CandidateOk(m, c, o) && !c.walAdvanced)
  }

  // ----- What the disk must satisfy -----------------------------------------------------------

  function FlushEdit(m: Memory): VersionEdit
    requires m.immutable.Some? && m.immutable.value.pending.Some?
  {
    VersionEdit([VersionTable(0, m.immutable.value.pending.value.summary)], [], Some(m.generation),
                Some(m.immutable.value.maximumSequence))
  }

  /** The version that a flush or a compaction in progress is about to publish. */
  ghost function CandidateOf(m: Memory, l: Logs, o: Options): Option<Stored> {
    if m.Flushing() && m.immutable.value.pending.Some? then
      var v := Apply(m.version, FlushEdit(m), o.maxKeySize);
      if v.None? then None
      else Some(Stored(v.value, RunsOf(m.readers, o) + [m.immutable.value.records], l.tables + l.frozen))
    else if m.Compacting() && m.compaction.value.candidate.Some? && |m.compaction.value.picks| == |m.readers| then
      var c := m.compaction.value;
      Some(Stored(c.candidate.value, Select(RunsOf(m.readers, o), c.picks, false) + c.outputs, l.tables))
    else None
  }

  /** Files that every view must have: a frozen log that has a successor, and tables about to be published. */
  ghost function PinsOf(m: Memory, l: Logs, o: Options): map<FileName, Bytes> {
    if m.Flushing() then
      var i := m.immutable.value;
      (if l.twoWals then map[WalName(i.generation) := LogBytes(l.frozen)] else map[]) +
      (if i.pending.Some? then map[Table(i.generation) := TableBytes(i.generation, i.records, o)] else map[])
    else if m.Compacting() then
      var c := m.compaction.value;
      OutputPins(c.firstOutput, c.outputs, |c.published|, o)
    else map[]
  }

  /** The first `count` outputs of a compaction under their names. */
  ghost function OutputPins(first: nat, outputs: seq<Run>, count: nat, o: Options): (pins: map<FileName, Bytes>)
    ensures forall n :: n in pins <==> n.Table? && first <= n.number < first + count && n.number < first + |outputs|
  {
    hide TableBytes;
    if count == 0 then map[]
    else if count > |outputs| then OutputPins(first, outputs, count - 1, o)
    else OutputPins(first, outputs, count - 1, o)[Table(first + count - 1) :=
           TableBytes(first + count - 1, outputs[count - 1], o)]
  }

  lemma {:induction false} OutputPinsAt(first: nat, outputs: seq<Run>, count: nat, i: nat, o: Options)
    requires i < count && i < |outputs|
    ensures OutputPins(first, outputs, count, o)[Table(first + i)] == TableBytes(first + i, outputs[i], o)
  {
    hide TableBytes;
    if count > |outputs| || i < count - 1 {
      OutputPinsAt(first, outputs, count - 1, i, o);
    }
  }

  function LimitOf(m: Memory, l: Logs): nat {
    if m.Flushing() && !l.twoWals then m.immutable.value.generation else m.generation
  }

  ghost function ClaimOf(m: Memory, l: Logs, o: Options): Claim {
    Running(StoredOf(m, l, o), CandidateOf(m, l, o), PinsOf(m, l, o), LimitOf(m, l))
  }

  /** The active log's file, and an untouched one where the next log will be. */
  ghost predicate WalFileOk(fs: FileSystem, m: Memory, l: Logs, o: Options) {
    match m.wal
    case Some(inode) =>
      && Everywhere(fs, WalName(m.generation), inode)
      && (!m.poisoned ==> Holds(fs.files[inode], l.active, o))
    case None =>
      WalName(m.generation) in fs.Current() ==>
        && fs.Current()[WalName(m.generation)] < |fs.files|
        && fs.files[fs.Current()[WalName(m.generation)]].current == []
  }

  /** The invariant of a running database. */
  ghost predicate Inv(fs: FileSystem, h: History, m: Memory, l: Logs, o: Options) {
    && MemoryOk(m, l, o)
    && Explains(LogOf(m, l), h)
    && Keeps(fs, ClaimOf(m, l, o), h, o)
    && WalFileOk(fs, m, l, o)
  }

  lemma InvParts(fs: FileSystem, h: History, m: Memory, l: Logs, o: Options)
    requires Inv(fs, h, m, l, o)
    ensures MemoryOk(m, l, o) && Explains(LogOf(m, l), h) && Keeps(fs, ClaimOf(m, l, o), h, o) && WalFileOk(fs, m, l, o)
    ensures ClaimOf(m, l, o).Running?
  {
    hide MemoryOk, Explains, LogOf, Keeps, WalFileOk;
  }

  lemma PartsInv(fs: FileSystem, h: History, m: Memory, l: Logs, o: Options)
    requires MemoryOk(m, l, o) && Explains(LogOf(m, l), h) && Keeps(fs, ClaimOf(m, l, o), h, o) && WalFileOk(fs, m, l, o)
    ensures Inv(fs, h, m, l, o)
  {
    hide MemoryOk, Explains, LogOf, Keeps, WalFileOk, ClaimOf;
  }
}
