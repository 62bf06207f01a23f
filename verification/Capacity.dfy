/**
  The limits a healthy database can run into: counts and sizes that do not fit their fields.
  Apart from these a flush or a compaction fails only where the environment does.
 */
module Capacity {
  import opened Coding
  import opened Configuration
  import opened Keys
  import opened Runs
  import opened Wal
  import opened WalLog
  import opened Versions
  import opened Summaries
  import Merge
  import opened Compaction
  import opened Manifest
  import opened Tables
  import opened Durability
  import opened Engine
  import opened FlushSteps
  import opened CompactionSteps

  // ----- Flushing -----------------------------------------------------------------------------------

  /** The version once the Immutable's table is part of it. */
  ghost function FlushedVersion(v: Version, i: Immutable, o: Options): Version
    requires i.records != []
  {
    var size := |TableBytes(i.generation, i.records, o)|;
    Version(v.id + 1, i.generation + 1, i.maximumSequence,
            v.tables + [VersionTable(0, SummaryOf(i.generation, i.records, size))])
  }

  /** The Immutable's table and the next MANIFEST can be encoded, and a version number is left. */
  ghost predicate FlushFits(v: Version, i: Immutable, o: Options) {
    && TableEncodable(i.generation, i.records, o) && i.records != [] && v.id != MAX64
    && ManifestEncodable(FlushedVersion(v, i, o), o.maxKeySize)
  }

  lemma FlushFitsParts(v: Version, i: Immutable, o: Options)
    requires FlushFits(v, i, o)
    ensures TableEncodable(i.generation, i.records, o) && i.records != [] && v.id != MAX64
    ensures ManifestEncodable(FlushedVersion(v, i, o), o.maxKeySize)
  {
    hide TableEncodable, FlushedVersion, ManifestEncodable;
  }

  lemma FlushFitsPending(v: Version, i: Immutable, i': Immutable, o: Options)
    requires i' == i.(pending := i'.pending)
    ensures FlushFits(v, i', o) == FlushFits(v, i, o)
    ensures i.records != [] ==> FlushedVersion(v, i', o) == FlushedVersion(v, i, o)
  {
    hide TableEncodable, TableBytes, ManifestEncodable, SummaryOf;
    if i.records != [] {
      assert FlushedVersion(v, i', o) == FlushedVersion(v, i, o);
    }
  }

  /** The edit of a flush is accepted unless the version id is exhausted. */
  lemma FlushAccepted(m: Memory, l: Logs, o: Options)
    requires MemoryOk(m, l, o) && m.Flushing() && m.immutable.value.pending.Some?
    ensures m.immutable.value.records != []
    ensures Apply(m.version, FlushEdit(m), o.maxKeySize) ==
            if m.version.id == MAX64 then None else Some(FlushedVersion(m.version, m.immutable.value, o))
  {
    hide *;
    FlushingParts(m);
    MemoryParts(m, l, o);
    ReadersParts(m, l, o);
    StoredVersion(StoredOf(m, l, o), o);
    FrozenBounds(m, l, o);
    PendingBuilt(m, o);
    FlushNumbers(m);
    FlushMaximum(m, l, o);
    var i := m.immutable.value;
    var t := VersionTable(0, i.pending.value.summary);
    BuiltIsValid(i.pending.value, i.generation, i.records, o);
    GenerationIs(t);
    FlushEditIs(m);
    AppendAccepted(m.version, t, m.generation, i.maximumSequence, o.maxKeySize);
    FlushedIs(m.version, i, o);
  }

  lemma FlushedIs(v: Version, i: Immutable, o: Options)
    requires i.records != []
    ensures FlushedVersion(v, i, o) ==
            Version(v.id + 1, i.generation + 1, i.maximumSequence,
                    v.tables + [VersionTable(0, SummaryOf(i.generation, i.records, |TableBytes(i.generation, i.records, o)|))])
  {
    hide TableBytes, SummaryOf;
  }

  lemma FlushEditIs(m: Memory)
    requires m.immutable.Some? && m.immutable.value.pending.Some?
    ensures FlushEdit(m) ==
            VersionEdit([VersionTable(0, m.immutable.value.pending.value.summary)], [], Some(m.generation),
                        Some(m.immutable.value.maximumSequence))
  {
  }

  lemma GenerationIs(t: VersionTable)
    ensures Generation(t) == t.summary.generation
  {
  }

  lemma FlushNumbers(m: Memory)
    requires GenerationsOk(m) && m.Flushing()
    ensures m.generation == m.immutable.value.generation + 1 && m.version.nextFileNumber == m.immutable.value.generation
  {
  }

  lemma FlushMaximum(m: Memory, l: Logs, o: Options)
    requires FrozenLogOk(m, l, o) && m.Flushing()
    ensures l.frozen != [] && m.immutable.value.maximumSequence == LastSequence(l.frozen)
  {
    hide Fold, AllEncodable, Rising;
  }

  lemma PendingBuilt(m: Memory, o: Options)
    requires PendingOk(m, o) && m.immutable.Some? && m.immutable.value.pending.Some?
    ensures BuiltTable(m.immutable.value.pending.value, m.immutable.value.generation, m.immutable.value.records, o)
  {
    hide BuiltTable;
  }

  /** The summary of a built table passes the checks of a version. */
  lemma BuiltIsValid(rd: Reader, g: nat, records: Run, o: Options)
    requires BuiltTable(rd, g, records, o) && Sorted(records) && forall r :: r in records ==> Encodable(r, o)
    ensures records != [] && rd.summary == SummaryOf(g, records, |TableBytes(g, records, o)|)
    ensures ValidTable(VersionTable(0, rd.summary), g + 1, o.maxKeySize)
    ensures rd.summary.maximumSequence == MaximumSequence(records) && rd.summary.generation == g
  {
    hide *;
    BuiltSummary(rd, g, records, o);
    SummaryIsValid(g, records, |TableBytes(g, records, o)|, o);
  }

  lemma BuiltSummary(rd: Reader, g: nat, records: Run, o: Options)
    requires BuiltTable(rd, g, records, o)
    ensures records != [] && g != 0 && |TableBytes(g, records, o)| != 0
    ensures rd.summary == SummaryOf(g, records, |TableBytes(g, records, o)|)
  {
    TableEncodableParts(g, records, o);
    hide TableBytes, OpenTable, Contents, MinimumSequence, MaximumSequence, TableEncodable;
  }

  lemma SummaryIsValid(g: nat, records: Run, size: nat, o: Options)
    requires records != [] && g != 0 && size != 0 && Sorted(records) && forall r :: r in records ==> Encodable(r, o)
    ensures ValidTable(VersionTable(0, SummaryOf(g, records, size)), g + 1, o.maxKeySize)
    ensures SummaryOf(g, records, size).maximumSequence == MaximumSequence(records) && SummaryOf(g, records, size).generation == g
  {
    hide MinimumSequence, MaximumSequence, Less;
    var lowest := MinimumHolder(records);
    var highest := MaximumHolder(records);
    var first, last := records[0], records[|records| - 1];
    assert first in records && last in records;
    assert Encodable(lowest, o) && Encodable(first, o) && Encodable(last, o);
    FirstIsLeast(records, last);
    assert MinimumSequence(records) <= highest.sequence;
  }

  /** Appending one valid table above the frontier. */
  lemma AppendAccepted(v: Version, t: VersionTable, next: nat, last: nat, maxKeySize: nat)
    requires SoundVersion(v, maxKeySize) && GenerationsAscend(v.tables) && t.level == 0
    requires Generation(t) >= v.nextFileNumber && ValidTable(t, next, maxKeySize) && t.summary.maximumSequence == last
    requires v.nextFileNumber <= next && v.lastSequence <= last
    ensures Apply(v, VersionEdit([t], [], Some(next), Some(last)), maxKeySize) ==
            if v.id == MAX64 then None else Some(Version(v.id + 1, next, last, v.tables + [t]))
  {
    var edit := VersionEdit([t], [], Some(next), Some(last));
    FlushTablesAppended(v, t, next, last, maxKeySize);
    ValidVersionIsSound(v, maxKeySize);
    ValidVersionIsSound(Version(v.id + 1, next, last, v.tables + [t]), maxKeySize);
    AppendSound(v, t, next, last, maxKeySize);
    AppendAllowed(v, t, edit, maxKeySize);
    hide SortByGeneration, Remaining, ValidVersion, SoundVersion, Less, DeletionsOk, AdditionsOk;
    assert Candidate(v, edit) == Version(v.id + 1, next, last, v.tables + [t]);
  }

  lemma AppendAllowed(v: Version, t: VersionTable, edit: VersionEdit, maxKeySize: nat)
    requires SoundVersion(v, maxKeySize) && Generation(t) >= v.nextFileNumber && edit.added == [t] && edit.deleted == []
    ensures DeletionsOk(v, edit.deleted) && AdditionsOk(v, edit)
  {
    hide LevelOneApart, Less;
    RemainingAll(v.tables);
    if Live(v.tables, Generation(t)) { LiveBelow(v, maxKeySize, Generation(t)); }
  }

  lemma AppendSound(v: Version, t: VersionTable, next: nat, last: nat, maxKeySize: nat)
    requires SoundVersion(v, maxKeySize) && GenerationsAscend(v.tables + [t]) && t.level == 0
    requires ValidTable(t, next, maxKeySize) && t.summary.maximumSequence == last
    requires v.nextFileNumber <= next && v.lastSequence <= last
    ensures SoundVersion(Version(v.id + 1, next, last, v.tables + [t]), maxKeySize)
  {
    hide Less;
    var tables := v.tables + [t];
    forall i | 0 <= i < |tables| ensures ValidTable(tables[i], next, maxKeySize) && tables[i].summary.maximumSequence <= last {
      if i < |v.tables| {
        assert ValidTable(v.tables[i], v.nextFileNumber, maxKeySize);
      }
    }
    assert LevelOneApart(tables);
  }

  // ----- Compacting ---------------------------------------------------------------------------------

  ghost function OutputSizes(first: nat, outputs: seq<Run>, o: Options): (sizes: seq<nat>)
    ensures |sizes| == |outputs|
  {
    hide TableBytes;
    seq(|outputs|, i requires 0 <= i < |outputs| => |TableBytes(first + i, outputs[i], o)|)
  }

  /** The version once the outputs have replaced the inputs. */
  ghost function CompactedVersion(v: Version, c: CompactionState, o: Options): Version
    requires |c.picks| == |v.tables| && forall i :: 0 <= i < |c.outputs| ==> c.outputs[i] != []
  {
    Version(v.id + 1, v.nextFileNumber + |c.outputs|, v.lastSequence,
            NewTables(v, c.picks, Added(c.firstOutput, c.outputs, OutputSizes(c.firstOutput, c.outputs, o))))
  }

  /** The outputs and the next MANIFEST can be encoded, a version number is left, and the outputs' bytes can be counted. */
  ghost predicate CompactionFits(v: Version, c: CompactionState, o: Options) {
    !c.versionPublished ==>
      && (forall i :: 0 <= i < |c.outputs| ==> c.outputs[i] != [] && TableEncodable(c.firstOutput + i, c.outputs[i], o))
      && v.id != MAX64 && |c.picks| == |v.tables| && ManifestEncodable(CompactedVersion(v, c, o), o.maxKeySize)
      && Merge.Sum(OutputSizes(c.firstOutput, c.outputs, o)) <= MAX64
  }

  lemma CompactionFitsParts(v: Version, c: CompactionState, o: Options)
    requires CompactionFits(v, c, o) && !c.versionPublished
    ensures forall i :: 0 <= i < |c.outputs| ==> c.outputs[i] != [] && TableEncodable(c.firstOutput + i, c.outputs[i], o)
    ensures v.id != MAX64 && |c.picks| == |v.tables| && ManifestEncodable(CompactedVersion(v, c, o), o.maxKeySize)
  {
    hide TableEncodable, CompactedVersion, ManifestEncodable;
  }

  /** The outputs can be encoded. */
  ghost predicate OutputsFit(c: CompactionState, o: Options) {
    forall i :: 0 <= i < |c.outputs| ==> TableEncodable(c.firstOutput + i, c.outputs[i], o)
  }

  lemma OutputsFitIs(v: Version, c: CompactionState, o: Options)
    ensures OutputsFit(c, o) ==> forall i :: 0 <= i < |c.outputs| ==> TableEncodable(c.firstOutput + i, c.outputs[i], o)
    ensures CompactionFits(v, c, o) && !c.versionPublished ==> OutputsFit(c, o)
  {
    hide TableEncodable, CompactedVersion, ManifestEncodable;
  }

  /** Progress of a compaction does not change whether it fits. */
  lemma SameFits(v: Version, c: CompactionState, c': CompactionState, o: Options)
    requires c' == c.(published := c'.published, candidate := c'.candidate)
    ensures CompactionFits(v, c', o) == CompactionFits(v, c, o)
  {
    hide TableEncodable, ManifestEncodable, TableBytes, SummaryOf, Select;
    if !c.versionPublished && |c.picks| == |v.tables| && forall i :: 0 <= i < |c.outputs| ==> c.outputs[i] != [] {
      assert CompactedVersion(v, c', o) == CompactedVersion(v, c, o);
    }
  }

  /** The edit of a planned compaction with published outputs is accepted unless the version id is exhausted. */
  lemma CandidateAccepted(m: Memory, l: Logs, c: CompactionState, o: Options)
    requires ReadersOk(m, l, o) && PlanOk(m, l, c, o) && PublishedOk(c, o) && |c.published| == |c.outputs|
    ensures |c.picks| == |m.version.tables| && (forall i :: 0 <= i < |c.outputs| ==> c.outputs[i] != [])
    ensures Apply(m.version, CompactionEdit(m.version, c.picks, Added(c.firstOutput, c.outputs, Sizes(c.published))), o.maxKeySize) ==
            if m.version.id == MAX64 then None else Some(CompactedVersion(m.version, c, o))
  {
    hide *;
    PlanParts(m, l, c, o);
    PlannedOutputs(m, l, c, o);
    ReadersParts(m, l, o);
    StoredVersion(StoredOf(m, l, o), o);
    StoredRecords(StoredOf(m, l, o), o);
    PublishedBuilt(c, o);
    PlannedBuilt(c, o);
    BuiltSizes(c, o);
    var range := LevelZeroRange(m.version.tables).value;
    PartsCompactable(m.version, RunsOf(m.readers, o), o.maxKeySize, range, c.outputs, Sizes(c.published));
    CompactionAccepted(m.version, RunsOf(m.readers, o), o.maxKeySize, range, c.outputs, Sizes(c.published));
    CompactedVersionIs(m.version, c, o);
  }

  /** The candidate of a compaction is the version that CompactionFits looks at. */
  lemma CandidateFits(m: Memory, l: Logs, o: Options)
    requires ReadersOk(m, l, o) && CompactionOk(m, l, o) && m.compaction.Some? && !m.compaction.value.versionPublished
    requires m.compaction.value.candidate.Some? && CompactionFits(m.version, m.compaction.value, o)
    ensures ManifestEncodable(m.compaction.value.candidate.value, o.maxKeySize)
  {
    hide *;
    var c := m.compaction.value;
    CompactionParts(m, l, o);
    CandidateParts(m, c, o);
    CandidateAccepted(m, l, c, o);
    CompactionFitsParts(m.version, c, o);
  }

  lemma CandidateParts(m: Memory, c: CompactionState, o: Options)
    requires CandidateOk(m, c, o) && c.candidate.Some?
    ensures |c.published| == |c.outputs| && |c.picks| == |m.version.tables|
    ensures forall i :: 0 <= i < |c.outputs| ==> c.outputs[i] != []
    ensures Apply(m.version, CompactionEdit(m.version, c.picks, Added(c.firstOutput, c.outputs, Sizes(c.published))), o.maxKeySize) == c.candidate
  {
    hide Apply, CompactionEdit, Added, Sizes;
  }

  lemma CompactedVersionIs(v: Version, c: CompactionState, o: Options)
    requires |c.picks| == |v.tables| && forall i :: 0 <= i < |c.outputs| ==> c.outputs[i] != []
    ensures CompactedVersion(v, c, o) ==
            Version(v.id + 1, v.nextFileNumber + |c.outputs|, v.lastSequence,
                    NewTables(v, c.picks, Added(c.firstOutput, c.outputs, OutputSizes(c.firstOutput, c.outputs, o))))
  {
    hide NewTables, Added, OutputSizes;
  }

  lemma PublishedBuilt(c: CompactionState, o: Options)
    requires PublishedOk(c, o) && |c.published| == |c.outputs|
    ensures forall i :: 0 <= i < |c.outputs| ==> BuiltTable(c.published[i], c.firstOutput + i, c.outputs[i], o)
  {
    hide BuiltTable;
  }

  lemma BuiltSizes(c: CompactionState, o: Options)
    requires |c.published| == |c.outputs|
    requires forall i :: 0 <= i < |c.outputs| ==> BuiltTable(c.published[i], c.firstOutput + i, c.outputs[i], o)
    ensures Sizes(c.published) == OutputSizes(c.firstOutput, c.outputs, o)
  {
    hide TableBytes, TableEncodable, OpenTable, Contents, MinimumSequence, MaximumSequence;
    forall i | 0 <= i < |c.outputs| ensures Sizes(c.published)[i] == OutputSizes(c.firstOutput, c.outputs, o)[i] {
      assert BuiltTable(c.published[i], c.firstOutput + i, c.outputs[i], o);
    }
  }
}
