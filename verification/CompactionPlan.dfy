/** Planning a compaction and ordering the readers after it (src/database.cpp:910-987, 1045-1075). */
module CompactionPlan {
  import opened Coding
  import opened Configuration
  import opened Keys
  import opened Runs
  import opened Versions
  import opened Summaries
  import opened Merge
  import opened Compaction
  import opened Tables
  import opened TableReader
  import opened FileSystem
  import opened Durability
  import opened Engine
  import opened CompactionSteps
  import opened Reading
  import opened Statuses

  /** The union of the level-zero key ranges, one table after the other. */
  method LevelZeroBounds(tables: seq<VersionTable>) returns (range: Option<KeyRange>)
    ensures range == LevelZeroRange(tables)
  {
    range := None;
    for i := 0 to |tables|
      invariant range == LevelZeroRange(tables[..i])
    {
      hide Smaller, Larger;
      assert tables[..i + 1][..i] == tables[..i];
      var t := tables[i];
      if t.level == 0 {
        range := if range.None? then Some(KeyRange(t.summary.minimumKey, t.summary.maximumKey))
                 else Some(KeyRange(Smaller(range.value.low, t.summary.minimumKey), Larger(range.value.high, t.summary.maximumKey)));
      }
    }
    assert tables[..|tables|] == tables;
  }

  /** The first tables have been looked at. */
  ghost predicate Scanned(v: Version, runs: seq<Run>, range: KeyRange, picks: seq<bool>, names: seq<FileName>, sources: seq<Run>) {
    && |picks| <= |v.tables| == |runs|
    && (forall j :: 0 <= j < |picks| ==> picks[j] == Picked(v.tables[j], range))
    && names == NamesOf(Select(v.tables[..|picks|], picks, true)) && sources == Select(runs[..|picks|], picks, true)
  }

  ghost function NamesOf(tables: seq<VersionTable>): (names: seq<FileName>)
    ensures |names| == |tables| && forall i :: 0 <= i < |names| ==> names[i] == Table(Generation(tables[i]))
  {
    seq(|tables|, i requires 0 <= i < |tables| => Table(Generation(tables[i])))
  }

  lemma ScannedNext(v: Version, runs: seq<Run>, range: KeyRange, picks: seq<bool>, names: seq<FileName>, sources: seq<Run>)
    requires Scanned(v, runs, range, picks, names, sources) && |picks| < |v.tables|
    ensures var t := v.tables[|picks|];
            if Picked(t, range) then
              Scanned(v, runs, range, picks + [true], names + [Table(Generation(t))], sources + [runs[|picks|]])
            else Scanned(v, runs, range, picks + [false], names, sources)
  {
    hide Select, Picked, Generation;
    var picked := Picked(v.tables[|picks|], range);
    SelectNext(v.tables, picks, picked, true);
    SelectNext(runs, picks, picked, true);
    assert picked ==> NamesOf(Select(v.tables[..|picks|], picks, true) + [v.tables[|picks|]]) == names + [Table(Generation(v.tables[|picks|]))];
    assert sources + [] == sources;
    assert Select(v.tables[..|picks|], picks, true) + [] == Select(v.tables[..|picks|], picks, true);
  }

  lemma ScannedAll(v: Version, runs: seq<Run>, range: KeyRange, picks: seq<bool>, names: seq<FileName>, sources: seq<Run>)
    requires Scanned(v, runs, range, picks, names, sources) && |picks| == |v.tables|
    ensures picks == Picks(v.tables, range) && names == InputNames(v, picks) && sources == Select(runs, picks, true)
  {
    hide Select, Picked, Generation;
    assert v.tables[..|v.tables|] == v.tables && runs[..|v.tables|] == runs;
    assert picks == Picks(v.tables, range);
    assert names == InputNames(v, picks);
  }

  lemma ScannedNone(v: Version, runs: seq<Run>, range: KeyRange)
    requires |runs| == |v.tables|
    ensures Scanned(v, runs, range, [], [], [])
  {
    assert v.tables[..0] == [] && runs[..0] == [];
  }

  /** The sizes of these tables' files, added up. */
  ghost function BytesOf(tables: seq<VersionTable>): nat {
    if tables == [] then 0 else BytesOf(tables[..|tables| - 1]) + tables[|tables| - 1].summary.fileSize
  }

  lemma BytesNext(tables: seq<VersionTable>, t: VersionTable)
    ensures BytesOf(tables + [t]) == BytesOf(tables) + t.summary.fileSize
  {
    assert (tables + [t])[..|tables|] == tables;
  }

  /** Selecting from fewer tables gives no more bytes. */
  lemma {:induction false} BytesWithin(tables: seq<VersionTable>, flags: seq<bool>, n: nat)
    requires n <= |tables| == |flags|
    ensures BytesOf(Select(tables[..n], flags[..n], true)) <= BytesOf(Select(tables, flags, true))
    decreases |tables| - n
  {
    if n == |tables| {
      assert tables[..n] == tables && flags[..n] == flags;
    } else {
      var shorter, longer := tables[..n], tables[..n + 1];
      assert longer[..n] == shorter && flags[..n + 1][..n] == flags[..n];
      BytesNext(Select(shorter, flags[..n], true), tables[n]);
      BytesWithin(tables, flags, n + 1);
    }
  }

  /** How many bytes a compaction of this range reads. */
  ghost function InputBytes(v: Version, range: KeyRange): nat {
    BytesOf(Select(v.tables, Picks(v.tables, range), true))
  }

  lemma InputBytesSoFar(v: Version, range: KeyRange, picks: seq<bool>)
    requires |picks| < |v.tables| && forall j :: 0 <= j < |picks| ==> picks[j] == Picked(v.tables[j], range)
    ensures var t, seen := v.tables[|picks|], BytesOf(Select(v.tables[..|picks|], picks, true));
            && (Picked(t, range) ==> BytesOf(Select(v.tables[..|picks| + 1], picks + [true], true)) == seen + t.summary.fileSize <= InputBytes(v, range))
            && (!Picked(t, range) ==> BytesOf(Select(v.tables[..|picks| + 1], picks + [false], true)) == seen)
  {
    hide *;
    var n, all := |picks|, Picks(v.tables, range);
    var t := v.tables[n];
    InputBytesIs(v, range);
    SelectNext(v.tables, picks, Picked(t, range), true);
    BytesNext(Select(v.tables[..n], picks, true), t);
    assert all[..n + 1] == picks + [Picked(t, range)];
    BytesWithin(v.tables, all, n + 1);
    assert Select(v.tables[..n], picks, true) + [] == Select(v.tables[..n], picks, true);
  }

  lemma InputBytesIs(v: Version, range: KeyRange)
    ensures InputBytes(v, range) == BytesOf(Select(v.tables, Picks(v.tables, range), true))
  {
    hide BytesOf, Select, Picks;
  }

  /** The tables that take part, their files and their records. */
  method SelectInputs(v: Version, readers: seq<Reader>, range: KeyRange, o: Options)
    returns (ok: bool, picks: seq<bool>, names: seq<FileName>, sources: seq<Run>)
    requires |readers| == |v.tables| && forall i :: 0 <= i < |readers| ==> Opened(readers[i], o)
    ensures ok <==> InputBytes(v, range) <= MAX64
    ensures ok ==> picks == Picks(v.tables, range) && names == InputNames(v, picks)
    ensures ok ==> sources == Select(RunsOf(readers, o), picks, true)
  {
    hide *;
    picks, names, sources := [], [], [];
    ghost var runs := RunsOf(readers, o);
    RunsLength(readers, o);
    ScannedNone(v, runs, range);
    var bytes := 0;
    NoBytes(v);
    for i := 0 to |v.tables|
      invariant |picks| == i && Scanned(v, runs, range, picks, names, sources)
      invariant bytes == BytesOf(Select(v.tables[..i], picks, true)) <= MAX64
    {
      ScannedNext(v, runs, range, picks, names, sources);
      ScannedPicks(v, runs, range, picks, names, sources);
      InputBytesSoFar(v, range, picks);
      var t := v.tables[i];
      if Picked(t, range) {
        WholeTable(readers[i], o);
        var records := ReadRecords(readers[i], readers[i].summary.recordCount, o);
        picks, names, sources := picks + [true], names + [Table(Generation(t))], sources + [records];
        bytes := bytes + t.summary.fileSize;
        if bytes > MAX64 {
          return false, picks, names, sources;
        }
      } else {
        picks := picks + [false];
      }
    }
    ScannedAll(v, runs, range, picks, names, sources);
    AllBytes(v, range);
    ok := true;
  }

  lemma NoBytes(v: Version)
    ensures BytesOf(Select(v.tables[..0], [], true)) == 0
  {
  }

  lemma AllBytes(v: Version, range: KeyRange)
    ensures InputBytes(v, range) == BytesOf(Select(v.tables[..|v.tables|], Picks(v.tables, range), true))
  {
    assert v.tables[..|v.tables|] == v.tables;
  }

  lemma ScannedPicks(v: Version, runs: seq<Run>, range: KeyRange, picks: seq<bool>, names: seq<FileName>, sources: seq<Run>)
    requires Scanned(v, runs, range, picks, names, sources)
    ensures forall j :: 0 <= j < |picks| ==> picks[j] == Picked(v.tables[j], range)
  {
    hide Picked, Select;
  }

  /** A table has as many records as its summary says. */
  lemma WholeTable(rd: Reader, o: Options)
    requires Opened(rd, o)
    ensures |Contents(rd, o)| == rd.summary.recordCount
  {
    hide Contents, Opened, MinimumSequence, MaximumSequence;
    OpenedDescribes(rd, o);
  }

  lemma RunsLength(readers: seq<Reader>, o: Options)
    ensures |RunsOf(readers, o)| == |readers|
    ensures forall i :: 0 <= i < |readers| ==> RunsOf(readers, o)[i] == Contents(readers[i], o)
  {
    hide Contents;
  }

  lemma SelectNext<T>(items: seq<T>, flags: seq<bool>, flag: bool, wanted: bool)
    requires |flags| < |items|
    ensures Select(items[..|flags| + 1], flags + [flag], wanted) ==
            Select(items[..|flags|], flags, wanted) + (if flag == wanted then [items[|flags|]] else [])
  {
    var n := |flags|;
    assert items[..n + 1][..n] == items[..n] && (flags + [flag])[..n] == flags;
  }

  lemma SourcesSorted(m: Memory, l: Logs, picks: seq<bool>, o: Options)
    requires ReadersOk(m, l, o) && |picks| == |m.readers|
    ensures AllSorted(Select(RunsOf(m.readers, o), picks, true))
  {
    hide *;
    ReadersParts(m, l, o);
    StoredRecords(StoredOf(m, l, o), o);
    var runs := RunsOf(m.readers, o);
    var sources := Select(runs, picks, true);
    forall j | 0 <= j < |sources| ensures Sorted(sources[j]) {
      var i := SelectIndex(runs, picks, true, j);
      DescribedSorted(m.version.tables, runs, i);
    }
    PartsSorted(sources);
  }

  lemma PartsSorted(sources: seq<Run>)
    requires forall j :: 0 <= j < |sources| ==> Sorted(sources[j])
    ensures AllSorted(sources)
  {
    hide Sorted;
  }

  lemma PartsMerged(sources: seq<Run>, outputs: seq<Run>, limit: nat)
    requires OutputsOk(outputs, limit) && Sorted(Flatten(outputs))
    requires forall k :: Lookup(Flatten(outputs), k) == Surviving(Newest(sources, k), true)
    ensures MergedOutputs(sources, outputs) && forall i :: 0 <= i < |outputs| ==> outputs[i] != []
  {
    hide Lookup, Newest, Surviving, Sorted, Flatten;
  }

  /** The inputs' bytes can be counted, and even if every record were given a table of its own the file numbers would last. */
  ghost predicate PlanFits(v: Version, readers: seq<Reader>, o: Options) {
    |readers| == |v.tables| && LevelZeroRange(v.tables).Some? ==>
      && InputBytes(v, LevelZeroRange(v.tables).value) <= MAX64
      && v.nextFileNumber + Sum(Lengths(Select(RunsOf(readers, o), Picks(v.tables, LevelZeroRange(v.tables).value), true))) <= MAX64
  }

  lemma PlanFitsIs(v: Version, readers: seq<Reader>, o: Options)
    requires |readers| == |v.tables| && LevelZeroRange(v.tables).Some?
    ensures PlanFits(v, readers, o) <==>
            && InputBytes(v, LevelZeroRange(v.tables).value) <= MAX64
            && v.nextFileNumber + Sum(Lengths(Select(RunsOf(readers, o), Picks(v.tables, LevelZeroRange(v.tables).value), true))) <= MAX64
  {
    hide Sum, Lengths, Select, Picks, LevelZeroRange, RunsOf, InputBytes;
  }

  lemma {:induction false} FlattenCounts(outputs: seq<Run>)
    requires forall i :: 0 <= i < |outputs| ==> outputs[i] != []
    ensures |outputs| <= |Flatten(outputs)|
  {
    if outputs != [] {
      FlattenCounts(outputs[..|outputs| - 1]);
    }
  }

  /** PrepareCompaction up to the plan; None with Success means that there is nothing to compact. */
  method Plan(v: Version, readers: seq<Reader>, o: Options, ghost m: Memory, ghost l: Logs)
    returns (status: Status, plan: Option<CompactionState>)
    requires m.version == v && m.readers == readers && ReadersOk(m, l, o)
    requires o.compactionOutputSizeLimit != 0
    ensures status != Success ==> plan.None?
    ensures status == Success || (status == InvalidArgument && LevelZeroRange(v.tables).Some?)
    ensures plan.Some? ==>
              var c := plan.value;
              && PlanOk(m, l, c, o) && c.published == [] && c.candidate == None && !c.versionPublished && !c.walAdvanced
              && c.cleanupIndex == 0
    ensures plan.None? && status == Success ==> forall t :: t in v.tables ==> t.level != 0
    ensures PlanFits(v, readers, o) ==> status == Success
    ensures status == Success && LevelZeroRange(v.tables).Some? ==> InputBytes(v, LevelZeroRange(v.tables).value) <= MAX64
  {
    hide *;
    ReadersParts(m, l, o);
    plan := None;
    var range := LevelZeroBounds(v.tables);
    if range.None? {
      NoLevelZero(v.tables);
      return Success, None;
    }
    PlanFitsIs(v, readers, o);
    var counted, picks, names, sources := SelectInputs(v, readers, range.value, o);
    if !counted {
      return InvalidArgument, None;
    }
    PicksLength(v.tables, range.value);
    SourcesSorted(m, l, picks, o);
    SourcesClear(m, l, picks, o);
    SomethingPicked(v.tables, RunsOf(readers, o), range.value);
    var built, outputs, stats := BuildCompactionOutputs(sources, o.compactionOutputSizeLimit, true);
    if built != Built {
      return Corruption, None;
    }
    PartsMerged(sources, outputs, o.compactionOutputSizeLimit);
    FlattenCounts(outputs);
    if |outputs| > MAX64 - v.nextFileNumber {
      return InvalidArgument, None;
    }
    var c := CompactionState(picks, outputs, v.nextFileNumber, [], None, false, names, 0, false, false);
    PartsPlan(m, l, c, range.value, o);
    status, plan := Success, Some(c);
  }

  /** A healthy database never has one sequence number of a key in two tables, so the merge never reports one. */
  lemma SourcesClear(m: Memory, l: Logs, picks: seq<bool>, o: Options)
    requires ReadersOk(m, l, o) && |picks| == |m.readers|
    ensures Clear(Select(RunsOf(m.readers, o), picks, true))
  {
    hide *;
    ReadersDistinct(m, l, o);
    DistinctSelected(RunsOf(m.readers, o), picks);
    DistinctIsClear(Select(RunsOf(m.readers, o), picks, true));
  }

  lemma {:induction false} DistinctSelected(runs: seq<Run>, flags: seq<bool>)
    requires |flags| == |runs| && Distinct(runs)
    ensures Distinct(Select(runs, flags, true))
  {
    if runs != [] {
      var n := |runs| - 1;
      var before := Select(runs[..n], flags[..n], true);
      assert Distinct(runs[..n]) by { assert forall i :: 0 <= i < n ==> runs[..n][i] == runs[i]; }
      DistinctSelected(runs[..n], flags[..n]);
      forall j, r: Record, t: Record | 0 <= j < |before| && r in before[j] && t in runs[n] && r.key == t.key ensures r.sequence != t.sequence {
        var i := SelectIndex(runs[..n], flags[..n], true, j);
        assert runs[..n][i] == runs[i];
      }
    }
  }

  lemma DistinctIsClear(runs: seq<Run>)
    requires Distinct(runs)
    ensures Clear(runs)
  {
    hide Lookup, Newest;
    forall k, i, j | 0 <= i < j < |runs| ensures !Shared(runs, k, i, j) {
      assert Lookup(runs[i], k).Some? ==> Lookup(runs[i], k).value in runs[i];
      assert Lookup(runs[j], k).Some? ==> Lookup(runs[j], k).value in runs[j];
    }
  }

  lemma SomethingPicked(tables: seq<VersionTable>, runs: seq<Run>, range: KeyRange)
    requires LevelZeroRange(tables) == Some(range) && |runs| == |tables|
    ensures |Picks(tables, range)| == |runs| && Select(runs, Picks(tables, range), true) != []
  {
    hide Select, LevelZeroRange, Overlaps;
    var t :| t in tables && t.level == 0;
    var i :| 0 <= i < |tables| && tables[i] == t;
    var j := SelectPosition(runs, Picks(tables, range), true, i);
  }

  lemma NoLevelZero(tables: seq<VersionTable>)
    requires LevelZeroRange(tables).None?
    ensures forall t :: t in tables ==> t.level != 0
  {
  }

  lemma PicksLength(tables: seq<VersionTable>, range: KeyRange)
    ensures |Picks(tables, range)| == |tables|
  {
  }

  // ----- The readers after a compaction ------------------------------------------------------------

  /** std::sort by file number, as an insertion sort. */
  function InsertReader(sorted: seq<Reader>, rd: Reader): seq<Reader> {
    if sorted == [] || rd.summary.generation <= sorted[0].summary.generation then [rd] + sorted
    else [sorted[0]] + InsertReader(sorted[1..], rd)
  }

  function SortReaders(readers: seq<Reader>): seq<Reader> {
    if readers == [] then [] else InsertReader(SortReaders(readers[1..]), readers[0])
  }

  lemma {:induction false} SortedAlready(readers: seq<Reader>, tables: seq<VersionTable>)
    requires |readers| == |tables| && GenerationsAscend(tables)
    requires forall i :: 0 <= i < |readers| ==> readers[i].summary == tables[i].summary
    ensures SortReaders(readers) == readers
  {
    if readers != [] {
      assert forall i :: 0 <= i < |tables[1..]| ==> tables[1..][i] == tables[i + 1];
      SortedAlready(readers[1..], tables[1..]);
      if |readers| > 1 {
        assert Generation(tables[0]) < Generation(tables[1]);
      }
    }
  }

  /** The readers that stay, then the new ones, in file-number order. */
  method LiveReaders(readers: seq<Reader>, picks: seq<bool>, published: seq<Reader>) returns (live: seq<Reader>)
    requires |picks| == |readers|
    ensures live == SortReaders(Select(readers, picks, false) + published)
  {
    live := [];
    hide SortReaders;
    for i := 0 to |readers|
      invariant live == Select(readers[..i], picks[..i], false)
    {
      SelectNext(readers, picks[..i], picks[i], false);
      assert picks[..i] + [picks[i]] == picks[..i + 1];
      if !picks[i] {
        live := live + [readers[i]];
      }
    }
    assert readers[..|readers|] == readers && picks[..|readers|] == picks;
    live := SortReaders(live + published);
  }
}
