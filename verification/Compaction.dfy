/** Choosing the inputs of a compaction, and what replacing them does (src/database.cpp:910-1038). */
module Compaction {
  import opened Coding
  import opened Keys
  import opened Runs
  import opened Versions
  import opened Summaries
  import opened Merge

  // ----- Choosing the inputs ---------------------------------------------------------

  datatype KeyRange = KeyRange(low: Key, high: Key)

  /** The union of the level-zero key ranges. */
  function LevelZeroRange(tables: seq<VersionTable>): (range: Option<KeyRange>)
    ensures range.None? <==> forall t :: t in tables ==> t.level != 0
    ensures range.Some? ==> forall t :: t in tables && t.level == 0 ==>
              AtMost(range.value.low, t.summary.minimumKey) && AtMost(t.summary.maximumKey, range.value.high)
  {
    if tables == [] then None
    else
      var rest, t := LevelZeroRange(tables[..|tables| - 1]), tables[|tables| - 1];
      assert forall x :: x in tables <==> x in tables[..|tables| - 1] || x == t by {
        assert tables == tables[..|tables| - 1] + [t];
      }
      if t.level != 0 then rest
      else if rest.None? then Some(KeyRange(t.summary.minimumKey, t.summary.maximumKey))
      else Some(KeyRange(Smaller(rest.value.low, t.summary.minimumKey), Larger(rest.value.high, t.summary.maximumKey)))
  }

  predicate Overlaps(s: TableSummary, range: KeyRange) {
    AtMost(range.low, s.maximumKey) && AtMost(s.minimumKey, range.high)
  }

  /** Every level-zero table, and the level-one tables that their range touches. */
  predicate Picked(t: VersionTable, range: KeyRange) {
    t.level == 0 || (t.level == 1 && Overlaps(t.summary, range))
  }

  function Picks(tables: seq<VersionTable>, range: KeyRange): (flags: seq<bool>)
    ensures |flags| == |tables| && forall i :: 0 <= i < |tables| ==> flags[i] == Picked(tables[i], range)
  {
    seq(|tables|, i requires 0 <= i < |tables| => Picked(tables[i], range))
  }

  function Select<T>(items: seq<T>, flags: seq<bool>, wanted: bool): (chosen: seq<T>)
    requires |flags| == |items|
  {
    if items == [] then []
    else
      var rest := Select(items[..|items| - 1], flags[..|items| - 1], wanted);
      if flags[|items| - 1] == wanted then rest + [items[|items| - 1]] else rest
  }

  lemma {:induction false} SelectIndex<T>(items: seq<T>, flags: seq<bool>, wanted: bool, j: nat) returns (i: nat)
    requires |flags| == |items| && j < |Select(items, flags, wanted)|
    ensures i < |items| && items[i] == Select(items, flags, wanted)[j] && flags[i] == wanted
  {
    var n := |items| - 1;
    var rest := Select(items[..n], flags[..n], wanted);
    if j < |rest| {
      i := SelectIndex(items[..n], flags[..n], wanted, j);
      assert items[..n][i] == items[i];
    } else {
      i := n;
    }
  }

  // ----- No other table holds a merged key ---------------------------------------------------

  /** Each table of the version is described by its run. */
  ghost predicate Described(tables: seq<VersionTable>, runs: seq<Run>) {
    |runs| == |tables| && forall i :: 0 <= i < |tables| ==> Describes(tables[i].summary, runs[i])
  }

  /**
    A key of a selected table lies in no unselected one: those are level-one tables wholly
    outside the level-zero range, and level-one ranges are disjoint.
   */
  lemma NotElsewhere(v: Version, runs: seq<Run>, maxKeySize: nat, range: KeyRange, k: Key, i: nat, j: nat)
    requires SoundVersion(v, maxKeySize) && Described(v.tables, runs) && LevelZeroRange(v.tables) == Some(range)
    requires i < |runs| && j < |runs| && Picked(v.tables[i], range) && !Picked(v.tables[j], range)
    requires Lookup(runs[i], k).Some?
    ensures Lookup(runs[j], k).None?
  {
    hide *;
    DescribedLength(v.tables, runs);
    InSummaryRange(v.tables[i].summary, runs[i], k) by { DescribedAt(v.tables, runs, i); }
    var s, t := v.tables[i], v.tables[j];
    PickedLevels(v, maxKeySize, range, i, j);
    if Lookup(runs[j], k).Some? {
      InSummaryRange(t.summary, runs[j], k) by { DescribedAt(v.tables, runs, j); }
      if s.level == 1 {
        LevelOneDisjoint(v.tables, i, j) by { SoundApart(v, maxKeySize); }
      }
      NoSharedKey(s, t, range, k);
    }
  }

  lemma DescribedAt(tables: seq<VersionTable>, runs: seq<Run>, i: nat)
    requires Described(tables, runs) && i < |runs|
    ensures i < |tables| && Describes(tables[i].summary, runs[i])
  {
  }

  lemma SoundApart(v: Version, maxKeySize: nat)
    requires SoundVersion(v, maxKeySize)
    ensures LevelOneApart(v.tables)
  {
  }

  lemma PickedLevels(v: Version, maxKeySize: nat, range: KeyRange, i: nat, j: nat)
    requires SoundVersion(v, maxKeySize) && LevelZeroRange(v.tables) == Some(range)
    requires i < |v.tables| && j < |v.tables| && Picked(v.tables[i], range) && !Picked(v.tables[j], range)
    ensures i != j && v.tables[j].level == 1 && !Overlaps(v.tables[j].summary, range)
    ensures v.tables[i].level == 1 ||
            (AtMost(range.low, v.tables[i].summary.minimumKey) && AtMost(v.tables[i].summary.maximumKey, range.high))
  {
    hide Less, Overlaps, LevelOneApart, DistinctGenerations;
    assert ValidTable(v.tables[i], v.nextFileNumber, maxKeySize) && ValidTable(v.tables[j], v.nextFileNumber, maxKeySize);
    assert v.tables[i] in v.tables;
  }

  lemma NoSharedKey(s: VersionTable, t: VersionTable, range: KeyRange, k: Key)
    requires AtMost(s.summary.minimumKey, k) && AtMost(k, s.summary.maximumKey)
    requires !Overlaps(t.summary, range)
    requires (s.level == 1 && Apart(s.summary, t.summary)) ||
             (AtMost(range.low, s.summary.minimumKey) && AtMost(s.summary.maximumKey, range.high))
    ensures !(AtMost(t.summary.minimumKey, k) && AtMost(k, t.summary.maximumKey))
  {
  }

  lemma LevelOneDisjoint(tables: seq<VersionTable>, i: nat, j: nat)
    requires LevelOneApart(tables) && i < |tables| && j < |tables| && i != j
    requires tables[i].level == 1 && tables[j].level == 1
    ensures Apart(tables[i].summary, tables[j].summary)
  {
    assert i < j ==> Apart(tables[i].summary, tables[j].summary);
    assert j < i ==> Apart(tables[j].summary, tables[i].summary);
  }

  // ----- The newest record of a key ------------------------------------------------------------

  lemma NewerAssociates(a: Option<Record>, b: Option<Record>, c: Option<Record>)
    ensures Newer(a, Newer(b, c)) == Newer(Newer(a, b), c)
  {
  }

  lemma {:induction false} NewestConcat(a: seq<Run>, b: seq<Run>, k: Key)
    ensures Newest(a + b, k) == Newer(Newest(a, k), Newest(b, k))
  {
    hide Lookup;
    if a == [] {
      assert a + b == b;
    } else {
      assert (a + b)[1..] == a[1..] + b;
      NewestConcat(a[1..], b, k);
      NewerAssociates(Lookup(a[0], k), Newest(a[1..], k), Newest(b, k));
    }
  }

  lemma NewestOne(run: Run, k: Key)
    ensures Newest([run], k) == Lookup(run, k)
  {
    hide Lookup;
    assert [run][1..] == [];
  }

  /** Leaving out runs without the key does not change its newest record. */
  lemma {:induction false} NewestOfSelected(runs: seq<Run>, flags: seq<bool>, wanted: bool, k: Key)
    requires |flags| == |runs|
    requires forall i :: 0 <= i < |runs| && flags[i] != wanted ==> Lookup(runs[i], k).None?
    ensures Newest(Select(runs, flags, wanted), k) == Newest(runs, k)
  {
    hide Lookup;
    if runs != [] {
      var n := |runs| - 1;
      var rest, last := runs[..n], runs[n];
      assert runs == rest + [last];
      NewestOfSelected(rest, flags[..n], wanted, k);
      NewestConcat(rest, [last], k);
      NewestConcat(Select(rest, flags[..n], wanted), [last], k);
      NewestOne(last, k);
    }
  }

  lemma SelectedNone(runs: seq<Run>, flags: seq<bool>, wanted: bool, k: Key)
    requires |flags| == |runs|
    requires forall i :: 0 <= i < |runs| && flags[i] == wanted ==> Lookup(runs[i], k).None?
    ensures Newest(Select(runs, flags, wanted), k).None?
  {
    hide Lookup;
    var chosen := Select(runs, flags, wanted);
    forall j | 0 <= j < |chosen| ensures Lookup(chosen[j], k).None? {
      var i := SelectIndex(runs, flags, wanted, j);
    }
    NewestHolder(chosen, k);
  }

  /** Disjoint sorted outputs read like their concatenation. */
  lemma {:induction false} NewestOfOutputs(outputs: seq<Run>, k: Key)
    requires Sorted(Flatten(outputs))
    ensures Newest(outputs, k) == Lookup(Flatten(outputs), k)
  {
    if outputs != [] {
      var n := |outputs| - 1;
      var rest, last := outputs[..n], outputs[n];
      assert outputs == rest + [last];
      SortedParts(Flatten(rest), last);
      NewestOfOutputs(rest, k);
      NewestConcat(rest, [last], k);
      NewestOne(last, k);
      LookupConcat(Flatten(rest), last, k);
    }
  }

  lemma LookupConcat(a: Run, b: Run, k: Key)
    requires Sorted(a + b)
    ensures Lookup(a + b, k) == Newer(Lookup(a, k), Lookup(b, k))
  {
    SortedParts(a, b);
    var x, y := Lookup(a, k), Lookup(b, k);
    assert x.None? || y.None?;
    if x.Some? {
      assert x.value in a + b;
      LookupMember(a + b, x.value);
    } else if y.Some? {
      assert y.value in a + b;
      LookupMember(a + b, y.value);
    } else {
      assert Lookup(a + b, k).None?;
    }
  }

  // ----- Compaction preserves meaning ------------------------------------------------------------

  /** `outputs` is what merging the selected runs, tombstones dropped, gives. */
  ghost predicate MergedOutputs(inputs: seq<Run>, outputs: seq<Run>) {
    Sorted(Flatten(outputs)) && forall k :: Lookup(Flatten(outputs), k) == Surviving(Newest(inputs, k), true)
  }

  /** Replacing the selected tables by the merged outputs leaves every visible lookup unchanged. */
  lemma CompactionPreserves(v: Version, runs: seq<Run>, maxKeySize: nat, range: KeyRange, outputs: seq<Run>, k: Key)
    requires SoundVersion(v, maxKeySize) && Described(v.tables, runs) && LevelZeroRange(v.tables) == Some(range)
    requires MergedOutputs(Select(runs, Picks(v.tables, range), true), outputs)
    ensures var flags := Picks(v.tables, range);
            Visible(Newest(Select(runs, flags, false) + outputs, k)) == Visible(Newest(runs, k))
  {
    hide Lookup, Picked, SoundVersion, Described;
    DescribedLength(v.tables, runs);
    var flags := Picks(v.tables, range);
    var kept := Select(runs, flags, false);
    NewestConcat(kept, outputs, k);
    NewestOfOutputs(outputs, k);
    if i :| 0 <= i < |runs| && flags[i] && Lookup(runs[i], k).Some? {
      forall j | 0 <= j < |runs| && flags[j] != true ensures Lookup(runs[j], k).None? {
        NotElsewhere(v, runs, maxKeySize, range, k, i, j);
      }
      SelectedNone(runs, flags, false, k);
      NewestOfSelected(runs, flags, true, k);
    } else {
      SelectedNone(runs, flags, true, k);
      NewestOfSelected(runs, flags, false, k);
    }
  }

  lemma DescribedLength(tables: seq<VersionTable>, runs: seq<Run>)
    requires Described(tables, runs)
    ensures |runs| == |tables|
  {
  }

  // ----- Compaction builds an acceptable version ------------------------------------------------

  function Numbers(tables: seq<VersionTable>): (numbers: seq<nat>)
    ensures |numbers| == |tables| && forall i :: 0 <= i < |tables| ==> numbers[i] == Generation(tables[i])
  {
    seq(|tables|, i requires 0 <= i < |tables| => Generation(tables[i]))
  }

  /** The level-one tables that the outputs become, numbered from `first`. */
  function Added(first: nat, outputs: seq<Run>, sizes: seq<nat>): (added: seq<VersionTable>)
    requires |sizes| == |outputs| && forall i :: 0 <= i < |outputs| ==> outputs[i] != []
    ensures |added| == |outputs|
    ensures forall i :: 0 <= i < |added| ==> added[i] == VersionTable(1, SummaryOf(first + i, outputs[i], sizes[i]))
  {
    seq(|outputs|, i requires 0 <= i < |outputs| => VersionTable(1, SummaryOf(first + i, outputs[i], sizes[i])))
  }

  /** The edit of ContinueCompaction. */
  function CompactionEdit(v: Version, flags: seq<bool>, added: seq<VersionTable>): VersionEdit
    requires |flags| == |v.tables|
  {
    VersionEdit(
      added,
      Numbers(Select(v.tables, flags, true)),
      if added == [] then None else Some(v.nextFileNumber + |added|),
      None)
  }

  lemma {:induction false} RemainingIsSelected(tables: seq<VersionTable>, flags: seq<bool>, deleted: seq<nat>)
    requires |flags| == |tables|
    requires forall i :: 0 <= i < |tables| ==> (Generation(tables[i]) in deleted <==> flags[i])
    ensures Remaining(tables, deleted) == Select(tables, flags, false)
  {
    if tables != [] {
      var n := |tables| - 1;
      assert forall i :: 0 <= i < n ==> tables[..n][i] == tables[i] && flags[..n][i] == flags[i];
      RemainingIsSelected(tables[..n], flags[..n], deleted);
    }
  }

  lemma {:induction false} SelectPosition<T>(items: seq<T>, flags: seq<bool>, wanted: bool, i: nat) returns (j: nat)
    requires |flags| == |items| && i < |items| && flags[i] == wanted
    ensures j < |Select(items, flags, wanted)| && Select(items, flags, wanted)[j] == items[i]
  {
    var n := |items| - 1;
    if i < n {
      assert items[..n][i] == items[i] && flags[..n][i] == flags[i];
      j := SelectPosition(items[..n], flags[..n], wanted, i);
    } else {
      j := |Select(items[..n], flags[..n], wanted)|;
    }
  }

  lemma DeletedExactly(tables: seq<VersionTable>, flags: seq<bool>)
    requires |flags| == |tables| && DistinctGenerations(tables)
    ensures forall i :: 0 <= i < |tables| ==> (Generation(tables[i]) in Numbers(Select(tables, flags, true)) <==> flags[i])
  {
    var chosen := Select(tables, flags, true);
    forall i | 0 <= i < |tables| ensures Generation(tables[i]) in Numbers(chosen) <==> flags[i] {
      if flags[i] {
        var j := SelectPosition(tables, flags, true, i);
        assert Numbers(chosen)[j] == Generation(tables[i]);
      }
      if Generation(tables[i]) in Numbers(chosen) {
        var j :| 0 <= j < |chosen| && Numbers(chosen)[j] == Generation(tables[i]);
        var i' := SelectIndex(tables, flags, true, j);
        assert i' == i;
      }
    }
  }

  lemma {:induction false} SelectAscends(tables: seq<VersionTable>, flags: seq<bool>, wanted: bool)
    requires |flags| == |tables| && GenerationsAscend(tables)
    ensures GenerationsAscend(Select(tables, flags, wanted))
  {
    if tables != [] {
      var n := |tables| - 1;
      assert forall i :: 0 <= i < n ==> tables[..n][i] == tables[i];
      SelectAscends(tables[..n], flags[..n], wanted);
      var rest := Select(tables[..n], flags[..n], wanted);
      forall j | 0 <= j < |rest| ensures Generation(rest[j]) < Generation(tables[n]) {
        var i := SelectIndex(tables[..n], flags[..n], wanted, j);
      }
    }
  }

  /** The tables of the candidate: the unselected ones, then the outputs. */
  function NewTables(v: Version, flags: seq<bool>, added: seq<VersionTable>): seq<VersionTable>
    requires |flags| == |v.tables|
  {
    Select(v.tables, flags, false) + added
  }

  lemma CandidateTables(v: Version, maxKeySize: nat, flags: seq<bool>, outputs: seq<Run>, sizes: seq<nat>)
    requires SoundVersion(v, maxKeySize) && GenerationsAscend(v.tables) && |flags| == |v.tables|
    requires |sizes| == |outputs| && forall i :: 0 <= i < |outputs| ==> outputs[i] != []
    ensures var added := Added(v.nextFileNumber, outputs, sizes);
            && GenerationsAscend(NewTables(v, flags, added))
            && Candidate(v, CompactionEdit(v, flags, added)).tables == NewTables(v, flags, added)
  {
    hide SummaryOf, LevelOneApart, ValidTable, Remaining, SortByGeneration;
    var added := Added(v.nextFileNumber, outputs, sizes);
    var kept := Select(v.tables, flags, false);
    DeletedExactly(v.tables, flags);
    RemainingIsSelected(v.tables, flags, Numbers(Select(v.tables, flags, true)));
    SelectAscends(v.tables, flags, false);
    KeptBelow(v, maxKeySize, flags);
    AddedNumbers(v.nextFileNumber, outputs, sizes);
    SortOrders(kept + added);
  }

  lemma KeptBelow(v: Version, maxKeySize: nat, flags: seq<bool>)
    requires SoundVersion(v, maxKeySize) && |flags| == |v.tables|
    ensures forall j :: 0 <= j < |Select(v.tables, flags, false)| ==>
              Generation(Select(v.tables, flags, false)[j]) < v.nextFileNumber
  {
    hide LevelOneApart, DistinctGenerations;
    var kept := Select(v.tables, flags, false);
    forall j | 0 <= j < |kept| ensures Generation(kept[j]) < v.nextFileNumber {
      var i := SelectIndex(v.tables, flags, false, j);
      assert ValidTable(v.tables[i], v.nextFileNumber, maxKeySize);
    }
  }

  lemma AddedNumbers(first: nat, outputs: seq<Run>, sizes: seq<nat>)
    requires |sizes| == |outputs| && forall i :: 0 <= i < |outputs| ==> outputs[i] != []
    ensures forall i :: 0 <= i < |outputs| ==> Generation(Added(first, outputs, sizes)[i]) == first + i
  {
  }

  /** What the records of a version's tables satisfy. */
  ghost predicate RecordsOk(runs: seq<Run>, lastSequence: nat, maxKeySize: nat) {
    forall i, r :: 0 <= i < |runs| && r in runs[i] ==> |r.key| <= maxKeySize && 0 < r.sequence <= lastSequence
  }

  /** An output record is a record of one of the selected tables. */
  lemma OutputRecord(runs: seq<Run>, flags: seq<bool>, outputs: seq<Run>, r: Record) returns (i: nat)
    requires |flags| == |runs| && MergedOutputs(Select(runs, flags, true), outputs) && r in Flatten(outputs)
    ensures i < |runs| && flags[i] && r in runs[i]
  {
    var inputs := Select(runs, flags, true);
    LookupMember(Flatten(outputs), r);
    assert Newest(inputs, r.key) == Some(r);
    var j :| 0 <= j < |inputs| && r in inputs[j];
    i := SelectIndex(runs, flags, true, j);
  }

  /** An unselected table lies wholly on one side of every selected record. */
  lemma SideOfRange(s: VersionTable, t: VersionTable, range: KeyRange, k: Key)
    requires AtMost(s.summary.minimumKey, k) && AtMost(k, s.summary.maximumKey)
    requires AtMost(t.summary.minimumKey, t.summary.maximumKey) && !Overlaps(t.summary, range)
    requires Picked(s, range)
    requires (s.level == 1 && Apart(s.summary, t.summary)) ||
             (AtMost(range.low, s.summary.minimumKey) && AtMost(s.summary.maximumKey, range.high))
    ensures if Less(t.summary.maximumKey, range.low) then Less(t.summary.maximumKey, k) else Less(k, t.summary.minimumKey)
  {
  }

  lemma KeyBesideTable(v: Version, runs: seq<Run>, maxKeySize: nat, range: KeyRange, k: Key, i: nat, j: nat)
    requires SoundVersion(v, maxKeySize) && Described(v.tables, runs) && LevelZeroRange(v.tables) == Some(range)
    requires i < |runs| && j < |runs| && Picked(v.tables[i], range) && !Picked(v.tables[j], range)
    requires Lookup(runs[i], k).Some?
    ensures var t := v.tables[j].summary;
            if Less(t.maximumKey, range.low) then Less(t.maximumKey, k) else Less(k, t.minimumKey)
  {
    hide *;
    DescribedLength(v.tables, runs);
    InSummaryRange(v.tables[i].summary, runs[i], k) by { DescribedAt(v.tables, runs, i); }
    PickedLevels(v, maxKeySize, range, i, j);
    SoundRange(v, maxKeySize, j);
    if v.tables[i].level == 1 {
      LevelOneDisjoint(v.tables, i, j) by { SoundApart(v, maxKeySize); }
    }
    SideOfRange(v.tables[i], v.tables[j], range, k);
  }

  lemma SoundRange(v: Version, maxKeySize: nat, j: nat)
    requires SoundVersion(v, maxKeySize) && j < |v.tables|
    ensures AtMost(v.tables[j].summary.minimumKey, v.tables[j].summary.maximumKey)
  {
    assert ValidTable(v.tables[j], v.nextFileNumber, maxKeySize);
  }

  /** What the acceptance of a compaction rests on. */
  ghost predicate Compactable(v: Version, runs: seq<Run>, maxKeySize: nat, range: KeyRange, outputs: seq<Run>, sizes: seq<nat>) {
    && SoundVersion(v, maxKeySize) && GenerationsAscend(v.tables)
    && Described(v.tables, runs) && RecordsOk(runs, v.lastSequence, maxKeySize)
    && LevelZeroRange(v.tables) == Some(range)
    && MergedOutputs(Select(runs, Picks(v.tables, range), true), outputs)
    && |sizes| == |outputs| && (forall i :: 0 <= i < |outputs| ==> outputs[i] != [] && sizes[i] != 0)
  }

  lemma AddedValid(v: Version, runs: seq<Run>, maxKeySize: nat, range: KeyRange, outputs: seq<Run>, sizes: seq<nat>, i: nat)
    requires Compactable(v, runs, maxKeySize, range, outputs, sizes) && i < |outputs|
    ensures var t := Added(v.nextFileNumber, outputs, sizes)[i];
            && ValidTable(t, v.nextFileNumber + |outputs|, maxKeySize)
            && t.summary.maximumSequence <= v.lastSequence
  {
    hide Less, LevelOneApart, DistinctGenerations, GenerationsAscend, Described, Picked, LevelZeroRange;
    var out := outputs[i];
    forall r | r in out ensures |r.key| <= maxKeySize && 0 < r.sequence <= v.lastSequence {
      FlattenMembers(outputs, i, r);
      var s := OutputRecord(runs, Picks(v.tables, range), outputs, r) by { DescribedLength(v.tables, runs); }
    }
    assert out[0] in out && out[|out| - 1] in out;
    FlattenSorted(outputs, i);
    assert |out| > 1 ==> Less(out[0].key, out[|out| - 1].key);
  }

  lemma KeptApart(v: Version, maxKeySize: nat, flags: seq<bool>, a: nat, b: nat)
    requires SoundVersion(v, maxKeySize) && GenerationsAscend(v.tables) && |flags| == |v.tables|
    requires a < b < |Select(v.tables, flags, false)|
    ensures var kept := Select(v.tables, flags, false);
            kept[a].level == 1 && kept[b].level == 1 ==> Apart(kept[a].summary, kept[b].summary)
  {
    hide Apart, LevelOneApart, ValidTable, DistinctGenerations;
    var kept := Select(v.tables, flags, false);
    var i := SelectIndex(v.tables, flags, false, a);
    var j := SelectIndex(v.tables, flags, false, b);
    SelectAscends(v.tables, flags, false);
    assert Generation(kept[a]) < Generation(kept[b]);
    if kept[a].level == 1 && kept[b].level == 1 {
      LevelOneDisjoint(v.tables, i, j);
      ApartSymmetric(v.tables[i].summary, v.tables[j].summary);
    }
  }

  lemma ApartSymmetric(a: TableSummary, b: TableSummary)
    ensures Apart(a, b) <==> Apart(b, a)
  {
  }

  lemma KeptAddedApart(
    v: Version, runs: seq<Run>, maxKeySize: nat, range: KeyRange, outputs: seq<Run>, sizes: seq<nat>, a: nat, b: nat)
    requires Compactable(v, runs, maxKeySize, range, outputs, sizes)
    requires a < |Select(v.tables, Picks(v.tables, range), false)| && b < |outputs|
    ensures Apart(Select(v.tables, Picks(v.tables, range), false)[a].summary, Added(v.nextFileNumber, outputs, sizes)[b].summary)
  {
    hide SoundVersion, GenerationsAscend, Described, Picked, LevelZeroRange, RecordsOk, Lookup, Less, MergedOutputs, Select,
         Flatten, MinimumSequence, MaximumSequence, Sorted;
    var flags := Picks(v.tables, range);
    DescribedLength(v.tables, runs);
    var j := SelectIndex(v.tables, flags, false, a);
    var out := outputs[b];
    var first, last := out[0], out[|out| - 1];
    FlattenMembers(outputs, b, first);
    FlattenMembers(outputs, b, last);
    var i := OutputRecord(runs, flags, outputs, first);
    var n := OutputRecord(runs, flags, outputs, last);
    LookupMember(runs[i], first) by { DescribedSorted(v.tables, runs, i); }
    LookupMember(runs[n], last) by { DescribedSorted(v.tables, runs, n); }
    KeyBesideTable(v, runs, maxKeySize, range, first.key, i, j);
    KeyBesideTable(v, runs, maxKeySize, range, last.key, n, j);
  }

  lemma DescribedSorted(tables: seq<VersionTable>, runs: seq<Run>, i: nat)
    requires Described(tables, runs) && i < |runs|
    ensures Sorted(runs[i])
  {
  }

  lemma AddedApart(first: nat, outputs: seq<Run>, sizes: seq<nat>, a: nat, b: nat)
    requires Sorted(Flatten(outputs)) && a < b < |outputs|
    requires |sizes| == |outputs| && forall i :: 0 <= i < |outputs| ==> outputs[i] != []
    ensures Apart(Added(first, outputs, sizes)[a].summary, Added(first, outputs, sizes)[b].summary)
  {
    FlattenApart(outputs, a, b, outputs[a][|outputs[a]| - 1], outputs[b][0]);
  }

  lemma NewTablesApart(v: Version, runs: seq<Run>, maxKeySize: nat, range: KeyRange, outputs: seq<Run>, sizes: seq<nat>)
    requires Compactable(v, runs, maxKeySize, range, outputs, sizes)
    ensures LevelOneApart(NewTables(v, Picks(v.tables, range), Added(v.nextFileNumber, outputs, sizes)))
  {
    hide Apart, Described, RecordsOk, LevelZeroRange, SoundVersion, GenerationsAscend, SummaryOf, Picked;
    var flags, added := Picks(v.tables, range), Added(v.nextFileNumber, outputs, sizes);
    var kept, all := Select(v.tables, flags, false), NewTables(v, flags, added);
    var n := |kept|;
    forall a, b | 0 <= a < b < |all| && all[a].level == 1 && all[b].level == 1
      ensures Apart(all[a].summary, all[b].summary)
    {
      if b < n {
        KeptApart(v, maxKeySize, flags, a, b);
      } else if a < n {
        KeptAddedApart(v, runs, maxKeySize, range, outputs, sizes, a, b - n);
      } else {
        AddedApart(v.nextFileNumber, outputs, sizes, a - n, b - n);
      }
    }
  }

  lemma NewTablesValid(v: Version, runs: seq<Run>, maxKeySize: nat, range: KeyRange, outputs: seq<Run>, sizes: seq<nat>, a: nat)
    requires Compactable(v, runs, maxKeySize, range, outputs, sizes)
    requires a < |NewTables(v, Picks(v.tables, range), Added(v.nextFileNumber, outputs, sizes))|
    ensures var t := NewTables(v, Picks(v.tables, range), Added(v.nextFileNumber, outputs, sizes))[a];
            ValidTable(t, v.nextFileNumber + |outputs|, maxKeySize) && t.summary.maximumSequence <= v.lastSequence
  {
    hide Described, RecordsOk, LevelZeroRange, LevelOneApart, DistinctGenerations, GenerationsAscend, SummaryOf, Picked, Less;
    var flags, added := Picks(v.tables, range), Added(v.nextFileNumber, outputs, sizes);
    var n := |Select(v.tables, flags, false)|;
    if a < n {
      var i := SelectIndex(v.tables, flags, false, a);
      assert ValidTable(v.tables[i], v.nextFileNumber, maxKeySize);
    } else {
      AddedValid(v, runs, maxKeySize, range, outputs, sizes, a - n);
    }
  }

  lemma EditAllowed(v: Version, maxKeySize: nat, flags: seq<bool>, outputs: seq<Run>, sizes: seq<nat>)
    requires SoundVersion(v, maxKeySize) && GenerationsAscend(v.tables) && |flags| == |v.tables|
    requires |sizes| == |outputs| && forall i :: 0 <= i < |outputs| ==> outputs[i] != []
    ensures var edit := CompactionEdit(v, flags, Added(v.nextFileNumber, outputs, sizes));
            DeletionsOk(v, edit.deleted) && AdditionsOk(v, edit)
  {
    hide SummaryOf, LevelOneApart, Less;
    var added, chosen := Added(v.nextFileNumber, outputs, sizes), Select(v.tables, flags, true);
    var deleted := Numbers(chosen);
    SelectAscends(v.tables, flags, true);
    AddedNumbers(v.nextFileNumber, outputs, sizes);
    forall j | 0 <= j < |deleted| ensures 0 < deleted[j] < v.nextFileNumber && Live(v.tables, deleted[j]) {
      var i := SelectIndex(v.tables, flags, true, j);
      assert ValidTable(v.tables[i], v.nextFileNumber, maxKeySize);
    }
    forall t | t in Remaining(v.tables, deleted) ensures Generation(t) < v.nextFileNumber {
      var i :| 0 <= i < |v.tables| && v.tables[i] == t;
      assert ValidTable(v.tables[i], v.nextFileNumber, maxKeySize);
    }
  }

  /** A compaction's edit is accepted unless the version id is exhausted. */
  lemma CompactionAccepted(v: Version, runs: seq<Run>, maxKeySize: nat, range: KeyRange, outputs: seq<Run>, sizes: seq<nat>)
    requires Compactable(v, runs, maxKeySize, range, outputs, sizes)
    ensures var flags, added := Picks(v.tables, range), Added(v.nextFileNumber, outputs, sizes);
            Apply(v, CompactionEdit(v, flags, added), maxKeySize) ==
              if v.id == MAX64 then None
              else Some(Version(v.id + 1, v.nextFileNumber + |outputs|, v.lastSequence, NewTables(v, flags, added)))
  {
    hide Described, RecordsOk, LevelZeroRange, LevelOneApart, SummaryOf, Picked, Less, SortByGeneration, Remaining,
         DeletionsOk, AdditionsOk, ValidTable, ValidVersion, Select, Numbers;
    var flags, added := Picks(v.tables, range), Added(v.nextFileNumber, outputs, sizes);
    var c := Candidate(v, CompactionEdit(v, flags, added));
    ValidVersionIsSound(v, maxKeySize);
    ValidVersionIsSound(c, maxKeySize);
    CandidateTables(v, maxKeySize, flags, outputs, sizes);
    EditAllowed(v, maxKeySize, flags, outputs, sizes);
    NewTablesApart(v, runs, maxKeySize, range, outputs, sizes);
    forall a | 0 <= a < |c.tables|
      ensures ValidTable(c.tables[a], c.nextFileNumber, maxKeySize) && c.tables[a].summary.maximumSequence <= c.lastSequence
    {
      NewTablesValid(v, runs, maxKeySize, range, outputs, sizes, a);
    }
  }
}
