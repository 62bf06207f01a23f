/** Why the merged layers of a database show its live entries (src/scan.cpp:312-463). */
module ScanSteps {
  import opened Coding
  import opened Configuration
  import opened Keys
  import opened Runs
  import opened Wal
  import opened WalLog
  import opened Versions
  import opened Summaries
  import opened Merge
  import opened Compaction
  import opened Manifest
  import opened Tables
  import opened Durability
  import opened Meaning
  import opened Engine
  import opened FlushSteps
  import opened Reading
  import opened ScanTokens
  import opened Paging

  // ----- The reference: the live entries of a log -----------------------------------------------------

  /** A key and its value, as a scan returns them. */
  datatype Entry = Entry(key: Key, value: Bytes)

  function EntriesOf(run: Run): (entries: seq<Entry>)
    ensures |entries| == |run| && forall i :: 0 <= i < |run| ==> entries[i] == Entry(run[i].key, run[i].value)
  {
    seq(|run|, i requires 0 <= i < |run| => Entry(run[i].key, run[i].value))
  }

  /** The sorted map a log of writes leaves behind, without the deleted keys. */
  function LiveRun(log: seq<Record>): Run {
    Kept(Fold(log), true)
  }

  /** It holds the value of the last write to every key that this write did not delete, in key order. */
  lemma LiveIsLast(log: seq<Record>, k: Key)
    ensures Sorted(LiveRun(log)) && Lookup(LiveRun(log), k) == Surviving(Last(log, k), true)
    ensures Visible(Lookup(LiveRun(log), k)) == Visible(Last(log, k))
  {
    hide Fold, Kept, Lookup;
    FoldSorted(log);
    FoldLookup(log, k);
    KeptLookup(Fold(log), true, k);
  }

  lemma {:induction false} KeptPuts(run: Run)
    ensures forall r :: r in Kept(run, true) ==> r.kind == Put
  {
    if run != [] {
      KeptPuts(run[..|run| - 1]);
    }
  }

  // ----- Layers -----------------------------------------------------------------------------------------

  /** The sources of a scan: the MemTable, the Immutable if there is one, the tables. */
  ghost function Layers(m: Memory, o: Options): seq<Run> {
    [m.mutable] + FrozenLayer(m) + RunsOf(m.readers, o)
  }

  function FrozenLayer(m: Memory): seq<Run> {
    if m.immutable.Some? then [m.immutable.value.records] else []
  }

  ghost function AllCovered(runs: seq<Run>, bounds: Bounds, resume: Key): (parts: seq<Run>)
    ensures |parts| == |runs| && forall i :: 0 <= i < |runs| ==> parts[i] == Covered(runs[i], bounds, resume)
  {
    seq(|runs|, i requires 0 <= i < |runs| => Covered(runs[i], bounds, resume))
  }

  ghost predicate Above(run: Run, floor: nat) {
    forall r :: r in run ==> r.sequence > floor
  }

  ghost predicate UpTo(runs: seq<Run>, floor: nat) {
    forall i, r :: 0 <= i < |runs| && r in runs[i] ==> r.sequence <= floor
  }

  /** The last run holds these records, which are newer than those of every other run. */
  ghost predicate Top(runs: seq<Run>, records: Run) {
    && runs != [] && runs[|runs| - 1] == records
    && forall j, r, t :: 0 <= j < |runs| - 1 && r in runs[j] && t in records ==> r.sequence < t.sequence
  }

  lemma NewestAbove(run: Run, rest: seq<Run>, floor: nat, k: Key)
    requires Above(run, floor) && UpTo(rest, floor)
    ensures Newest([run] + rest, k) == if Lookup(run, k).Some? then Lookup(run, k) else Newest(rest, k)
  {
    hide Lookup;
    assert ([run] + rest)[1..] == rest && ([run] + rest)[0] == run;
    var newest := Newest(rest, k);
    if newest.Some? && Lookup(run, k).Some? {
      var i :| 0 <= i < |rest| && newest.value in rest[i];
    }
  }

  lemma DistinctAbove(run: Run, rest: seq<Run>, floor: nat)
    requires Above(run, floor) && UpTo(rest, floor) && Distinct(rest)
    ensures Distinct([run] + rest)
  {
    var runs := [run] + rest;
    assert forall i :: 0 < i < |runs| ==> runs[i] == rest[i - 1];
  }

  /** The newest record in the tables is the top table's, if that has the key. */
  lemma NewestTop(runs: seq<Run>, records: Run, k: Key)
    requires Top(runs, records) && Lookup(records, k).Some?
    ensures Newest(runs, k) == Lookup(records, k)
  {
    hide Lookup, Newest;
    NewestIs(runs, k, |runs| - 1, Lookup(records, k).value);
  }

  lemma NewestTwice(runs: seq<Run>, records: Run, k: Key)
    requires Top(runs, records)
    ensures Newest([records] + runs, k) == Newest(runs, k)
    ensures Lookup(records, k).Some? ==> Newest(runs, k) == Lookup(records, k)
  {
    hide Lookup;
    assert ([records] + runs)[1..] == runs && ([records] + runs)[0] == records;
    if Lookup(records, k).Some? {
      NewestTop(runs, records, k);
    }
  }

  // ----- Layers of a valid memory ---------------------------------------------------------------------------

  lemma {:induction false} FoldAbove(log: seq<Record>, floor: nat)
    requires forall i :: 0 <= i < |log| ==> log[i].sequence > floor
    ensures Above(Fold(log), floor)
  {
    hide Fold;
    FoldSorted(log);
  }

  /** The MemTable is newer than everything else. */
  lemma MutableAbove(m: Memory, l: Logs, o: Options)
    requires MemoryOk(m, l, o)
    ensures Above(m.mutable, Floor(m, l)) && UpTo(FrozenLayer(m) + RunsOf(m.readers, o), Floor(m, l))
    ensures Sorted(m.mutable)
  {
    hide *;
    MemoryParts(m, l, o);
    ActiveAbove(m, l, o);
    TablesUpTo(m, l, o);
    FrozenUpTo(m, l, o);
    UpToBoth(FrozenLayer(m), RunsOf(m.readers, o), m.version.lastSequence, Floor(m, l));
  }

  lemma UpToBoth(a: seq<Run>, b: seq<Run>, low: nat, high: nat)
    requires UpTo(a, high) && UpTo(b, low) && low <= high
    ensures UpTo(a + b, high)
  {
    forall i, r | 0 <= i < |a + b| && r in (a + b)[i] ensures r.sequence <= high {
      if i < |a| { assert (a + b)[i] == a[i]; } else { assert (a + b)[i] == b[i - |a|]; }
    }
  }

  lemma ActiveAbove(m: Memory, l: Logs, o: Options)
    requires ActiveLogOk(m, l, o)
    ensures Above(m.mutable, Floor(m, l)) && Sorted(m.mutable)
  {
    hide Fold, AllEncodable, SequencesAscend, Above, Floor;
    FoldAbove(l.active, Floor(m, l));
    FoldSorted(l.active);
  }

  lemma TablesUpTo(m: Memory, l: Logs, o: Options)
    requires StoredOk(StoredOf(m, l, o), o)
    ensures UpTo(RunsOf(m.readers, o), m.version.lastSequence)
    ensures Distinct(RunsOf(m.readers, o)) && AllSorted(RunsOf(m.readers, o))
  {
    hide Contents, Encodable, ValidVersion, InWidth, GenerationsAscend, Means, Distinct;
    var runs := RunsOf(m.readers, o);
    forall i | 0 <= i < |runs| ensures Sorted(runs[i]) {
      assert Describes(m.version.tables[i].summary, runs[i]);
    }
  }

  lemma FrozenUpTo(m: Memory, l: Logs, o: Options)
    requires FrozenLogOk(m, l, o)
    ensures UpTo(FrozenLayer(m), Floor(m, l)) && m.version.lastSequence <= Floor(m, l)
    ensures m.immutable.Some? ==> Sorted(m.immutable.value.records)
    ensures m.Flushing() ==> Above(m.immutable.value.records, m.version.lastSequence)
    ensures m.immutable.Some? && m.immutable.value.published ==> Top(RunsOf(m.readers, o), m.immutable.value.records)
  {
    hide Fold, AllEncodable, Above, Contents;
    if m.immutable.Some? {
      var floor := if m.immutable.value.published then 0 else m.version.lastSequence;
      FoldMaximum(l.frozen, floor);
      FoldSorted(l.frozen);
      FoldAbove(l.frozen, floor);
    }
  }

  lemma LayersSorted(m: Memory, l: Logs, o: Options)
    requires MemoryOk(m, l, o)
    ensures AllSorted(Layers(m, o))
  {
    hide *;
    MemoryParts(m, l, o);
    ActiveAbove(m, l, o);
    TablesUpTo(m, l, o);
    FrozenUpTo(m, l, o);
    SortedLayers(m, o);
  }

  lemma SortedLayers(m: Memory, o: Options)
    requires Sorted(m.mutable) && AllSorted(RunsOf(m.readers, o))
    requires m.immutable.Some? ==> Sorted(m.immutable.value.records)
    ensures AllSorted(Layers(m, o))
  {
    hide Sorted, Contents;
    var frozen, tables := FrozenLayer(m), RunsOf(m.readers, o);
    forall s | 0 <= s < |Layers(m, o)| ensures Sorted(Layers(m, o)[s]) {
      if s > |frozen| { assert Layers(m, o)[s] == tables[s - 1 - |frozen|]; }
    }
  }

  /** Taking the record with the greatest sequence number finds what asking layer by layer finds. */
  lemma NewestIsLayered(m: Memory, l: Logs, o: Options, k: Key)
    requires MemoryOk(m, l, o)
    ensures Newest(Layers(m, o), k) == Layered(m.mutable, m.immutable, RunsOf(m.readers, o), k)
  {
    hide *;
    MemoryParts(m, l, o);
    MutableAbove(m, l, o);
    TablesUpTo(m, l, o);
    FrozenUpTo(m, l, o);
    var frozen, tables := FrozenLayer(m), RunsOf(m.readers, o);
    LayersSplit(m, o);
    NewestAbove(m.mutable, frozen + tables, Floor(m, l), k);
    LayeredCases(m.mutable, m.immutable, tables, k);
    if m.immutable.Some? {
      FrozenIs(m);
      if m.immutable.value.published {
        NewestTwice(tables, m.immutable.value.records, k);
      } else {
        NewestAbove(m.immutable.value.records, tables, m.version.lastSequence, k);
      }
    } else {
      FrozenIs(m);
      assert frozen + tables == tables;
    }
  }

  lemma LayersSplit(m: Memory, o: Options)
    ensures Layers(m, o) == [m.mutable] + (FrozenLayer(m) + RunsOf(m.readers, o))
  {
    hide FrozenLayer, RunsOf;
    assert [m.mutable] + FrozenLayer(m) + RunsOf(m.readers, o) == [m.mutable] + (FrozenLayer(m) + RunsOf(m.readers, o));
  }

  lemma FrozenIs(m: Memory)
    ensures FrozenLayer(m) == if m.immutable.Some? then [m.immutable.value.records] else []
    ensures m.immutable.Some? && !m.immutable.value.published ==> m.Flushing()
  {
  }

  // ----- Pages of the layers -----------------------------------------------------------------------------------

  lemma CoveredSorted(runs: seq<Run>, bounds: Bounds, resume: Key)
    requires AllSorted(runs)
    ensures AllSorted(AllCovered(runs, bounds, resume))
  {
    hide Sorted, Covered;
    forall s | 0 <= s < |runs| ensures Sorted(AllCovered(runs, bounds, resume)[s]) { CoveredMembers(runs[s], bounds, resume); }
  }

  lemma {:induction false} NewestCovered(runs: seq<Run>, bounds: Bounds, resume: Key, k: Key)
    requires AllSorted(runs)
    ensures Newest(AllCovered(runs, bounds, resume), k) == if InPage(k, bounds, resume) then Newest(runs, k) else None
  {
    hide Sorted, Covered, Lookup, InPage;
    if runs != [] {
      CoveredLookup(runs[0], bounds, resume, k);
      NewestCovered(runs[1..], bounds, resume, k);
      assert AllCovered(runs, bounds, resume)[1..] == AllCovered(runs[1..], bounds, resume);
    }
  }

  /** The newest records under the keys of a run. */
  ghost function Retold(sources: seq<Run>, run: Run): (all: Run)
    requires forall i :: 0 <= i < |run| ==> Newest(sources, run[i].key).Some?
    ensures |all| == |run| && forall i :: 0 <= i < |run| ==> all[i] == Newest(sources, run[i].key).value
  {
    seq(|run|, i requires 0 <= i < |run| => Newest(sources, run[i].key).value)
  }

  /** Sources with the same visible values as a run of live records show its entries. */
  lemma ShowsEntries(sources: seq<Run>, run: Run)
    requires Sorted(run) && (forall r :: r in run ==> r.kind == Put)
    requires forall k :: Visible(Newest(sources, k)) == Visible(Lookup(run, k))
    ensures forall i :: 0 <= i < |run| ==> Newest(sources, run[i].key).Some?
    ensures Shows(sources, Retold(sources, run)) && EntriesOf(Retold(sources, run)) == EntriesOf(run)
  {
    hide Lookup, Newest, Less;
    forall i | 0 <= i < |run|
      ensures Newest(sources, run[i].key).Some? && Newest(sources, run[i].key).value.kind == Put
      ensures Newest(sources, run[i].key).value.value == run[i].value
    {
      LookupMember(run, run[i]);
      assert Visible(Newest(sources, run[i].key)) == Some(run[i].value);
    }
    var all := Retold(sources, run);
    assert forall i :: 0 <= i < |run| ==> all[i].key == run[i].key;
    forall k ensures Lookup(all, k) == Surviving(Newest(sources, k), true) {
      RetoldLookup(sources, run, all, k);
    }
  }

  lemma RetoldLookup(sources: seq<Run>, run: Run, all: Run, k: Key)
    requires Sorted(all) && |all| == |run| && (forall r :: r in run ==> r.kind == Put)
    requires forall i :: 0 <= i < |run| ==> all[i].key == run[i].key && Newest(sources, run[i].key) == Some(all[i]) && all[i].kind == Put
    requires Visible(Newest(sources, k)) == Visible(Lookup(run, k))
    ensures Lookup(all, k) == Surviving(Newest(sources, k), true)
  {
    hide Lookup, Newest, Less;
    var found := Lookup(run, k);
    if found.Some? {
      var i :| 0 <= i < |run| && run[i] == found.value;
      LookupMember(all, all[i]);
    } else {
      forall r | r in all ensures r.key != k {
        var i :| 0 <= i < |all| && all[i] == r;
        assert run[i] in run;
      }
    }
  }

  /** Within the page, the layers show exactly the live entries of the log. */
  lemma LayersShow(m: Memory, l: Logs, o: Options, bounds: Bounds, resume: Key)
    requires MemoryOk(m, l, o)
    ensures var sources, run := AllCovered(Layers(m, o), bounds, resume), Covered(LiveRun(LogOf(m, l)), bounds, resume);
            exists all :: Shows(sources, all) && EntriesOf(all) == EntriesOf(run)
  {
    hide *;
    var sources, log := AllCovered(Layers(m, o), bounds, resume), LogOf(m, l);
    var run := Covered(LiveRun(log), bounds, resume);
    LayersSorted(m, l, o);
    LiveIsLast(log, []);
    CoveredMembers(LiveRun(log), bounds, resume);
    LivePuts(log);
    forall k ensures Visible(Newest(sources, k)) == Visible(Lookup(run, k)) {
      NewestCovered(Layers(m, o), bounds, resume, k);
      CoveredLookup(LiveRun(log), bounds, resume, k);
      NewestIsLayered(m, l, o, k);
      LayeredIsLast(m, l, o, k);
      LiveIsLast(log, k);
    }
    ShowsEntries(sources, run);
  }

  lemma LivePuts(log: seq<Record>)
    ensures forall r :: r in LiveRun(log) ==> r.kind == Put
  {
    hide Kept, Fold;
    KeptPuts(Fold(log));
  }

  /** Every live entry has a key that could have been written. */
  lemma LiveKeys(m: Memory, l: Logs, o: Options, r: Record)
    requires MemoryOk(m, l, o) && r in LiveRun(LogOf(m, l))
    ensures 0 < |r.key| <= o.maxKeySize
  {
    hide *;
    LiveIsLast(LogOf(m, l), r.key);
    LivePuts(LogOf(m, l));
    LookupMember(LiveRun(LogOf(m, l)), r);
    LayeredIsLast(m, l, o, r.key);
    VisibleOf(r, Layered(m.mutable, m.immutable, RunsOf(m.readers, o), r.key));
    LayeredEncodable(m, l, o, r.key);
  }

  lemma VisibleOf(r: Record, found: Option<Record>)
    requires r.kind == Put && Visible(found) == Visible(Some(r))
    ensures found.Some?
  {
  }

  lemma LayeredEncodable(m: Memory, l: Logs, o: Options, k: Key)
    requires MemoryOk(m, l, o) && Layered(m.mutable, m.immutable, RunsOf(m.readers, o), k).Some?
    ensures 0 < |k| <= o.maxKeySize
  {
    hide *;
    MemoryParts(m, l, o);
    var tables := RunsOf(m.readers, o);
    LayeredCases(m.mutable, m.immutable, tables, k);
    MutableLookup(m, l, o, k);
    LogKeys(m, l, o, k);
    if Newest(tables, k).Some? {
      StoredKeys(m, l, o, k);
    }
  }

  lemma LogKeys(m: Memory, l: Logs, o: Options, k: Key)
    requires ActiveLogOk(m, l, o) && FrozenLogOk(m, l, o)
    ensures Last(l.active, k).Some? ==> 0 < |k| <= o.maxKeySize
    ensures m.immutable.Some? && Last(l.frozen, k).Some? ==> 0 < |k| <= o.maxKeySize
  {
    hide Fold, Rising, Last, TopTable;
    if Last(l.active, k).Some? {
      assert Encodable(Last(l.active, k).value, o);
    }
    if m.immutable.Some? && Last(l.frozen, k).Some? {
      assert Encodable(Last(l.frozen, k).value, o);
    }
  }

  lemma StoredKeys(m: Memory, l: Logs, o: Options, k: Key)
    requires StoredOk(StoredOf(m, l, o), o) && Newest(RunsOf(m.readers, o), k).Some?
    ensures 0 < |k| <= o.maxKeySize
  {
    hide Contents, ValidVersion, InWidth, GenerationsAscend, Means, Distinct, Described;
    var runs, r := RunsOf(m.readers, o), Newest(RunsOf(m.readers, o), k).value;
    var i :| 0 <= i < |runs| && r in runs[i];
    assert Encodable(r, o);
  }

  // ----- Ties ------------------------------------------------------------------------------------------------------

  /** A key of the page that a published Immutable holds and the MemTable does not. */
  predicate Uncovered(m: Memory, bounds: Bounds, resume: Key, k: Key) {
    && m.immutable.Some? && m.immutable.value.published
    && InPage(k, bounds, resume) && Lookup(m.immutable.value.records, k).Some? && Lookup(m.mutable, k).None?
  }

  lemma DistinctUntied(runs: seq<Run>, bounds: Bounds, resume: Key, k: Key)
    requires AllSorted(runs) && Distinct(runs)
    ensures !TiedAt(AllCovered(runs, bounds, resume), k)
  {
    hide Sorted, Covered, Lookup, Newest, InPage;
    var parts := AllCovered(runs, bounds, resume);
    forall i, j | 0 <= i < j < |parts| ensures !Shared(parts, k, i, j) {
      CoveredLookup(runs[i], bounds, resume, k);
      CoveredLookup(runs[j], bounds, resume, k);
    }
  }

  lemma UnpublishedDistinct(m: Memory, l: Logs, o: Options)
    requires MemoryOk(m, l, o) && (m.immutable.Some? ==> !m.immutable.value.published)
    ensures Distinct(Layers(m, o))
  {
    hide *;
    MemoryParts(m, l, o);
    MutableAbove(m, l, o);
    TablesUpTo(m, l, o);
    FrozenUpTo(m, l, o);
    LayersSplit(m, o);
    FrozenIs(m);
    var frozen, tables := FrozenLayer(m), RunsOf(m.readers, o);
    if m.immutable.Some? {
      DistinctAbove(m.immutable.value.records, tables, m.version.lastSequence);
    } else {
      assert frozen + tables == tables;
    }
    DistinctAbove(m.mutable, frozen + tables, Floor(m, l));
  }

  /** A table and the Immutable it was written from tie at every key that the MemTable does not override. */
  lemma PublishedTie(mutable: Run, records: Run, tables: seq<Run>, floor: nat, bounds: Bounds, resume: Key, k: Key)
    requires AllSorted([mutable, records] + tables) && Distinct(tables) && Top(tables, records)
    requires Above(mutable, floor) && UpTo([records] + tables, floor)
    ensures TiedAt(AllCovered([mutable, records] + tables, bounds, resume), k) <==>
            InPage(k, bounds, resume) && Lookup(records, k).Some? && Lookup(mutable, k).None?
  {
    hide *;
    if TiedAt(AllCovered([mutable, records] + tables, bounds, resume), k) {
      TieUncovered(mutable, records, tables, floor, bounds, resume, k);
    }
    if InPage(k, bounds, resume) && Lookup(records, k).Some? && Lookup(mutable, k).None? {
      UncoveredTies(mutable, records, tables, floor, bounds, resume, k);
    }
  }

  lemma TieUncovered(mutable: Run, records: Run, tables: seq<Run>, floor: nat, bounds: Bounds, resume: Key, k: Key)
    requires AllSorted([mutable, records] + tables) && Distinct(tables)
    requires Above(mutable, floor) && UpTo([records] + tables, floor)
    requires TiedAt(AllCovered([mutable, records] + tables, bounds, resume), k)
    ensures InPage(k, bounds, resume) && Lookup(records, k).Some? && Lookup(mutable, k).None?
  {
    hide Sorted, Covered, Lookup, Newest, InPage, Above, UpTo, Distinct, AllSorted, Less;
    var layers := [mutable, records] + tables;
    var parts := AllCovered(layers, bounds, resume);
    assert layers == [mutable] + ([records] + tables) && layers[1] == records;
    var i, j :| 0 <= i < j < |parts| && Shared(parts, k, i, j) &&
      Lookup(parts[i], k).value.sequence == Newest(parts, k).value.sequence;
    SortedAt(layers, i);
    SortedAt(layers, j);
    CoveredLookup(layers[i], bounds, resume, k);
    CoveredLookup(layers[j], bounds, resume, k);
    TieBelow(mutable, records, tables, floor, k, i, j);
    NewestCovered(layers, bounds, resume, k);
    NewestAbove(mutable, [records] + tables, floor, k);
    Overrides(mutable, records, tables, floor, k);
  }

  lemma UncoveredTies(mutable: Run, records: Run, tables: seq<Run>, floor: nat, bounds: Bounds, resume: Key, k: Key)
    requires AllSorted([mutable, records] + tables) && Top(tables, records)
    requires Above(mutable, floor) && UpTo([records] + tables, floor)
    requires InPage(k, bounds, resume) && Lookup(records, k).Some? && Lookup(mutable, k).None?
    ensures TiedAt(AllCovered([mutable, records] + tables, bounds, resume), k)
  {
    hide Sorted, Covered, Lookup, Newest, InPage, Above, UpTo, AllSorted, Top, Less;
    var layers, last := [mutable, records] + tables, |tables| + 1;
    var parts := AllCovered(layers, bounds, resume);
    assert layers == [mutable] + ([records] + tables) && layers[1] == records;
    TopIs(tables, records);
    assert layers[last] == records;
    SortedAt(layers, 1);
    CoveredLookup(records, bounds, resume, k);
    NewestCovered(layers, bounds, resume, k);
    NewestAbove(mutable, [records] + tables, floor, k);
    NewestTwice(tables, records, k);
    assert Shared(parts, k, 1, last);
  }

  lemma TopIs(runs: seq<Run>, records: Run)
    requires Top(runs, records)
    ensures runs != [] && runs[|runs| - 1] == records
  {
  }

  lemma SortedAt(runs: seq<Run>, i: nat)
    requires i < |runs|
    ensures AllSorted(runs) ==> Sorted(runs[i])
  {
  }

  /** Only the Immutable and a table can share a sequence number under one key. */
  lemma TieBelow(mutable: Run, records: Run, tables: seq<Run>, floor: nat, k: Key, i: nat, j: nat)
    requires Distinct(tables) && Above(mutable, floor) && UpTo([records] + tables, floor)
    requires i < j < |tables| + 2
    requires Shared([mutable, records] + tables, k, i, j)
    ensures i == 1
  {
    hide Lookup;
    var layers, rest := [mutable, records] + tables, [records] + tables;
    var r, t := Lookup(layers[i], k).value, Lookup(layers[j], k).value;
    assert layers[j] == rest[j - 1] && t in rest[j - 1];
  }

  lemma Overrides(mutable: Run, records: Run, tables: seq<Run>, floor: nat, k: Key)
    requires Above(mutable, floor) && UpTo([records] + tables, floor)
    ensures Lookup(mutable, k).Some? && Lookup(records, k).Some? ==>
              Lookup(records, k).value.sequence < Lookup(mutable, k).value.sequence
  {
    hide Lookup;
    assert ([records] + tables)[0] == records;
  }

  /** The layers tie at a key exactly where a published Immutable is uncovered. */
  lemma TiedExactly(m: Memory, l: Logs, o: Options, bounds: Bounds, resume: Key, k: Key)
    requires MemoryOk(m, l, o)
    ensures TiedAt(AllCovered(Layers(m, o), bounds, resume), k) <==> Uncovered(m, bounds, resume, k)
  {
    hide *;
    LayersSorted(m, l, o);
    UncoveredIs(m, bounds, resume, k);
    if m.immutable.Some? && m.immutable.value.published {
      MemoryParts(m, l, o);
      MutableAbove(m, l, o);
      TablesUpTo(m, l, o);
      FrozenUpTo(m, l, o);
      FrozenIs(m);
      LayersSplit(m, o);
      var tables := RunsOf(m.readers, o);
      assert [m.mutable] + ([m.immutable.value.records] + tables) == [m.mutable, m.immutable.value.records] + tables;
      PublishedTie(m.mutable, m.immutable.value.records, tables, Floor(m, l), bounds, resume, k);
    } else {
      UnpublishedDistinct(m, l, o);
      DistinctUntied(Layers(m, o), bounds, resume, k);
    }
  }

  lemma UncoveredIs(m: Memory, bounds: Bounds, resume: Key, k: Key)
    ensures Uncovered(m, bounds, resume, k) <==>
            && m.immutable.Some? && m.immutable.value.published
            && InPage(k, bounds, resume) && Lookup(m.immutable.value.records, k).Some? && Lookup(m.mutable, k).None?
  {
    hide Lookup, InPage;
  }
}
