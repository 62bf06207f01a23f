/** Versions of the table set and the edits between them (src/manifest.cpp:45-190). */
module Versions {
  import opened Coding
  import opened Keys

  /** The table metadata that a MANIFEST records. */
  datatype TableSummary = TableSummary(
    generation: nat,
    fileSize: nat,
    recordCount: nat,
    minimumSequence: nat,
    maximumSequence: nat,
    minimumKey: Key,
    maximumKey: Key)

  datatype VersionTable = VersionTable(level: nat, summary: TableSummary)

  datatype Version = Version(id: nat, nextFileNumber: nat, lastSequence: nat, tables: seq<VersionTable>)

  datatype VersionEdit = VersionEdit(
    added: seq<VersionTable>,
    deleted: seq<nat>,
    nextFileNumber: Option<nat>,
    lastSequence: Option<nat>)

  function Generation(t: VersionTable): nat {
    t.summary.generation
  }

  // ----- Validation ------------------------------------------------------------

  predicate ValidTable(t: VersionTable, nextFileNumber: nat, maxKeySize: nat) {
    var s := t.summary;
    && t.level <= 1
    && 0 < s.generation < nextFileNumber
    && s.fileSize != 0 && s.recordCount != 0
    && 0 < s.minimumSequence <= s.maximumSequence
    && |s.minimumKey| <= maxKeySize && |s.maximumKey| <= maxKeySize
    && AtMost(s.minimumKey, s.maximumKey)
  }

  predicate DistinctGenerations(tables: seq<VersionTable>) {
    forall i, j :: 0 <= i < j < |tables| ==> Generation(tables[i]) != Generation(tables[j])
  }

  function LevelOne(tables: seq<VersionTable>): (ones: seq<VersionTable>)
  {
    if tables == [] then []
    else if tables[0].level == 1 then [tables[0]] + LevelOne(tables[1..])
    else LevelOne(tables[1..])
  }

  /** std::sort by smallest key, as an insertion sort. */
  function InsertByKey(sorted: seq<VersionTable>, t: VersionTable): (r: seq<VersionTable>)
    ensures |r| == |sorted| + 1
  {
    if sorted == [] || !Less(sorted[0].summary.minimumKey, t.summary.minimumKey) then [t] + sorted
    else [sorted[0]] + InsertByKey(sorted[1..], t)
  }

  function SortByKey(tables: seq<VersionTable>): (r: seq<VersionTable>)
    ensures |r| == |tables|
  {
    if tables == [] then [] else InsertByKey(SortByKey(tables[1..]), tables[0])
  }

  /** The source compares each level-one table with its neighbour in key order only. */
  predicate NeighboursApart(tables: seq<VersionTable>) {
    forall i :: 0 < i < |tables| ==> Less(tables[i - 1].summary.maximumKey, tables[i].summary.minimumKey)
  }

  /** ValidateVersion. */
  predicate ValidVersion(v: Version, maxKeySize: nat) {
    && v.id != 0 && v.nextFileNumber != 0 && maxKeySize != 0
    && (forall i :: 0 <= i < |v.tables| ==> ValidTable(v.tables[i], v.nextFileNumber, maxKeySize))
    && DistinctGenerations(v.tables)
    && NeighboursApart(SortByKey(LevelOne(v.tables)))
    && (forall i :: 0 <= i < |v.tables| ==> v.tables[i].summary.maximumSequence <= v.lastSequence)
  }

  /** No key lies in the ranges of both tables. */
  predicate Apart(a: TableSummary, b: TableSummary) {
    Less(a.maximumKey, b.minimumKey) || Less(b.maximumKey, a.minimumKey)
  }

  predicate PairwiseApart(tables: seq<VersionTable>) {
    forall i, j :: 0 <= i < j < |tables| ==> Apart(tables[i].summary, tables[j].summary)
  }

  predicate KeysOrdered(tables: seq<VersionTable>) {
    forall i, j :: 0 <= i < j < |tables| ==> AtMost(tables[i].summary.minimumKey, tables[j].summary.minimumKey)
  }

  predicate RangesOk(tables: seq<VersionTable>) {
    forall i :: 0 <= i < |tables| ==> AtMost(tables[i].summary.minimumKey, tables[i].summary.maximumKey)
  }

  ghost predicate AllApart(tables: seq<VersionTable>, t: VersionTable) {
    forall i :: 0 <= i < |tables| ==> Apart(tables[i].summary, t.summary)
  }

  lemma ConsApart(first: VersionTable, rest: seq<VersionTable>)
    ensures PairwiseApart([first] + rest) <==> PairwiseApart(rest) && AllApart(rest, first)
  {
    var all := [first] + rest;
    if PairwiseApart(all) {
      forall i, j | 0 <= i < j < |rest| ensures Apart(rest[i].summary, rest[j].summary) {
        assert Apart(all[i + 1].summary, all[j + 1].summary);
      }
      forall i | 0 <= i < |rest| ensures Apart(rest[i].summary, first.summary) {
        assert Apart(all[0].summary, all[i + 1].summary);
      }
    }
    if PairwiseApart(rest) && AllApart(rest, first) {
      forall i, j | 0 <= i < j < |all| ensures Apart(all[i].summary, all[j].summary) {
        assert all[j] == rest[j - 1];
        if i > 0 { assert all[i] == rest[i - 1]; }
      }
    }
  }

  lemma AllApartCons(first: VersionTable, rest: seq<VersionTable>, t: VersionTable)
    ensures AllApart([first] + rest, t) <==> Apart(first.summary, t.summary) && AllApart(rest, t)
  {
    var all := [first] + rest;
    assert all[0] == first;
    assert forall i :: 0 <= i < |rest| ==> all[i + 1] == rest[i];
    assert forall i :: 0 < i < |all| ==> all[i] == rest[i - 1];
  }

  /** Inserting in key order changes neither disjointness nor the range checks. */
  lemma {:induction false} InsertByKeyKeeps(sorted: seq<VersionTable>, t: VersionTable, u: VersionTable)
    requires KeysOrdered(sorted)
    ensures KeysOrdered(InsertByKey(sorted, t))
    ensures RangesOk(InsertByKey(sorted, t)) <==> RangesOk([t] + sorted)
    ensures AllApart(InsertByKey(sorted, t), u) <==> AllApart([t] + sorted, u)
    ensures PairwiseApart(InsertByKey(sorted, t)) <==> PairwiseApart([t] + sorted)
    ensures forall x :: x in InsertByKey(sorted, t) <==> x == t || x in sorted
  {
    var r := InsertByKey(sorted, t);
    if sorted == [] || !Less(sorted[0].summary.minimumKey, t.summary.minimumKey) {
      assert forall j :: 0 < j < |r| ==> r[j] == sorted[j - 1];
    } else {
      var first, rest := sorted[0], sorted[1..];
      assert sorted == [first] + rest;
      InsertByKeyKeeps(rest, t, u);
      InsertByKeyKeeps(rest, t, first);
      var inserted := InsertByKey(rest, t);
      ConsApart(first, inserted);
      ConsApart(t, sorted);
      ConsApart(first, rest);
      ConsApart(t, rest);
      AllApartCons(first, inserted, u);
      AllApartCons(t, sorted, u);
      AllApartCons(first, rest, u);
      AllApartCons(t, rest, u);
      AllApartCons(t, rest, first);
      AllApartCons(first, rest, t);
      RangesCons(first, inserted);
      RangesCons(t, sorted);
      RangesCons(first, rest);
      RangesCons(t, rest);
      InsertedOrdered(first, rest, t, inserted);
    }
  }

  lemma RangesCons(first: VersionTable, rest: seq<VersionTable>)
    ensures RangesOk([first] + rest) <==> AtMost(first.summary.minimumKey, first.summary.maximumKey) && RangesOk(rest)
  {
    var all := [first] + rest;
    assert all[0] == first;
    assert forall i :: 0 <= i < |rest| ==> all[i + 1] == rest[i];
    assert forall i :: 0 < i < |all| ==> all[i] == rest[i - 1];
  }

  lemma InsertedOrdered(first: VersionTable, rest: seq<VersionTable>, t: VersionTable, inserted: seq<VersionTable>)
    requires KeysOrdered([first] + rest) && KeysOrdered(inserted)
    requires AtMost(first.summary.minimumKey, t.summary.minimumKey)
    requires forall x :: x in inserted ==> x == t || x in rest
    ensures KeysOrdered([first] + inserted)
  {
    var all, before := [first] + inserted, [first] + rest;
    forall i, j | 0 <= i < j < |all| ensures AtMost(all[i].summary.minimumKey, all[j].summary.minimumKey) {
      assert all[j] == inserted[j - 1] && inserted[j - 1] in inserted;
      if i > 0 {
        assert all[i] == inserted[i - 1];
      } else if all[j] in rest {
        var k :| 0 <= k < |rest| && rest[k] == all[j];
        assert before[k + 1] == all[j] && before[0] == first;
      }
    }
  }

  lemma {:induction false} SortByKeyKeeps(tables: seq<VersionTable>)
    ensures KeysOrdered(SortByKey(tables))
    ensures RangesOk(SortByKey(tables)) <==> RangesOk(tables)
    ensures PairwiseApart(SortByKey(tables)) <==> PairwiseApart(tables)
    ensures forall t :: AllApart(SortByKey(tables), t) <==> AllApart(tables, t)
  {
    if tables != [] {
      var first, rest := tables[0], tables[1..];
      assert tables == [first] + rest;
      var sorted := SortByKey(rest);
      SortByKeyKeeps(rest);
      InsertByKeyKeeps(sorted, first, first);
      ConsApart(first, sorted);
      ConsApart(first, rest);
      RangesCons(first, sorted);
      RangesCons(first, rest);
      forall t ensures AllApart(SortByKey(tables), t) <==> AllApart(tables, t) {
        InsertByKeyKeeps(sorted, first, t);
        AllApartCons(first, sorted, t);
        AllApartCons(first, rest, t);
      }
    }
  }

  /** In key order, neighbours that do not overlap leave no overlap anywhere. */
  lemma {:induction false} NeighboursSuffice(tables: seq<VersionTable>)
    requires KeysOrdered(tables) && RangesOk(tables)
    ensures NeighboursApart(tables) <==> PairwiseApart(tables)
  {
    if NeighboursApart(tables) {
      forall i, j | 0 <= i < j < |tables| ensures Apart(tables[i].summary, tables[j].summary) {
        assert AtMost(tables[i + 1].summary.minimumKey, tables[j].summary.minimumKey);
        assert Less(tables[i + 1 - 1].summary.maximumKey, tables[i + 1].summary.minimumKey);
      }
    }
    if PairwiseApart(tables) {
      forall i | 0 < i < |tables| ensures Less(tables[i - 1].summary.maximumKey, tables[i].summary.minimumKey) {
        assert Apart(tables[i - 1].summary, tables[i].summary);
      }
    }
  }

  predicate LevelOneApart(tables: seq<VersionTable>) {
    forall i, j :: 0 <= i < j < |tables| && tables[i].level == 1 && tables[j].level == 1 ==>
      Apart(tables[i].summary, tables[j].summary)
  }

  lemma {:induction false} LevelOneMembers(tables: seq<VersionTable>)
    ensures forall t :: t in LevelOne(tables) <==> t in tables && t.level == 1
    ensures RangesOk(tables) ==> RangesOk(LevelOne(tables))
    ensures PairwiseApart(LevelOne(tables)) <==> LevelOneApart(tables)
  {
    if tables != [] {
      var first, rest := tables[0], tables[1..];
      assert tables == [first] + rest;
      LevelOneMembers(rest);
      RangesCons(first, rest);
      RangesCons(first, LevelOne(rest));
      ConsApart(first, LevelOne(rest));
      LevelOneCons(first, rest);
    }
  }

  lemma LevelOneCons(first: VersionTable, rest: seq<VersionTable>)
    requires forall t :: t in LevelOne(rest) <==> t in rest && t.level == 1
    ensures LevelOneApart([first] + rest) <==>
            LevelOneApart(rest) && (first.level == 1 ==> AllApart(LevelOne(rest), first))
  {
    var all := [first] + rest;
    if LevelOneApart(all) {
      forall i, j | 0 <= i < j < |rest| && rest[i].level == 1 && rest[j].level == 1
        ensures Apart(rest[i].summary, rest[j].summary)
      {
        assert all[i + 1] == rest[i] && all[j + 1] == rest[j];
      }
      forall i | 0 <= i < |LevelOne(rest)| && first.level == 1
        ensures Apart(LevelOne(rest)[i].summary, first.summary)
      {
        assert LevelOne(rest)[i] in LevelOne(rest);
        var k :| 0 <= k < |rest| && rest[k] == LevelOne(rest)[i];
        assert all[k + 1] == rest[k] && all[0] == first;
      }
    }
    if LevelOneApart(rest) && (first.level == 1 ==> AllApart(LevelOne(rest), first)) {
      forall i, j | 0 <= i < j < |all| && all[i].level == 1 && all[j].level == 1
        ensures Apart(all[i].summary, all[j].summary)
      {
        assert all[j] == rest[j - 1];
        if i > 0 {
          assert all[i] == rest[i - 1];
        } else {
          assert all[j] in LevelOne(rest);
          var k :| 0 <= k < |LevelOne(rest)| && LevelOne(rest)[k] == all[j];
        }
      }
    }
  }

  /** Everything ValidateVersion checks, with the overlap check in its intended, pairwise form. */
  predicate SoundVersion(v: Version, maxKeySize: nat) {
    && v.id != 0 && v.nextFileNumber != 0 && maxKeySize != 0
    && (forall i :: 0 <= i < |v.tables| ==> ValidTable(v.tables[i], v.nextFileNumber, maxKeySize))
    && DistinctGenerations(v.tables)
    && LevelOneApart(v.tables)
    && (forall i :: 0 <= i < |v.tables| ==> v.tables[i].summary.maximumSequence <= v.lastSequence)
  }

  /** Checking sorted neighbours accepts exactly the versions whose level-one ranges are pairwise disjoint. */
  lemma ValidVersionIsSound(v: Version, maxKeySize: nat)
    ensures ValidVersion(v, maxKeySize) <==> SoundVersion(v, maxKeySize)
  {
    if forall i :: 0 <= i < |v.tables| ==> ValidTable(v.tables[i], v.nextFileNumber, maxKeySize) {
      var ones := LevelOne(v.tables);
      assert RangesOk(v.tables);
      LevelOneMembers(v.tables);
      SortByKeyKeeps(ones);
      NeighboursSuffice(SortByKey(ones));
    }
  }

  // ----- Edits -------------------------------------------------------------------

  const NEW_DATABASE: Version := Version(1, 1, 0, [])

  function Remaining(tables: seq<VersionTable>, deleted: seq<nat>): (kept: seq<VersionTable>)
    ensures forall t :: t in kept <==> t in tables && Generation(t) !in deleted
  {
    if tables == [] then []
    else
      var rest, last := tables[..|tables| - 1], tables[|tables| - 1];
      assert tables == rest + [last];
      if Generation(last) in deleted then Remaining(rest, deleted)
      else Remaining(rest, deleted) + [last]
  }

  function InsertByGeneration(sorted: seq<VersionTable>, t: VersionTable): (r: seq<VersionTable>)
    ensures forall x :: x in r <==> x == t || x in sorted
  {
    if sorted == [] || Generation(t) <= Generation(sorted[0]) then [t] + sorted
    else
      assert forall x :: x in sorted <==> x == sorted[0] || x in sorted[1..];
      [sorted[0]] + InsertByGeneration(sorted[1..], t)
  }

  function SortByGeneration(tables: seq<VersionTable>): (r: seq<VersionTable>)
    ensures forall x :: x in r <==> x in tables
  {
    if tables == [] then []
    else
      assert forall x :: x in tables <==> x == tables[0] || x in tables[1..];
      InsertByGeneration(SortByGeneration(tables[1..]), tables[0])
  }

  predicate GenerationsAscend(tables: seq<VersionTable>) {
    forall i, j :: 0 <= i < j < |tables| ==> Generation(tables[i]) < Generation(tables[j])
  }

  predicate Live(tables: seq<VersionTable>, number: nat) {
    exists i :: 0 <= i < |tables| && Generation(tables[i]) == number
  }

  predicate DeletionsOk(v: Version, deleted: seq<nat>) {
    && (forall i :: 0 <= i < |deleted| ==> deleted[i] != 0 && Live(v.tables, deleted[i]))
    && (forall i, j :: 0 <= i < j < |deleted| ==> deleted[i] != deleted[j])
  }

  predicate AdditionsOk(v: Version, edit: VersionEdit) {
    && (forall i :: 0 <= i < |edit.added| ==>
          && Generation(edit.added[i]) >= v.nextFileNumber
          && Generation(edit.added[i]) !in edit.deleted
          && !Live(Remaining(v.tables, edit.deleted), Generation(edit.added[i])))
    && DistinctGenerations(edit.added)
  }

  function Candidate(v: Version, edit: VersionEdit): Version {
    Version(
      v.id + 1,
      if edit.nextFileNumber.Some? then edit.nextFileNumber.value else v.nextFileNumber,
      if edit.lastSequence.Some? then edit.lastSequence.value else v.lastSequence,
      SortByGeneration(Remaining(v.tables, edit.deleted) + edit.added))
  }

  /** Version::Apply; None stands for a refused edit. */
  function Apply(v: Version, edit: VersionEdit, maxKeySize: nat): (r: Option<Version>) {
    var candidate := Candidate(v, edit);
    if !ValidVersion(v, maxKeySize) || v.id == MAX64 then None
    else if !DeletionsOk(v, edit.deleted) || !AdditionsOk(v, edit) then None
    else if candidate.nextFileNumber < v.nextFileNumber || candidate.lastSequence < v.lastSequence then None
    else if !ValidVersion(candidate, maxKeySize) then None
    else Some(candidate)
  }

  predicate GenerationsOrdered(tables: seq<VersionTable>) {
    forall i, j :: 0 <= i < j < |tables| ==> Generation(tables[i]) <= Generation(tables[j])
  }

  lemma {:induction false} InsertOrders(sorted: seq<VersionTable>, t: VersionTable)
    requires GenerationsOrdered(sorted)
    ensures GenerationsOrdered(InsertByGeneration(sorted, t))
  {
    var r := InsertByGeneration(sorted, t);
    if sorted == [] || Generation(t) <= Generation(sorted[0]) {
      assert forall j :: 0 < j < |r| ==> r[j] == sorted[j - 1];
    } else {
      var rest := sorted[1..];
      InsertOrders(rest, t);
      var inserted := InsertByGeneration(rest, t);
      forall j | 0 < j < |r| ensures Generation(sorted[0]) <= Generation(r[j]) {
        assert r[j] == inserted[j - 1] && inserted[j - 1] in inserted;
      }
    }
  }

  lemma {:induction false} SortOrders(tables: seq<VersionTable>)
    ensures GenerationsOrdered(SortByGeneration(tables))
    ensures GenerationsAscend(tables) ==> SortByGeneration(tables) == tables
  {
    if tables != [] {
      var first, rest := tables[0], tables[1..];
      assert forall i :: 0 <= i < |rest| ==> rest[i] == tables[i + 1];
      SortOrders(rest);
      InsertOrders(SortByGeneration(rest), first);
      assert tables == [first] + rest;
    }
  }

  /** What an accepted edit does to a version. */
  lemma ApplyAccepted(v: Version, edit: VersionEdit, maxKeySize: nat)
    requires Apply(v, edit, maxKeySize).Some?
    ensures var c := Apply(v, edit, maxKeySize).value;
            && SoundVersion(v, maxKeySize) && SoundVersion(c, maxKeySize)
            && c.id == v.id + 1 && v.id != MAX64
            && v.nextFileNumber <= c.nextFileNumber && v.lastSequence <= c.lastSequence
            && GenerationsAscend(c.tables)
            && (forall t :: t in c.tables <==>
                  (t in v.tables && Generation(t) !in edit.deleted) || t in edit.added)
            && (forall t :: t in edit.added ==> Generation(t) >= v.nextFileNumber)
  {
    var c := Apply(v, edit, maxKeySize).value;
    ValidVersionIsSound(v, maxKeySize);
    ValidVersionIsSound(c, maxKeySize);
    SortOrders(Remaining(v.tables, edit.deleted) + edit.added);
  }

  // ----- Histories ---------------------------------------------------------------

  /** A chain of accepted edits from a new database. */
  ghost predicate Chain(versions: seq<Version>, edits: seq<VersionEdit>, maxKeySize: nat) {
    && |versions| == |edits| + 1
    && versions[0] == NEW_DATABASE
    && forall i :: 0 <= i < |edits| ==> Apply(versions[i], edits[i], maxKeySize) == Some(versions[i + 1])
  }

  lemma {:induction false} ChainProgress(versions: seq<Version>, edits: seq<VersionEdit>, maxKeySize: nat, i: nat, j: nat)
    requires Chain(versions, edits, maxKeySize) && i <= j < |versions|
    ensures versions[j].id == versions[i].id + (j - i)
    ensures versions[i].nextFileNumber <= versions[j].nextFileNumber
    ensures versions[i].lastSequence <= versions[j].lastSequence
    decreases j - i
  {
    hide Apply, SoundVersion, GenerationsAscend;
    if i < j {
      assert Apply(versions[j - 1], edits[j - 1], maxKeySize) == Some(versions[j]);
      ApplyAccepted(versions[j - 1], edits[j - 1], maxKeySize);
      ChainProgress(versions, edits, maxKeySize, i, j - 1);
    }
  }

  /** Every version of a history keeps its tables in file-number order with disjoint level-one ranges. */
  lemma ChainVersionsSound(versions: seq<Version>, edits: seq<VersionEdit>, maxKeySize: nat, i: nat)
    requires Chain(versions, edits, maxKeySize) && i < |versions| && maxKeySize != 0
    ensures SoundVersion(versions[i], maxKeySize) && GenerationsAscend(versions[i].tables)
    ensures versions[i].id == i + 1
  {
    hide Apply;
    ChainProgress(versions, edits, maxKeySize, 0, i);
    if i > 0 {
      assert Apply(versions[i - 1], edits[i - 1], maxKeySize) == Some(versions[i]);
      ApplyAccepted(versions[i - 1], edits[i - 1], maxKeySize);
    }
  }

  /** A file number that was live once and then deleted is never live again. */
  lemma {:induction false} DeletedStaysDeleted(
    versions: seq<Version>, edits: seq<VersionEdit>, maxKeySize: nat, number: nat, i: nat, j: nat, k: nat)
    requires Chain(versions, edits, maxKeySize) && i <= j <= k < |versions| && maxKeySize != 0
    requires Live(versions[i].tables, number) && !Live(versions[j].tables, number)
    ensures !Live(versions[k].tables, number)
    decreases k - j
  {
    hide Apply, SoundVersion, Live, GenerationsAscend;
    if j < k {
      DeletedStaysDeleted(versions, edits, maxKeySize, number, i, j, k - 1);
      ChainVersionsSound(versions, edits, maxKeySize, i);
      ChainProgress(versions, edits, maxKeySize, i, k - 1);
      assert Apply(versions[k - 1], edits[k - 1], maxKeySize) == Some(versions[k]);
      LiveBelow(versions[i], maxKeySize, number);
      ApplyAccepted(versions[k - 1], edits[k - 1], maxKeySize);
      NotRevived(versions[k - 1], edits[k - 1], versions[k], number);
    }
  }

  lemma LiveBelow(v: Version, maxKeySize: nat, number: nat)
    requires SoundVersion(v, maxKeySize) && Live(v.tables, number)
    ensures number < v.nextFileNumber
  {
  }

  lemma NotRevived(v: Version, edit: VersionEdit, c: Version, number: nat)
    requires !Live(v.tables, number) && number < v.nextFileNumber
    requires forall t :: t in c.tables ==> t in v.tables || t in edit.added
    requires forall t :: t in edit.added ==> Generation(t) >= v.nextFileNumber
    ensures !Live(c.tables, number)
  {
    forall i | 0 <= i < |c.tables| ensures Generation(c.tables[i]) != number {
      assert c.tables[i] in c.tables;
    }
  }
}
