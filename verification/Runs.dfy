/**
  Versioned records and sorted runs.

  A run is a strictly ascending sequence of records, one per user key.  It is
  what a std::map-backed MemTable holds, what MemTable::Records returns and what
  an SSTable stores (src/memtable.cpp, src/table.cpp).
 */
module Runs {
  import opened Coding
  import opened Keys

  datatype Kind = Put | Deletion

  datatype Record = Record(key: Key, sequence: nat, kind: Kind, value: Bytes)

  type Run = seq<Record>

  predicate Sorted(run: Run) {
    forall i, j :: 0 <= i < j < |run| ==> Less(run[i].key, run[j].key)
  }

  /** The record stored under a key, tombstones included. */
  function Lookup(run: Run, k: Key): (found: Option<Record>)
    ensures found.Some? ==> found.value in run && found.value.key == k
    ensures found.None? ==> forall r :: r in run ==> r.key != k
  {
    if run == [] then None
    else if run[0].key == k then Some(run[0])
    else
      assert forall r :: r in run ==> r == run[0] || r in run[1..];
      Lookup(run[1..], k)
  }

  lemma {:induction false} LookupMember(run: Run, r: Record)
    requires Sorted(run) && r in run
    ensures Lookup(run, r.key) == Some(r)
  {
    var found := Lookup(run, r.key);
    if found.Some? {
      SameKey(run, r, found.value);
    }
  }

  /** A key appears at most once in a run. */
  lemma SameKey(run: Run, r: Record, s: Record)
    requires Sorted(run) && r in run && s in run && r.key == s.key
    ensures r == s
  {
    var i :| 0 <= i < |run| && run[i] == r;
    var j :| 0 <= j < |run| && run[j] == s;
    KeysDiffer(run);
  }

  lemma KeysDiffer(run: Run)
    requires Sorted(run)
    ensures forall i, j :: 0 <= i < |run| && 0 <= j < |run| && run[i].key == run[j].key ==> i == j
  {
    forall i, j | 0 <= i < j < |run| ensures run[i].key != run[j].key {
      assert Less(run[i].key, run[j].key);
    }
  }

  /** A run is determined by its members. */
  lemma {:induction false} SameMembers(a: Run, b: Run)
    requires Sorted(a) && Sorted(b) && forall r :: r in a <==> r in b
    ensures a == b
  {
    assert b == [] || b[0] in b;
    if a != [] {
      assert a[0] in a;
      assert b != [] && b[0] in b;
      FirstIsLeast(a, b[0]);
      FirstIsLeast(b, a[0]);
      SameKey(a, a[0], b[0]);
      RestMembers(a);
      RestMembers(b);
      SameMembers(a[1..], b[1..]);
      assert a == [a[0]] + a[1..] && b == [b[0]] + b[1..];
    }
  }

  lemma FirstIsLeast(run: Run, r: Record)
    requires Sorted(run) && r in run
    ensures run != [] && AtMost(run[0].key, r.key)
  {
  }

  lemma RestMembers(run: Run)
    requires Sorted(run) && run != []
    ensures Sorted(run[1..])
    ensures forall r :: r in run[1..] <==> r in run && r != run[0]
  {
    forall r | r in run[1..] ensures r in run && r != run[0] {
      var j :| 0 <= j < |run[1..]| && run[1..][j] == r;
      assert Less(run[0].key, run[j + 1].key);
    }
    forall r | r in run && r != run[0] ensures r in run[1..] {
      var j :| 0 <= j < |run| && run[j] == r;
      assert run[1..][j - 1] == r;
    }
  }

  // ----- Writing ---------------------------------------------------------------

  /** Replaces the record under `r.key`, or inserts `r` at its place in the order. */
  function Insert(run: Run, r: Record): (result: Run)
    ensures result != []
  {
    if run == [] || Less(r.key, run[0].key) then [r] + run
    else if run[0].key == r.key then [r] + run[1..]
    else [run[0]] + Insert(run[1..], r)
  }

  lemma {:induction false} InsertMembers(run: Run, r: Record)
    requires Sorted(run)
    ensures Sorted(Insert(run, r))
    ensures forall x :: x in Insert(run, r) <==> x == r || (x in run && x.key != r.key)
  {
    var result := Insert(run, r);
    if run == [] {
    } else if Less(r.key, run[0].key) {
      assert forall j :: 0 <= j < |run| ==> Less(r.key, run[j].key);
    } else {
      RestMembers(run);
      if run[0].key == r.key {
        assert forall x :: x in run[1..] ==> x.key != r.key by {
          forall x | x in run[1..] ensures x.key != r.key {
            var j :| 0 <= j < |run[1..]| && run[1..][j] == x;
            assert Less(run[0].key, run[j + 1].key);
          }
        }
      } else {
        InsertMembers(run[1..], r);
        PrependSorted(run[0], Insert(run[1..], r));
      }
    }
  }

  lemma PrependSorted(first: Record, rest: Run)
    requires Sorted(rest) && forall x :: x in rest ==> Less(first.key, x.key)
    ensures Sorted([first] + rest)
  {
    var run := [first] + rest;
    forall i, j | 0 <= i < j < |run| ensures Less(run[i].key, run[j].key) {
      assert run[j] == rest[j - 1] && rest[j - 1] in rest;
      if i > 0 { assert run[i] == rest[i - 1]; }
    }
  }

  lemma InsertLookup(run: Run, r: Record, k: Key)
    requires Sorted(run)
    ensures Lookup(Insert(run, r), k) == if k == r.key then Some(r) else Lookup(run, k)
  {
    InsertMembers(run, r);
    var found, before := Lookup(Insert(run, r), k), Lookup(run, k);
    assert k != r.key && before.Some? ==> before.value in Insert(run, r);
    if k == r.key {
      LookupMember(Insert(run, r), r);
    } else if found.Some? {
      LookupMember(run, found.value);
    }
  }

  /** The run left by a log of writes, each replacing the one before it under its key. */
  function Fold(log: seq<Record>): (run: Run)
  {
    if log == [] then [] else Insert(Fold(log[..|log| - 1]), log[|log| - 1])
  }

  lemma {:induction false} FoldSorted(log: seq<Record>)
    ensures Sorted(Fold(log))
    ensures forall r :: r in Fold(log) ==> r in log
    ensures log != [] ==> Fold(log) != []
  {
    if log != [] {
      var rest := log[..|log| - 1];
      FoldSorted(rest);
      InsertMembers(Fold(rest), log[|log| - 1]);
    }
  }

  /** The last write to a key in a log. */
  function Last(log: seq<Record>, k: Key): (found: Option<Record>)
    ensures found.Some? ==> found.value in log && found.value.key == k
    ensures found.None? ==> forall r :: r in log ==> r.key != k
  {
    if log == [] then None
    else if log[|log| - 1].key == k then Some(log[|log| - 1])
    else
      assert log == log[..|log| - 1] + [log[|log| - 1]];
      Last(log[..|log| - 1], k)
  }

  lemma {:induction false} FoldLookup(log: seq<Record>, k: Key)
    ensures Lookup(Fold(log), k) == Last(log, k)
  {
    if log != [] {
      var rest := log[..|log| - 1];
      FoldSorted(rest);
      FoldLookup(rest, k);
      InsertLookup(Fold(rest), log[|log| - 1], k);
    }
  }

  lemma {:induction false} LastConcat(a: seq<Record>, b: seq<Record>, k: Key)
    ensures Last(a + b, k) == if Last(b, k).Some? then Last(b, k) else Last(a, k)
  {
    if b == [] {
      assert a + b == a;
    } else {
      assert (a + b)[..|a + b| - 1] == a + b[..|b| - 1];
      LastConcat(a, b[..|b| - 1], k);
    }
  }

  // ----- Reading several runs ----------------------------------------------------

  /** The value a reader sees: nothing under a missing key or a tombstone. */
  function Visible(found: Option<Record>): Option<Bytes> {
    if found.Some? && found.value.kind == Put then Some(found.value.value) else None
  }

  function Newer(a: Option<Record>, b: Option<Record>): (r: Option<Record>) {
    if a.None? then b
    else if b.Some? && b.value.sequence > a.value.sequence then b
    else a
  }

  /** The record of a key with the greatest sequence number among several runs. */
  function Newest(runs: seq<Run>, k: Key): (r: Option<Record>)
    ensures r.Some? ==> r.value.key == k && exists i :: 0 <= i < |runs| && r.value in runs[i]
    ensures forall i :: 0 <= i < |runs| && Lookup(runs[i], k).Some? ==>
              r.Some? && Lookup(runs[i], k).value.sequence <= r.value.sequence
  {
    if runs == [] then None
    else
      var rest := Newest(runs[1..], k);
      assert forall i :: 0 < i < |runs| ==> runs[i] == runs[1..][i - 1];
      Newer(Lookup(runs[0], k), rest)
  }

  predicate SequencesAscend(log: seq<Record>) {
    forall i, j :: 0 <= i < j < |log| ==> log[i].sequence < log[j].sequence
  }

  /** Several runs one after the other. */
  function Flatten(runs: seq<Run>): Run {
    if runs == [] then [] else Flatten(runs[..|runs| - 1]) + runs[|runs| - 1]
  }

  lemma SortedParts(a: Run, b: Run)
    requires Sorted(a + b)
    ensures Sorted(a) && Sorted(b)
    ensures forall x, y :: x in a && y in b ==> Less(x.key, y.key)
  {
    var all := a + b;
    forall i, j | 0 <= i < j < |b| ensures Less(b[i].key, b[j].key) {
      assert all[|a| + i] == b[i] && all[|a| + j] == b[j];
    }
    assert forall i :: 0 <= i < |a| ==> all[i] == a[i];
    forall x, y | x in a && y in b ensures Less(x.key, y.key) {
      var i :| 0 <= i < |a| && a[i] == x;
      var j :| 0 <= j < |b| && b[j] == y;
      assert all[i] == x && all[|a| + j] == y;
    }
  }

  lemma {:induction false} FlattenMembers(runs: seq<Run>, i: nat, r: Record)
    requires i < |runs| && r in runs[i]
    ensures r in Flatten(runs)
  {
    var n := |runs| - 1;
    if i < n {
      assert runs[..n][i] == runs[i];
      FlattenMembers(runs[..n], i, r);
    }
  }

  lemma {:induction false} FlattenSorted(runs: seq<Run>, i: nat)
    requires Sorted(Flatten(runs)) && i < |runs|
    ensures Sorted(runs[i])
  {
    var n := |runs| - 1;
    SortedParts(Flatten(runs[..n]), runs[n]);
    if i < n {
      assert runs[..n][i] == runs[i];
      FlattenSorted(runs[..n], i);
    }
  }

  lemma {:induction false} FlattenApart(runs: seq<Run>, i: nat, j: nat, r: Record, s: Record)
    requires Sorted(Flatten(runs)) && i < j < |runs| && r in runs[i] && s in runs[j]
    ensures Less(r.key, s.key)
  {
    var n := |runs| - 1;
    SortedParts(Flatten(runs[..n]), runs[n]);
    assert runs[..n][i] == runs[i];
    if j < n {
      assert runs[..n][j] == runs[j];
      FlattenApart(runs[..n], i, j, r, s);
    } else {
      FlattenMembers(runs[..n], i, r);
    }
  }
}
