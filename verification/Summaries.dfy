/** How a table's summary describes its records. */
module Summaries {
  import opened Keys
  import opened Runs
  import opened Versions

  function MinimumSequence(run: Run): (s: nat)
    requires run != []
    ensures forall r :: r in run ==> s <= r.sequence
    ensures exists r :: r in run && r.sequence == s
  {
    if |run| == 1 then
      assert run[0] in run;
      run[0].sequence
    else
      var rest, last := run[..|run| - 1], run[|run| - 1];
      assert run == rest + [last];
      assert last in run && forall r :: r in rest ==> r in run;
      var m := MinimumSequence(rest);
      if last.sequence < m then last.sequence else m
  }

  function MaximumSequence(run: Run): (s: nat)
    requires run != []
    ensures forall r :: r in run ==> r.sequence <= s
    ensures exists r :: r in run && r.sequence == s
  {
    if |run| == 1 then
      assert run[0] in run;
      run[0].sequence
    else
      var rest, last := run[..|run| - 1], run[|run| - 1];
      assert run == rest + [last];
      assert last in run && forall r :: r in rest ==> r in run;
      var m := MaximumSequence(rest);
      if last.sequence > m then last.sequence else m
  }

  lemma MinimumHolder(run: Run) returns (r: Record)
    requires run != []
    ensures r in run && r.sequence == MinimumSequence(run)
  {
    var s := MinimumSequence(run);
    r :| r in run && r.sequence == s;
  }

  lemma MaximumHolder(run: Run) returns (r: Record)
    requires run != []
    ensures r in run && r.sequence == MaximumSequence(run)
  {
    var s := MaximumSequence(run);
    r :| r in run && r.sequence == s;
  }

  /** The summary that a table of these records has. */
  function SummaryOf(generation: nat, run: Run, fileSize: nat): TableSummary
    requires run != []
  {
    TableSummary(generation, fileSize, |run|, MinimumSequence(run), MaximumSequence(run),
                 run[0].key, run[|run| - 1].key)
  }

  ghost predicate Describes(s: TableSummary, run: Run) {
    run != [] && Sorted(run) && s == SummaryOf(s.generation, run, s.fileSize)
  }

  /** The records of a described run lie in its key range. */
  lemma InSummaryRange(s: TableSummary, run: Run, k: Key)
    requires Describes(s, run) && Lookup(run, k).Some?
    ensures AtMost(s.minimumKey, k) && AtMost(k, s.maximumKey)
  {
    var r := Lookup(run, k).value;
    var i :| 0 <= i < |run| && run[i] == r;
    assert i > 0 ==> Less(run[0].key, run[i].key);
    assert i < |run| - 1 ==> Less(run[i].key, run[|run| - 1].key);
  }
}
