/** What flushing does to the meaning of the tables, and what a layered lookup finds. */
module Meaning {
  import opened Keys
  import opened Runs
  import opened WalLog
  import opened Versions
  import opened Compaction
  import opened Durability

  ghost predicate SequencesAtMost(runs: seq<Run>, last: nat) {
    forall i, r :: 0 <= i < |runs| && r in runs[i] ==> r.sequence <= last
  }

  /** A run of newer records hides the older runs under its keys. */
  lemma NewerRunHides(runs: seq<Run>, log: seq<Record>, last: nat, k: Key)
    requires SequencesAtMost(runs, last) && Rising(log, last)
    ensures Newest(runs + [Fold(log)], k) ==
            if Last(log, k).Some? then Last(log, k) else Newest(runs, k)
  {
    hide Lookup, Newest, Last, Fold;
    NewestConcat(runs, [Fold(log)], k);
    NewestOne(Fold(log), k);
    FoldLookup(log, k);
    var found, older := Last(log, k), Newest(runs, k);
    if found.Some? && older.Some? {
      assert found.value in log;
      var i :| 0 <= i < |log| && log[i] == found.value;
      assert older.value.sequence <= last < found.value.sequence;
    }
  }

  /** Flushing a log into a new newest run: the runs now mean the longer log. */
  lemma FlushMeans(runs: seq<Run>, log: seq<Record>, frozen: seq<Record>, last: nat)
    requires Means(runs, log) && SequencesAtMost(runs, last) && Rising(frozen, last)
    ensures Means(runs + [Fold(frozen)], log + frozen)
  {
    hide Newest, Last, Fold;
    forall k ensures Visible(Newest(runs + [Fold(frozen)], k)) == Visible(Last(log + frozen, k)) {
      NewerRunHides(runs, frozen, last, k);
      LastConcat(log, frozen, k);
    }
  }

  /** The greatest sequence number of a rising log's run is that of its last record. */
  lemma FoldMaximum(log: seq<Record>, floor: nat)
    requires log != [] && Rising(log, floor)
    ensures log[|log| - 1] in Fold(log)
    ensures forall r :: r in Fold(log) ==> r.sequence <= LastSequence(log)
  {
    var n := |log| - 1;
    FoldSorted(log);
    FoldSorted(log[..n]);
    InsertMembers(Fold(log[..n]), log[n]);
    forall r | r in Fold(log) ensures r.sequence <= LastSequence(log) {
      var i :| 0 <= i < |log| && log[i] == r;
    }
  }

  /** Compaction keeps the meaning. */
  lemma CompactionMeans(v: Version, runs: seq<Run>, log: seq<Record>, maxKeySize: nat, range: KeyRange, outputs: seq<Run>)
    requires SoundVersion(v, maxKeySize) && Described(v.tables, runs) && LevelZeroRange(v.tables) == Some(range)
    requires MergedOutputs(Select(runs, Picks(v.tables, range), true), outputs) && Means(runs, log)
    ensures Means(Select(runs, Picks(v.tables, range), false) + outputs, log)
  {
    hide Newest, Last, Select, Picks, MergedOutputs, SoundVersion, LevelZeroRange;
    var after := Select(runs, Picks(v.tables, range), false) + outputs;
    forall k ensures Visible(Newest(after, k)) == Visible(Last(log, k)) {
      CompactionPreserves(v, runs, maxKeySize, range, outputs, k);
    }
  }
}
