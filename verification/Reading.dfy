/** What a point read finds in the layers of a database (src/database.cpp:663-727). */
module Reading {
  import opened Configuration
  import opened Keys
  import opened Runs
  import opened WalLog
  import opened Versions
  import opened Compaction
  import opened Tables
  import opened TableReader
  import opened Durability
  import opened Engine
  import opened FlushSteps
  import opened CompactionSteps

  /** The first layer that has the key: the MemTable, the Immutable, then the newest table record. */
  function Layered(mutable: Run, immutable: Option<Immutable>, runs: seq<Run>, k: Key): Option<Record> {
    if Lookup(mutable, k).Some? then Lookup(mutable, k)
    else if immutable.Some? && Lookup(immutable.value.records, k).Some? then Lookup(immutable.value.records, k)
    else Newest(runs, k)
  }

  lemma LayeredCases(mutable: Run, immutable: Option<Immutable>, runs: seq<Run>, k: Key)
    ensures Layered(mutable, immutable, runs, k) ==
            if Lookup(mutable, k).Some? then Lookup(mutable, k)
            else if immutable.Some? && Lookup(immutable.value.records, k).Some? then Lookup(immutable.value.records, k)
            else Newest(runs, k)
  {
    hide Lookup, Newest;
  }

  /** Reading the layers shows what the last write to the key in the log shows. */
  lemma LayeredIsLast(m: Memory, l: Logs, o: Options, k: Key)
    requires MemoryOk(m, l, o)
    ensures Visible(Layered(m.mutable, m.immutable, RunsOf(m.readers, o), k)) == Visible(Last(LogOf(m, l), k))
  {
    hide *;
    MemoryParts(m, l, o);
    ReadersParts(m, l, o);
    StoredMeans(StoredOf(m, l, o), o);
    MeansAt(RunsOf(m.readers, o), l.tables, k);
    MutableLookup(m, l, o, k);
    LayeredParts(m, l, o, k);
    LogParts(m, l, o, k);
  }

  lemma MeansAt(runs: seq<Run>, log: seq<Record>, k: Key)
    requires Means(runs, log)
    ensures Visible(Newest(runs, k)) == Visible(Last(log, k))
  {
    hide Visible, Newest, Last;
  }

  lemma MutableLookup(m: Memory, l: Logs, o: Options, k: Key)
    requires ActiveLogOk(m, l, o) && FrozenLogOk(m, l, o)
    ensures Lookup(m.mutable, k) == Last(l.active, k)
    ensures m.immutable.Some? ==> Lookup(m.immutable.value.records, k) == Last(l.frozen, k)
  {
    hide Fold, Lookup, Last, AllEncodable, Rising;
    FoldLookup(l.active, k);
    FoldLookup(l.frozen, k);
  }

  lemma LayeredParts(m: Memory, l: Logs, o: Options, k: Key)
    requires Lookup(m.mutable, k) == Last(l.active, k)
    requires m.immutable.Some? ==> Lookup(m.immutable.value.records, k) == Last(l.frozen, k)
    ensures Layered(m.mutable, m.immutable, RunsOf(m.readers, o), k) ==
            if Last(l.active, k).Some? then Last(l.active, k)
            else if m.immutable.Some? && Last(l.frozen, k).Some? then Last(l.frozen, k)
            else Newest(RunsOf(m.readers, o), k)
  {
    hide Lookup, Last, Newest, RunsOf;
  }

  /** The last write of the log, layer by layer; the Immutable's records end the tables' log once published. */
  lemma LogParts(m: Memory, l: Logs, o: Options, k: Key)
    requires FrozenLogOk(m, l, o)
    ensures Last(LogOf(m, l), k) ==
            if Last(l.active, k).Some? then Last(l.active, k)
            else if m.immutable.Some? && Last(l.frozen, k).Some? then Last(l.frozen, k)
            else Last(l.tables, k)
  {
    hide Last, Fold, AllEncodable, Rising;
    if m.Flushing() {
      LastConcat(l.tables + l.frozen, l.active, k);
      LastConcat(l.tables, l.frozen, k);
    } else {
      assert l.tables + [] == l.tables;
      LastConcat(l.tables, l.active, k);
      if m.immutable.Some? {
        var older := l.tables[..|l.tables| - |l.frozen|];
        assert l.tables == older + l.frozen;
        LastConcat(older, l.frozen, k);
      }
    }
  }

  /** Without ties it does not matter which of two tables is looked at first. */
  lemma NewestStep(runs: seq<Run>, i: nat, k: Key)
    requires i < |runs| && Distinct(runs)
    ensures var newest, found := Newest(runs[i + 1..], k), Lookup(runs[i], k);
            Newest(runs[i..], k) ==
              if found.Some? && (newest.None? || found.value.sequence > newest.value.sequence) then found else newest
  {
    hide Lookup, Distinct;
    assert runs[i..][1..] == runs[i + 1..];
    LaterDiffers(runs, i, k);
  }

  lemma LaterDiffers(runs: seq<Run>, i: nat, k: Key)
    requires i < |runs| && Distinct(runs)
    ensures var newest, found := Newest(runs[i + 1..], k), Lookup(runs[i], k);
            newest.Some? && found.Some? ==> found.value.sequence != newest.value.sequence
  {
    hide Lookup, Newest;
    var newest, found := Newest(runs[i + 1..], k), Lookup(runs[i], k);
    if newest.Some? && found.Some? {
      var j :| 0 <= j < |runs[i + 1..]| && newest.value in runs[i + 1..][j];
      assert newest.value in runs[i + 1 + j] && found.value in runs[i];
    }
  }

  /** The loop over the tables, newest file first. */
  method NewestInTables(readers: seq<Reader>, key: Key, o: Options) returns (newest: Option<Record>)
    requires Distinct(RunsOf(readers, o)) && forall i :: 0 <= i < |readers| ==> Opened(readers[i], o)
    ensures newest == Newest(RunsOf(readers, o), key)
  {
    ghost var runs := RunsOf(readers, o);
    hide Lookup, Newest, Distinct, Contents, RunsOf, Opened;
    newest := None;
    NewestOfNone(key);
    assert runs[|runs|..] == [];
    for i := |readers| downto 0
      invariant newest == Newest(runs[i..], key)
    {
      NewestStep(runs, i, key);
      var valid, found := TableReader.Get(readers[i], key, o);
      if found.Some? && (newest.None? || found.value.sequence > newest.value.sequence) {
        newest := found;
      }
    }
    assert runs[0..] == runs;
  }

  lemma NewestOfNone(k: Key)
    ensures Newest([], k) == None
  {
  }

  lemma ReadersDistinct(m: Memory, l: Logs, o: Options)
    requires ReadersOk(m, l, o)
    ensures Distinct(RunsOf(m.readers, o)) && forall i :: 0 <= i < |m.readers| ==> Opened(m.readers[i], o)
  {
    hide Opened, Means, ValidVersion, Described, RunsOf;
  }
}
