/** Publishing the outputs of a compaction (src/compaction.cpp:204-298). */
module CompactionTables {
  import opened Coding
  import opened Configuration
  import opened Keys
  import opened Runs
  import opened WalLog
  import opened Tables
  import opened TableBuilder
  import opened TableReader
  import opened FileSystem
  import opened Durability
  import opened Claims
  import opened Engine
  import opened EngineSteps
  import opened FlushSteps
  import opened CompactionSteps
  import opened Disks
  import opened Publishing
  import opened DatabaseSteps

  /** No view reads the tables from `first` on, whatever they hold. */
  ghost predicate Spare(c: Claim, first: nat, count: nat) {
    && c.Running? && c.candidate == None
    && forall g: nat :: first <= g < first + count ==> Table(g) !in c.pins && !Relevant(Table(g), c.stored.version)
  }

  ghost predicate TemporariesPlaced(fs: FileSystem, first: nat, encoded: seq<Bytes>, low: nat, high: nat) {
    forall i :: low <= i < high <= |encoded| ==> Placed(fs, TableTemporary(first + i), encoded[i])
  }

  ghost predicate TablesPlaced(fs: FileSystem, first: nat, encoded: seq<Bytes>, count: nat) {
    forall i :: 0 <= i < count <= |encoded| ==> Placed(fs, Table(first + i), encoded[i])
  }

  lemma PlacedNowIff(fs: FileSystem, n: FileName, content: Bytes)
    requires DirectoryOk(fs.Current(), |fs.files|)
    ensures Placed(fs, n, content) <==> n in Now(fs) && Now(fs)[n] == StableFile(content)
  {
    hide PerformAll;
  }

  lemma ClaimCurrent(fs: FileSystem, c: Claim, h: History, o: Options)
    requires Keeps(fs, c, h, o)
    ensures DirectoryOk(fs.Current(), |fs.files|) && fs.Ok() && Recoverable(fs, h, o)
  {
    ClaimOk(fs, c, h, o);
    hide *;
    CurrentClaim(fs, c, h, o);
  }

  /** A file placed under another name stays placed. */
  lemma PlacedBeside(before: FileSystem, after: FileSystem, changed: FileName, n: FileName, content: Bytes)
    requires DirectoryOk(before.Current(), |before.files|) && DirectoryOk(after.Current(), |after.files|)
    requires SameExcept(Now(before), Now(after), changed) && n != changed && Placed(before, n, content)
    ensures Placed(after, n, content)
  {
    PlacedNowIff(before, n, content);
    PlacedNowIff(after, n, content);
    hide Placed, Now, DirectoryOk;
  }

  lemma TemporariesBeside(before: FileSystem, after: FileSystem, first: nat, encoded: seq<Bytes>, count: nat)
    requires DirectoryOk(before.Current(), |before.files|) && DirectoryOk(after.Current(), |after.files|)
    requires SameExcept(Now(before), Now(after), TableTemporary(first + count)) && count <= |encoded|
    requires TemporariesPlaced(before, first, encoded, 0, count)
    ensures TemporariesPlaced(after, first, encoded, 0, count)
  {
    hide Placed, Now, DirectoryOk, SameExcept;
    forall i | 0 <= i < count ensures Placed(after, TableTemporary(first + i), encoded[i]) {
      assert Placed(before, TableTemporary(first + i), encoded[i]);
      PlacedBeside(before, after, TableTemporary(first + count), TableTemporary(first + i), encoded[i]);
    }
  }

  lemma NowMove(fs: FileSystem, source: FileName, target: FileName)
    requires DirectoryOk(fs.Current(), |fs.files|) && source in fs.Current() && source != target
    ensures Now(fs.Issue(Move(source, target))) == (Now(fs) - {source})[target := fs.files[fs.Current()[source]]]
  {
    hide PerformAll;
    ViewAfterIssue(fs, Move(source, target), |fs.pending| + 1);
    ImageMove(fs.Current(), fs.files, source, target);
  }

  /** One rename of the second pass. */
  lemma MovedOne(fs: FileSystem, first: nat, encoded: seq<Bytes>, i: nat)
    requires DirectoryOk(fs.Current(), |fs.files|) && i < |encoded|
    requires TablesPlaced(fs, first, encoded, i) && TemporariesPlaced(fs, first, encoded, i, |encoded|)
    requires DirectoryOk(fs.Issue(Move(TableTemporary(first + i), Table(first + i))).Current(), |fs.files|)
    ensures TableTemporary(first + i) in fs.Current()
    ensures var after := fs.Issue(Move(TableTemporary(first + i), Table(first + i)));
            TablesPlaced(after, first, encoded, i + 1) && TemporariesPlaced(after, first, encoded, i + 1, |encoded|)
  {
    var source, target := TableTemporary(first + i), Table(first + i);
    var after := fs.Issue(Move(source, target));
    assert Placed(fs, source, encoded[i]);
    PlacedIn(fs, source, encoded[i]);
    NowMove(fs, source, target);
    hide Placed, Now, DirectoryOk, Perform;
    assert after.files == fs.files;
    forall j | 0 <= j < i + 1 ensures Placed(after, Table(first + j), encoded[j]) {
      if j < i { PlacedNowIff(fs, Table(first + j), encoded[j]); }
      PlacedNowIff(after, Table(first + j), encoded[j]);
    }
    forall j | i + 1 <= j < |encoded| ensures Placed(after, TableTemporary(first + j), encoded[j]) {
      PlacedNowIff(fs, TableTemporary(first + j), encoded[j]);
      PlacedNowIff(after, TableTemporary(first + j), encoded[j]);
    }
  }

  lemma SpareStale(fs: FileSystem, first: nat, count: nat, i: nat, c: Claim, h: History, o: Options)
    requires Keeps(fs, c, h, o) && Spare(c, first, count) && i < count
    ensures Stale(Table(first + i), ImageOf(fs.Current(), fs.files), c, h, o)
  {
    CurrentClaim(fs, c, h, o);
    hide Keeps, ViewHolds, Relevant, PerformAll, DirectoryOk;
  }

  /** What every step keeps: the claim, and the logs as they were. */
  ghost predicate Steady(fs: FileSystem, start: FileSystem, c: Claim, h: History, o: Options) {
    Keeps(fs, c, h, o) && WalFrame(start, fs)
  }

  lemma SteadyParts(fs: FileSystem, start: FileSystem, c: Claim, h: History, o: Options)
    requires Steady(fs, start, c, h, o)
    ensures Keeps(fs, c, h, o) && WalFrame(start, fs)
    ensures DirectoryOk(fs.Current(), |fs.files|) && fs.Ok() && Recoverable(fs, h, o)
  {
    hide *;
    SteadyIs(fs, start, c, h, o);
    ClaimCurrent(fs, c, h, o);
  }

  lemma SteadyIs(fs: FileSystem, start: FileSystem, c: Claim, h: History, o: Options)
    ensures Steady(fs, start, c, h, o) <==> Keeps(fs, c, h, o) && WalFrame(start, fs)
  {
    hide Keeps, WalFrame;
  }

  lemma WritingSteady(fs: FileSystem, before: FileSystem, start: FileSystem, name: FileName, c: Claim, h: History, o: Options)
    requires Writing(fs, before, name, c, h, o) && Steady(before, start, c, h, o)
    ensures Steady(fs, start, c, h, o) && SameExcept(Now(before), Now(fs), name)
  {
    hide *;
    WritingParts(fs, before, name, c, h, o);
    SteadyIs(before, start, c, h, o);
    WalFrameTransitive(start, before, fs);
    SteadyIs(fs, start, c, h, o);
  }

  lemma MovedSteady(fs: FileSystem, start: FileSystem, first: nat, count: nat, i: nat, c: Claim, h: History, o: Options)
    requires Steady(fs, start, c, h, o) && Spare(c, first, count) && i < count && TableTemporary(first + i) in fs.Current()
    ensures Steady(fs.Issue(Move(TableTemporary(first + i), Table(first + i))), start, c, h, o)
  {
    hide *;
    SteadyIs(fs, start, c, h, o);
    SpareStale(fs, first, count, i, c, h, o);
    TableNames(first + i);
    MoveStaleKeeps(fs, TableTemporary(first + i), Table(first + i), c, h, o);
    IssueFrame(fs, Move(TableTemporary(first + i), Table(first + i)));
    WalFrameTransitive(start, fs, fs.Issue(Move(TableTemporary(first + i), Table(first + i))));
    SteadyIs(fs.Issue(Move(TableTemporary(first + i), Table(first + i))), start, c, h, o);
  }

  lemma SyncedSteady(fs: FileSystem, start: FileSystem, c: Claim, h: History, o: Options)
    requires Steady(fs, start, c, h, o)
    ensures Steady(fs.SyncDirectory(), start, c, h, o)
  {
    hide *;
    SteadyIs(fs, start, c, h, o);
    SyncKeeps(fs, c, h, o);
    SyncFrame(fs);
    WalFrameTransitive(start, fs, fs.SyncDirectory());
    SteadyIs(fs.SyncDirectory(), start, c, h, o);
  }

  lemma TablesSynced(fs: FileSystem, first: nat, encoded: seq<Bytes>)
    requires TablesPlaced(fs, first, encoded, |encoded|)
    ensures TablesPlaced(fs.SyncDirectory(), first, encoded, |encoded|)
  {
    hide Placed;
    forall i | 0 <= i < |encoded| ensures Placed(fs.SyncDirectory(), Table(first + i), encoded[i]) {
      SyncedPlaced(fs, Table(first + i), encoded[i]);
    }
  }

  // ----- Methods ----------------------------------------------------------------------------------

  /** What EncodeTable accepts of every output. */
  ghost predicate OutputsEncodable(outputs: seq<Run>, o: Options) {
    forall i :: 0 <= i < |outputs| ==> Sorted(outputs[i]) && AllEncodable(outputs[i], o)
  }

  ghost predicate EncodedAs(first: nat, outputs: seq<Run>, encoded: seq<Bytes>, o: Options) {
    && |encoded| <= |outputs|
    && forall i :: 0 <= i < |encoded| ==>
         TableEncodable(first + i, outputs[i], o) && encoded[i] == TableBytes(first + i, outputs[i], o)
  }

  method EncodeOutputs(first: nat, outputs: seq<Run>, o: Options) returns (ok: bool, encoded: seq<Bytes>)
    requires OutputsEncodable(outputs, o) && o.Valid()
    ensures ok ==> |encoded| == |outputs| && EncodedAs(first, outputs, encoded, o)
    ensures (forall i :: 0 <= i < |outputs| ==> TableEncodable(first + i, outputs[i], o)) ==> ok
  {
    hide TableEncodable, TableBytes, Sorted, AllEncodable;
    encoded := [];
    for i := 0 to |outputs|
      invariant |encoded| == i && EncodedAs(first, outputs, encoded, o)
    {
      var bytes;
      ok, bytes := EncodeTable(first + i, outputs[i], o);
      if !ok {
        return;
      }
      encoded := encoded + [bytes];
    }
    ok := true;
  }

  /** Removes every temporary file of the outputs, as far as the environment lets it. */
  method RemoveTemporaries(disk: Disk, first: nat, count: nat, ghost start: FileSystem, ghost c: Claim)
    requires disk.Safe() && Steady(disk.fs, start, c, disk.history, disk.options)
    modifies disk
    ensures old(disk.trace) <= disk.trace && old(disk.calls) <= disk.calls && old(disk.failures) <= disk.failures
    ensures disk.Safe() && disk.history == old(disk.history)
    ensures Steady(disk.fs, start, c, disk.history, disk.options)
  {
    hide *;
    for i := 0 to count
      invariant old(disk.trace) <= disk.trace && old(disk.calls) <= disk.calls && old(disk.failures) <= disk.failures
      invariant disk.Safe() && disk.history == old(disk.history)
      invariant Steady(disk.fs, start, c, disk.history, disk.options)
    {
      ghost var before := disk.fs;
      SteadyParts(before, start, c, disk.history, disk.options);
      WritingSelf(before, TableTemporary(first + i), c, disk.history, disk.options);
      TableNames(first + i);
      BestEffortRemove(disk, TableTemporary(first + i), before, c);
      WritingSteady(disk.fs, before, start, TableTemporary(first + i), c, disk.history, disk.options);
    }
  }

  /** First pass: every output under its temporary name, synced. */
  method WriteOutputs(disk: Disk, first: nat, encoded: seq<Bytes>, ghost start: FileSystem, ghost c: Claim) returns (ok: bool)
    requires disk.Safe() && Steady(disk.fs, start, c, disk.history, disk.options)
    modifies disk
    ensures old(disk.trace) <= disk.trace && old(disk.calls) <= disk.calls && old(disk.failures) <= disk.failures
    ensures disk.Safe() && disk.history == old(disk.history)
    ensures Steady(disk.fs, start, c, disk.history, disk.options)
    ensures ok ==> TemporariesPlaced(disk.fs, first, encoded, 0, |encoded|)
    ensures disk.failures == old(disk.failures) || disk.Quiet(old(disk.calls), 3 * |encoded|) ==> ok
    ensures ok ==> disk.calls == old(disk.calls) + 3 * |encoded| && disk.failures == old(disk.failures)
  {
    NothingPlaced(disk.fs, first, encoded);
    hide *;
    for i := 0 to |encoded|
      invariant old(disk.trace) <= disk.trace && old(disk.calls) <= disk.calls && old(disk.failures) <= disk.failures
      invariant disk.calls == old(disk.calls) + 3 * i && disk.failures == old(disk.failures)
      invariant disk.Safe() && disk.history == old(disk.history)
      invariant Steady(disk.fs, start, c, disk.history, disk.options)
      invariant TemporariesPlaced(disk.fs, first, encoded, 0, i)
    {
      ghost var before, name := disk.fs, TableTemporary(first + i);
      SteadyParts(before, start, c, disk.history, disk.options);
      TableNames(first + i);
      QuietPart(disk, old(disk.calls), 3 * |encoded|, disk.calls, 3);
      ok := WriteTemporary(disk, TableTemporary(first + i), encoded[i], c);
      WritingSteady(disk.fs, before, start, name, c, disk.history, disk.options);
      if !ok {
        RemoveTemporaries(disk, first, |encoded|, start, c);
        return;
      }
      SteadyParts(disk.fs, start, c, disk.history, disk.options);
      TemporariesBeside(before, disk.fs, first, encoded, i);
      OneMorePlaced(disk.fs, first, encoded, i);
    }
    ok := true;
  }

  lemma NothingPlaced(fs: FileSystem, first: nat, encoded: seq<Bytes>)
    ensures TemporariesPlaced(fs, first, encoded, 0, 0) && TablesPlaced(fs, first, encoded, 0)
  {
  }

  lemma OneMorePlaced(fs: FileSystem, first: nat, encoded: seq<Bytes>, i: nat)
    requires i < |encoded| && TemporariesPlaced(fs, first, encoded, 0, i) && Placed(fs, TableTemporary(first + i), encoded[i])
    ensures TemporariesPlaced(fs, first, encoded, 0, i + 1)
  {
    hide Placed;
  }

  /** Second pass: every output to its final name. */
  method RenameOutputs(disk: Disk, first: nat, ghost encoded: seq<Bytes>, count: nat, ghost start: FileSystem, ghost c: Claim)
    returns (ok: bool)
    requires disk.Safe() && Steady(disk.fs, start, c, disk.history, disk.options) && count == |encoded|
    requires Spare(c, first, count) && TemporariesPlaced(disk.fs, first, encoded, 0, |encoded|)
    modifies disk
    ensures old(disk.trace) <= disk.trace && old(disk.calls) <= disk.calls && old(disk.failures) <= disk.failures
    ensures disk.Safe() && disk.history == old(disk.history)
    ensures Steady(disk.fs, start, c, disk.history, disk.options)
    ensures ok ==> TablesPlaced(disk.fs, first, encoded, |encoded|)
    ensures disk.failures == old(disk.failures) || disk.Quiet(old(disk.calls), count) ==> ok
    ensures ok ==> disk.calls == old(disk.calls) + count && disk.failures == old(disk.failures)
  {
    NothingPlaced(disk.fs, first, encoded);
    hide *;
    for i := 0 to count
      invariant old(disk.trace) <= disk.trace && old(disk.calls) <= disk.calls && old(disk.failures) <= disk.failures
      invariant disk.calls == old(disk.calls) + i && disk.failures == old(disk.failures)
      invariant disk.Safe() && disk.history == old(disk.history)
      invariant Steady(disk.fs, start, c, disk.history, disk.options)
      invariant TablesPlaced(disk.fs, first, encoded, i) && TemporariesPlaced(disk.fs, first, encoded, i, |encoded|)
    {
      ghost var before := disk.fs;
      ghost var after := before.Issue(Move(TableTemporary(first + i), Table(first + i)));
      SteadyParts(before, start, c, disk.history, disk.options);
      TemporaryNamed(before, first, encoded, i);
      MovedSteady(before, start, first, count, i, c, disk.history, disk.options);
      SteadyParts(after, start, c, disk.history, disk.options);
      QuietCall(disk, old(disk.calls), count, disk.calls);
      ok := disk.Rename(TableTemporary(first + i), Table(first + i));
      if !ok {
        RemoveTemporaries(disk, first, count, start, c);
        return;
      }
      IssuedFiles(before, Move(TableTemporary(first + i), Table(first + i)));
      MovedOne(before, first, encoded, i);
    }
    ok := true;
  }

  lemma IssuedFiles(fs: FileSystem, op: DirectoryOp)
    ensures fs.Issue(op).files == fs.files
  {
  }

  lemma TemporaryNamed(fs: FileSystem, first: nat, encoded: seq<Bytes>, i: nat)
    requires i < |encoded| && TemporariesPlaced(fs, first, encoded, i, |encoded|)
    ensures TableTemporary(first + i) in fs.Current()
  {
    hide Placed, PerformAll;
    PlacedIn(fs, TableTemporary(first + i), encoded[i]);
  }

  /** Opens the published outputs. */
  method OpenOutputs(disk: Disk, first: nat, outputs: seq<Run>, ghost encoded: seq<Bytes>) returns (ok: bool, readers: seq<Reader>)
    requires disk.Safe() && disk.options.Valid() && |encoded| == |outputs|
    requires OutputsEncodable(outputs, disk.options) && EncodedAs(first, outputs, encoded, disk.options)
    requires TablesPlaced(disk.fs, first, encoded, |encoded|) && forall i :: 0 <= i < |outputs| ==> outputs[i] != []
    modifies disk
    ensures old(disk.trace) <= disk.trace && old(disk.calls) <= disk.calls && old(disk.failures) <= disk.failures
    ensures disk.Safe() && disk.history == old(disk.history) && disk.fs == old(disk.fs)
    ensures ok ==> |readers| == |outputs| &&
                   forall i :: 0 <= i < |readers| ==> BuiltTable(readers[i], first + i, outputs[i], disk.options)
    ensures disk.failures == old(disk.failures) || disk.Quiet(old(disk.calls), |outputs|) ==> ok
    ensures ok ==> disk.calls == old(disk.calls) + |outputs| && disk.failures == old(disk.failures)
  {
    hide *;
    readers := [];
    for i := 0 to |outputs|
      invariant old(disk.trace) <= disk.trace && old(disk.calls) <= disk.calls && old(disk.failures) <= disk.failures
      invariant disk.calls == old(disk.calls) + i && disk.failures == old(disk.failures)
      invariant disk.Safe() && disk.history == old(disk.history) && disk.fs == old(disk.fs)
      invariant |readers| == i && forall j :: 0 <= j < i ==> BuiltTable(readers[j], first + j, outputs[j], disk.options)
    {
      OutputBuilt(disk.fs, first, outputs, encoded, i, disk.options);
      var content;
      QuietCall(disk, old(disk.calls), |outputs|, disk.calls);
      ok, content := disk.Read(disk.fs.Current()[Table(first + i)]);
      if !ok {
        readers := [];
        return;
      }
      var reader := Load(content, disk.options);
      readers := readers + [reader.value];
    }
    ok := true;
  }

  lemma OutputBuilt(fs: FileSystem, first: nat, outputs: seq<Run>, encoded: seq<Bytes>, i: nat, o: Options)
    requires o.Valid() && i < |outputs| == |encoded| && OutputsEncodable(outputs, o)
    requires EncodedAs(first, outputs, encoded, o) && TablesPlaced(fs, first, encoded, |encoded|) && outputs[i] != []
    ensures Table(first + i) in fs.Current() && fs.Current()[Table(first + i)] < |fs.files|
    ensures var rd := OpenTable(fs.files[fs.Current()[Table(first + i)]].current, o);
            rd.Some? && BuiltTable(rd.value, first + i, outputs[i], o)
  {
    hide TableEncodable, TableBytes, OpenTable, BuiltTable, Placed, PerformAll, Sorted, AllEncodable;
    PlacedIn(fs, Table(first + i), encoded[i]);
    BytesBuilt(first + i, outputs[i], o);
  }

  method PublishCompactionTables(disk: Disk, first: nat, outputs: seq<Run>, ghost c: Claim)
    returns (ok: bool, readers: seq<Reader>, ghost encoded: seq<Bytes>)
    requires disk.Safe() && disk.options.Valid() && Keeps(disk.fs, c, disk.history, disk.options)
    requires Spare(c, first, |outputs|) && OutputsEncodable(outputs, disk.options)
    requires forall i :: 0 <= i < |outputs| ==> outputs[i] != []
    modifies disk
    ensures old(disk.trace) <= disk.trace && old(disk.calls) <= disk.calls && old(disk.failures) <= disk.failures
    ensures disk.Safe() && disk.history == old(disk.history)
    ensures Steady(disk.fs, old(disk.fs), c, disk.history, disk.options)
    ensures ok ==>
              && disk.fs.pending == [] && |encoded| == |outputs| && EncodedAs(first, outputs, encoded, disk.options)
              && TablesPlaced(disk.fs, first, encoded, |encoded|)
              && |readers| == |outputs|
              && forall i :: 0 <= i < |readers| ==> BuiltTable(readers[i], first + i, outputs[i], disk.options)
    ensures (forall i :: 0 <= i < |outputs| ==> TableEncodable(first + i, outputs[i], disk.options)) ==>
              (disk.failures == old(disk.failures) || disk.Quiet(old(disk.calls), 5 * |outputs| + 1) ==> ok)
    ensures ok ==> disk.calls == old(disk.calls) + 5 * |outputs| + 1 && disk.failures == old(disk.failures)
  {
    hide *;
    ghost var start := disk.fs;
    WalFrameSelf(start);
    SteadyIs(start, start, c, disk.history, disk.options);
    readers := [];
    ghost var from, n := disk.calls, |outputs|;
    QuietPart(disk, from, 5 * n + 1, from, 3 * n);
    QuietPart(disk, from, 5 * n + 1, from + 3 * n, n);
    QuietCall(disk, from, 5 * n + 1, from + 4 * n);
    QuietPart(disk, from, 5 * n + 1, from + 4 * n + 1, n);
    var tables;
    ok, tables := EncodeOutputs(first, outputs, disk.options);
    encoded := tables;
    if ok {
      ok := WriteOutputs(disk, first, tables, start, c);
    }
    if ok {
      ok := RenameOutputs(disk, first, tables, |tables|, start, c);
    }
    if ok {
      SyncedSteady(disk.fs, start, c, disk.history, disk.options);
      TablesSynced(disk.fs, first, tables);
      SyncedFields(disk.fs);
      ok := disk.SyncDirectory();
    }
    if ok {
      ok, readers := OpenOutputs(disk, first, outputs, tables);
    }
  }

  /** The outputs of a compaction that has published nothing yet may be published. */
  lemma CompactionSpare(fs: FileSystem, h: History, m: Memory, l: Logs, o: Options)
    requires Inv(fs, h, m, l, o) && m.Compacting() && m.compaction.value.published == [] && m.compaction.value.candidate == None
    ensures var c := m.compaction.value;
            && o.Valid() && Keeps(fs, ClaimOf(m, l, o), h, o) && Spare(ClaimOf(m, l, o), c.firstOutput, |c.outputs|)
            && OutputsEncodable(c.outputs, o) && forall i :: 0 <= i < |c.outputs| ==> c.outputs[i] != []
  {
    hide *;
    CompactingParts(m);
    InvParts(fs, h, m, l, o);
    MemoryParts(m, l, o);
    CompactionParts(m, l, o);
    OutputsSpare(m, l, o);
    PlannedOutputs(m, l, m.compaction.value, o);
    PartsSpare(ClaimOf(m, l, o), m.compaction.value.firstOutput, |m.compaction.value.outputs|);
    PartsOutputsEncodable(m.compaction.value.outputs, o);
  }

  lemma PartsSpare(c: Claim, first: nat, count: nat)
    requires c.Running? && c.candidate == None && c.pins == map[]
    requires forall g: nat :: first <= g ==> !Relevant(Table(g), c.stored.version)
    ensures Spare(c, first, count)
  {
    hide Relevant;
  }

  lemma PartsOutputsEncodable(outputs: seq<Run>, o: Options)
    requires forall i :: 0 <= i < |outputs| ==> Sorted(outputs[i]) && AllEncodable(outputs[i], o)
    ensures OutputsEncodable(outputs, o)
  {
    hide Sorted, AllEncodable;
  }

  lemma SteadyInv(fs: FileSystem, after: FileSystem, h: History, m: Memory, l: Logs, o: Options)
    requires Inv(fs, h, m, l, o) && Steady(after, fs, ClaimOf(m, l, o), h, o)
    ensures Inv(after, h, m, l, o)
  {
    hide *;
    SteadyIs(after, fs, ClaimOf(m, l, o), h, o);
    FrameInv(fs, after, h, m, l, o);
  }

  lemma PlacedOutputs(fs: FileSystem, c: CompactionState, encoded: seq<Bytes>, o: Options)
    requires |encoded| == |c.outputs| && EncodedAs(c.firstOutput, c.outputs, encoded, o)
    requires TablesPlaced(fs, c.firstOutput, encoded, |encoded|)
    ensures OutputsDurable(fs, c, o)
  {
    hide TableBytes, TableEncodable, PerformAll, Placed;
    forall i | 0 <= i < |c.outputs| ensures OutputDurable(fs, c, i, o) {
      PlacedIn(fs, Table(c.firstOutput + i), encoded[i]);
    }
  }
}
