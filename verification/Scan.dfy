/** Range scans of a database, page by page (src/scan.cpp:312-501). */
module Scans {
  import opened Coding
  import opened Configuration
  import opened Keys
  import opened Runs
  import opened Merge
  import opened Tables
  import opened Durability
  import opened Wal
  import opened Versions
  import opened Compaction
  import opened Engine
  import opened FlushSteps
  import opened CompactionSteps
  import opened Statuses
  import opened Databases
  import opened ScanTokens
  import opened Paging
  import opened ScanSteps

  datatype ScanResult = ScanResult(status: Status, entries: seq<Entry>, truncated: bool, token: Bytes)

  function ScanError(status: Status): ScanResult {
    ScanResult(status, [], false, [])
  }

  /** The arguments that a scan takes. */
  predicate BoundsOk(bounds: Bounds, limit: nat, o: Options) {
    && 1 <= limit <= o.maximumScanEntries
    && |bounds.begin| <= o.maxKeySize && (bounds.end.Some? ==> |bounds.end.value| <= o.maxKeySize)
    && (bounds.end.Some? ==> AtMost(bounds.begin, bounds.end.value))
  }

  /** Where a scan with this token starts: at the beginning without one. */
  function ResumeKey(token: Bytes, bounds: Bounds, o: Options, version: nat, sequence: nat): Option<Key> {
    if token == [] then Some([]) else DecodeToken(token, bounds, o, version, sequence)
  }

  /** The page of a list of entries that a scan delivers. */
  function PageOf(all: seq<Entry>, limit: nat, bounds: Bounds, version: nat, sequence: nat): ScanResult
    requires limit > 0
  {
    if |all| <= limit then ScanResult(Success, all, false, [])
    else ScanResult(Success, all[..limit], true, TokenBytes(Token(bounds, version, sequence, all[limit - 1].key)))
  }

  /** The live entries that are left to deliver. */
  ghost function Wanted(log: seq<Record>, bounds: Bounds, resume: Key): seq<Entry> {
    EntriesOf(Covered(LiveRun(log), bounds, resume))
  }

  /** An uncovered key no later than the first entry after the page. */
  ghost predicate Blocked(m: Memory, bounds: Bounds, resume: Key, limit: nat, all: seq<Entry>) {
    exists k :: Uncovered(m, bounds, resume, k) && (|all| > limit ==> AtMost(k, all[limit].key))
  }

  /** What a scan that takes its arguments returns. */
  ghost predicate Delivers(m: Memory, log: seq<Record>, bounds: Bounds, resume: Key, limit: nat, result: ScanResult)
    requires limit > 0
  {
    var all := Wanted(log, bounds, resume);
    if Blocked(m, bounds, resume, limit, all) then result == ScanError(Corruption)
    else if |all| > limit && !Token(bounds, m.version.id, m.lastSequence, all[limit - 1].key).Encodable() then
      result == ScanError(InvalidArgument)
    else result == PageOf(all, limit, bounds, m.version.id, m.lastSequence)
  }

  /** The sources of a page: the MemTable, the Immutable and every table. */
  method Sources(db: Database, bounds: Bounds, resume: Key) returns (sources: seq<Run>)
    requires db.Valid() && db.closed.None?
    requires |bounds.begin| <= db.options.maxKeySize && (bounds.end.Some? ==> |bounds.end.value| <= db.options.maxKeySize)
    requires bounds.end.Some? ==> AtMost(bounds.begin, bounds.end.value)
    requires resume != [] ==> |resume| <= db.options.maxKeySize && InRange(resume, bounds.begin, bounds.end)
    ensures sources == AllCovered(Layers(db.Mem(), db.options), bounds, resume)
  {
    hide *;
    db.ValidParts();
    db.Fields();
    InvParts(db.disk.fs, db.disk.history, db.Mem(), db.logs, db.options);
    LayersSorted(db.Mem(), db.logs, db.options);
    ghost var layers := Layers(db.Mem(), db.options);
    ghost var parts := AllCovered(layers, bounds, resume);
    LayersAt(db.Mem(), db.options);
    ResumeParts(bounds, resume);
    MemoryParts(db.Mem(), db.logs, db.options);
    ReadersParts(db.Mem(), db.logs, db.options);
    SortedAt(layers, 0);
    var source := MemorySource(db.mutable.entries, bounds, resume);
    sources := [source];
    if db.immutable.Some? {
      SortedAt(layers, 1);
      source := MemorySource(db.immutable.value.records, bounds, resume);
      sources := sources + [source];
    }
    ghost var first := |sources|;
    for i := 0 to |db.readers|
      invariant |sources| == first + i && sources == parts[..first + i]
    {
      source := TableSource(db.readers[i], bounds, resume, db.options);
      assert parts[first + i] == source;
      sources := sources + [source];
    }
  }

  lemma LayersAt(m: Memory, o: Options)
    ensures var layers, first := Layers(m, o), if m.immutable.Some? then 2 else 1;
            && |layers| == first + |m.readers| && layers[0] == m.mutable
            && (m.immutable.Some? ==> layers[1] == m.immutable.value.records)
            && forall i :: 0 <= i < |m.readers| ==> layers[first + i] == Contents(m.readers[i], o)
  {
    hide Contents;
    var layers, first := Layers(m, o), if m.immutable.Some? then 2 else 1;
    forall i | 0 <= i < |m.readers| ensures layers[first + i] == Contents(m.readers[i], o) {
      assert layers[first + i] == RunsOf(m.readers, o)[i];
    }
  }

  lemma ResumeParts(bounds: Bounds, resume: Key)
    ensures resume != [] && InRange(resume, bounds.begin, bounds.end) ==> AtMost(bounds.begin, resume)
  {
    hide Less;
  }

  /** Database::Scan. */
  method Scan(db: Database, bounds: Bounds, limit: nat, token: Bytes) returns (result: ScanResult)
    requires db.Valid()
    ensures db.closed.Some? ==> result == ScanError(Closed)
    ensures db.closed.None? && !BoundsOk(bounds, limit, db.options) ==> result == ScanError(InvalidArgument)
    ensures db.closed.None? && BoundsOk(bounds, limit, db.options) ==>
              var resume := ResumeKey(token, bounds, db.options, db.version.id, db.lastSequence);
              if resume.None? then result == ScanError(InvalidArgument)
              else Delivers(db.Mem(), db.Log(), bounds, resume.value, limit, result)
  {
    hide *;
    if db.closed.Some? {
      return ScanError(Closed);
    }
    BoundsParts(bounds, limit, db.options);
    if limit == 0 || limit > db.options.maximumScanEntries {
      return ScanError(InvalidArgument);
    }
    if |bounds.begin| > db.options.maxKeySize || (bounds.end.Some? && |bounds.end.value| > db.options.maxKeySize) {
      return ScanError(InvalidArgument);
    }
    if bounds.end.Some? && Less(bounds.end.value, bounds.begin) {
      return ScanError(InvalidArgument);
    }
    ResumeIs(token, bounds, db.options, db.version.id, db.lastSequence);
    var resume := [];
    if token != [] {
      var decoded := DecodeToken(token, bounds, db.options, db.version.id, db.lastSequence);
      if decoded.None? {
        return ScanError(InvalidArgument);
      }
      resume := decoded.value;
    }
    db.ValidParts();
    db.Fields();
    InvParts(db.disk.fs, db.disk.history, db.Mem(), db.logs, db.options);
    if bounds.end.Some? && bounds.begin == bounds.end.value {
      EmptyRange(db.Mem(), db.Log(), bounds, resume, limit);
      return ScanResult(Success, [], false, []);
    }
    var sources := Sources(db, bounds, resume);
    LayersSorted(db.Mem(), db.logs, db.options);
    CoveredSorted(Layers(db.Mem(), db.options), bounds, resume);
    var tie, page := MergePage(sources, limit);
    LayersShow(db.Mem(), db.logs, db.options, bounds, resume);
    WantedIs(db.Log(), bounds, resume);
    forall k ensures TiedAt(sources, k) <==> Uncovered(db.Mem(), bounds, resume, k) {
      TiedExactly(db.Mem(), db.logs, db.options, bounds, resume, k);
    }
    if tie {
      TieDelivers(db.Mem(), db.Log(), sources, bounds, resume, limit);
      return ScanError(Corruption);
    }
    PageDelivers(db.Mem(), db.Log(), sources, bounds, resume, limit, page);
    var entries := EntriesOf(page);
    if |entries| <= limit {
      return ScanResult(Success, entries, false, []);
    }
    entries := entries[..limit];
    var encoded := EncodeToken(Token(bounds, db.version.id, db.lastSequence, entries[limit - 1].key));
    if encoded.None? {
      return ScanError(InvalidArgument);
    }
    result := ScanResult(Success, entries, true, encoded.value);
  }

  lemma BoundsParts(bounds: Bounds, limit: nat, o: Options)
    ensures BoundsOk(bounds, limit, o) <==>
            && 1 <= limit <= o.maximumScanEntries
            && |bounds.begin| <= o.maxKeySize && (bounds.end.Some? ==> |bounds.end.value| <= o.maxKeySize)
            && (bounds.end.Some? ==> !Less(bounds.end.value, bounds.begin))
    ensures BoundsOk(bounds, limit, o) && bounds.end.Some? ==> AtMost(bounds.begin, bounds.end.value)
  {
    hide Less;
  }

  lemma ResumeIs(token: Bytes, bounds: Bounds, o: Options, version: nat, sequence: nat)
    ensures ResumeKey(token, bounds, o, version, sequence) ==
            if token == [] then Some([]) else DecodeToken(token, bounds, o, version, sequence)
    ensures token != [] && DecodeToken(token, bounds, o, version, sequence).Some? ==>
              var key := DecodeToken(token, bounds, o, version, sequence).value;
              0 < |key| <= o.maxKeySize && InRange(key, bounds.begin, bounds.end)
  {
    hide DecodeToken, Less, InRange;
    if DecodeToken(token, bounds, o, version, sequence).Some? {
      TokenOfDecoded(token, bounds, o, version, sequence);
    }
  }

  lemma WantedIs(log: seq<Record>, bounds: Bounds, resume: Key)
    ensures Wanted(log, bounds, resume) == EntriesOf(Covered(LiveRun(log), bounds, resume))
  {
  }

  lemma EmptyRange(m: Memory, log: seq<Record>, bounds: Bounds, resume: Key, limit: nat)
    requires limit > 0 && bounds.end.Some? && bounds.begin == bounds.end.value
    ensures Delivers(m, log, bounds, resume, limit, ScanResult(Success, [], false, []))
  {
    hide LiveRun, Less, Lookup;
    NothingCovered(LiveRun(log), bounds, resume);
    assert forall k :: !InPage(k, bounds, resume);
  }

  lemma {:induction false} NothingCovered(run: Run, bounds: Bounds, resume: Key)
    requires bounds.end.Some? && bounds.begin == bounds.end.value
    ensures Covered(run, bounds, resume) == []
  {
    hide Less;
    if run != [] {
      NothingCovered(run[1..], bounds, resume);
    }
  }

  lemma TieDelivers(m: Memory, log: seq<Record>, sources: seq<Run>, bounds: Bounds, resume: Key, limit: nat)
    requires limit > 0 && exists k :: EarlyTie(sources, k, limit)
    requires forall k :: TiedAt(sources, k) <==> Uncovered(m, bounds, resume, k)
    requires exists all :: Shows(sources, all) && EntriesOf(all) == Wanted(log, bounds, resume)
    ensures Delivers(m, log, bounds, resume, limit, ScanError(Corruption))
  {
    hide Uncovered, Wanted, Shows, TiedAt, Less;
    var k :| EarlyTie(sources, k, limit);
    var all: Run :| Shows(sources, all) && EntriesOf(all) == Wanted(log, bounds, resume);
    assert |all| > limit ==> AtMost(k, all[limit].key);
    assert Uncovered(m, bounds, resume, k);
  }

  /** What the merge delivers is the page of the live entries. */
  lemma PageDelivers(m: Memory, log: seq<Record>, sources: seq<Run>, bounds: Bounds, resume: Key, limit: nat, page: Run)
    requires limit > 0 && IsPage(sources, page, limit)
    requires forall k :: TiedAt(sources, k) <==> Uncovered(m, bounds, resume, k)
    requires exists all :: Shows(sources, all) && EntriesOf(all) == Wanted(log, bounds, resume)
    ensures |page| <= limit ==> Delivers(m, log, bounds, resume, limit, ScanResult(Success, EntriesOf(page), false, []))
    ensures |page| > limit ==>
              var t := Token(bounds, m.version.id, m.lastSequence, page[limit - 1].key);
              if t.Encodable() then Delivers(m, log, bounds, resume, limit, ScanResult(Success, EntriesOf(page)[..limit], true, TokenBytes(t)))
              else Delivers(m, log, bounds, resume, limit, ScanError(InvalidArgument))
  {
    hide Shows, TiedAt, Uncovered, Wanted, TokenBytes, Token.Encodable, Less;
    var all: Run :| Shows(sources, all) && EntriesOf(all) == Wanted(log, bounds, resume);
    assert page <= all && (|page| <= limit ==> page == all);
    if |page| > limit {
      assert EntriesOf(page)[..limit] == EntriesOf(all)[..limit];
      assert all[limit - 1] == page[limit - 1] && all[limit] == page[limit];
    }
  }

  // ----- All pages ----------------------------------------------------------------------------------------

  /** The delivered part of a scan and the rest of it. */
  ghost predicate Halfway(m: Memory, log: seq<Record>, bounds: Bounds, resume: Key, done: seq<Entry>) {
    && done + Wanted(log, bounds, resume) == Wanted(log, bounds, [])
    && (forall k :: Uncovered(m, bounds, [], k) <==> Uncovered(m, bounds, resume, k))
  }

  lemma HalfwayStart(m: Memory, log: seq<Record>, bounds: Bounds)
    ensures Halfway(m, log, bounds, [], [])
  {
    hide Wanted, Uncovered;
    assert [] + Wanted(log, bounds, []) == Wanted(log, bounds, []);
  }

  /** After a truncated page, the next one starts where it ended. */
  lemma HalfwayNext(m: Memory, l: Logs, o: Options, bounds: Bounds, resume: Key, limit: nat, done: seq<Entry>, token: Bytes)
    requires MemoryOk(m, l, o) && BoundsOk(bounds, limit, o) && Halfway(m, LogOf(m, l), bounds, resume, done)
    requires var all := Wanted(LogOf(m, l), bounds, resume);
             && |all| > limit && !Blocked(m, bounds, resume, limit, all)
             && var t := Token(bounds, m.version.id, m.lastSequence, all[limit - 1].key);
                t.Encodable() && token == TokenBytes(t)
    ensures var all := Wanted(LogOf(m, l), bounds, resume);
            && ResumeKey(token, bounds, o, m.version.id, m.lastSequence) == Some(all[limit - 1].key)
            && Halfway(m, LogOf(m, l), bounds, all[limit - 1].key, done + all[..limit])
            && |Wanted(LogOf(m, l), bounds, all[limit - 1].key)| < |all|
  {
    hide *;
    BoundsParts(bounds, limit, o);
    RestAfter(m, l, o, bounds, resume, limit);
    ResumesHere(m, l, o, bounds, resume, Wanted(LogOf(m, l), bounds, resume)[limit - 1].key, token);
    HalfwayMoves(m, LogOf(m, l), bounds, resume, limit, done);
  }

  /** What is left after a truncated page is what comes after its last key. */
  lemma RestAfter(m: Memory, l: Logs, o: Options, bounds: Bounds, resume: Key, limit: nat)
    requires MemoryOk(m, l, o) && 0 < limit < |Wanted(LogOf(m, l), bounds, resume)|
    ensures var all := Wanted(LogOf(m, l), bounds, resume);
            var last := all[limit - 1].key;
            && Wanted(LogOf(m, l), bounds, last) == all[limit..] && InPage(last, bounds, resume)
            && 0 < |last| <= o.maxKeySize && Less(last, all[limit].key)
  {
    hide *;
    var log := LogOf(m, l);
    var all, run := Wanted(log, bounds, resume), Covered(LiveRun(log), bounds, resume);
    WantedIs(log, bounds, resume);
    WantedIs(log, bounds, all[limit - 1].key);
    LiveIsLast(log, []);
    CoveredMembers(LiveRun(log), bounds, resume);
    assert run[limit - 1] in run && all[limit - 1].key == run[limit - 1].key && all[limit].key == run[limit].key;
    LiveKeys(m, l, o, run[limit - 1]);
    CoveredResumed(LiveRun(log), bounds, resume, limit);
    SortedIs(run, limit - 1, limit);
  }

  lemma SortedIs(run: Run, i: nat, j: nat)
    requires Sorted(run) && i < j < |run|
    ensures Less(run[i].key, run[j].key)
  {
  }

  lemma ResumesHere(m: Memory, l: Logs, o: Options, bounds: Bounds, resume: Key, key: Key, token: Bytes)
    requires MemoryOk(m, l, o) && InPage(key, bounds, resume) && 0 < |key| <= o.maxKeySize
    requires |bounds.begin| <= o.maxKeySize && (bounds.end.Some? ==> |bounds.end.value| <= o.maxKeySize)
    requires var t := Token(bounds, m.version.id, m.lastSequence, key); t.Encodable() && token == TokenBytes(t)
    ensures ResumeKey(token, bounds, o, m.version.id, m.lastSequence) == Some(key)
  {
    hide *;
    MemoryParts(m, l, o);
    StoredWidth(m, l, o);
    SequenceBound(m, l, o);
    ResumesAtIs(bounds, o, resume, key);
    TokenResumes(Token(bounds, m.version.id, m.lastSequence, key), o);
    TokenNotEmpty(Token(bounds, m.version.id, m.lastSequence, key));
    ResumeIs(token, bounds, o, m.version.id, m.lastSequence);
  }

  lemma StoredWidth(m: Memory, l: Logs, o: Options)
    requires StoredOk(StoredOf(m, l, o), o)
    ensures m.version.id <= MAX64
  {
    hide Contents, ValidVersion, GenerationsAscend, Means, Distinct, Described, Encodable;
  }

  lemma ResumesAtIs(bounds: Bounds, o: Options, resume: Key, key: Key)
    requires InPage(key, bounds, resume) && 0 < |key| <= o.maxKeySize
    requires |bounds.begin| <= o.maxKeySize && (bounds.end.Some? ==> |bounds.end.value| <= o.maxKeySize)
    ensures ResumesAt(bounds, o, key)
  {
    hide Less;
  }

  lemma TokenNotEmpty(t: Token)
    ensures TokenBytes(t) != []
  {
    hide TokenBytes;
    assert |TokenBytes(t)| >= TOKEN_HEADER_SIZE;
  }

  lemma HalfwayMoves(m: Memory, log: seq<Record>, bounds: Bounds, resume: Key, limit: nat, done: seq<Entry>)
    requires Halfway(m, log, bounds, resume, done) && limit > 0
    requires var all := Wanted(log, bounds, resume);
             && |all| > limit && !Blocked(m, bounds, resume, limit, all) && InPage(all[limit - 1].key, bounds, resume)
             && Less(all[limit - 1].key, all[limit].key) && all[limit - 1].key != []
             && Wanted(log, bounds, all[limit - 1].key) == all[limit..]
    ensures var all := Wanted(log, bounds, resume);
            Halfway(m, log, bounds, all[limit - 1].key, done + all[..limit])
  {
    hide Wanted, Uncovered, Less, InPage;
    var all := Wanted(log, bounds, resume);
    var next := all[limit - 1].key;
    assert done + all[..limit] + all[limit..] == done + all by { assert all == all[..limit] + all[limit..]; }
    forall k ensures Uncovered(m, bounds, resume, k) <==> Uncovered(m, bounds, next, k) {
      UncoveredMoves(m, bounds, resume, next, all[limit].key, k);
    }
  }

  /** A key that a page leaves uncovered behind its end stays so for the next page. */
  lemma UncoveredMoves(m: Memory, bounds: Bounds, resume: Key, next: Key, end: Key, k: Key)
    requires InPage(next, bounds, resume) && Less(next, end) && next != []
    requires Uncovered(m, bounds, resume, k) ==> !AtMost(k, end)
    ensures Uncovered(m, bounds, resume, k) <==> Uncovered(m, bounds, next, k)
  {
    hide Lookup;
  }

  /**
    A client that follows the tokens, page by page, each page with a limit of its choice, while
    nothing is written: it receives every live entry of the range once and in order, unless a
    published Immutable is uncovered there.
   */
  method ScanAll(db: Database, bounds: Bounds, limits: nat -> nat) returns (status: Status, entries: seq<Entry>)
    requires db.Valid() && db.closed.None? && forall n: nat :: BoundsOk(bounds, limits(n), db.options)
    ensures status == Success ==> entries == Wanted(db.Log(), bounds, []) && forall k :: !Uncovered(db.Mem(), bounds, [], k)
    ensures status != Success ==>
              || (status == Corruption && exists k :: Uncovered(db.Mem(), bounds, [], k))
              || (status == InvalidArgument && TOKEN_HEADER_SIZE + |bounds.begin| + |bounds.EndKey()| + db.options.maxKeySize > MAX32)
  {
    hide *;
    db.ValidParts();
    db.Fields();
    InvParts(db.disk.fs, db.disk.history, db.Mem(), db.logs, db.options);
    entries := [];
    var token: Bytes, pages: nat := [], 0;
    ghost var resume: Key := [];
    HalfwayStart(db.Mem(), db.Log(), bounds);
    ResumeIs([], bounds, db.options, db.version.id, db.lastSequence);
    while true
      invariant ResumeKey(token, bounds, db.options, db.version.id, db.lastSequence) == Some(resume)
      invariant Halfway(db.Mem(), db.Log(), bounds, resume, entries)
      decreases |Wanted(db.Log(), bounds, resume)|
    {
      var limit := limits(pages);
      BoundsParts(bounds, limit, db.options);
      ghost var all := Wanted(db.Log(), bounds, resume);
      var result := Scan(db, bounds, limit, token);
      DeliversIs(db.Mem(), db.logs, db.options, bounds, resume, limit, result, entries);
      if result.status != Success {
        return result.status, [];
      }
      if !result.truncated {
        return Success, entries + result.entries;
      }
      HalfwayNext(db.Mem(), db.logs, db.options, bounds, resume, limit, entries, result.token);
      entries, token, pages := entries + result.entries, result.token, pages + 1;
      resume := all[limit - 1].key;
    }
  }

  /** The outcomes of one page, for a client that has the pages before it. */
  lemma DeliversIs(m: Memory, l: Logs, o: Options, bounds: Bounds, resume: Key, limit: nat, result: ScanResult, done: seq<Entry>)
    requires MemoryOk(m, l, o) && limit > 0 && Delivers(m, LogOf(m, l), bounds, resume, limit, result)
    requires Halfway(m, LogOf(m, l), bounds, resume, done)
    ensures var all := Wanted(LogOf(m, l), bounds, resume);
            match result.status
            case Success =>
              if result.truncated then
                && |all| > limit && !Blocked(m, bounds, resume, limit, all) && result.entries == all[..limit]
                && var t := Token(bounds, m.version.id, m.lastSequence, all[limit - 1].key);
                   t.Encodable() && result.token == TokenBytes(t)
              else done + result.entries == Wanted(LogOf(m, l), bounds, []) && forall k :: !Uncovered(m, bounds, [], k)
            case Corruption => exists k :: Uncovered(m, bounds, [], k)
            case InvalidArgument => TOKEN_HEADER_SIZE + |bounds.begin| + |bounds.EndKey()| + o.maxKeySize > MAX32
            case _ => false
  {
    hide Wanted, Uncovered, Less, LogOf, MemoryOk, Token.Encodable, TokenBytes, Bounds.EndKey;
    var all := Wanted(LogOf(m, l), bounds, resume);
    if Blocked(m, bounds, resume, limit, all) {
      var k :| Uncovered(m, bounds, resume, k);
    } else if |all| > limit && !Token(bounds, m.version.id, m.lastSequence, all[limit - 1].key).Encodable() {
      TooLong(m, l, o, bounds, resume, limit);
    }
  }

  lemma TooLong(m: Memory, l: Logs, o: Options, bounds: Bounds, resume: Key, limit: nat)
    requires MemoryOk(m, l, o) && limit > 0
    requires var all := Wanted(LogOf(m, l), bounds, resume);
             |all| > limit && !Token(bounds, m.version.id, m.lastSequence, all[limit - 1].key).Encodable()
    ensures TOKEN_HEADER_SIZE + |bounds.begin| + |bounds.EndKey()| + o.maxKeySize > MAX32
  {
    hide MemoryOk, LogOf, LiveRun, Covered;
    var log := LogOf(m, l);
    var run := Covered(LiveRun(log), bounds, resume);
    LiveIsLast(log, []);
    CoveredMembers(LiveRun(log), bounds, resume);
    assert run[limit - 1] in run;
    LiveKeys(m, l, o, run[limit - 1]);
  }

  // ----- Prefixes -------------------------------------------------------------------------------------------

  /** ScanPrefix scans exactly the keys with the prefix; LoadAll is ScanPrefix with the empty prefix. */
  method ScanPrefix(db: Database, prefix: Key, limit: nat, token: Bytes) returns (result: ScanResult, ghost bounds: Bounds)
    requires db.Valid() && db.closed.None?
    ensures bounds.begin == prefix && forall k :: HasPrefix(k, prefix) <==> InRange(k, prefix, bounds.end)
    ensures !BoundsOk(bounds, limit, db.options) ==> result == ScanError(InvalidArgument)
    ensures BoundsOk(bounds, limit, db.options) ==>
              var resume := ResumeKey(token, bounds, db.options, db.version.id, db.lastSequence);
              if resume.None? then result == ScanError(InvalidArgument)
              else Delivers(db.Mem(), db.Log(), bounds, resume.value, limit, result)
  {
    hide *;
    var end := PrefixUpperBound(prefix);
    bounds := Bounds(prefix, end);
    result := Scan(db, Bounds(prefix, end), limit, token);
  }
}
