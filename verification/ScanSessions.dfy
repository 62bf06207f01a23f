/**
  Paged scans with operations between the pages (src/scan.cpp:312-501).

  A token names the version and the sequence number of its page.  Within a session that is enough: a later
  page is refused, or it continues the same map.  Across sessions it is not.
 */
module ScanSessions {
  import opened Coding
  import opened Configuration
  import opened Keys
  import opened Runs
  import opened Wal
  import opened WalLog
  import opened FileSystem
  import opened Durability
  import opened WalFiles
  import opened Claims
  import Recovery
  import opened Engine
  import opened EngineSteps
  import opened FlushSteps
  import opened Statuses
  import opened Databases
  import opened ScanTokens
  import opened ScanSteps
  import opened Scans
  import opened OpenSteps
  import opened PendingCompaction
  import opened CrashSafety

  // ----- The log and its number ------------------------------------------------------------------------------

  /** Within a session the log stays the same for as long as the sequence number does. */
  lemma {:induction false} SameNumber(commands: seq<Command>, answers: seq<Answer>, states: seq<Snapshot>, i: nat, j: nat)
    requires Served(commands, answers, states) && i <= j < |states| && states[j].slots.closed.None?
    ensures states[i].slots.closed.None?
    ensures Onward(states[i].lastSequence, states[i].log, states[j].lastSequence, states[j].log)
    decreases j - i
  {
    if i < j {
      assert Answered(commands[j - 1], answers[j - 1], states[j - 1], states[j - 1 + 1]) by {
        hide Answered;
      }
      AnsweredOnward(commands[j - 1], answers[j - 1], states[j - 1], states[j]);
      SameNumber(commands, answers, states, i, j - 1);
    }
  }

  lemma AnsweredOnward(c: Command, a: Answer, before: Snapshot, after: Snapshot)
    requires Answered(c, a, before, after) && after.slots.closed.None?
    ensures before.slots.closed.None? && Onward(before.lastSequence, before.log, after.lastSequence, after.log)
  {
    hide *;
    AnsweredIs(c, a, before, after);
  }

  /** A token belongs to one version, one sequence number and one key. */
  lemma OneToken(b: Bytes, bounds: Bounds, o: Options, version: nat, sequence: nat, version': nat, sequence': nat)
    requires DecodeToken(b, bounds, o, version, sequence).Some? && DecodeToken(b, bounds, o, version', sequence').Some?
    ensures version == version' && sequence == sequence'
  {
    hide HeaderOk, DecodePayload;
  }

  /**
    A token from one state of a session, used in a later one: it is accepted if and only if version and
    sequence number are the same, and then the log is, so that the scan goes on in the same map.
   */
  lemma TokenLater(
    commands: seq<Command>, answers: seq<Answer>, states: seq<Snapshot>, i: nat, j: nat, bounds: Bounds, o: Options, key: Key,
    token: Bytes)
    requires Served(commands, answers, states) && i <= j < |states| && states[j].slots.closed.None? && token != []
    requires DecodeToken(token, bounds, o, states[i].slots.version.id, states[i].lastSequence) == Some(key)
    ensures var resume := ResumeKey(token, bounds, o, states[j].slots.version.id, states[j].lastSequence);
            && (resume.Some? <==>
                  states[j].slots.version.id == states[i].slots.version.id && states[j].lastSequence == states[i].lastSequence)
            && (resume.Some? ==> resume == Some(key) && states[j].log == states[i].log)
  {
    hide *;
    var v, n := states[j].slots.version.id, states[j].lastSequence;
    ResumeIs(token, bounds, o, v, n);
    SameNumber(commands, answers, states, i, j);
    OnwardIs(states[i].lastSequence, states[i].log, n, states[j].log);
    if DecodeToken(token, bounds, o, v, n).Some? {
      OneToken(token, bounds, o, v, n, states[i].slots.version.id, states[i].lastSequence);
    }
  }

  // ----- A client that does other things between the pages ------------------------------------------------------

  /** What is known after some pages: the entries so far, the token, and the log as it was when the scan began. */
  ghost predicate Paused(
    log: seq<Record>, bounds: Bounds, o: Options, entries: seq<Entry>, token: Bytes, resume: Key, version: nat, sequence: nat)
  {
    && entries + Wanted(log, bounds, resume) == Wanted(log, bounds, [])
    && if token == [] then resume == [] else DecodeToken(token, bounds, o, version, sequence) == Some(resume)
  }

  lemma PausedIs(
    log: seq<Record>, bounds: Bounds, o: Options, entries: seq<Entry>, token: Bytes, resume: Key, version: nat, sequence: nat)
    ensures Paused(log, bounds, o, entries, token, resume, version, sequence) <==>
            && entries + Wanted(log, bounds, resume) == Wanted(log, bounds, [])
            && if token == [] then resume == [] else DecodeToken(token, bounds, o, version, sequence) == Some(resume)
  {
    hide Wanted, DecodeToken;
  }

  /** The next page, of the same log. */
  lemma NextPage(
    m: Memory, l: Logs, bounds: Bounds, o: Options, entries: seq<Entry>, token: Bytes, resume: Key, limit: nat, result: ScanResult)
    returns (last: Key)
    requires MemoryOk(m, l, o) && BoundsOk(bounds, limit, o)
    requires Paused(LogOf(m, l), bounds, o, entries, token, resume, m.version.id, m.lastSequence)
    requires Delivers(m, LogOf(m, l), bounds, resume, limit, result) && result.status == Success
    ensures entries + result.entries <= Wanted(LogOf(m, l), bounds, [])
    ensures !result.truncated ==> entries + result.entries == Wanted(LogOf(m, l), bounds, [])
    ensures result.truncated ==>
              result.token != [] && Paused(LogOf(m, l), bounds, o, entries + result.entries, result.token, last, m.version.id, m.lastSequence)
  {
    hide *;
    last := [];
    BoundsParts(bounds, limit, o);
    PausedIs(LogOf(m, l), bounds, o, entries, token, resume, m.version.id, m.lastSequence);
    PageIs(m, LogOf(m, l), bounds, resume, limit, result);
    if result.truncated {
      var rest := Wanted(LogOf(m, l), bounds, resume);
      last := rest[limit - 1].key;
      PauseAfter(m, l, bounds, o, resume, limit, result.token);
      assert entries + rest == entries + rest[..limit] + rest[limit..] by { assert rest == rest[..limit] + rest[limit..]; }
      PausedIs(LogOf(m, l), bounds, o, entries + result.entries, result.token, last, m.version.id, m.lastSequence);
    }
  }

  lemma PauseAfter(m: Memory, l: Logs, bounds: Bounds, o: Options, resume: Key, limit: nat, token: Bytes)
    requires MemoryOk(m, l, o) && BoundsOk(bounds, limit, o) && 0 < limit < |Wanted(LogOf(m, l), bounds, resume)|
    requires var t := Token(bounds, m.version.id, m.lastSequence, Wanted(LogOf(m, l), bounds, resume)[limit - 1].key);
             t.Encodable() && token == TokenBytes(t)
    ensures var rest := Wanted(LogOf(m, l), bounds, resume);
            var last := rest[limit - 1].key;
            && token != [] && DecodeToken(token, bounds, o, m.version.id, m.lastSequence) == Some(last)
            && Wanted(LogOf(m, l), bounds, last) == rest[limit..]
  {
    hide *;
    BoundsParts(bounds, limit, o);
    var last := Wanted(LogOf(m, l), bounds, resume)[limit - 1].key;
    RestAfter(m, l, o, bounds, resume, limit);
    ResumesHere(m, l, o, bounds, resume, last, token);
    TokenNotEmpty(Token(bounds, m.version.id, m.lastSequence, last));
    ResumeIs(token, bounds, o, m.version.id, m.lastSequence);
  }

  lemma PageIs(m: Memory, log: seq<Record>, bounds: Bounds, resume: Key, limit: nat, result: ScanResult)
    requires limit > 0 && Delivers(m, log, bounds, resume, limit, result) && result.status == Success
    ensures var all := Wanted(log, bounds, resume);
            if result.truncated then
              && |all| > limit && result.entries == all[..limit]
              && var t := Token(bounds, m.version.id, m.lastSequence, all[limit - 1].key); t.Encodable() && result.token == TokenBytes(t)
            else result.entries == all
  {
    hide Wanted, Blocked, TokenBytes, Token.Encodable;
  }

  /** A page that was delivered, whatever came before it, is the next page of the map in which the scan began. */
  lemma Continues(
    db: Database, log: seq<Record>, bounds: Bounds, limit: nat, entries: seq<Entry>, token: Bytes, resume: Key, version: nat, sequence: nat,
    result: ScanResult) returns (last: Key)
    requires db.Valid() && db.closed.None? && BoundsOk(bounds, limit, db.options) && result.status == Success
    requires var from := ResumeKey(token, bounds, db.options, db.version.id, db.lastSequence);
             from.Some? && Delivers(db.Mem(), db.Log(), bounds, from.value, limit, result)
    requires Paused(log, bounds, db.options, entries, token, resume, version, sequence)
    requires if token == [] then db.Log() == log else Onward(sequence, log, db.lastSequence, db.Log())
    ensures db.Log() == log && entries + result.entries <= Wanted(log, bounds, [])
    ensures token != [] ==> db.version.id == version && db.lastSequence == sequence
    ensures !result.truncated ==> entries + result.entries == Wanted(log, bounds, [])
    ensures result.truncated ==>
              && result.token != [] && |result.entries| == limit
              && Paused(log, bounds, db.options, entries + result.entries, result.token, last, db.version.id, db.lastSequence)
  {
    hide *;
    db.ValidParts();
    db.Fields();
    InvParts(db.disk.fs, db.disk.history, db.Mem(), db.logs, db.options);
    BoundsParts(bounds, limit, db.options);
    PausedIs(log, bounds, db.options, entries, token, resume, version, sequence);
    ResumeIs(token, bounds, db.options, db.version.id, db.lastSequence);
    if token != [] {
      OneToken(token, bounds, db.options, version, sequence, db.version.id, db.lastSequence);
      OnwardIs(sequence, log, db.lastSequence, db.Log());
    }
    PausedIs(log, bounds, db.options, entries, token, resume, db.version.id, db.lastSequence);
    PageIs(db.Mem(), log, bounds, resume, limit, result);
    last := NextPage(db.Mem(), db.logs, bounds, db.options, entries, token, resume, limit, result);
  }

  /** A page that was not delivered: a frozen key is uncovered, the token is stale, or the next token does not fit. */
  lemma Refuses(
    db: Database, log: seq<Record>, bounds: Bounds, limit: nat, entries: seq<Entry>, token: Bytes, resume: Key, version: nat, sequence: nat,
    result: ScanResult)
    requires db.Valid() && db.closed.None? && BoundsOk(bounds, limit, db.options) && result.status != Success
    requires var from := ResumeKey(token, bounds, db.options, db.version.id, db.lastSequence);
             if from.None? then result == ScanError(InvalidArgument) else Delivers(db.Mem(), db.Log(), bounds, from.value, limit, result)
    requires Paused(log, bounds, db.options, entries, token, resume, version, sequence)
    ensures || (result.status == Corruption && exists k :: Uncovered(db.Mem(), bounds, [], k))
            || (result.status == InvalidArgument && token != [] && (db.version.id != version || db.lastSequence != sequence))
            || (result.status == InvalidArgument && TokenTooLong(bounds, db.options))
  {
    hide *;
    ErrorStatus(InvalidArgument);
    ErrorStatus(Corruption);
    BoundsParts(bounds, limit, db.options);
    PausedIs(log, bounds, db.options, entries, token, resume, version, sequence);
    ResumeIs(token, bounds, db.options, db.version.id, db.lastSequence);
    var from := ResumeKey(token, bounds, db.options, db.version.id, db.lastSequence);
    if from.Some? {
      db.ValidParts();
      db.Fields();
      InvParts(db.disk.fs, db.disk.history, db.Mem(), db.logs, db.options);
      PageFails(db.Mem(), db.logs, db.options, bounds, from.value, limit, result);
    }
  }

  predicate TokenTooLong(bounds: Bounds, o: Options) {
    TOKEN_HEADER_SIZE + |bounds.begin| + |bounds.EndKey()| + o.maxKeySize > MAX32
  }

  lemma PageFails(m: Memory, l: Logs, o: Options, bounds: Bounds, resume: Key, limit: nat, result: ScanResult)
    requires MemoryOk(m, l, o) && limit > 0 && Delivers(m, LogOf(m, l), bounds, resume, limit, result) && result.status != Success
    ensures || (result.status == Corruption && exists k :: Uncovered(m, bounds, [], k))
            || (result.status == InvalidArgument && TokenTooLong(bounds, o))
  {
    hide Wanted, Less, LogOf, MemoryOk, Token.Encodable, TokenBytes, Bounds.EndKey, Lookup;
    var all := Wanted(LogOf(m, l), bounds, resume);
    if Blocked(m, bounds, resume, limit, all) {
      var k :| Uncovered(m, bounds, resume, k);
      assert Uncovered(m, bounds, [], k);
    } else if |all| > limit && !Token(bounds, m.version.id, m.lastSequence, all[limit - 1].key).Encodable() {
      TooLong(m, l, o, bounds, resume, limit);
    }
  }

  lemma ErrorStatus(status: Status)
    ensures ScanError(status).status == status
  {
  }

  lemma SessionOnward(commands: seq<Command>, answers: seq<Answer>, states: seq<Snapshot>)
    requires Served(commands, answers, states)
    ensures |states| == |commands| + 1
    ensures states[|commands|].slots.closed.None? ==>
              Onward(states[0].lastSequence, states[0].log, states[|commands|].lastSequence, states[|commands|].log)
  {
    hide *;
    ServedSizes(commands, answers, states);
    if states[|commands|].slots.closed.None? { SameNumber(commands, answers, states, 0, |commands|); }
  }

  /** What happened between two pages. */
  datatype Pause = Pause(answers: seq<Answer>, states: seq<Snapshot>)

  ghost function Reached(start: Snapshot, pauses: seq<Pause>): Snapshot {
    if pauses == [] || pauses[|pauses| - 1].states == [] then start
    else pauses[|pauses| - 1].states[|pauses[|pauses| - 1].states| - 1]
  }

  /** The commands between the pages were performed, in turn, and nothing else changed the database. */
  ghost predicate Interleaved(between: seq<seq<Command>>, pauses: seq<Pause>, start: Snapshot, end: Snapshot) {
    && |pauses| <= |between| && end == Reached(start, pauses)
    && forall k :: 0 <= k < |pauses| ==>
         Served(between[k], pauses[k].answers, pauses[k].states) && pauses[k].states[0] == Reached(start, pauses[..k])
  }

  lemma InterleavedNothing(between: seq<seq<Command>>, start: Snapshot)
    ensures Interleaved(between, [], start, start)
  {
  }

  lemma InterleavedMore(
    between: seq<seq<Command>>, pauses: seq<Pause>, start: Snapshot, now: Snapshot, answers: seq<Answer>, states: seq<Snapshot>, end: Snapshot)
    requires Interleaved(between, pauses, start, now) && |pauses| < |between|
    requires Served(between[|pauses|], answers, states) && states[0] == now && states[|states| - 1] == end
    ensures Interleaved(between, pauses + [Pause(answers, states)], start, end)
  {
    hide Answered;
    var more := pauses + [Pause(answers, states)];
    forall k | 0 <= k < |more|
      ensures Served(between[k], more[k].answers, more[k].states) && more[k].states[0] == Reached(start, more[..k])
    {
      if k < |pauses| {
        assert more[k] == pauses[k] && more[..k] == pauses[..k];
      } else {
        assert more[..k] == pauses;
      }
    }
  }

  /**
    A client that scans page by page and performs commands of its choice between the pages.  Whatever they
    are, what it has received is always the beginning of one map, that of the moment when it started, and if
    it comes to the end it has received all of it.  It is refused only once version or sequence number have
    changed, the database is closed, a frozen key is uncovered or a token does not fit.
   */
  method ScanBetween(db: Database, bounds: Bounds, limit: nat, between: seq<seq<Command>>)
    returns (status: Status, entries: seq<Entry>, complete: bool, ghost pauses: seq<Pause>)
    requires db.Valid() && db.closed.None? && BoundsOk(bounds, limit, db.options)
    modifies db, db.disk, db.disk.ledger, db.mutable
    ensures db.Valid() && entries <= Wanted(old(db.Log()), bounds, []) && Interleaved(between, pauses, old(db.Look()), db.Look())
    ensures complete ==> status == Success && entries == Wanted(old(db.Log()), bounds, [])
    ensures status == Success && !complete ==> |pauses| == |between| && |entries| == |between| * limit
    ensures status != Success ==>
              || (status == Closed && db.closed.Some?)
              || (status == Corruption && exists k :: Uncovered(db.Mem(), bounds, [], k))
              || (status == InvalidArgument && (db.version.id != old(db.version.id) || db.lastSequence != old(db.lastSequence)))
              || (status == InvalidArgument && TokenTooLong(bounds, db.options))
  {
    hide *;
    ghost var log, resume, version, sequence, start := db.Log(), [], 0, 0, db.Look();
    status, entries, complete, pauses := Success, [], false, [];
    var token: Bytes := [];
    assert [] + Wanted(log, bounds, []) == Wanted(log, bounds, []);
    PausedIs(log, bounds, db.options, entries, token, resume, version, sequence);
    BoundsParts(bounds, limit, db.options);
    InterleavedNothing(between, start);
    for k := 0 to |between|
      invariant db.Valid() && (db.mutable == old(db.mutable) || fresh(db.mutable)) && entries <= Wanted(log, bounds, [])
      invariant |pauses| == k && Interleaved(between, pauses, start, db.Look())
      invariant Paused(log, bounds, db.options, entries, token, resume, version, sequence) && |entries| == k * limit
      invariant if token == [] then db.closed.None? && db.Log() == log
                else db.closed.None? ==> Onward(sequence, log, db.lastSequence, db.Log())
      invariant token == [] ==> db.version.id == old(db.version.id) && db.lastSequence == old(db.lastSequence)
      invariant token != [] ==> version == old(db.version.id) && sequence == old(db.lastSequence)
    {
      var result := Scan(db, bounds, limit, token);
      ErrorStatus(Closed);
      ErrorStatus(InvalidArgument);
      if result.status != Success {
        if db.closed.None? { Refuses(db, log, bounds, limit, entries, token, resume, version, sequence, result); }
        return result.status, entries, false, pauses;
      }
      ghost var last := Continues(db, log, bounds, limit, entries, token, resume, version, sequence, result);
      entries := entries + result.entries;
      if !result.truncated {
        return Success, entries, true, pauses;
      }
      token, resume, version, sequence := result.token, last, db.version.id, db.lastSequence;
      var answers;
      ghost var states, places, now := [], [], db.Look();
      db.Looks();
      answers, states, places := RunCommands(db, between[k]);
      db.Looks();
      SessionOnward(between[k], answers, states);
      InterleavedMore(between, pauses, start, now, answers, states, db.Look());
      pauses := pauses + [Pause(answers, states)];
    }
  }

  // ----- Across sessions ----------------------------------------------------------------------------------------

  /**
    The sync of a record fails: the session keeps its log and has used up the number.  A crash may leave all of
    the record or nothing of it, so that the next session finds the same record under that number or gives
    the number to another one, `q`.  It then agrees with the first in version and number, and accepts its
    tokens, while the logs differ by that record: the scan goes on in the same map if and only if the record
    changes nothing that can be read.
   */
  lemma TokenElsewhere(fs: FileSystem, h: History, m: Memory, l: Logs, r: Record, q: Record, o: Options)
    requires Inv(fs, h, m, l, o) && m.wal.Some? && !m.poisoned && m.compaction.None? && NothingFlushed(m)
    requires Encodable(r, o) && Encodable(q, o) && r.sequence == q.sequence == m.lastSequence + 1
    ensures m.wal.value < |fs.files|
    ensures var before := fs.files[m.wal.value];
            var after := before.Append(Encoding(r));
            && Inv(fs.SetFile(m.wal.value, after), h + [Event(r, false)], m.(lastSequence := r.sequence, poisoned := true), l, o)
            && after.MayBecome(after.current) && Recover(after.current, o, 0) == Recovered(l.active + [r], |after.current|)
            && after.MayBecome(before.current) && Recover(before.current, o, 0) == Recovered(l.active, |before.current|)
    ensures var failed, later := m.(lastSequence := r.sequence, poisoned := true), Reopened(m, l, l.active + [q]);
            && Inv(fs.SetFile(m.wal.value, fs.files[m.wal.value].Append(Encoding(q)).Sync()), h + [Event(q, true)], later,
                   l.(active := l.active + [q]), o)
            && later.version == failed.version && later.lastSequence == failed.lastSequence
            && LogOf(later, l.(active := l.active + [q])) == LogOf(failed, l) + [q]
    ensures (forall k: Key :: Visible(Last(LogOf(m, l) + [q], k)) == Visible(Last(LogOf(m, l), k))) <==>
            Visible(Some(q)) == Visible(Last(LogOf(m, l), q.key))
  {
    hide *;
    InvParts(fs, h, m, l, o);
    MemoryParts(m, l, o);
    AppendDone(fs, h, m, l, q, o);
    AppendFailed(fs, h, m, l, r, |Encoding(r)|, o);
    assert Encoding(r)[..|Encoding(r)|] == Encoding(r);
    ReopenedIs(m, l, q, o);
    WholeSurvives(fs, h, m, l, r, o);
    OneMore(LogOf(m, l), q);
  }

  /** No flush has got as far as a table. */
  predicate NothingFlushed(m: Memory) {
    m.immutable.Some? ==> !m.immutable.value.published && !m.immutable.value.walRemoved && m.immutable.value.pending.None?
  }

  /** What Open makes of the version, its tables and the replayed logs (src/database.cpp:158-450). */
  ghost function Reopened(m: Memory, l: Logs, records: seq<Record>): Memory
    requires m.wal.Some?
  {
    FoundMemory(m.version, m.readers, if l.frozen == [] then None else Some(Fold(l.frozen)), Recovery.Top(l.frozen), Fold(records),
                m.wal.value, Highest(Highest(m.version.lastSequence, Recovery.Top(l.frozen)), Recovery.Top(records)))
  }

  lemma ReopenedIs(m: Memory, l: Logs, r: Record, o: Options)
    requires m.wal.Some? && !m.poisoned && m.compaction.None? && NothingFlushed(m) && r.sequence == m.lastSequence + 1
    requires ActiveLogOk(m, l, o) && FrozenLogOk(m, l, o) && GenerationsOk(m)
    ensures Reopened(m, l, l.active + [r]) == m.(lastSequence := r.sequence, mutable := Insert(m.mutable, r))
    ensures Reopened(m, l, l.active + [r]).version == m.version && Reopened(m, l, l.active + [r]).lastSequence == r.sequence
  {
    hide AllEncodable, Insert, TopTable, EndsWith;
    var log := l.active + [r];
    assert log[..|log| - 1] == l.active;
  }

  lemma WholeSurvives(fs: FileSystem, h: History, m: Memory, l: Logs, r: Record, o: Options)
    requires Inv(fs, h, m, l, o) && m.wal.Some? && !m.poisoned && m.compaction.None? && m.wal.value < |fs.files|
    requires Encodable(r, o) && r.sequence == m.lastSequence + 1
    ensures var before := fs.files[m.wal.value];
            var after := before.Append(Encoding(r));
            && after.MayBecome(after.current) && Recover(after.current, o, 0) == Recovered(l.active + [r], |after.current|)
            && after.MayBecome(before.current) && Recover(before.current, o, 0) == Recovered(l.active, |before.current|)
  {
    hide *;
    InvParts(fs, h, m, l, o);
    OpenWalParts(fs, m, l, o);
    HoldsRecovers(fs.files[m.wal.value], l.active, o);
    var f := fs.files[m.wal.value].Append(Encoding(r));
    AppendDone(fs, h, m, l, r, o);
    var after := fs.SetFile(m.wal.value, f.Sync());
    var m', l' := m.(lastSequence := r.sequence, mutable := Insert(m.mutable, r)), l.(active := l.active + [r]);
    InvParts(after, h + [Event(r, true)], m', l', o);
    OpenWalParts(after, m', l', o);
    HoldsRecovers(after.files[m.wal.value], l'.active, o);
    SetFileAt(fs, m.wal.value, f);
    InvFile(fs, h, m, l, o);
    AllOfIt(fs.files[m.wal.value], Encoding(r));
  }

  lemma SetFileAt(fs: FileSystem, inode: Inode, f: File)
    requires inode < |fs.files|
    ensures fs.SetFile(inode, f.Sync()).files[inode].current == f.current
  {
  }

  lemma InvFile(fs: FileSystem, h: History, m: Memory, l: Logs, o: Options)
    requires Inv(fs, h, m, l, o) && m.wal.Some? && m.wal.value < |fs.files|
    ensures fs.files[m.wal.value].Valid()
  {
    hide *;
    InvRecoverable(fs, h, m, l, o);
    FilesValid(fs, h, m.wal.value, o);
  }

  lemma FilesValid(fs: FileSystem, h: History, inode: Inode, o: Options)
    requires Recoverable(fs, h, o) && inode < |fs.files|
    ensures fs.files[inode].Valid()
  {
    hide PerformAll, ViewOk;
  }

  lemma AllOfIt(f: File, data: Bytes)
    requires f.Valid()
    ensures f.Append(data).MayBecome(f.Append(data).current) && f.Append(data).MayBecome(f.current)
  {
  }

  /** One more record changes what is read at its own key, or nothing. */
  lemma OneMore(log: seq<Record>, r: Record)
    ensures (forall k: Key :: Visible(Last(log + [r], k)) == Visible(Last(log, k))) <==> Visible(Some(r)) == Visible(Last(log, r.key))
  {
    forall k: Key ensures Last(log + [r], k) == if k == r.key then Some(r) else Last(log, k) {
      assert (log + [r])[..|log|] == log;
    }
    hide Last;
  }
}
