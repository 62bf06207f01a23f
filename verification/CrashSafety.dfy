/**
  Whole runs: any number of sessions, any commands, I/O errors and crashes at any call.
 */
module CrashSafety {
  import opened Coding
  import opened Configuration
  import opened Keys
  import opened Runs
  import opened FileSystem
  import opened Durability
  import Claims
  import opened Ledgers
  import opened Disks
  import opened Statuses
  import opened DatabaseSteps
  import opened Databases
  import opened Opening

  datatype Command =
    | Write(request: Request)
    | Read(key: Key)
    | Flush
    | Compact
    | Work(others: seq<seq<Request>>)
    | Close

  datatype Answer = Answer(status: Status, value: Option<Bytes>)

  /** A crash at the `at`-th moment of the run, leaving this disk behind. */
  datatype Crash = Crash(at: nat, after: FileSystem)

  /** A process that opens the database, runs commands and ends, by a crash or simply by exiting. */
  datatype Session = Session(commands: seq<Command>, crash: Option<Crash>)

  // ----- One command --------------------------------------------------------------------------------

  /**
    Background mode with a compaction that a client's Compact left unfinished: a write would go
    to a log that the unfinished compaction is about to retire.
   */
  predicate Stuck(db: Database)
    reads db
  {
    db.options.background && db.compaction.Some? && db.backgroundOk
  }

  function RecordOf(request: Request, last: nat): Record {
    Record(request.key, last + 1, request.kind, request.value)
  }

  /** What a command and its answer say about the database before and after. */
  ghost predicate Answered(c: Command, a: Answer, before: Snapshot, after: Snapshot) {
    && after.book == before.book.(acked := after.book.acked, asked := after.book.asked) && after.slots.since == before.slots.since
    && (before.slots.closed.Some? ==> after.slots.closed == before.slots.closed)
    && (after.slots.closed.None? ==> Onward(before.lastSequence, before.log, after.lastSequence, after.log))
    && match c
       case Write(request) =>
         var r := RecordOf(request, before.lastSequence);
         && Wrote(before.history, after.history, before.log, after.log, r, after.poisoned)
         && (a.status == Success ==> after.history == before.history + [Event(r, true)])
         && after.book.acked == before.book.acked + (if a.status == Success then [r] else [])
         && after.book.asked == before.book.asked + [request]
         && after.slots.closed == before.slots.closed
       case Read(key) =>
         after == before && (a.status == Success ==> a.value == Visible(Last(before.log, key)))
       case Close =>
         && after.history == before.history && after.book == before.book
         && after.slots.closed == if before.slots.closed.Some? then before.slots.closed else Some(a.status)
       case Work(others) =>
         && Follows(before.history, before.log, after.history, after.log)
         && before.book.acked <= after.book.acked && after.slots.closed == before.slots.closed
       case _ =>
         && after.history == before.history && after.book == before.book && after.slots.closed == before.slots.closed
         && (after.slots.closed.None? ==> after.log == before.log)
  }

  /** Performs one command on an open or closed database. */
  method Perform(db: Database, command: Command) returns (answer: Answer)
    requires db.Valid()
    modifies db, db.disk, db.disk.ledger, db.mutable
    ensures db.Valid() && old(db.disk.trace) <= db.disk.trace && old(db.disk.calls) <= db.disk.calls && old(db.disk.failures) <= db.disk.failures
    ensures db.mutable == old(db.mutable) || fresh(db.mutable)
    ensures Answered(command, answer, old(db.Look()), db.Look()) && old(db.disk.path) <= db.disk.path
    ensures command.Write? && old(db.MayWrite(command.request)) && !old(Stuck(db)) && db.disk.failures == old(db.disk.failures) ==>
              && (answer.status == Success || db.Unflushable())
              && db.disk.history == old(db.disk.history) + [Event(RecordOf(command.request, old(db.lastSequence)), true)]
    ensures command.Work? && old(db.closed).None? && db.options.background && old(db.Unbuilt()) ==>
              db.disk.ledger.book.asked == old(db.disk.ledger.book).asked + Rest(command.others, 0)
    ensures command.Read? && old(db.closed).None? && 0 < |command.key| <= db.options.maxKeySize ==> answer.status == Success
    ensures command.Flush? && old(db.closed).None? && !old(db.poisoned) && old(db.Fits()) && db.disk.failures == old(db.disk.failures) ==>
              answer.status == Success
    ensures command.Close? && old(db.closed).None? && old(db.Closable()) && db.disk.failures == old(db.disk.failures) ==>
              answer.status == Success
  {
    hide *;
    ghost var before, path := db.Look(), db.disk.path;
    PathNow(db);
    db.Looks();
    FollowsSelf(db.disk.history, db.Log());
    OnwardIs(db.lastSequence, db.Log(), db.lastSequence, db.Log());
    var status, value: Option<Bytes> := Closed, None;
    match command {
      case Write(request) =>
        StuckIs(db);
        RecordOfIs(request, db.lastSequence);
        NothingWritten(before, request);
        if Stuck(db) {
          db.Ask(request);
          status := Busy;
        } else {
          status := db.Write(request);
        }
      case Read(key) =>
        status, value := db.Get(key);
      case Flush =>
        status := db.Flush();
      case Compact =>
        status := db.Compact();
      case Work(others) =>
        if db.closed.None? && db.options.background {
          status := db.BackgroundRound(others);
        }
      case Close =>
        status := db.Close();
    }
    answer := Answer(status, value);
    db.Looks();
    OnwardIs(before.lastSequence, before.log, db.lastSequence, db.Log());
    db.ValidParts();
    PathGrows(db.disk, path, before.trace);
    AnsweredIs(command, answer, before, db.Look());
  }

  lemma StuckIs(db: Database)
    ensures Stuck(db) <==> db.options.background && db.compaction.Some? && db.backgroundOk
  {
  }

  lemma RecordOfIs(request: Request, last: nat)
    ensures RecordOf(request, last) == Record(request.key, last + 1, request.kind, request.value)
  {
  }

  lemma NothingWritten(s: Snapshot, request: Request)
    ensures Wrote(s.history, s.history, s.log, s.log, RecordOf(request, s.lastSequence), s.poisoned)
    ensures s.book.acked + [] == s.book.acked
  {
    WroteNothing(s.history, s.log, RecordOf(request, s.lastSequence), s.poisoned);
  }

  lemma AnsweredIs(c: Command, a: Answer, before: Snapshot, after: Snapshot)
    ensures Answered(c, a, before, after) <==>
            && after.book == before.book.(acked := after.book.acked, asked := after.book.asked) && after.slots.since == before.slots.since
            && (before.slots.closed.Some? ==> after.slots.closed == before.slots.closed)
            && (after.slots.closed.None? ==> Onward(before.lastSequence, before.log, after.lastSequence, after.log))
            && match c
               case Write(request) =>
                 var r := RecordOf(request, before.lastSequence);
                 && Wrote(before.history, after.history, before.log, after.log, r, after.poisoned)
                 && (a.status == Success ==> after.history == before.history + [Event(r, true)])
                 && after.book.acked == before.book.acked + (if a.status == Success then [r] else [])
                 && after.book.asked == before.book.asked + [request]
                 && after.slots.closed == before.slots.closed
               case Read(key) =>
                 after == before && (a.status == Success ==> a.value == Visible(Last(before.log, key)))
               case Close =>
                 && after.history == before.history && after.book == before.book
                 && after.slots.closed == if before.slots.closed.Some? then before.slots.closed else Some(a.status)
               case Work(others) =>
                 && Follows(before.history, before.log, after.history, after.log)
                 && before.book.acked <= after.book.acked && after.slots.closed == before.slots.closed
               case _ =>
                 && after.history == before.history && after.book == before.book && after.slots.closed == before.slots.closed
                 && (after.slots.closed.None? ==> after.log == before.log)
  {
    hide Wrote, Follows, Onward, Visible, Last, RecordOf;
  }

  // ----- Sessions ---------------------------------------------------------------------------------------

  /** The answers to the commands, with the database before and after each. */
  ghost predicate Served(commands: seq<Command>, answers: seq<Answer>, states: seq<Snapshot>) {
    && |answers| == |commands| && |states| == |commands| + 1
    && forall i :: 0 <= i < |commands| ==> Answered(commands[i], answers[i], states[i], states[i + 1])
  }

  lemma ServedNothing(s: Snapshot)
    ensures Served([], [], [s])
  {
  }

  lemma ServedMore(commands: seq<Command>, answers: seq<Answer>, states: seq<Snapshot>, c: Command, a: Answer, s: Snapshot)
    requires Served(commands, answers, states) && Answered(c, a, states[|commands|], s)
    ensures Served(commands + [c], answers + [a], states + [s])
  {
    hide Answered;
    var longer, more, all := commands + [c], answers + [a], states + [s];
    forall i | 0 <= i < |longer| ensures Answered(longer[i], more[i], all[i], all[i + 1]) {
      if i < |commands| {
        assert longer[i] == commands[i] && more[i] == answers[i] && all[i] == states[i] && all[i + 1] == states[i + 1];
      }
    }
  }

  lemma ServedSizes(commands: seq<Command>, answers: seq<Answer>, states: seq<Snapshot>)
    requires Served(commands, answers, states)
    ensures |answers| == |commands| && |states| == |commands| + 1
  {
    hide Answered;
  }

  /** Nothing but writes and the worker's clients add to what was acknowledged, and nothing takes away from it. */
  lemma {:induction false} ServedKeeps(commands: seq<Command>, answers: seq<Answer>, states: seq<Snapshot>)
    requires Served(commands, answers, states)
    ensures states[0].book.acked <= states[|commands|].book.acked
    ensures states[|commands|].book == states[0].book.(acked := states[|commands|].book.acked, asked := states[|commands|].book.asked)
  {
    if commands != [] {
      var n := |commands| - 1;
      assert Served(commands[..n], answers[..n], states[..|commands|]) by {
        hide Answered;
      }
      ServedKeeps(commands[..n], answers[..n], states[..|commands|]);
      assert Answered(commands[n], answers[n], states[n], states[n + 1]);
    }
  }

  /** Where in a run the database was as it is in each of these states, in order. */
  ghost predicate Located(states: seq<Snapshot>, places: seq<nat>, path: seq<Moment>) {
    && |places| == |states|
    && (forall i :: 0 <= i < |states| ==>
          places[i] < |path| && path[places[i]].history == states[i].history && path[places[i]].book == states[i].book)
    && (forall i, j :: 0 <= i < j < |places| ==> places[i] <= places[j])
  }

  lemma LocatedOne(s: Snapshot, path: seq<Moment>)
    requires path != [] && path[|path| - 1].history == s.history && path[|path| - 1].book == s.book
    ensures Located([s], [|path| - 1], path)
  {
  }

  lemma LocatedMore(states: seq<Snapshot>, places: seq<nat>, path: seq<Moment>, s: Snapshot, longer: seq<Moment>)
    requires Located(states, places, path) && path <= longer
    requires longer != [] && longer[|longer| - 1].history == s.history && longer[|longer| - 1].book == s.book
    ensures Located(states + [s], places + [|longer| - 1], longer)
  {
  }

  /** Everything that was marked is still in its place. */
  lemma PathGrows(disk: Disk, path: seq<Moment>, marks: set<Mark>)
    requires disk.Safe() && marks <= disk.trace && forall i :: 0 <= i < |path| ==> Mark(i, path[i]) in marks
    ensures path <= disk.path
  {
    hide MomentOk, Earlier;
    forall i | 0 <= i < |path| ensures i < |disk.path| && disk.path[i] == path[i] {
      assert Mark(i, path[i]) in disk.trace;
    }
    if path != [] { assert Mark(|path| - 1, path[|path| - 1]) in disk.trace; }
  }

  /** The run ends with the present, and all of it is marked. */
  lemma PathNow(db: Database)
    requires db.Valid()
    ensures var path := db.disk.path;
            && path != [] && path[|path| - 1].history == db.Look().history && path[|path| - 1].book == db.Look().book
            && forall i :: 0 <= i < |path| ==> Mark(i, path[i]) in db.Look().trace
  {
    hide *;
    db.ValidParts();
    db.Looks();
    PathSafe(db.disk);
  }

  /** Performs the commands one after the other.  The run so far stays as it is, and each state has its place in it. */
  method RunCommands(db: Database, commands: seq<Command>)
    returns (answers: seq<Answer>, ghost states: seq<Snapshot>, ghost places: seq<nat>)
    requires db.Valid()
    modifies db, db.disk, db.disk.ledger, db.mutable
    ensures db.Valid() && old(db.disk.trace) <= db.disk.trace && old(db.disk.calls) <= db.disk.calls && old(db.disk.failures) <= db.disk.failures
    ensures db.mutable == old(db.mutable) || fresh(db.mutable)
    ensures Served(commands, answers, states) && states[0] == old(db.Look()) && states[|commands|] == db.Look()
    ensures old(db.disk.path) <= db.disk.path && Located(states, places, db.disk.path)
    ensures |places| > 0 && places[0] + 1 == |old(db.disk.path)|
  {
    hide *;
    answers, states := [], [db.Look()];
    ServedNothing(db.Look());
    PathNow(db);
    places := [|db.disk.path| - 1];
    LocatedOne(db.Look(), db.disk.path);
    for i := 0 to |commands|
      invariant db.Valid() && old(db.disk.trace) <= db.disk.trace && old(db.disk.calls) <= db.disk.calls && old(db.disk.failures) <= db.disk.failures
      invariant db.mutable == old(db.mutable) || fresh(db.mutable)
      invariant Served(commands[..i], answers, states) && |states| == i + 1 && states[0] == old(db.Look()) && states[i] == db.Look()
      invariant old(db.disk.path) <= db.disk.path && Located(states, places, db.disk.path)
      invariant |places| == i + 1 && places[0] + 1 == |old(db.disk.path)|
    {
      ghost var path := db.disk.path;
      var answer := Perform(db, commands[i]);
      ServedMore(commands[..i], answers, states, commands[i], answer, db.Look());
      assert commands[..i + 1] == commands[..i] + [commands[i]];
      PathNow(db);
      LocatedMore(states, places, path, db.Look(), db.disk.path);
      answers, states, places := answers + [answer], states + [db.Look()], places + [|db.disk.path| - 1];
    }
    assert commands[..|commands|] == commands;
  }

  // ----- Runs -------------------------------------------------------------------------------------------

  datatype Report = Report(status: Status, answers: seq<Answer>, crashed: bool)

  /**
    What a session did: the run as it was before, the database before and after each command with its
    places in the run, every moment of the run up to the end of the session, the run as it was left, and
    the calls it made.
   */
  datatype Account = Account(
    before: Moment, states: seq<Snapshot>, places: seq<nat>, path: seq<Moment>, after: Moment, from: nat, to: nat)

  /**
    A session's report agrees with its account.  A session that opens finds a log that explains
    everything written before and keeps what was acknowledged; exiting leaves both as the last command
    did; a crash, and only a crash that the disk allows, goes back to what they were at its moment.
   */
  ghost predicate Accounted(s: Session, r: Report, a: Account) {
    && Located(a.states, a.places, a.path)
    && (if r.status == Success then
          && Served(s.commands, r.answers, a.states) && a.states[0].slots.closed.None?
          && a.states[0].book.acked == a.before.book.acked
          && Begun(a.before.history, a.before.book, a.states[0].history, a.states[0].book, a.states[0].log, LogsSynced(a.before.fs, 0))
        else r.answers == [] && a.states == [])
    && (r.crashed <==> s.crash.Some? && s.crash.value.at < |a.path| && CrashesTo(a.path[s.crash.value.at].fs, s.crash.value.after))
    && (if r.crashed then
          var m := a.path[s.crash.value.at];
          a.after == Moment(s.crash.value.after, m.history, m.book.(start := |a.path|))
        else if r.status == Success then
          a.after.history == a.states[|s.commands|].history && a.after.book == a.states[|s.commands|].book
        else a.after.history == a.before.history && a.after.book == a.before.book)
  }

  ghost function Present(disk: Disk): Moment
    reads disk, disk.ledger
  {
    Moment(disk.fs, disk.history, disk.ledger.book)
  }

  /**
    Opens the database, performs the commands, and exits or crashes.  The account's path is the run up to
    that point, and a crash adds one moment to it.
   */
  method RunSession(disk: Disk, session: Session) returns (report: Report, ghost account: Account)
    requires disk.Safe() && disk.options.Sized()
    modifies disk, disk.ledger
    ensures disk.Safe() && old(disk.trace) <= disk.trace && old(disk.failures) <= disk.failures
    ensures old(disk.path) <= account.path
    ensures disk.path == if report.crashed then account.path + [Present(disk)] else account.path
    ensures account.before == old(Present(disk)) && account.after == Present(disk) && Accounted(session, report, account)
    ensures account.places != [] ==> |old(disk.path)| <= account.places[0] + 1
    ensures account.from == old(disk.calls) && account.to == disk.calls && (disk.options.Checked() ==> Unhindered(disk.faults, report, account))
  {
    hide *;
    ghost var before, synced := Present(disk), LogsSynced(disk.fs, 0);
    PresentIs(disk);
    PathSafe(disk);
    ghost var start, marks, calls := disk.path, disk.trace, disk.calls;
    var status, db := Open(disk);
    PathGrows(disk, start, marks);
    PathSafe(disk);
    var answers: seq<Answer> := [];
    ghost var states: seq<Snapshot>, places: seq<nat> := [], [];
    NothingLocated(disk.path);
    if db != null {
      db.Looks();
      answers, states, places := RunCommands(db, session.commands);
      ServedSizes(session.commands, answers, states);
      db.ValidParts();
      db.Looks();
    }
    ghost var path := disk.path;
    PathSafe(disk);
    PresentIs(disk);
    account := Account(before, states, places, path, Present(disk), calls, disk.calls);
    FaultsGrow(disk.faults, calls, disk.calls);
    report := Report(status, answers, false);
    if session.crash.Some? && session.crash.value.at < |disk.moments| && CrashesTo(disk.moments[session.crash.value.at], session.crash.value.after) {
      disk.Restart(session.crash.value.at, session.crash.value.after);
      PresentIs(disk);
      RememberedIs(disk, path);
      account := account.(after := Present(disk));
      report := report.(crashed := true);
    }
    AccountedIs(session, report, account);
    UnhinderedIs(disk.faults, report, account);
  }

  /** A session none of whose calls fail opens the database. */
  ghost predicate Unhindered(faults: nat -> bool, r: Report, a: Account) {
    a.from <= a.to && ((forall n: nat :: a.from <= n < a.to ==> !faults(n)) ==> r.status == Success)
  }

  lemma UnhinderedIs(faults: nat -> bool, r: Report, a: Account)
    ensures Unhindered(faults, r, a) <==> a.from <= a.to && ((forall n: nat :: a.from <= n < a.to ==> !faults(n)) ==> r.status == Success)
  {
  }

  lemma NothingLocated(path: seq<Moment>)
    ensures Located([], [], path)
  {
  }

  lemma PresentIs(disk: Disk)
    ensures Present(disk) == Moment(disk.fs, disk.history, disk.ledger.book)
  {
  }

  lemma RememberedIs(disk: Disk, path: seq<Moment>)
    requires exists disks :: disk.Remembered(path, disks)
    ensures disk.path == path + [Present(disk)]
  {
  }

  lemma PathSafe(disk: Disk)
    requires disk.Safe()
    ensures disk.ledger.book.start < |disk.path| == |disk.moments| && disk.path[|disk.path| - 1] == Present(disk)
    ensures forall i :: 0 <= i < |disk.path| ==> disk.path[i].fs == disk.moments[i] && Mark(i, disk.path[i]) in disk.trace
    ensures forall i :: 0 <= i < |disk.path| ==> MomentOk(disk.path[i], disk.options)
    ensures disk.failures == Faults(disk.faults, disk.calls)
    ensures Present(disk) == Moment(disk.fs, disk.history, disk.ledger.book)
  {
    hide MomentOk, Earlier, Faults;
  }

  lemma AccountedIs(s: Session, r: Report, a: Account)
    requires r.status == Success ==> |a.states| == |s.commands| + 1
    ensures Accounted(s, r, a) <==>
            && Located(a.states, a.places, a.path)
            && (if r.status == Success then
                  && Served(s.commands, r.answers, a.states) && a.states[0].slots.closed.None?
                  && a.states[0].book.acked == a.before.book.acked
                  && Begun(a.before.history, a.before.book, a.states[0].history, a.states[0].book, a.states[0].log, LogsSynced(a.before.fs, 0))
                else r.answers == [] && a.states == [])
            && (r.crashed <==> s.crash.Some? && s.crash.value.at < |a.path| && CrashesTo(a.path[s.crash.value.at].fs, s.crash.value.after))
            && (if r.crashed then
                  s.crash.Some? && s.crash.value.at < |a.path| &&
                  var m := a.path[s.crash.value.at];
                  a.after == Moment(s.crash.value.after, m.history, m.book.(start := |a.path|))
                else if r.status == Success then
                  a.after.history == a.states[|s.commands|].history && a.after.book == a.states[|s.commands|].book
                else a.after.history == a.before.history && a.after.book == a.before.book)
  {
    hide Served, Begun, LogsSynced, CrashesTo, Located;
  }

  const BLANK: Moment := Moment(EMPTY, [], NEW_BOOK)

  /** How the run stands after these sessions. */
  ghost function Left(accounts: seq<Account>): Moment {
    if accounts == [] then BLANK else accounts[|accounts| - 1].after
  }

  /** Each session takes over where the one before it left the run. */
  ghost predicate Chained(accounts: seq<Account>, end: Moment) {
    && (forall i :: 0 <= i < |accounts| ==> accounts[i].before == Left(accounts[..i]))
    && end == Left(accounts)
  }

  lemma ChainedMore(accounts: seq<Account>, end: Moment, a: Account)
    requires Chained(accounts, end) && a.before == end
    ensures Chained(accounts + [a], a.after)
  {
    var all := accounts + [a];
    forall i | 0 <= i < |all| ensures all[i].before == Left(all[..i]) {
      if i < |accounts| {
        assert all[i] == accounts[i] && all[..i] == accounts[..i];
      } else {
        assert all[..i] == accounts;
      }
    }
  }

  /** Every crash at this moment can be opened, every acknowledged write is confirmed, and a session has one other at most. */
  ghost predicate Sound(m: Moment, o: Options) {
    Claims.Recoverable(m.fs, m.history, o) && Among(m.book.acked, Confirmed(m.history)) && OneEach(m.history, m.book.sessions)
  }

  lemma MomentsSound(disk: Disk)
    requires disk.Safe()
    ensures forall i :: 0 <= i < |disk.path| ==> Sound(disk.path[i], disk.options)
  {
    hide Claims.Recoverable, Settled, Among, Confirmed, OneEach;
  }

  /** The reports of the sessions and the accounts that bear them out, each a part of this run, and the calls one after the other. */
  ghost predicate Recounted(sessions: seq<Session>, reports: seq<Report>, accounts: seq<Account>, path: seq<Moment>, calls: nat) {
    && |reports| == |accounts| == |sessions| && path != [] && Chained(accounts, path[|path| - 1])
    && (forall i :: 0 <= i < |sessions| ==> Accounted(sessions[i], reports[i], accounts[i]) && accounts[i].path <= path)
    && (forall i :: 0 <= i < |accounts| ==> accounts[i].from == Called(accounts[..i])) && calls == Called(accounts)
  }

  ghost function Called(accounts: seq<Account>): nat {
    if accounts == [] then 0 else accounts[|accounts| - 1].to
  }

  lemma RecountedMore(
    sessions: seq<Session>, reports: seq<Report>, accounts: seq<Account>, path: seq<Moment>, calls: nat, s: Session, r: Report, a: Account,
    longer: seq<Moment>)
    requires Recounted(sessions, reports, accounts, path, calls) && Accounted(s, r, a)
    requires path <= a.path <= longer && a.before == path[|path| - 1] && a.after == longer[|longer| - 1] && a.from == calls
    ensures Recounted(sessions + [s], reports + [r], accounts + [a], longer, a.to)
  {
    hide Accounted, Chained;
    ChainedMore(accounts, a.before, a);
    var ss, rs, all := sessions + [s], reports + [r], accounts + [a];
    forall i | 0 <= i < |ss|
      ensures Accounted(ss[i], rs[i], all[i]) && all[i].path <= longer && all[i].from == Called(all[..i])
    {
      if i < |sessions| {
        assert ss[i] == sessions[i] && rs[i] == reports[i] && all[i] == accounts[i] && all[..i] == accounts[..i];
      } else {
        assert all[..i] == accounts;
      }
    }
  }

  /** Runs the sessions one after the other on an empty disk. */
  method Run(options: Options, faults: nat -> bool, partial: nat -> nat, sessions: seq<Session>)
    returns (disk: Disk, reports: seq<Report>, ghost accounts: seq<Account>)
    requires options.Sized()
    ensures fresh(disk) && fresh(disk.ledger) && disk.Safe() && disk.options == options && disk.faults == faults
    ensures Recounted(sessions, reports, accounts, disk.path, disk.calls)
    ensures forall i :: 0 <= i < |disk.path| ==> Sound(disk.path[i], options)
    ensures options.Checked() ==> forall i :: 0 <= i < |sessions| ==> Unhindered(faults, reports[i], accounts[i])
  {
    hide *;
    disk := new Disk(options, faults, partial);
    PathSafe(disk);
    reports, accounts := [], [];
    BlankRecounted(disk);
    for i := 0 to |sessions|
      invariant fresh(disk) && fresh(disk.ledger) && disk.Safe() && disk.options == options && disk.faults == faults
      invariant |reports| == |accounts| == i && Recounted(sessions[..i], reports, accounts, disk.path, disk.calls)
      invariant options.Checked() ==> forall j :: 0 <= j < i ==> Unhindered(faults, reports[j], accounts[j])
    {
      PathSafe(disk);
      ghost var path, calls := disk.path, disk.calls;
      var report;
      ghost var account;
      report, account := RunSession(disk, sessions[i]);
      PathSafe(disk);
      assert sessions[..i + 1] == sessions[..i] + [sessions[i]];
      RecountedMore(sessions[..i], reports, accounts, path, calls, sessions[i], report, account, disk.path);
      reports, accounts := reports + [report], accounts + [account];
    }
    assert sessions[..|sessions|] == sessions;
    RecountedSizes(sessions, reports, accounts, disk.path, disk.calls);
    MomentsSound(disk);
  }

  lemma RecountedSizes(sessions: seq<Session>, reports: seq<Report>, accounts: seq<Account>, path: seq<Moment>, calls: nat)
    requires Recounted(sessions, reports, accounts, path, calls)
    ensures |reports| == |accounts| == |sessions|
  {
    hide Accounted, Chained;
  }

  lemma BlankRecounted(disk: Disk)
    requires disk.Safe() && disk.fs == EMPTY && disk.history == [] && disk.ledger.book == NEW_BOOK && disk.calls == 0
    ensures Recounted([], [], [], disk.path, 0)
  {
    hide Disk.Safe;
    PathSafe(disk);
  }

  // ----- Crash safety -----------------------------------------------------------------------------------

  /**
    A log that may be left of a moment: all its confirmed writes in order, so all acknowledged ones, of
    the unconfirmed ones some or none, and unchanged whatever an Open had already shown.
   */
  ghost predicate Survives(m: Moment, log: seq<Record>) {
    Explains(log, m.history) && Among(m.book.acked, log) && m.book.shown <= log
  }

  lemma ExplainedSurvives(m: Moment, log: seq<Record>, o: Options)
    requires MomentOk(m, o) && Explains(log, m.history)
    ensures Survives(m, log)
  {
    hide Explains, Among, BookOk, Settled, Claims.Recoverable;
    BookExplained(m.history, m.book, log);
  }

  lemma CrashSynced(fs: FileSystem, after: FileSystem)
    requires CrashesTo(fs, after)
    ensures LogsSynced(after, 0)
  {
    hide PerformAll;
  }

  method ReadAll(db: Database, keys: seq<Key>) returns (values: seq<Option<Bytes>>)
    requires db.Valid() && db.closed.None? && forall i :: 0 <= i < |keys| ==> 0 < |keys[i]| <= db.options.maxKeySize
    ensures |values| == |keys| && forall i :: 0 <= i < |keys| ==> values[i] == Visible(Last(db.Log(), keys[i]))
  {
    hide *;
    values := [];
    for i := 0 to |keys|
      invariant |values| == i && forall j :: 0 <= j < i ==> values[j] == Visible(Last(db.Log(), keys[j]))
    {
      var status, value := db.Get(keys[i]);
      values := values + [value];
    }
  }

  /**
    Power fails at a moment of the run, with this outcome, and the database is opened again.
    Without further I/O errors this succeeds; one log, a surviving one, answers for all keys, and it
    is known for certain from then on.
   */
  method Reopen(disk: Disk, crash: Crash, keys: seq<Key>)
    returns (status: Status, db: Database?, values: seq<Option<Bytes>>)
    requires disk.Safe() && disk.options.Sized() && disk.options.Checked()
    requires crash.at < |disk.moments| && CrashesTo(disk.moments[crash.at], crash.after)
    requires forall i :: 0 <= i < |keys| ==> 0 < |keys[i]| <= disk.options.maxKeySize
    modifies disk, disk.ledger
    ensures disk.Safe() && old(disk.trace) <= disk.trace && old(disk.calls) <= disk.calls && old(disk.failures) <= disk.failures
    ensures old(disk.path) < disk.path && crash.at < |old(disk.path)|
    ensures disk.failures == old(disk.failures) ==> status == Success
    ensures status == Success <==> db != null
    ensures db != null ==>
              && fresh(db) && fresh(db.mutable) && db.disk == disk && db.Valid() && db.closed.None?
              && Survives(old(disk.path)[crash.at], db.Log())
              && disk.history == Known(db.Log()) && disk.ledger.book.shown == db.Log()
              && disk.ledger.book.acked == old(disk.path)[crash.at].book.acked
              && |values| == |keys| && forall i :: 0 <= i < |keys| ==> values[i] == Visible(Last(db.Log(), keys[i]))
  {
    hide *;
    PathSafe(disk);
    ghost var moment, path := disk.path[crash.at], disk.path;
    CrashSynced(disk.moments[crash.at], crash.after);
    disk.Restart(crash.at, crash.after);
    RememberedIs(disk, path);
    PathSafe(disk);
    ghost var book, restarted, marks := disk.ledger.book, disk.path, disk.trace;
    status, db := Open(disk);
    PathGrows(disk, restarted, marks);
    values := [];
    if db != null {
      BegunIs(moment.history, book, disk.history, disk.ledger.book, db.Log(), true);
      ExplainedSurvives(moment, db.Log(), disk.options);
      values := ReadAll(db, keys);
    }
  }

  /**
    Crash safety of every run: any sessions, any I/O errors, a crash at any moment of it with any outcome.
    `before` is how many calls the sessions made.
   */
  method OpenAfterCrash(
    options: Options, faults: nat -> bool, partial: nat -> nat, sessions: seq<Session>, crash: Crash, keys: seq<Key>)
    returns (reports: seq<Report>, ghost accounts: seq<Account>, ghost path: seq<Moment>, ghost before: nat, crashed: bool, status: Status,
             values: seq<Option<Bytes>>, ghost log: seq<Record>)
    requires options.Checked() && options.Sized() && forall i :: 0 <= i < |keys| ==> 0 < |keys[i]| <= options.maxKeySize
    ensures Recounted(sessions, reports, accounts, path, before)
    ensures forall i :: 0 <= i < |sessions| ==> Unhindered(faults, reports[i], accounts[i])
    ensures forall i :: 0 <= i < |path| ==> Sound(path[i], options)
    ensures crashed <==> crash.at < |path| && CrashesTo(path[crash.at].fs, crash.after)
    ensures crashed && (forall n: nat :: n >= before ==> !faults(n)) ==> status == Success
    ensures crashed && status == Success ==>
              && Survives(path[crash.at], log)
              && |values| == |keys| && forall i :: 0 <= i < |keys| ==> values[i] == Visible(Last(log, keys[i]))
  {
    hide *;
    var disk;
    disk, reports, accounts := Run(options, faults, partial, sessions);
    PathSafe(disk);
    path, before := disk.path, disk.calls;
    RecountedSizes(sessions, reports, accounts, path, before);
    crashed := crash.at < |disk.moments| && CrashesTo(disk.moments[crash.at], crash.after);
    status, values, log := Success, [], [];
    if crashed {
      var db;
      status, db, values := Reopen(disk, crash, keys);
      PathSafe(disk);
      FaultsGrow(faults, before, disk.calls);
      if db != null {
        log := db.Log();
      }
    }
  }

  /**
    A second crash, at any moment after the first recovery, shows what the first one showed and after it
    only what was written since: a record that was there stays, one that was gone stays gone.  `path` is the
    run up to the second crash, and from its moment `begun` on the database was open again.
   */
  method CrashTwice(disk: Disk, first: Crash, commands: seq<Command>, second: Crash)
    returns (once: bool, answers: seq<Answer>, ghost states: seq<Snapshot>, ghost places: seq<nat>, ghost path: seq<Moment>, ghost begun: nat,
             twice: bool, reopened: Status, ghost earlier: seq<Record>, ghost later: seq<Record>)
    requires disk.Safe() && disk.options.Sized() && disk.options.Checked()
    requires first.at < |disk.moments| && CrashesTo(disk.moments[first.at], first.after)
    modifies disk, disk.ledger
    ensures disk.failures == old(disk.failures) ==> once && reopened == Success
    ensures first.at < |old(disk.path)| && old(disk.path) <= path <= disk.path
    ensures once ==>
              && Survives(old(disk.path)[first.at], earlier)
              && Served(commands, answers, states) && states[0].log == earlier && states[0].slots.closed.None?
              && Located(states, places, path) && |old(disk.path)| < begun == places[0] + 1
    ensures twice <==> once && begun <= second.at < |path| && CrashesTo(path[second.at].fs, second.after) && reopened == Success
    ensures twice ==>
              && Survives(path[second.at], later)
              && Known(earlier) <= path[second.at].history && earlier <= later
              && Explains(later[|earlier|..], path[second.at].history[|earlier|..])
  {
    hide *;
    PathSafe(disk);
    once, answers, states, places, twice, earlier, later := false, [], [], [], false, [], [];
    var status, db, values := Reopen(disk, first, []);
    reopened, path, begun := status, disk.path, |disk.path|;
    if db == null {
      return;
    }
    once, earlier := true, db.Log();
    db.Looks();
    db.ValidParts();
    PathSafe(disk);
    var count := |disk.moments|;
    answers, states, places := RunCommands(db, commands);
    ServedKeeps(commands, answers, states);
    ServedSizes(commands, answers, states);
    db.Looks();
    db.ValidParts();
    PathSafe(disk);
    path := disk.path;
    if count <= second.at < |disk.moments| && CrashesTo(disk.moments[second.at], second.after) {
      StillShown(disk, second.at);
      var final;
      reopened, final, values := Reopen(disk, second, []);
      if final != null {
        twice, later := true, final.Log();
        ShownStays(path[second.at], earlier, later, disk.options);
      }
    }
  }

  /** Since the session began, the book has said the same of what was shown. */
  lemma StillShown(disk: Disk, at: nat)
    requires disk.Safe() && disk.ledger.book.start <= at < |disk.path|
    ensures disk.path[at].book.shown == disk.ledger.book.shown && MomentOk(disk.path[at], disk.options)
  {
    hide MomentOk;
  }

  lemma ShownStays(m: Moment, earlier: seq<Record>, later: seq<Record>, o: Options)
    requires MomentOk(m, o) && m.book.shown == earlier && Survives(m, later)
    ensures Known(earlier) <= m.history && earlier <= later && Explains(later[|earlier|..], m.history[|earlier|..])
  {
    hide Explains, Among, OneEach, Confirmed, Settled, Claims.Recoverable;
    var rest := m.history[|earlier|..];
    assert m.history == Known(earlier) + rest;
    var front := ExplainsFront(later, Known(earlier), rest);
    KnownExplains(earlier, later[..front]);
  }
}
