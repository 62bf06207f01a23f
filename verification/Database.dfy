/** The storage engine (src/database.cpp, include/minikv/database.hpp). */
module Databases {
  import opened Coding
  import opened Configuration
  import opened Keys
  import opened Runs
  import opened MemTables
  import opened Wal
  import opened WalLog
  import opened Versions
  import opened Summaries
  import Merge
  import opened Compaction
  import opened Manifest
  import opened Tables
  import opened TableBuilder
  import opened TableReader
  import opened FileSystem
  import opened Durability
  import opened Ledgers
  import opened Claims
  import opened PublishSteps
  import opened Engine
  import opened EngineSteps
  import opened FlushSteps
  import opened CompactionSteps
  import opened Capacity
  import opened Disks
  import opened Publishing
  import opened Statuses
  import opened DatabaseSteps
  import opened CompactionTables
  import opened CompactionPlan
  import opened Reading

  /** The fields of a database that a write beside a flush leaves alone. */
  datatype Slots = Slots(
    closed: Option<Status>, version: Version, readers: seq<Reader>, mutable: MemTable, generation: nat, wal: Option<Inode>,
    immutable: Option<Immutable>, compaction: Option<CompactionState>, backgroundOk: bool, since: nat)

  /** A database as it is seen between two calls to the environment. */
  datatype Snapshot = Snapshot(
    slots: Slots, lastSequence: nat, poisoned: bool, entries: Run, log: seq<Record>, history: History, book: Book,
    trace: set<Mark>, calls: nat, failures: nat)

  /** The sequence number never falls, and the log stays as it is for as long as the number does. */
  ghost predicate Onward(last: nat, log: seq<Record>, last': nat, log': seq<Record>) {
    last <= last' && (last == last' ==> log' == log)
  }

  lemma OnwardIs(last: nat, log: seq<Record>, last': nat, log': seq<Record>)
    ensures Onward(last, log, last', log') <==> last <= last' && (last == last' ==> log' == log)
  {
  }

  /** What may happen while the worker does not hold the lock: clients write, and nothing else moves. */
  ghost predicate Beside(before: Snapshot, after: Snapshot, quiet: bool) {
    && after.slots == before.slots && before.trace <= after.trace && before.calls <= after.calls && before.failures <= after.failures
    && Follows(before.history, before.log, after.history, after.log)
    && Onward(before.lastSequence, before.log, after.lastSequence, after.log)
    && before.book.acked <= after.book.acked && after.book == before.book.(acked := after.book.acked, asked := after.book.asked)
    && (quiet ==> after == before.(trace := after.trace, calls := after.calls, failures := after.failures))
  }

  lemma BesideSelf(a: Snapshot)
    ensures Beside(a, a, true) && Beside(a, a, false)
  {
    hide Follows;
    FollowsSelf(a.history, a.log);
  }

  lemma BesideParts(a: Snapshot, b: Snapshot, quiet: bool)
    requires Beside(a, b, quiet)
    ensures b.slots == a.slots && a.trace <= b.trace && a.calls <= b.calls && a.failures <= b.failures && Follows(a.history, a.log, b.history, b.log)
    ensures a.book.acked <= b.book.acked && b.book == a.book.(acked := b.book.acked, asked := b.book.asked)
    ensures Onward(a.lastSequence, a.log, b.lastSequence, b.log)
    ensures quiet ==> b == a.(trace := b.trace, calls := b.calls, failures := b.failures)
  {
    hide Follows;
  }

  /** A call of the worker itself. */
  lemma BesideCall(a: Snapshot, b: Snapshot, c: Snapshot, quiet: bool)
    requires Beside(a, b, quiet) && b.trace <= c.trace && b.calls <= c.calls && b.failures <= c.failures
    requires c == b.(trace := c.trace, calls := c.calls, failures := c.failures)
    ensures Beside(a, c, quiet)
  {
    hide Follows;
  }

  /** A client's write. */
  lemma BesideWrite(a: Snapshot, b: Snapshot, c: Snapshot, r: Record)
    requires Beside(a, b, false) && b.trace <= c.trace && b.calls <= c.calls && b.failures <= c.failures && c.slots == b.slots
    requires Wrote(b.history, c.history, b.log, c.log, r, c.poisoned) && Onward(b.lastSequence, b.log, c.lastSequence, c.log)
    requires c.book == b.book.(acked := c.book.acked, asked := c.book.asked)
    requires c.book.acked == b.book.acked || c.book.acked == b.book.acked + [r]
    ensures Beside(a, c, false)
  {
    hide Follows;
    FollowsSelf(b.history, b.log);
    FollowsOne(b.history, b.log, r, true);
    FollowsOne(b.history, b.log, r, false);
    FollowsTransitive(a.history, a.log, b.history, b.log, c.history, c.log);
  }

  class Database {
    const options: Options
    const disk: Disk
    /** What Close returned, once it has been called. */
    var closed: Option<Status>
    var version: Version
    var readers: seq<Reader>
    var mutable: MemTable
    var generation: nat
    var wal: Option<Inode>
    var immutable: Option<Immutable>
    var compaction: Option<CompactionState>
    var lastSequence: nat
    /** A write-ahead log failed: no further write is accepted. */
    var poisoned: bool
    /** The outcome of the background worker's last round. */
    var backgroundOk: bool
    ghost var logs: Logs
    /** How much of the history was written before this session. */
    ghost var since: nat

    ghost function Mem(): Memory
      reads this, mutable
    {
      Memory(version, readers, mutable.entries, generation, wal, immutable, compaction, lastSequence, poisoned)
    }

    /** Everything the database holds, as a log of writes. */
    ghost function Log(): seq<Record>
      reads this, mutable
    {
      LogOf(Mem(), logs)
    }

    ghost predicate Valid()
      reads this, disk, disk.ledger, mutable
    {
      && disk.Safe() && disk.options == options && mutable.Valid() && mutable.options == options
      && (closed.None? ==>
            && Inv(disk.fs, disk.history, Mem(), logs, options) && HasLog()
            && Attends(disk.history, disk.ledger.book, since, poisoned))
    }

    /** A log is open unless a flush or a compaction has yet to open the next one. */
    predicate HasLog()
      reads this
    {
      wal.Some? || immutable.Some? || (compaction.Some? && compaction.value.walAdvanced)
    }

    ghost function Held(): Slots
      reads this
    {
      Slots(closed, version, readers, mutable, generation, wal, immutable, compaction, backgroundOk, since)
    }

    ghost function Look(): Snapshot
      reads this, disk, disk.ledger, mutable
    {
      Snapshot(Held(), lastSequence, poisoned, mutable.entries, Log(), disk.history, disk.ledger.book, disk.trace, disk.calls, disk.failures)
    }

    lemma Looks()
      ensures Held() == Slots(closed, version, readers, mutable, generation, wal, immutable, compaction, backgroundOk, since)
      ensures Look() == Snapshot(Held(), lastSequence, poisoned, mutable.entries, Log(), disk.history, disk.ledger.book,
                                 disk.trace, disk.calls, disk.failures)
      ensures HasLog() <==> wal.Some? || immutable.Some? || (compaction.Some? && compaction.value.walAdvanced)
    {
      hide Log;
    }

    lemma Fields()
      ensures Mem() == Memory(version, readers, mutable.entries, generation, wal, immutable, compaction, lastSequence, poisoned)
      ensures Log() == LogOf(Mem(), logs)
    {
      hide LogOf;
    }

    lemma ValidParts()
      requires Valid()
      ensures disk.Safe() && disk.options == options && mutable.Valid() && mutable.options == options
      ensures BookOk(disk.history, disk.ledger.book)
      ensures closed.None? ==>
                && Inv(disk.fs, disk.history, Mem(), logs, options) && Attends(disk.history, disk.ledger.book, since, poisoned)
                && (wal.Some? || immutable.Some? || (compaction.Some? && compaction.value.walAdvanced)) && Recoverable(disk.fs, disk.history, options)
    {
      disk.SafeNow();
      hide Disk.Safe, MemTable.Valid, Inv, Attends, Mem, BookOk;
      if closed.None? { InvRecoverable(disk.fs, disk.history, Mem(), logs, options); }
    }

    lemma NowFlushing()
      requires immutable.Some? && !immutable.value.published
      ensures Mem().Flushing()
    {
    }

    lemma PartsValid()
      requires disk.Safe() && disk.options == options && mutable.Valid() && mutable.options == options
      requires closed.None? ==> Inv(disk.fs, disk.history, Mem(), logs, options)
      requires closed.None? ==> Attends(disk.history, disk.ledger.book, since, poisoned)
      requires closed.None? ==> wal.Some? || immutable.Some? || (compaction.Some? && compaction.value.walAdvanced)
      ensures Valid()
    {
      hide Disk.Safe, MemTable.Valid, Inv, Attends, Mem;
    }

    /** A database that Open found or created. */
    constructor (
      disk: Disk, version: Version, readers: seq<Reader>, immutable: Option<Immutable>, mutable: MemTable,
      generation: nat, wal: Inode, lastSequence: nat, ghost logs: Logs)
      requires disk.Safe() && mutable.Valid() && mutable.options == disk.options && |disk.history| in disk.ledger.book.sessions
      requires Inv(disk.fs, disk.history,
                   Memory(version, readers, mutable.entries, generation, Some(wal), immutable, None, lastSequence, false),
                   logs, disk.options)
      ensures Valid() && closed.None? && this.disk == disk && this.mutable == mutable && this.logs == logs
      ensures Mem() == Memory(version, readers, mutable.entries, generation, Some(wal), immutable, None, lastSequence, false)
      ensures compaction.None? && backgroundOk && options == disk.options && since == |disk.history|
    {
      hide *;
      this.disk, options := disk, disk.options;
      this.version, this.readers, this.immutable, this.mutable := version, readers, immutable, mutable;
      this.generation, this.wal, this.lastSequence := generation, Some(wal), lastSequence;
      closed, compaction, poisoned, backgroundOk := None, None, false, true;
      this.logs, since := logs, |disk.history|;
      new;
      Fields();
      SessionStarts(disk.history);
      AttendsIs(disk.history, disk.ledger.book, since, false);
      PartsValid();
    }

    // ----- The active log ------------------------------------------------------------------------

    /** Creates the next log if need be, and makes its name durable before it takes writes. */
    method OpenMutableWal() returns (ok: bool)
      requires Valid() && closed.None? && (wal.None? ==> MayOpenWal(Mem(), logs))
      modifies this`wal, disk
      ensures old(disk.trace) <= disk.trace && old(disk.calls) <= disk.calls && old(disk.failures) <= disk.failures
      ensures Valid() && disk.history == old(disk.history) && Log() == old(Log())
      ensures ok ==> wal.Some?
      ensures !ok || old(wal).Some? ==> wal == old(wal)
      ensures disk.failures == old(disk.failures) || disk.Quiet(old(disk.calls), 2) ==> ok
      ensures ok ==> disk.calls == old(disk.calls) + (if old(wal).Some? then 0 else 2) && disk.failures == old(disk.failures)
      ensures old(wal).Some? ==> ok
    {
      hide *;
      ValidParts();
      Fields();
      if wal.Some? {
        return true;
      }
      ghost var m, h, before := Mem(), disk.history, disk.fs;
      QuietCall(disk, disk.calls, 2, disk.calls);
      QuietCall(disk, disk.calls, 2, disk.calls + 1);
      var name := WalName(generation);
      if name !in disk.fs.Current() {
        CreateWalInv(before, h, m, logs, options);
        InvRecoverable(before.Create(name), h, m, logs, options);
      }
      var inode;
      ok, inode := disk.OpenAppend(name);
      Fields();
      PartsValid();
      if !ok {
        return;
      }
      CreatedCurrent(before, name);
      ghost var created := disk.fs;
      SyncInv(created, h, m, logs, options);
      ok := disk.SyncDirectory();
      Fields();
      if !ok {
        PartsValid();
        return;
      }
      WalOpenedInv(disk.fs, h, m, logs, options);
      wal := Some(inode);
      Fields();
      PartsValid();
    }

    /** The memory once `r` is in the MemTable. */
    ghost function Applied(r: Record): Memory
      reads this, mutable
    {
      Mem().(mutable := Insert(mutable.entries, r))
    }

    lemma AppliedIs(r: Record)
      ensures Applied(r) == Mem().(mutable := Insert(mutable.entries, r))
    {
      hide Insert, Mem;
    }

    /** WalWriter::Append with the sync that strict writes ask for; the MemTable comes after it. */
    method AppendRecord(r: Record) returns (ok: bool)
      requires Valid() && closed.None? && !poisoned && compaction.None? && wal.Some?
      requires Encodable(r, options) && r.sequence == lastSequence + 1
      modifies this`lastSequence, this`poisoned, disk
      ensures old(disk.trace) <= disk.trace && old(disk.calls) <= disk.calls && old(disk.failures) <= disk.failures
      ensures disk.Safe() && OnlyFile(old(disk.fs), disk.fs, wal) && lastSequence == r.sequence
      ensures !ok ==> Valid() && poisoned && disk.history == old(disk.history) + [Event(r, false)] && Log() == old(Log())
      ensures ok ==>
                && !poisoned && disk.history == old(disk.history) + [Event(r, true)]
                && wal.value < |disk.fs.files| && disk.fs.files[wal.value].Stable()
                && Attends(disk.history, disk.ledger.book, since, false)
                && Inv(disk.fs, disk.history, Applied(r), logs.(active := logs.active + [r]), options)
                && LogOf(Applied(r), logs.(active := logs.active + [r])) == old(Log()) + [r]
      ensures disk.failures == old(disk.failures) || disk.Quiet(old(disk.calls), 2) ==> ok
      ensures ok ==> disk.calls == old(disk.calls) + 2 && disk.failures == old(disk.failures)
    {
      hide *;
      ValidParts();
      Fields();
      ghost var m, before := Mem(), disk.fs;
      QuietCall(disk, disk.calls, 2, disk.calls);
      QuietCall(disk, disk.calls, 2, disk.calls + 1);
      ghost var h := disk.history;
      var encoded;
      AttendsGrows(h, disk.ledger.book, since, r, true);
      AttendsGrows(h, disk.ledger.book, since, r, false);
      ok, encoded := EncodeWalRecord(r, options);
      lastSequence := r.sequence;
      AppendDone(before, h, m, logs, r, options);
      forall n | 0 <= n <= |encoded|
        ensures Recoverable(before.SetFile(m.wal.value, before.files[m.wal.value].Append(encoded[..n])), h + [Event(r, false)], options)
      {
        AppendFailed(before, h, m, logs, r, n, options);
        InvRecoverable(before.SetFile(m.wal.value, before.files[m.wal.value].Append(encoded[..n])), h + [Event(r, false)],
                       m.(lastSequence := r.sequence, poisoned := true), logs, options);
      }
      ghost var count;
      ok, count := disk.Write(wal.value, encoded, h + [Event(r, false)]);
      AppendFailed(before, h, m, logs, r, count, options);
      OnlyFileSet(before, wal.value, before.files[wal.value].Append(encoded[..count]));
      if ok {
        AppendedThenSynced(before, wal.value, encoded);
        InvRecoverable(before.SetFile(wal.value, before.files[wal.value].Append(encoded).Sync()), h + [Event(r, true)],
                       m.(lastSequence := r.sequence, mutable := Insert(m.mutable, r)), logs.(active := logs.active + [r]), options);
        ok := disk.SyncFile(wal.value, h + [Event(r, true)]);
      }
      poisoned := !ok;
      Fields();
      if ok {
        OnlyFileSet(before, wal.value, before.files[wal.value].Append(encoded).Sync());
        AppliedIs(r);
      } else {
        PartsValid();
      }
    }

    /** The core of Write: number the record, log it, apply it. */
    method Commit(request: Request) returns (status: Status)
      requires Valid() && closed.None? && !poisoned && compaction.None?
      requires ValidRecord(Record(request.key, 1, request.kind, request.value), options)
      modifies this`lastSequence, this`poisoned, this`logs, disk, mutable
      ensures old(disk.trace) <= disk.trace && old(disk.calls) <= disk.calls && old(disk.failures) <= disk.failures
      ensures Valid() && OnlyFile(old(disk.fs), disk.fs, wal)
      ensures var r := Record(request.key, old(lastSequence) + 1, request.kind, request.value);
              && (status == Success ==>
                    && disk.history == old(disk.history) + [Event(r, true)] && Log() == old(Log()) + [r]
                    && !poisoned && wal.Some? && wal.value < |disk.fs.files| && disk.fs.files[wal.value].Stable()
                    && mutable.entries != [] && mutable.entries == Insert(old(mutable.entries), r) && lastSequence == r.sequence)
              && (status != Success ==>
                    && Log() == old(Log()) && old(lastSequence) <= lastSequence
                    && disk.history == if poisoned then old(disk.history) + [Event(r, false)] else old(disk.history))
      ensures old(lastSequence) != MAX64 && wal.Some? ==>
                (disk.failures == old(disk.failures) || disk.Quiet(old(disk.calls), 2) ==> status == Success)
      ensures status == Success ==> disk.calls == old(disk.calls) + 2 && disk.failures == old(disk.failures)
    {
      hide *;
      ValidParts();
      Fields();
      OnlyFileSelf(disk.fs, wal);
      if lastSequence == MAX64 {
        return InvalidArgument;
      }
      if wal.None? {
        return IOError;
      }
      var r := Record(request.key, lastSequence + 1, request.kind, request.value);
      RequestEncodable(request, r, options, disk.fs, disk.history, Mem(), logs);
      MutableAccepts(Mem(), logs, r, disk.fs, disk.history, options);
      ghost var m := Mem();
      var ok := AppendRecord(r);
      if !ok {
        return IOError;
      }
      AppliedIs(r);
      Fields();
      if r.kind == Put {
        ok := mutable.Put(r.sequence, r.key, r.value);
      } else {
        ok := mutable.Delete(r.sequence, r.key);
      }
      MutableInserted(mutable, m, r, ok);
      logs := logs.(active := logs.active + [r]);
      Fields();
      PartsValid();
      status := Success;
    }

    // ----- What clients do while a flush is under way --------------------------------------------------

    /** What clients write while the worker does not hold the lock. */
    method Interfere(turn: seq<Request>, ghost from: Snapshot, ghost quiet: bool)
      requires Valid() && closed.None? && immutable.Some? && (turn != [] ==> options.background)
      requires Beside(from, Look(), quiet) && (quiet ==> turn == [])
      modifies this, disk, disk.ledger, mutable
      ensures Valid() && Held() == old(Held()) && Beside(from, Look(), quiet)
      ensures OnlyFile(old(disk.fs), disk.fs, wal) && disk.ledger.book.asked == old(disk.ledger.book).asked + turn
      ensures turn == [] ==> disk.calls == old(disk.calls) && disk.failures == old(disk.failures)
      ensures old(disk.calls) <= disk.calls && old(disk.failures) <= disk.failures
      decreases |turn|, 0
    {
      hide *;
      OnlyFileSelf(disk.fs, wal);
      ghost var held := Slots(closed, version, readers, mutable, generation, wal, immutable, compaction, backgroundOk, since);
      Looks();
      for i := 0 to |turn|
        invariant Valid() && Held() == old(Held()) == held && mutable == old(mutable) && wal == old(wal)
        invariant Beside(from, Look(), quiet) && OnlyFile(old(disk.fs), disk.fs, wal)
        invariant disk.ledger.book.asked == old(disk.ledger.book).asked + turn[..i]
        invariant old(disk.calls) <= disk.calls && old(disk.failures) <= disk.failures
        invariant i == 0 ==> disk.calls == old(disk.calls) && disk.failures == old(disk.failures)
      {
        assert turn[..i + 1] == turn[..i] + [turn[i]];
        Looks();
        ValidParts();
        Fields();
        OneAtATime(disk.fs, disk.history, Mem(), logs, options);
        ghost var before, fs := Look(), disk.fs;
        ghost var r := Record(turn[i].key, lastSequence + 1, turn[i].kind, turn[i].value);
        var ignored := Write(turn[i]);
        Looks();
        BesideWrite(from, before, Look(), r);
        OnlyFileTransitive(old(disk.fs), fs, disk.fs, wal);
      }
      assert turn[..|turn|] == turn;
    }

    // ----- Flushing --------------------------------------------------------------------------------

    /** PublishTable creates the temporary file. */
    method CreateDraft(g: nat, turn: seq<Request>, ghost from: Snapshot, ghost quiet: bool) returns (ok: bool, inode: Inode)
      requires Valid() && closed.None? && immutable.Some? && (turn != [] ==> options.background)
      requires Beside(from, Look(), quiet) && (quiet ==> turn == [])
      modifies this, disk, disk.ledger, mutable
      ensures Valid() && Held() == old(Held()) && Beside(from, Look(), quiet)
      ensures disk.failures == old(disk.failures) ==> ok
      ensures ok ==> Draft(disk.fs, TableTemporary(g), inode, StableFile([]))
      ensures disk.ledger.book.asked == old(disk.ledger.book).asked + turn
      ensures old(disk.calls) <= disk.calls && old(disk.failures) <= disk.failures
      ensures turn == [] ==> disk.calls == old(disk.calls) + 1 && ok == !disk.faults(old(disk.calls)) && (ok ==> disk.failures == old(disk.failures))
      decreases |turn|, 1
    {
      hide *;
      ValidParts();
      Fields();
      Looks();
      ghost var before, h, m, look := disk.fs, disk.history, Mem(), Look();
      TableNames(g);
      DraftCreated(before, TableTemporary(g), h, m, logs, options);
      InvRecoverable(before.Create(TableTemporary(g)), h, m, logs, options);
      ok, inode := disk.CreateTruncated(TableTemporary(g));
      Fields();
      Looks();
      PartsValid();
      BesideCall(from, look, Look(), quiet);
      ghost var fs, l := disk.fs, logs;
      Interfere(turn, from, quiet);
      Looks();
      if ok { DraftSurvives(fs, disk.fs, TableTemporary(g), inode, StableFile([]), h, m, l, options); }
    }

    /** PublishTable writes the table's bytes; a failing write may leave a part of them. */
    method FillDraft(g: nat, inode: Inode, data: Bytes, turn: seq<Request>, ghost from: Snapshot, ghost quiet: bool) returns (ok: bool)
      requires Valid() && closed.None? && immutable.Some? && (turn != [] ==> options.background)
      requires Beside(from, Look(), quiet) && (quiet ==> turn == [])
      requires Draft(disk.fs, TableTemporary(g), inode, StableFile([]))
      modifies this, disk, disk.ledger, mutable
      ensures Valid() && Held() == old(Held()) && Beside(from, Look(), quiet)
      ensures disk.failures == old(disk.failures) ==> ok
      ensures ok ==> Draft(disk.fs, TableTemporary(g), inode, StableFile([]).Append(data))
      ensures disk.ledger.book.asked == old(disk.ledger.book).asked + turn
      ensures old(disk.calls) <= disk.calls && old(disk.failures) <= disk.failures
      ensures turn == [] ==> disk.calls == old(disk.calls) + 1 && ok == !disk.faults(old(disk.calls)) && (ok ==> disk.failures == old(disk.failures))
      decreases |turn|, 1
    {
      hide *;
      ValidParts();
      Fields();
      Looks();
      ghost var before, h, m, l, look := disk.fs, disk.history, Mem(), logs, Look();
      DraftParts(before, TableTemporary(g), inode, StableFile([]));
      DraftContent(data);
      forall n | 0 <= n <= |data| ensures Recoverable(before.SetFile(inode, before.files[inode].Append(data[..n])), h, options) {
        DraftSet(before, TableTemporary(g), inode, StableFile([]), StableFile([]).Append(data[..n]), h, m, l, options);
        InvRecoverable(before.SetFile(inode, before.files[inode].Append(data[..n])), h, m, l, options);
      }
      ghost var count;
      ok, count := disk.Write(inode, data, disk.history);
      DraftSet(before, TableTemporary(g), inode, StableFile([]), StableFile([]).Append(data[..count]), h, m, l, options);
      Fields();
      Looks();
      PartsValid();
      BesideCall(from, look, Look(), quiet);
      ghost var fs := disk.fs;
      Interfere(turn, from, quiet);
      Looks();
      if ok { DraftSurvives(fs, disk.fs, TableTemporary(g), inode, StableFile([]).Append(data), h, m, l, options); }
    }

    method SyncDraft(g: nat, inode: Inode, ghost data: Bytes, turn: seq<Request>, ghost from: Snapshot, ghost quiet: bool) returns (ok: bool)
      requires Valid() && closed.None? && immutable.Some? && (turn != [] ==> options.background)
      requires Beside(from, Look(), quiet) && (quiet ==> turn == [])
      requires Draft(disk.fs, TableTemporary(g), inode, StableFile([]).Append(data))
      modifies this, disk, disk.ledger, mutable
      ensures Valid() && Held() == old(Held()) && Beside(from, Look(), quiet)
      ensures disk.failures == old(disk.failures) ==> ok
      ensures ok ==> Placed(disk.fs, TableTemporary(g), data)
      ensures disk.ledger.book.asked == old(disk.ledger.book).asked + turn
      ensures old(disk.calls) <= disk.calls && old(disk.failures) <= disk.failures
      ensures turn == [] ==> disk.calls == old(disk.calls) + 1 && ok == !disk.faults(old(disk.calls)) && (ok ==> disk.failures == old(disk.failures))
      decreases |turn|, 1
    {
      hide *;
      ValidParts();
      Fields();
      Looks();
      ghost var before, h, m, l, look := disk.fs, disk.history, Mem(), logs, Look();
      DraftParts(before, TableTemporary(g), inode, StableFile([]).Append(data));
      DraftContent(data);
      DraftSet(before, TableTemporary(g), inode, StableFile([]).Append(data), StableFile(data), h, m, l, options);
      InvRecoverable(before.SetFile(inode, StableFile(data)), h, m, l, options);
      ok := disk.SyncFile(inode, disk.history);
      Fields();
      Looks();
      PartsValid();
      BesideCall(from, look, Look(), quiet);
      ghost var fs := disk.fs;
      Interfere(turn, from, quiet);
      Looks();
      if ok {
        DraftSurvives(fs, disk.fs, TableTemporary(g), inode, StableFile(data), h, m, l, options);
        DraftPlaced(disk.fs, TableTemporary(g), inode, data);
      }
    }

    /** BestEffortRemove of the temporary file after a failure. */
    method DropDraft(g: nat, turn: seq<Request>, ghost from: Snapshot, ghost quiet: bool)
      requires Valid() && closed.None? && immutable.Some? && (turn != [] ==> options.background)
      requires Beside(from, Look(), quiet) && (quiet ==> turn == [])
      modifies this, disk, disk.ledger, mutable
      ensures Valid() && Held() == old(Held()) && Beside(from, Look(), quiet)
      ensures disk.ledger.book.asked == old(disk.ledger.book).asked + turn
      ensures old(disk.calls) <= disk.calls && old(disk.failures) <= disk.failures
      decreases |turn|, 1
    {
      hide *;
      ValidParts();
      Fields();
      Looks();
      ghost var before, h, m, look := disk.fs, disk.history, Mem(), Look();
      InvParts(before, h, m, logs, options);
      WritingSelf(before, TableTemporary(g), ClaimOf(m, logs, options), h, options);
      TableNames(g);
      BestEffortRemove(disk, TableTemporary(g), before, ClaimOf(m, logs, options));
      WritingInv(before, disk.fs, TableTemporary(g), h, m, logs, options);
      Fields();
      Looks();
      PartsValid();
      BesideCall(from, look, Look(), quiet);
      Interfere(turn, from, quiet);
      Looks();
    }

    /** Moves the synced temporary file to its final name. */
    method MoveDraft(g: nat, ghost content: Bytes, turn: seq<Request>, ghost from: Snapshot, ghost quiet: bool) returns (ok: bool)
      requires Valid() && closed.None? && immutable.Some? && (turn != [] ==> options.background)
      requires Beside(from, Look(), quiet) && (quiet ==> turn == [])
      requires !immutable.value.published && immutable.value.pending.None? && g == immutable.value.generation
      requires Placed(disk.fs, TableTemporary(g), content)
      modifies this, disk, disk.ledger, mutable
      ensures Valid() && Held() == old(Held()) && Beside(from, Look(), quiet)
      ensures disk.failures == old(disk.failures) ==> ok
      ensures ok ==> Placed(disk.fs, Table(g), content)
      ensures disk.ledger.book.asked == old(disk.ledger.book).asked + turn
      ensures old(disk.calls) <= disk.calls && old(disk.failures) <= disk.failures
      ensures turn == [] ==> disk.calls == old(disk.calls) + 1 && ok == !disk.faults(old(disk.calls)) && (ok ==> disk.failures == old(disk.failures))
      decreases |turn|, 1
    {
      hide *;
      ValidParts();
      Fields();
      Looks();
      OneAtATime(disk.fs, disk.history, Mem(), logs, options);
      ghost var before, h, m, l, look := disk.fs, disk.history, Mem(), logs, Look();
      NowFlushing();
      FlushRecords(before, h, m, l, options);
      FlushUnpublished(m, l, options);
      PlacedIn(before, TableTemporary(g), content);
      RenameTableInv(before, g, h, m, l, options);
      InvRecoverable(before.Issue(Move(TableTemporary(g), Table(g))), h, m, l, options);
      MovedPlaced(before, TableTemporary(g), Table(g), content);
      ok := disk.Rename(TableTemporary(g), Table(g));
      Fields();
      Looks();
      PartsValid();
      BesideCall(from, look, Look(), quiet);
      ghost var fs := disk.fs;
      Interfere(turn, from, quiet);
      Looks();
      if ok { PlacedSurvives(fs, disk.fs, Table(g), content, h, m, l, options); }
    }

    /** Makes the table's name durable. */
    method SettleTable(g: nat, ghost content: Bytes, turn: seq<Request>, ghost from: Snapshot, ghost quiet: bool) returns (ok: bool)
      requires Valid() && closed.None? && immutable.Some? && (turn != [] ==> options.background)
      requires Beside(from, Look(), quiet) && (quiet ==> turn == [])
      requires Placed(disk.fs, Table(g), content)
      modifies this, disk, disk.ledger, mutable
      ensures Valid() && Held() == old(Held()) && Beside(from, Look(), quiet)
      ensures disk.failures == old(disk.failures) ==> ok
      ensures ok ==> disk.fs.pending == [] && Placed(disk.fs, Table(g), content)
      ensures disk.ledger.book.asked == old(disk.ledger.book).asked + turn
      ensures old(disk.calls) <= disk.calls && old(disk.failures) <= disk.failures
      ensures turn == [] ==> disk.calls == old(disk.calls) + 1 && ok == !disk.faults(old(disk.calls)) && (ok ==> disk.failures == old(disk.failures))
      decreases |turn|, 1
    {
      hide *;
      ValidParts();
      Fields();
      Looks();
      ghost var h, m, l, look := disk.history, Mem(), logs, Look();
      SyncInv(disk.fs, h, m, l, options);
      SyncedPlaced(disk.fs, Table(g), content);
      ok := disk.SyncDirectory();
      Fields();
      Looks();
      PartsValid();
      BesideCall(from, look, Look(), quiet);
      ghost var fs := disk.fs;
      Interfere(turn, from, quiet);
      Looks();
      if ok {
        PlacedSurvives(fs, disk.fs, Table(g), content, h, m, l, options);
        OnlyFilePending(fs, disk.fs, wal);
      }
    }

    /** Opens the published table. */
    method OpenPublished(g: nat, records: Run, turn: seq<Request>, ghost from: Snapshot, ghost quiet: bool) returns (reader: Option<Reader>)
      requires Valid() && closed.None? && immutable.Some? && (turn != [] ==> options.background)
      requires Beside(from, Look(), quiet) && (quiet ==> turn == [])
      requires immutable.value.generation == g && immutable.value.records == records
      requires options.Valid() && Sorted(records) && records != [] && AllEncodable(records, options) && TableEncodable(g, records, options)
      requires disk.fs.pending == [] && Placed(disk.fs, Table(g), TableBytes(g, records, options))
      modifies this, disk, disk.ledger, mutable
      ensures Valid() && Held() == old(Held()) && Beside(from, Look(), quiet)
      ensures disk.failures == old(disk.failures) ==> reader.Some?
      ensures reader.Some? ==> immutable.Some? && TableReady(disk.fs, immutable.value, reader.value, options)
      ensures disk.ledger.book.asked == old(disk.ledger.book).asked + turn
      ensures old(disk.calls) <= disk.calls && old(disk.failures) <= disk.failures
      ensures turn == [] ==>
                && disk.calls == old(disk.calls) + 1 && reader.Some? == !disk.faults(old(disk.calls))
                && (reader.Some? ==> disk.failures == old(disk.failures))
      decreases |turn|, 1
    {
      hide *;
      ValidParts();
      Fields();
      Looks();
      ghost var h, m, l, look := disk.history, Mem(), logs, Look();
      PlacedIn(disk.fs, Table(g), TableBytes(g, records, options));
      var ok, content := disk.Read(disk.fs.Current()[Table(g)]);
      Fields();
      Looks();
      PartsValid();
      BesideCall(from, look, Look(), quiet);
      reader := None;
      if ok {
        BytesBuilt(g, records, options);
        reader := Load(content, options);
      }
      ghost var fs := disk.fs;
      Interfere(turn, from, quiet);
      Looks();
      if ok {
        PlacedSurvives(fs, disk.fs, Table(g), TableBytes(g, records, options), h, m, l, options);
        OnlyFilePending(fs, disk.fs, wal);
        PartsTableReady(disk.fs, immutable.value, reader.value, options);
      }
    }

    /** The first half of PublishTable: the table's bytes under a temporary name, synced. */
    method BuildDraft(others: seq<seq<Request>>, ghost from: Snapshot, ghost quiet: bool, ghost all: seq<Request>)
      returns (ok: bool, encoded: Bytes)
      requires Valid() && closed.None? && immutable.Some? && !immutable.value.published && immutable.value.pending.None?
      requires (others != [] ==> options.background) && Beside(from, Look(), quiet) && quiet == (others == [])
      requires Owed(disk.ledger.book.asked, others, 0, all)
      modifies this, disk, disk.ledger, mutable
      ensures Valid() && Held() == old(Held()) && Beside(from, Look(), quiet) && immutable == old(immutable) && immutable.Some?
      ensures ok ==>
                && TableEncodable(immutable.value.generation, immutable.value.records, options)
                && encoded == TableBytes(immutable.value.generation, immutable.value.records, options)
                && Placed(disk.fs, TableTemporary(immutable.value.generation), encoded)
                && Owed(disk.ledger.book.asked, others, 4, all)
      ensures !ok ==> disk.ledger.book.asked == all
      ensures TableEncodable(immutable.value.generation, immutable.value.records, options) ==>
                (disk.failures == old(disk.failures) || (quiet && disk.Quiet(old(disk.calls), 3)) ==> ok)
      ensures ok && quiet ==> disk.calls == old(disk.calls) + 3 && disk.failures == old(disk.failures)
      ensures old(disk.calls) <= disk.calls && old(disk.failures) <= disk.failures
      decreases |Rest(others, 0)|, 3
    {
      hide *;
      ghost var start := disk.calls;
      QuietCall(disk, start, 3, start);
      ValidParts();
      Fields();
      Looks();
      NowFlushing();
      FlushRecords(disk.fs, disk.history, Mem(), logs, options);
      TurnsWithin(others);
      NoTurn(others, 0);
      NoTurn(others, 1);
      OwedStep(disk.ledger.book.asked, others, 0, all);
      var g, records := immutable.value.generation, immutable.value.records;
      Interfere(Turn(others, 0), from, quiet);
      Looks();
      OwedStep(disk.ledger.book.asked, others, 1, all);
      ok, encoded := EncodeTable(g, records, options);
      if !ok {
        OwedIs(disk.ledger.book.asked, others, 1, all);
        Interfere(Rest(others, 1), from, quiet);
        Looks();
        return;
      }
      var inode;
      ok, inode := CreateDraft(g, Turn(others, 1), from, quiet);
      Looks();
      OwedStep(disk.ledger.book.asked, others, 2, all);
      if !ok {
        OwedIs(disk.ledger.book.asked, others, 2, all);
        Interfere(Rest(others, 2), from, quiet);
        Looks();
        return;
      }
      QuietPart(disk, start, 3, start + 1, 2);
      ok := FinishDraft(g, inode, encoded, others, from, quiet, all);
      Looks();
    }

    /** Writes and syncs the temporary file, or removes it again. */
    method FinishDraft(
      g: nat, inode: Inode, encoded: Bytes, others: seq<seq<Request>>, ghost from: Snapshot, ghost quiet: bool, ghost all: seq<Request>)
      returns (ok: bool)
      requires Valid() && closed.None? && immutable.Some?
      requires (others != [] ==> options.background) && Beside(from, Look(), quiet) && quiet == (others == [])
      requires Draft(disk.fs, TableTemporary(g), inode, StableFile([])) && Owed(disk.ledger.book.asked, others, 2, all)
      modifies this, disk, disk.ledger, mutable
      ensures Valid() && Held() == old(Held()) && Beside(from, Look(), quiet)
      ensures if ok then Placed(disk.fs, TableTemporary(g), encoded) && Owed(disk.ledger.book.asked, others, 4, all)
              else disk.ledger.book.asked == all
      ensures disk.failures == old(disk.failures) || (quiet && disk.Quiet(old(disk.calls), 2)) ==> ok
      ensures ok && quiet ==> disk.calls == old(disk.calls) + 2 && disk.failures == old(disk.failures)
      ensures old(disk.calls) <= disk.calls && old(disk.failures) <= disk.failures
      decreases |Rest(others, 0)|, 2
    {
      hide *;
      QuietCall(disk, disk.calls, 2, disk.calls);
      QuietCall(disk, disk.calls, 2, disk.calls + 1);
      TurnsWithin(others);
      NoTurn(others, 2);
      NoTurn(others, 3);
      OwedStep(disk.ledger.book.asked, others, 2, all);
      Looks();
      ok := FillDraft(g, inode, encoded, Turn(others, 2), from, quiet);
      Looks();
      OwedStep(disk.ledger.book.asked, others, 3, all);
      if !ok {
        OwedIs(disk.ledger.book.asked, others, 3, all);
        DropDraft(g, Rest(others, 3), from, quiet);
        Looks();
        return;
      }
      ok := SyncDraft(g, inode, encoded, Turn(others, 3), from, quiet);
      Looks();
      if !ok {
        OwedIs(disk.ledger.book.asked, others, 4, all);
        DropDraft(g, Rest(others, 4), from, quiet);
        Looks();
      }
    }

    /** The second half: the final name, made durable, and the table opened. */
    method PlaceTable(others: seq<seq<Request>>, encoded: Bytes, ghost from: Snapshot, ghost quiet: bool, ghost all: seq<Request>)
      returns (reader: Option<Reader>)
      requires Valid() && closed.None? && immutable.Some? && !immutable.value.published && immutable.value.pending.None?
      requires (others != [] ==> options.background) && Beside(from, Look(), quiet) && quiet == (others == [])
      requires TableEncodable(immutable.value.generation, immutable.value.records, options)
      requires encoded == TableBytes(immutable.value.generation, immutable.value.records, options)
      requires Placed(disk.fs, TableTemporary(immutable.value.generation), encoded) && Owed(disk.ledger.book.asked, others, 4, all)
      modifies this, disk, disk.ledger, mutable
      ensures Valid() && Held() == old(Held()) && Beside(from, Look(), quiet)
      ensures reader.Some? ==> immutable.Some? && TableReady(disk.fs, immutable.value, reader.value, options)
      ensures disk.ledger.book.asked == all
      ensures disk.failures == old(disk.failures) || (quiet && disk.Quiet(old(disk.calls), 3)) ==> reader.Some?
      ensures reader.Some? && quiet ==> disk.calls == old(disk.calls) + 3 && disk.failures == old(disk.failures)
      ensures old(disk.calls) <= disk.calls && old(disk.failures) <= disk.failures
      decreases |Rest(others, 0)|, 2
    {
      hide *;
      ghost var start := disk.calls;
      QuietCall(disk, start, 3, start);
      QuietCall(disk, start, 3, start + 1);
      QuietCall(disk, start, 3, start + 2);
      ValidParts();
      Fields();
      Looks();
      NowFlushing();
      FlushRecords(disk.fs, disk.history, Mem(), logs, options);
      TurnsWithin(others);
      NoTurn(others, 4);
      NoTurn(others, 5);
      NoTurn(others, 6);
      OwedStep(disk.ledger.book.asked, others, 4, all);
      var g, records := immutable.value.generation, immutable.value.records;
      TableEncodableParts(g, records, options);
      reader := None;
      var ok := MoveDraft(g, encoded, Turn(others, 4), from, quiet);
      Looks();
      OwedStep(disk.ledger.book.asked, others, 5, all);
      if !ok {
        OwedIs(disk.ledger.book.asked, others, 5, all);
        DropDraft(g, Rest(others, 5), from, quiet);
        return;
      }
      ok := SettleTable(g, encoded, Turn(others, 5), from, quiet);
      Looks();
      OwedIs(disk.ledger.book.asked, others, 6, all);
      if !ok {
        Interfere(Rest(others, 6), from, quiet);
        Looks();
        return;
      }
      reader := OpenPublished(g, records, Rest(others, 6), from, quiet);
      Looks();
    }

    /**
      PublishTable for the Immutable.  Before, between and after its calls to the environment other
      threads take their turns, also where it fails.
     */
    method PublishTable(others: seq<seq<Request>>) returns (reader: Option<Reader>)
      requires Valid() && closed.None? && immutable.Some? && !immutable.value.published && immutable.value.pending.None?
      requires others != [] ==> options.background
      modifies this, disk, disk.ledger, mutable
      ensures Valid() && Held() == old(Held()) && Beside(old(Look()), Look(), others == [])
      ensures TableEncodable(immutable.value.generation, immutable.value.records, options) ==>
                (disk.failures == old(disk.failures) || (others == [] && disk.Quiet(old(disk.calls), 6)) ==> reader.Some?)
      ensures reader.Some? && others == [] ==> disk.calls == old(disk.calls) + 6 && disk.failures == old(disk.failures)
      ensures reader.Some? ==> immutable.Some? && TableReady(disk.fs, immutable.value, reader.value, options)
      ensures disk.ledger.book.asked == old(disk.ledger.book).asked + Rest(others, 0)
      ensures old(disk.calls) <= disk.calls && old(disk.failures) <= disk.failures
      decreases |Rest(others, 0)|, 4
    {
      hide *;
      ghost var from, quiet, start := Look(), others == [], disk.calls;
      QuietPart(disk, start, 6, start, 3);
      QuietPart(disk, start, 6, start + 3, 3);
      BesideSelf(from);
      Looks();
      ghost var all := disk.ledger.book.asked + Rest(others, 0);
      OwedIs(disk.ledger.book.asked, others, 0, all);
      var ok, encoded := BuildDraft(others, from, quiet, all);
      Looks();
      reader := None;
      if ok {
        reader := PlaceTable(others, encoded, from, quiet, all);
        Looks();
      }
    }

    /** The MemTable and its log become immutable; `openNext` is the background mode's early successor log. */
    method FreezeMutable(openNext: bool) returns (ok: bool)
      requires Valid() && closed.None? && compaction.None?
      requires openNext ==> !poisoned && wal.Some? && wal.value < |disk.fs.files| && disk.fs.files[wal.value].Stable()
      modifies this`mutable, this`generation, this`wal, this`immutable, this`logs, disk
      ensures old(disk.trace) <= disk.trace && old(disk.calls) <= disk.calls && old(disk.failures) <= disk.failures
      ensures fresh(mutable) || mutable == old(mutable)
      ensures Valid() && disk.history == old(disk.history) && Log() == old(Log())
      ensures old(immutable.Some?) ==> !ok && immutable == old(immutable)
      ensures ok ==> immutable.Some?
      ensures immutable.Some? && old(immutable).None? ==> !immutable.value.published
      ensures ok && !openNext ==> mutable.entries == [] && disk.calls == old(disk.calls) && disk.failures == old(disk.failures) && version == old(version)
      ensures !ok && !openNext ==> mutable == old(mutable) && generation == old(generation) && immutable == old(immutable)
      ensures old(immutable).None? && old(mutable.entries) != [] && old(generation) != MAX64 ==>
                && immutable == Some(FrozenTable(old(generation), old(mutable.entries)))
                && (!openNext || disk.failures == old(disk.failures) || disk.Quiet(old(disk.calls), 2) ==> ok)
      ensures ok && openNext ==> wal.Some? && disk.calls == old(disk.calls) + 2 && disk.failures == old(disk.failures) && mutable.entries == []
    {
      hide *;
      FrozenSlot(generation, mutable.entries);
      ValidParts();
      Fields();
      FreezeAllowed(disk.fs, disk.history, Mem(), logs, options);
      if immutable.Some? || mutable.entries == [] || wal.None? || generation == MAX64 {
        return false;
      }
      ghost var m, l := Mem(), logs;
      var maximum := MaximumSequence(mutable.entries);
      if openNext {
        FreezeTwoKeeps(disk.fs, disk.history, m, l, options);
      } else {
        FreezeKeeps(disk.fs, disk.history, m, l, options);
      }
      FrozenIs(m, maximum);
      wal := None;
      immutable := Some(Immutable(generation, mutable.entries, maximum, None, false, false));
      generation := generation + 1;
      mutable := new MemTable(options);
      logs := Logs(logs.tables, logs.active, [], openNext);
      Fields();
      PartsValid();
      ok := true;
      if openNext {
        FrozenMayOpen(m, maximum, logs);
        ok := OpenMutableWal();
      }
    }

    /** Publishes the Immutable's table if that has not happened yet; the Immutable stays the same throughout. */
    method EnsurePending(others: seq<seq<Request>>) returns (ok: bool)
      requires Valid() && closed.None? && immutable.Some? && !immutable.value.published
      requires others != [] ==> options.background
      modifies this, disk, disk.ledger, mutable
      ensures Valid() && Held() == old(Held()).(immutable := immutable)
      ensures immutable.Some? && immutable.value == old(immutable).value.(pending := immutable.value.pending)
      ensures ok ==> immutable.value.pending.Some?
      ensures Beside(old(Look()), Look().(slots := old(Held())), others == [])
      ensures TableEncodable(immutable.value.generation, immutable.value.records, options) ==>
                (disk.failures == old(disk.failures) || (others == [] && disk.Quiet(old(disk.calls), 6)) ==> ok)
      ensures ok && others == [] ==>
                disk.calls == old(disk.calls) + (if old(immutable).value.pending.Some? then 0 else 6) && disk.failures == old(disk.failures)
      ensures disk.ledger.book.asked == old(disk.ledger.book).asked + (if old(immutable).value.pending.None? then Rest(others, 0) else [])
      ensures old(disk.calls) <= disk.calls && old(disk.failures) <= disk.failures
      decreases |Rest(others, 0)|, 5
    {
      hide *;
      BesideSelf(Look());
      Looks();
      if immutable.value.pending.Some? {
        return true;
      }
      var reader := PublishTable(others);
      Looks();
      ok := reader.Some?;
      if ok {
        ValidParts();
        Fields();
        NowFlushing();
        ghost var m := Mem();
        var g := immutable.value.generation;
        TableReadyParts(disk.fs, immutable.value, reader.value, options);
        PlacedIn(disk.fs, Table(g), TableBytes(g, immutable.value.records, options));
        OneAtATime(disk.fs, disk.history, m, logs, options);
        PendingKeeps(disk.fs, disk.history, m, logs, reader.value, options);
        WithPendingIs(m, reader.value);
        immutable := Some(immutable.value.(pending := reader));
        Fields();
        Looks();
        PartsValid();
      }
    }

    /** Makes the pending table part of the version. */
    method PublishFlush() returns (status: Status)
      requires Valid() && closed.None? && immutable.Some? && !immutable.value.published && immutable.value.pending.Some?
      requires compaction.None?
      modifies this`version, this`readers, this`immutable, this`logs, disk
      ensures old(disk.trace) <= disk.trace && old(disk.calls) <= disk.calls && old(disk.failures) <= disk.failures
      ensures Valid() && disk.history == old(disk.history) && Log() == old(Log())
      ensures immutable.Some? && (status == Success ==> immutable.value == old(immutable).value.(pending := None, published := true))
      ensures if status == Success then
                && old(immutable).value.records != [] && version == FlushedVersion(old(version), old(immutable).value, options)
                && RunsOf(readers, options) == RunsOf(old(readers), options) + [old(immutable).value.records]
              else immutable == old(immutable) && version == old(version)
      ensures FlushFits(old(version), old(immutable).value, options) ==>
                (disk.failures == old(disk.failures) || disk.Quiet(old(disk.calls), 5) ==> status == Success)
      ensures status == Success ==> disk.calls == old(disk.calls) + 5 && disk.failures == old(disk.failures)
    {
      hide *;
      QuietPart(disk, disk.calls, 5, disk.calls, 4);
      QuietCall(disk, disk.calls, 5, disk.calls + 4);
      ValidParts();
      Fields();
      NowFlushing();
      InvMemory(disk.fs, disk.history, Mem(), logs, options);
      InvParts(disk.fs, disk.history, Mem(), logs, options);
      FlushAccepted(Mem(), logs, options);
      if FlushFits(version, immutable.value, options) { FlushFitsParts(version, immutable.value, options); }
      ghost var m, l, h, before := Mem(), logs, disk.history, disk.fs;
      FlushEditIs(m);
      var i := immutable.value;
      var edit := VersionEdit([VersionTable(0, i.pending.value.summary)], [], Some(generation), Some(i.maximumSequence));
      var candidate := Apply(version, edit, options.maxKeySize);
      if candidate.None? {
        return InvalidArgument;
      }
      FlushAllowed(before, h, m, l, options);
      ghost var s := CandidateOf(m, l, options).value;
      var ok := PublishManifest(disk, candidate.value, s, ClaimOf(m, l, options));
      FrameInv(before, disk.fs, h, m, l, options);
      Fields();
      PartsValid();
      if !ok {
        return IOError;
      }
      NowIs(disk.fs);
      AdoptFlush(candidate.value);
      status := Success;
    }

    /** The flushed table becomes part of the version in memory, as it is on disk. */
    method AdoptFlush(v: Version)
      requires Valid() && closed.None? && immutable.Some? && !immutable.value.published && immutable.value.pending.Some?
      requires compaction.None? && disk.fs.pending == []
      requires CandidateOf(Mem(), logs, options).Some? && CandidateOf(Mem(), logs, options).value.version == v
      requires ViewHolds(ImageOf(disk.fs.Current(), disk.fs.files), CandidateOf(Mem(), logs, options).value, disk.history, options)
      modifies this`version, this`readers, this`immutable, this`logs
      ensures Valid() && Log() == old(Log()) && version == v
      ensures immutable == Some(old(immutable).value.(pending := None, published := true))
      ensures RunsOf(readers, options) == RunsOf(old(readers), options) + [old(immutable).value.records]
    {
      hide *;
      ValidParts();
      Fields();
      NowFlushing();
      ghost var m := Mem();
      InvParts(disk.fs, disk.history, m, logs, options);
      PublishedKeeps(disk.fs, disk.history, m, logs, options);
      PublishedIs(m, v);
      MemoryParts(m, logs, options);
      PublishedRuns(m, readers, options);
      readers := readers + [immutable.value.pending.value];
      version := v;
      immutable := Some(immutable.value.(pending := None, published := true));
      logs := logs.(tables := logs.tables + logs.frozen);
      Fields();
      PartsValid();
    }

    /** Removes the log whose records are now in a table. */
    method RemoveFlushedWal() returns (ok: bool)
      requires Valid() && closed.None? && immutable.Some? && immutable.value.published
      modifies this`immutable, disk
      ensures old(disk.trace) <= disk.trace && old(disk.calls) <= disk.calls && old(disk.failures) <= disk.failures
      ensures Valid() && disk.history == old(disk.history) && Log() == old(Log())
      ensures immutable.Some? && immutable.value == old(immutable).value.(walRemoved := immutable.value.walRemoved)
      ensures disk.failures == old(disk.failures) ==> ok
      ensures ok ==> disk.calls == old(disk.calls) + (if old(immutable).value.walRemoved then 0 else 2) && disk.failures == old(disk.failures)
      ensures !ok ==> immutable == old(immutable)
      ensures disk.Quiet(old(disk.calls), 2) ==> ok
      ensures !old(immutable).value.walRemoved && disk.faults(old(disk.calls)) ==> !ok
    {
      hide *;
      QuietCall(disk, disk.calls, 2, disk.calls);
      QuietCall(disk, disk.calls, 2, disk.calls + 1);
      ok := true;
      if immutable.value.walRemoved {
        return;
      }
      ValidParts();
      Fields();
      ghost var m, h, before := Mem(), disk.history, disk.fs;
      var name := WalName(immutable.value.generation);
      FlushedWal(before, h, m, logs, options);
      UnlinkInv(before, name, h, m, logs, options);
      InvRecoverable(before.Issue(Unlink(name)), h, m, logs, options);
      ok := disk.RemoveFile(name);
      Fields();
      if ok {
        ghost var removed := disk.fs;
        SyncInv(removed, h, m, logs, options);
        ok := disk.SyncDirectory();
        Fields();
      }
      if ok {
        WalRemovedInv(disk.fs, h, m, logs, options);
        immutable := Some(immutable.value.(walRemoved := true));
        Fields();
      }
      PartsValid();
    }

    /** The end of a flush: the next log is open, the Immutable is gone. */
    method FinishFlush() returns (ok: bool)
      requires Valid() && closed.None? && immutable.Some? && immutable.value.published
      modifies this`wal, this`immutable, this`logs, disk
      ensures old(disk.trace) <= disk.trace && old(disk.calls) <= disk.calls && old(disk.failures) <= disk.failures
      ensures Valid() && disk.history == old(disk.history) && Log() == old(Log())
      ensures if ok then immutable.None? && wal.Some? else immutable == old(immutable)
      ensures disk.failures == old(disk.failures) ==> ok
      ensures ok ==> disk.calls == old(disk.calls) + (if old(wal).Some? then 0 else 2) && disk.failures == old(disk.failures)
      ensures old(wal).Some? ==> ok
    {
      hide *;
      ValidParts();
      Fields();
      FlushedWal(disk.fs, disk.history, Mem(), logs, options);
      if wal.None? { FlushedMayOpen(Mem(), logs); }
      ok := OpenMutableWal();
      if ok {
        ValidParts();
        Fields();
        RetireInv(disk.fs, disk.history, Mem(), logs, options);
        immutable := None;
        logs := logs.(frozen := [], twoWals := false);
        Fields();
        PartsValid();
      }
    }

    /** The end of a flush whose table is published: its log is removed and the Immutable is gone. */
    method RetireFlush() returns (ok: bool)
      requires Valid() && closed.None? && immutable.Some? && immutable.value.published
      modifies this`wal, this`immutable, this`logs, disk
      ensures old(disk.trace) <= disk.trace && old(disk.calls) <= disk.calls && old(disk.failures) <= disk.failures
      ensures Valid() && disk.history == old(disk.history) && Log() == old(Log())
      ensures if ok then immutable.None? && wal.Some? else immutable.Some? && immutable.value.published
      ensures disk.failures == old(disk.failures) <==> ok
      ensures ok && !old(immutable).value.walRemoved && old(wal).Some? ==> disk.calls == old(disk.calls) + 2
      ensures !old(immutable).value.walRemoved && old(wal).Some? && disk.Quiet(old(disk.calls), 2) ==> ok
      ensures !old(immutable).value.walRemoved && disk.faults(old(disk.calls)) ==> !ok && immutable == old(immutable)
    {
      hide *;
      QuietPart(disk, disk.calls, 2, disk.calls, 2);
      ok := RemoveFlushedWal();
      if ok {
        ok := FinishFlush();
      }
    }

    /** Nothing of the flush under way has been done yet. */
    predicate Intact()
      reads this
    {
      immutable.Some? && !immutable.value.published && !immutable.value.walRemoved && immutable.value.pending.None?
    }

    lemma IntactIs()
      ensures Intact() <==> immutable.Some? && !immutable.value.published && !immutable.value.walRemoved && immutable.value.pending.None?
    {
    }

    /** The table of this Immutable is part of the version, and the Immutable is still there. */
    ghost predicate HalfFlushed(before: Option<Immutable>)
      reads this
    {
      before.Some? && immutable == Some(before.value.(pending := None, published := true))
    }

    /**
      How a flush of which nothing was done ends: it takes thirteen calls if the next log is open already, and
      if the twelfth, the removal of its log, is the first to fail, it stops half way.
     */
    ghost predicate Flushed(
      start: nat, i: Option<Immutable>, v: Version, rs: seq<Reader>, fits: bool, w: Option<Inode>, status: Status)
      reads this, disk
    {
      && (fits && disk.Quiet(start, 11) && disk.faults(start + 11) ==> status == IOError && HalfFlushed(i))
      && (fits && w.Some? && disk.Quiet(start, 13) ==> status == Success)
      && (status == Success && i.Some? ==>
            && i.value.records != [] && version == FlushedVersion(v, i.value, options)
            && RunsOf(readers, options) == RunsOf(rs, options) + [i.value.records]
            && wal.Some? && (w.Some? ==> disk.calls == start + 13))
    }

    lemma FlushedIs(start: nat, i: Option<Immutable>, v: Version, rs: seq<Reader>, fits: bool, w: Option<Inode>, status: Status)
      ensures Flushed(start, i, v, rs, fits, w, status) <==>
              && (fits && disk.Quiet(start, 11) && disk.faults(start + 11) ==> status == IOError && HalfFlushed(i))
              && (fits && w.Some? && disk.Quiet(start, 13) ==> status == Success)
              && (status == Success && i.Some? ==>
                    && i.value.records != [] && version == FlushedVersion(v, i.value, options)
                    && RunsOf(readers, options) == RunsOf(rs, options) + [i.value.records]
                    && wal.Some? && (w.Some? ==> disk.calls == start + 13))
    {
      hide Disk.Quiet, HalfFlushed, RunsOf, Capacity.FlushedVersion;
    }

    lemma HalfFlushedIs(before: Option<Immutable>)
      ensures HalfFlushed(before) <==> before.Some? && immutable == Some(before.value.(pending := None, published := true))
    {
    }

    /** Builds and publishes the Immutable's table, from wherever an earlier attempt stopped. */
    method FlushTable() returns (status: Status)
      requires Valid() && closed.None? && immutable.Some? && !immutable.value.published && compaction.None?
      modifies this, disk, disk.ledger, mutable
      ensures old(disk.trace) <= disk.trace && old(disk.calls) <= disk.calls && old(disk.failures) <= disk.failures
      ensures Valid() && disk.history == old(disk.history) && Log() == old(Log()) && disk.ledger.book == old(disk.ledger.book)
      ensures Held() == old(Held()).(version := version, readers := readers, immutable := immutable) && immutable.Some?
      ensures lastSequence == old(lastSequence) && poisoned == old(poisoned) && mutable.entries == old(mutable.entries)
      ensures if status == Success then
                && immutable.value == old(immutable).value.(pending := None, published := true)
                && old(immutable).value.records != []
                && version == FlushedVersion(old(version), old(immutable).value, options)
                && RunsOf(readers, options) == RunsOf(old(readers), options) + [old(immutable).value.records]
              else version == old(version) && immutable.value == old(immutable).value.(pending := immutable.value.pending)
      ensures FlushFits(old(version), old(immutable).value, options) ==>
                (disk.failures == old(disk.failures) || disk.Quiet(old(disk.calls), 11) ==> status == Success)
      ensures status == Success ==>
                disk.calls == old(disk.calls) + (if old(immutable).value.pending.Some? then 5 else 11) && disk.failures == old(disk.failures)
      decreases 0, 6
    {
      hide *;
      ghost var start, before := disk.calls, Look();
      QuietPart(disk, start, 11, start, 6);
      QuietPart(disk, start, 11, start, 5);
      QuietPart(disk, start, 11, start + 6, 5);
      Looks();
      var ok := EnsurePending([]);
      Looks();
      BesideParts(before, Look().(slots := before.slots), true);
      if FlushFits(version, old(immutable).value, options) { FlushFitsParts(version, old(immutable).value, options); }
      if !ok {
        return IOError;
      }
      FlushFitsPending(version, old(immutable).value, immutable.value, options);
      status := PublishFlush();
      Looks();
    }

    /** Takes a flush from wherever it stopped to its end. */
    method ContinueFlush() returns (status: Status)
      requires Valid() && closed.None?
      modifies this, disk, disk.ledger, mutable
      ensures old(disk.trace) <= disk.trace && old(disk.calls) <= disk.calls && old(disk.failures) <= disk.failures
      ensures Valid() && closed.None? && disk.history == old(disk.history) && Log() == old(Log())
      ensures mutable == old(mutable) && compaction == old(compaction) && backgroundOk == old(backgroundOk) && since == old(since)
      ensures lastSequence == old(lastSequence) && poisoned == old(poisoned) && mutable.entries == old(mutable.entries)
      ensures disk.ledger.book == old(disk.ledger.book)
      ensures status == Success ==> immutable.None?
      ensures status == Success && old(immutable).Some? ==> wal.Some?
      ensures generation == old(generation)
      ensures status == Success && old(immutable).Some? ==>
                if old(immutable).value.published then version == old(version)
                else
                  && old(immutable).value.records != [] && version == FlushedVersion(old(version), old(immutable).value, options)
                  && RunsOf(readers, options) == RunsOf(old(readers), options) + [old(immutable).value.records]
      ensures old(immutable).None? ==>
                && wal == old(wal) && version == old(version) && status == Success && mutable.size == old(mutable.size)
                && disk.fs == old(disk.fs) && disk.calls == old(disk.calls) && disk.failures == old(disk.failures)
      ensures disk.failures == old(disk.failures) && old(Flushable()) ==> status == Success
      ensures disk.failures == old(disk.failures) && status != Success ==> !Flushable()
      ensures status == Success ==> disk.failures == old(disk.failures)
      ensures old(Intact()) ==>
                Flushed(old(disk.calls), old(immutable), old(version), old(readers), old(Flushable()), old(wal), status)
      decreases 0, 7
    {
      hide *;
      IntactIs();
      FitsParts();
      Looks();
      if immutable.None? {
        return Success;
      }
      ValidParts();
      Fields();
      OneAtATime(disk.fs, disk.history, Mem(), logs, options);
      if !immutable.value.published {
        status := FlushTable();
        Looks();
        QuietPart(disk, old(disk.calls), 13, old(disk.calls), 11);
        FlushedIs(old(disk.calls), old(immutable), old(version), old(readers), old(Flushable()), old(wal), status);
        if status != Success {
          FlushFitsPending(version, old(immutable).value, immutable.value, options);
          FitsParts();
          return;
        }
      }
      ghost var start := disk.calls;
      var ok := RetireFlush();
      HalfFlushedIs(old(immutable));
      status := if ok then Success else IOError;
      QuietPart(disk, old(disk.calls), 13, old(disk.calls), 11);
      QuietPart(disk, old(disk.calls), 13, old(disk.calls) + 11, 2);
      FlushedIs(old(disk.calls), old(immutable), old(version), old(readers), old(Flushable()), old(wal), status);
    }

    // ----- Compactions ---------------------------------------------------------------------------------

    lemma NowCompacting()
      ensures compaction.Some? && !compaction.value.versionPublished <==> Mem().Compacting()
    {
    }

    /** Plans a compaction of the level-zero tables; nothing on disk changes. */
    method PrepareCompaction() returns (status: Status)
      requires Valid() && closed.None? && immutable.None? && mutable.entries == []
      modifies this`compaction
      ensures Valid() && Log() == old(Log())
      ensures old(compaction).Some? ==> status == Corruption && compaction == old(compaction)
      ensures old(compaction).None? ==> status in {Success, InvalidArgument}
      ensures status != Success ==> compaction == old(compaction)
      ensures status == Success && compaction.None? ==> LevelZeroRange(version.tables).None?
      ensures old(compaction).None? && PlanFits(version, readers, options) ==> status == Success
      ensures compaction.Some? && old(compaction).None? ==>
                Untouched(compaction.value) && PlanOk(old(Mem()), logs, compaction.value, options)
    {
      hide *;
      ValidParts();
      Fields();
      InvMemory(disk.fs, disk.history, Mem(), logs, options);
      ReadersParts(Mem(), logs, options);
      OutputLimit(options);
      if compaction.Some? || |readers| != |version.tables| {
        return Corruption;
      }
      FreezeAllowed(disk.fs, disk.history, Mem(), logs, options);
      var plan;
      status, plan := Plan(version, readers, options, Mem(), logs);
      if plan.Some? {
        UntouchedIs(plan.value);
        PreparedInv(disk.fs, disk.history, Mem(), logs, plan.value, options);
        compaction := plan;
        Fields();
        PartsValid();
      }
    }

    /** Writes the outputs, unless an earlier attempt did. */
    method PublishOutputs() returns (ok: bool)
      requires Valid() && closed.None? && compaction.Some?
      modifies this`compaction, disk
      ensures old(disk.trace) <= disk.trace && old(disk.calls) <= disk.calls && old(disk.failures) <= disk.failures
      ensures Valid() && disk.history == old(disk.history) && Log() == old(Log()) && compaction.Some?
      ensures ok ==> |compaction.value.published| == |compaction.value.outputs|
      ensures compaction.value == old(compaction).value.(published := compaction.value.published)
      ensures CompactionFits(version, compaction.value, options) == CompactionFits(version, old(compaction).value, options)
      ensures old(compaction).value.versionPublished || OutputsFit(old(compaction).value, options) ==>
                (disk.failures == old(disk.failures) || disk.Quiet(old(disk.calls), OutputCalls(old(compaction).value)) ==> ok)
      ensures ok ==> disk.calls == old(disk.calls) + OutputCalls(old(compaction).value) && disk.failures == old(disk.failures)
    {
      hide *;
      ValidParts();
      Fields();
      NowCompacting();
      ghost var m, h, before := Mem(), disk.history, disk.fs;
      InvMemory(before, h, m, logs, options);
      CompactionParts(m, logs, options);
      var c := compaction.value;
      OutputCallsIs(c);
      if c.outputs == [] || c.published != [] {
        PublishedCount(m, logs, c, options);
        return true;
      }
      UnpublishedCandidate(m, logs, c, options);
      CompactionSpare(before, h, m, logs, options);
      OutputsFitIs(version, c, options);
      var published;
      ghost var encoded;
      ok, published, encoded := PublishCompactionTables(disk, c.firstOutput, c.outputs, ClaimOf(m, logs, options));
      SteadyInv(before, disk.fs, h, m, logs, options);
      Fields();
      if ok {
        PartsPublished(c.(published := published), options);
        PlacedOutputs(disk.fs, c, encoded, options);
        OutputsInv(disk.fs, h, m, logs, published, options);
        WithOutputsIs(m, published);
        SameFits(version, c, c.(published := published), options);
        compaction := Some(c.(published := published));
        Fields();
      }
      PartsValid();
    }

    /** Builds the new version, unless an earlier attempt did. */
    method PrepareCandidate() returns (ok: bool)
      requires Valid() && closed.None? && compaction.Some? && |compaction.value.published| == |compaction.value.outputs|
      modifies this`compaction
      ensures Valid() && Log() == old(Log()) && compaction.Some?
      ensures ok ==> compaction.value.candidate.Some?
      ensures ok <==> old(compaction).value.candidate.Some? || (version.id != MAX64 && Merge.Sum(Sizes(old(compaction).value.published)) <= MAX64)
      ensures old(compaction).value.candidate.None? && !old(compaction).value.versionPublished ==>
                Sizes(old(compaction).value.published) == OutputSizes(old(compaction).value.firstOutput, old(compaction).value.outputs, options)
      ensures compaction.value == old(compaction).value.(candidate := compaction.value.candidate)
      ensures CompactionFits(version, compaction.value, options) == CompactionFits(version, old(compaction).value, options)
    {
      hide *;
      var c := compaction.value;
      if c.candidate.Some? {
        return true;
      }
      ValidParts();
      Fields();
      NowCompacting();
      ghost var m := Mem();
      InvMemory(disk.fs, disk.history, m, logs, options);
      CompactionParts(m, logs, options);
      PlannedOutputs(m, logs, c, options);
      CandidateAccepted(m, logs, c, options);
      PublishedBuilt(c, options);
      BuiltSizes(c, options);
      ok := CountBytes(Sizes(c.published));
      if !ok {
        return;
      }
      var edit := CompactionEdit(version, c.picks, Added(c.firstOutput, c.outputs, Sizes(c.published)));
      var candidate := Apply(version, edit, options.maxKeySize);
      ok := candidate.Some?;
      if ok {
        PartsCandidate(m, c, candidate.value, options);
        CandidateInv(disk.fs, disk.history, m, logs, candidate.value, options);
        WithCandidateIs(m, candidate.value);
        SameFits(version, c, c.(candidate := candidate), options);
        compaction := Some(c.(candidate := candidate));
        Fields();
        PartsValid();
      }
    }

    /** Publishes the new version and moves the memory over to it. */
    method PublishCompaction() returns (ok: bool)
      requires Valid() && closed.None? && compaction.Some? && compaction.value.candidate.Some?
      modifies this`version, this`readers, this`compaction, this`wal, this`generation, disk
      ensures old(disk.trace) <= disk.trace && old(disk.calls) <= disk.calls && old(disk.failures) <= disk.failures
      ensures Valid() && disk.history == old(disk.history) && Log() == old(Log()) && compaction.Some?
      ensures ok ==> compaction.value.versionPublished
      ensures !ok ==> compaction == old(compaction) && version == old(version) && readers == old(readers) && wal == old(wal)
      ensures disk.failures == old(disk.failures) && CompactionFits(old(version), old(compaction).value, options) ==> ok
      ensures !old(compaction).value.versionPublished && disk.faults(old(disk.calls)) ==> !ok && disk.fs == old(disk.fs)
      ensures !old(compaction).value.versionPublished && CompactionFits(old(version), old(compaction).value, options) &&
                disk.Quiet(old(disk.calls), 4) && disk.faults(old(disk.calls) + 4) ==>
                !ok && Renaming(disk.fs, old(compaction).value.candidate.value, options)
    {
      hide *;
      var c := compaction.value;
      if c.versionPublished {
        return true;
      }
      ValidParts();
      Fields();
      NowCompacting();
      InvMemory(disk.fs, disk.history, Mem(), logs, options);
      if CompactionFits(version, c, options) { CandidateFits(Mem(), logs, options); }
      ghost var m, h, before := Mem(), disk.history, disk.fs;
      CompactionAllowed(before, h, m, logs, options);
      ghost var s := CandidateOf(m, logs, options).value;
      if ManifestEncodable(c.candidate.value, options.maxKeySize) { CandidateRenaming(before, h, m, logs, options); }
      PartsAllows(ClaimOf(m, logs, options), s);
      NowIs(before);
      ok := PublishManifest(disk, c.candidate.value, s, ClaimOf(m, logs, options));
      FrameInv(before, disk.fs, h, m, logs, options);
      Fields();
      if !ok {
        PartsValid();
        return;
      }
      PartsValid();
      NowIs(disk.fs);
      AdoptCompaction();
    }

    /** Moves the memory over to the version that the MANIFEST now holds. */
    method AdoptCompaction()
      requires Valid() && closed.None? && compaction.Some? && compaction.value.candidate.Some? && !compaction.value.versionPublished
      requires disk.fs.pending == [] && |compaction.value.picks| == |readers| && CandidateOf(Mem(), logs, options).Some?
      requires ViewHolds(ImageOf(disk.fs.Current(), disk.fs.files), CandidateOf(Mem(), logs, options).value, disk.history, options)
      modifies this`version, this`readers, this`compaction, this`wal, this`generation
      ensures Valid() && Log() == old(Log()) && compaction.Some? && compaction.value.versionPublished
    {
      hide *;
      ValidParts();
      Fields();
      NowCompacting();
      ghost var m, h := Mem(), disk.history;
      var c := compaction.value;
      CompactedInv(disk.fs, h, m, logs, options);
      CompactedIs(m, c, c.candidate.value);
      CompactedSorted(disk.fs, h, m, logs, c, options);
      var live := LiveReaders(readers, c.picks, c.published);
      readers, version := live, c.candidate.value;
      c := c.(versionPublished := true);
      if c.outputs != [] {
        c := c.(cleanup := c.cleanup + [WalName(generation)], walAdvanced := true);
        wal := None;
        generation := version.nextFileNumber;
      }
      compaction := Some(c);
      Fields();
      PartsValid();
    }

    /** Removes the files that the new version does not read. */
    method CleanUp() returns (ok: bool)
      requires Valid() && closed.None? && compaction.Some? && compaction.value.versionPublished
      modifies this`compaction, disk
      ensures old(disk.trace) <= disk.trace && old(disk.calls) <= disk.calls && old(disk.failures) <= disk.failures
      ensures Valid() && disk.history == old(disk.history) && Log() == old(Log()) && compaction.Some?
      ensures compaction.value.versionPublished && compaction.value.walAdvanced == old(compaction).value.walAdvanced
      ensures ok ==> compaction.value.cleanupSynced
      ensures disk.failures == old(disk.failures) ==> ok
    {
      hide *;
      while compaction.value.cleanupIndex < |compaction.value.cleanup|
        invariant old(disk.trace) <= disk.trace && old(disk.calls) <= disk.calls && old(disk.failures) <= disk.failures
        invariant Valid() && disk.history == old(disk.history) && Log() == old(Log())
        invariant compaction.Some? && compaction.value.versionPublished
        invariant compaction.value.cleanup == old(compaction).value.cleanup
        invariant compaction.value.walAdvanced == old(compaction).value.walAdvanced
        decreases |compaction.value.cleanup| - compaction.value.cleanupIndex
      {
        ValidParts();
        Fields();
        ghost var m, h, before := Mem(), disk.history, disk.fs;
        var c := compaction.value;
        var name := c.cleanup[c.cleanupIndex];
        CleanupInv(before, h, m, logs, options);
        InvRecoverable(before.Issue(Unlink(name)), h, m, logs, options);
        ok := disk.RemoveFile(name);
        Fields();
        if !ok {
          PartsValid();
          return;
        }
        MarkCleaned(m, c.(cleanupIndex := c.cleanupIndex + 1));
      }
      ok := true;
      if !compaction.value.cleanupSynced {
        ValidParts();
        Fields();
        ghost var m, h, before := Mem(), disk.history, disk.fs;
        SyncInv(before, h, m, logs, options);
        InvMemory(before, h, m, logs, options);
        CleanupParts(m, logs, compaction.value, options);
        ok := disk.SyncDirectory();
        Fields();
        if !ok {
          PartsValid();
          return;
        }
        MarkCleaned(m, compaction.value.(cleanupSynced := true));
      }
    }

    /** Records progress of a cleanup. */
    method MarkCleaned(ghost m: Memory, c: CompactionState)
      requires disk.Safe() && disk.options == options && mutable.Valid() && mutable.options == options && closed.None?
      requires m == Mem() && Inv(disk.fs, disk.history, m, logs, options)
      requires Attends(disk.history, disk.ledger.book, since, poisoned)
      requires wal.Some? || immutable.Some? || (compaction.Some? && compaction.value.walAdvanced)
      requires compaction.Some? && compaction.value.versionPublished && c.cleanupIndex <= |c.cleanup|
      requires c == compaction.value.(cleanupIndex := c.cleanupIndex, cleanupSynced := c.cleanupSynced)
      requires compaction.value.cleanupSynced ==> c.cleanupSynced
      modifies this`compaction
      ensures Valid() && compaction == Some(c) && Log() == old(Log())
    {
      hide *;
      Fields();
      NowCompacting();
      InvMemory(disk.fs, disk.history, m, logs, options);
      PartsBookkeeping(m, m.(compaction := Some(c)), logs, c, options);
      BookkeepingInv(disk.fs, disk.history, m, m.(compaction := Some(c)), logs, options);
      compaction := Some(c);
      Fields();
      PartsValid();
    }

    /** The end of a compaction: its log is open, its state is gone. */
    method FinishCompaction() returns (ok: bool)
      requires Valid() && closed.None? && compaction.Some? && compaction.value.versionPublished && compaction.value.cleanupSynced
      modifies this`wal, this`compaction, disk
      ensures old(disk.trace) <= disk.trace && old(disk.calls) <= disk.calls && old(disk.failures) <= disk.failures
      ensures Valid() && disk.history == old(disk.history) && Log() == old(Log())
      ensures ok ==> compaction.None? && LevelZeroRange(version.tables).None?
      ensures disk.failures == old(disk.failures) ==> ok
    {
      hide *;
      ok := true;
      if compaction.value.walAdvanced {
        ValidParts();
        Fields();
        NowCompacting();
        InvMemory(disk.fs, disk.history, Mem(), logs, options);
        CompactionParts(Mem(), logs, options);
        if wal.None? { CleanedMayOpen(Mem(), logs); }
        ok := OpenMutableWal();
      }
      if ok {
        ValidParts();
        Fields();
        ghost var m := Mem();
        InvMemory(disk.fs, disk.history, m, logs, options);
        CompactionParts(m, logs, options);
        CompactionGone(m, logs, options);
        BookkeepingInv(disk.fs, disk.history, m, m.(compaction := None), logs, options);
        compaction := None;
        Fields();
        PartsValid();
      }
    }

    /**
      How an untouched plan ends when all calls for its outputs succeed and one for its MANIFEST fails: the
      compaction stays pending with its candidate made, and if that call was the last, renamed.
     */
    ghost predicate Stalls(
      plan: CompactionState, start: nat, v: Version, rs: seq<Reader>, w: Option<Inode>, status: Status)
      reads this, disk
    {
      CompactionFits(v, plan, options) ==>
        && (disk.Quiet(start, OutputCalls(plan)) && disk.faults(start + OutputCalls(plan)) ==>
              status == IOError && Stalled(plan, v, rs, w, false))
        && (disk.Quiet(start, OutputCalls(plan) + 4) && disk.faults(start + OutputCalls(plan) + 4) ==>
              status == IOError && Stalled(plan, v, rs, w, true))
    }

    ghost predicate Stalled(plan: CompactionState, v: Version, rs: seq<Reader>, w: Option<Inode>, renamed: bool)
      reads this, disk
    {
      && compaction.Some? && compaction.value == plan.(published := compaction.value.published, candidate := compaction.value.candidate)
      && compaction.value.candidate.Some? && version == v && readers == rs && wal == w
      && (Renaming(disk.fs, compaction.value.candidate.value, options) <==> renamed)
    }

    lemma StallsIs(plan: CompactionState, start: nat, v: Version, rs: seq<Reader>, w: Option<Inode>, status: Status)
      ensures Stalls(plan, start, v, rs, w, status) <==>
              (CompactionFits(v, plan, options) ==>
                && (disk.Quiet(start, OutputCalls(plan)) && disk.faults(start + OutputCalls(plan)) ==>
                      status == IOError && Stalled(plan, v, rs, w, false))
                && (disk.Quiet(start, OutputCalls(plan) + 4) && disk.faults(start + OutputCalls(plan) + 4) ==>
                      status == IOError && Stalled(plan, v, rs, w, true)))
    {
      hide CompactionFits, Disk.Quiet, Stalled, OutputCalls;
    }

    /** Success means that none of the calls in question failed. */
    ghost predicate NeverStalls(plan: CompactionState, start: nat, v: Version) {
      CompactionFits(v, plan, options) ==>
        && !(disk.Quiet(start, OutputCalls(plan)) && disk.faults(start + OutputCalls(plan)))
        && !(disk.Quiet(start, OutputCalls(plan) + 4) && disk.faults(start + OutputCalls(plan) + 4))
    }

    lemma StallsNever(plan: CompactionState, start: nat, v: Version, rs: seq<Reader>, w: Option<Inode>)
      ensures Stalls(plan, start, v, rs, w, Success) <==> NeverStalls(plan, start, v)
    {
      hide CompactionFits, Disk.Quiet, Stalled, OutputCalls;
    }

    lemma StalledIs(plan: CompactionState, v: Version, rs: seq<Reader>, w: Option<Inode>, renamed: bool)
      ensures Stalled(plan, v, rs, w, renamed) <==>
              && compaction.Some? && compaction.value == plan.(published := compaction.value.published, candidate := compaction.value.candidate)
              && compaction.value.candidate.Some? && version == v && readers == rs && wal == w
              && (Renaming(disk.fs, compaction.value.candidate.value, options) <==> renamed)
    {
      hide Renaming;
    }

    /** Publishes the version of a compaction, from wherever an earlier attempt stopped. */
    method CarryOut() returns (status: Status)
      requires Valid() && closed.None? && compaction.Some?
      modifies this`version, this`readers, this`compaction, this`wal, this`generation, disk
      ensures old(disk.trace) <= disk.trace && old(disk.calls) <= disk.calls && old(disk.failures) <= disk.failures
      ensures Valid() && disk.history == old(disk.history) && Log() == old(Log()) && compaction.Some?
      ensures status == Success ==> compaction.value.versionPublished
      ensures status in {Success, InvalidArgument, IOError}
      ensures disk.failures == old(disk.failures) && status != Success ==> !CompactionFits(version, compaction.value, options)
      ensures disk.failures == old(disk.failures) && CompactionFits(old(version), old(compaction).value, options) ==> status == Success
      ensures Untouched(old(compaction).value) ==>
                Stalls(old(compaction).value, old(disk.calls), old(version), old(readers), old(wal), status)
    {
      hide *;
      ghost var start, plan := disk.calls, compaction.value;
      ghost var k := OutputCalls(plan);
      QuietPart(disk, start, k + 4, start, k);
      QuietPart(disk, start, k + 4, start + k, 4);
      CandidateOrFits(version, plan, options);
      OutputsFitIs(version, plan, options);
      UntouchedIs(plan);
      ValidParts();
      Fields();
      InvMemory(disk.fs, disk.history, Mem(), logs, options);
      CompactionParts(Mem(), logs, options);
      var ok := PublishOutputs();
      StallsIs(plan, start, old(version), old(readers), old(wal), IOError);
      if !ok {
        return IOError;
      }
      NoneRenamed();
      ok := PrepareCandidate();
      StallsIs(plan, start, old(version), old(readers), old(wal), InvalidArgument);
      if !ok {
        return InvalidArgument;
      }
      if !compaction.value.versionPublished { CandidateIsNew(); }
      ok := PublishCompaction();
      status := if ok then Success else IOError;
      StallsIs(plan, start, old(version), old(readers), old(wal), status);
      StalledIs(plan, old(version), old(readers), old(wal), false);
      StalledIs(plan, old(version), old(readers), old(wal), true);
    }

    /** As long as no candidate is made no other version's MANIFEST is in place anywhere. */
    lemma NoneRenamed()
      requires Valid() && closed.None? && compaction.Some?
      ensures Untouched(compaction.value.(published := [])) ==> forall v :: v != version ==> !Renaming(disk.fs, v, options)
    {
      hide *;
      ValidParts();
      Fields();
      UntouchedIs(compaction.value.(published := []));
      NowCompacting();
      if Untouched(compaction.value.(published := [])) {
        forall v | v != version ensures !Renaming(disk.fs, v, options) {
          NotRenaming(disk.fs, disk.history, Mem(), logs, v, options);
        }
      }
    }

    lemma CandidateIsNew()
      requires Valid() && closed.None? && compaction.Some? && compaction.value.candidate.Some? && !compaction.value.versionPublished
      ensures compaction.value.candidate.value != version
    {
      hide *;
      ValidParts();
      Fields();
      NowCompacting();
      InvParts(disk.fs, disk.history, Mem(), logs, options);
      PlannedOf(Mem(), logs, options);
      CandidateIs(Mem(), logs, compaction.value, compaction.value.candidate.value, options);
    }

    /** Takes a compaction from wherever it stopped to its end. */
    method ContinueCompaction() returns (status: Status)
      requires Valid() && closed.None?
      modifies this`version, this`readers, this`compaction, this`wal, this`generation, disk
      ensures old(disk.trace) <= disk.trace && old(disk.calls) <= disk.calls && old(disk.failures) <= disk.failures
      ensures Valid() && disk.history == old(disk.history) && Log() == old(Log())
      ensures status == Success ==> compaction.None? && (old(compaction).Some? ==> LevelZeroRange(version.tables).None?)
      ensures status in {Success, InvalidArgument, IOError}
      ensures disk.failures == old(disk.failures) && status != Success ==>
                compaction.Some? && !CompactionFits(version, compaction.value, options)
      ensures old(compaction).None? ==>
                compaction.None? && wal == old(wal) && version == old(version) && readers == old(readers) && generation == old(generation) &&
                disk.fs == old(disk.fs) && disk.calls == old(disk.calls) && disk.failures == old(disk.failures) && status == Success
      ensures disk.failures == old(disk.failures) && old(Compactable()) ==> status == Success
      ensures old(compaction).Some? && Untouched(old(compaction).value) ==>
                Stalls(old(compaction).value, old(disk.calls), old(version), old(readers), old(wal), status)
    {
      hide *;
      FitsParts();
      if compaction.None? {
        return Success;
      }
      status := CarryOut();
      StallsIs(old(compaction).value, old(disk.calls), old(version), old(readers), old(wal), status);
      if status != Success {
        return;
      }
      var ok := CleanUp();
      if ok {
        ok := FinishCompaction();
      }
      StallsIs(old(compaction).value, old(disk.calls), old(version), old(readers), old(wal), if ok then Success else IOError);
      status := if ok then Success else IOError;
    }

    // ----- Operations -----------------------------------------------------------------------------------

    method FlushLocked() returns (status: Status)
      requires Valid() && closed.None?
      modifies this, disk, disk.ledger, mutable
      ensures old(disk.trace) <= disk.trace && old(disk.calls) <= disk.calls && old(disk.failures) <= disk.failures
      ensures Valid() && closed.None? && disk.history == old(disk.history) && Log() == old(Log())
      ensures mutable == old(mutable) || fresh(mutable)
      ensures lastSequence == old(lastSequence) && poisoned == old(poisoned) && since == old(since)
      ensures backgroundOk == old(backgroundOk)
      ensures status == Success ==> immutable.None? && compaction.None?
      ensures status == Success && old(immutable).None? ==> mutable.entries == []
      ensures old(immutable).Some? ==> mutable.entries == old(mutable.entries)
      ensures old(compaction).None? ==> compaction.None?
      ensures disk.ledger.book == old(disk.ledger.book)
      ensures disk.failures == old(disk.failures) && !old(poisoned) && old(Fits()) ==> status == Success
      ensures disk.failures == old(disk.failures) && !poisoned && status != Success ==> !Fits()
      ensures !poisoned && old(compaction).None? && old(Intact()) ==>
                Flushed(old(disk.calls), old(immutable), old(version), old(readers), old(Flushable()), old(wal), status)
      decreases 0, 8
    {
      hide *;
      IntactIs();
      if poisoned {
        return IOError;
      }
      FitsParts();
      ValidParts();
      Fields();
      OneAtATime(disk.fs, disk.history, Mem(), logs, options);
      status := ContinueCompaction();
      FitsParts();
      if status != Success {
        return;
      }
      if immutable.None? {
        if mutable.entries == [] {
          return Success;
        }
        var ok := FreezeMutable(false);
        FitsParts();
        if !ok {
          return InvalidArgument;
        }
      }
      status := ContinueFlush();
      FitsParts();
    }

    method CompactLocked() returns (status: Status)
      requires Valid() && closed.None?
      modifies this, disk, disk.ledger, mutable
      ensures old(disk.trace) <= disk.trace && old(disk.calls) <= disk.calls && old(disk.failures) <= disk.failures
      ensures Valid() && closed.None? && disk.history == old(disk.history) && Log() == old(Log())
      ensures mutable == old(mutable) || fresh(mutable)
      ensures lastSequence == old(lastSequence) && poisoned == old(poisoned) && since == old(since)
      ensures backgroundOk == old(backgroundOk)
      ensures status == Success ==> compaction.None? && LevelZeroRange(version.tables).None?
      ensures status == Success && old(compaction).None? ==> mutable.entries == [] && immutable.None?
      ensures disk.ledger.book == old(disk.ledger.book)
      ensures disk.failures == old(disk.failures) && !old(poisoned) && old(Fits()) ==>
                if old(Overfull()) then status == Corruption else status == Success || TooLarge(status)
      ensures old(Idle()) && PlanFits(old(version), old(readers), options) && LevelZeroRange(old(version).tables).Some? ==>
                exists plan :: PlanOk(old(Mem()), old(logs), plan, options) && Untouched(plan) &&
                               Stalls(plan, old(disk.calls), old(version), old(readers), old(wal), status)
    {
      hide *;
      IdleIs();
      if poisoned {
        return IOError;
      }
      FitsParts();
      OverfullIs();
      if compaction.Some? {
        status := ContinueCompaction();
        return;
      }
      if immutable.Some? || mutable.entries != [] {
        status := FlushLocked();
        if status != Success {
          return;
        }
      }
      ValidParts();
      if immutable.Some? || mutable.entries != [] || wal.None? {
        return Corruption;
      }
      status := PlanAndCompact();
    }

    /** Plans a compaction and carries it out. */
    method PlanAndCompact() returns (status: Status)
      requires Valid() && closed.None? && immutable.None? && mutable.entries == [] && compaction.None?
      modifies this`version, this`readers, this`compaction, this`wal, this`generation, disk
      ensures old(disk.trace) <= disk.trace && old(disk.calls) <= disk.calls && old(disk.failures) <= disk.failures
      ensures Valid() && disk.history == old(disk.history) && Log() == old(Log())
      ensures status == Success ==> compaction.None? && LevelZeroRange(version.tables).None?
      ensures disk.failures == old(disk.failures) ==> status == Success || TooLarge(status)
      ensures PlanFits(old(version), old(readers), options) && LevelZeroRange(old(version).tables).Some? ==>
                exists plan :: PlanOk(old(Mem()), old(logs), plan, options) && Untouched(plan) &&
                               Stalls(plan, old(disk.calls), old(version), old(readers), old(wal), status)
    {
      hide *;
      status := PrepareCompaction();
      TooLargeIs(status);
      if status == Success {
        FitsParts();
        ghost var plan := compaction;
        status := ContinueCompaction();
        TooLargeIs(status);
        assert plan.Some? ==>
                 PlanOk(old(Mem()), old(logs), plan.value, options) && Untouched(plan.value) &&
                 Stalls(plan.value, old(disk.calls), old(version), old(readers), old(wal), status);
      }
    }

    /** There is nothing to plan with, or the plan does not fit its fields. */
    ghost predicate TooLarge(status: Status)
      reads this
    {
      && status in {InvalidArgument, IOError}
      && if compaction.Some? then !CompactionFits(version, compaction.value, options) else !PlanFits(version, readers, options)
    }

    lemma TooLargeIs(status: Status)
      ensures TooLarge(status) <==>
              && status in {InvalidArgument, IOError}
              && if compaction.Some? then !CompactionFits(version, compaction.value, options) else !PlanFits(version, readers, options)
    {
      hide CompactionFits, PlanFits;
    }

    /** Nothing is unflushed, unfinished or broken. */
    predicate Idle()
      reads this, mutable
    {
      compaction.None? && immutable.None? && mutable.entries == [] && !poisoned
    }

    lemma IdleIs()
      ensures Idle() <==> compaction.None? && immutable.None? && mutable.entries == [] && !poisoned
    {
    }

    /** Both tables hold records, and a flush before a compaction empties only the older one. */
    predicate Overfull()
      reads this, mutable
    {
      compaction.None? && immutable.Some? && mutable.entries != []
    }

    lemma OverfullIs()
      ensures Overfull() <==> compaction.None? && immutable.Some? && mutable.entries != []
    {
    }

    /** Finishes a compaction and a flush that earlier calls left undone. */
    method FinishPending() returns (status: Status)
      requires Valid() && closed.None?
      modifies this, disk, disk.ledger, mutable
      ensures old(disk.trace) <= disk.trace && old(disk.calls) <= disk.calls && old(disk.failures) <= disk.failures
      ensures Valid() && closed.None? && disk.history == old(disk.history) && Log() == old(Log())
      ensures mutable == old(mutable) && mutable.entries == old(mutable.entries)
      ensures lastSequence == old(lastSequence) && poisoned == old(poisoned) && since == old(since)
      ensures backgroundOk == old(backgroundOk) && disk.ledger.book == old(disk.ledger.book)
      ensures status == Success ==> compaction.None? && immutable.None? && wal.Some?
      ensures disk.failures == old(disk.failures) && old(Closable()) ==> status == Success && Fits()
      ensures old(compaction).None? && old(immutable).None? ==>
                && status == Success && wal == old(wal) && mutable.size == old(mutable.size)
                && disk.calls == old(disk.calls) && disk.failures == old(disk.failures)
      decreases 0, 8
    {
      hide *;
      ghost var start := disk.calls;
      ClosableParts();
      FitsParts();
      ValidParts();
      Fields();
      OneAtATime(disk.fs, disk.history, Mem(), logs, options);
      status := ContinueCompaction();
      FitsParts();
      if status == Success {
        status := ContinueFlush();
      }
      FitsParts();
      ValidParts();
    }

    /** Without background maintenance a write first finishes what an earlier call left undone. */
    method MakeRoom() returns (status: Status)
      requires Valid() && closed.None?
      modifies this, disk, disk.ledger, mutable
      ensures old(disk.trace) <= disk.trace && old(disk.calls) <= disk.calls && old(disk.failures) <= disk.failures
      ensures Valid() && closed.None? && disk.history == old(disk.history) && Log() == old(Log())
      ensures mutable == old(mutable) || fresh(mutable)
      ensures lastSequence == old(lastSequence) && poisoned == old(poisoned) && since == old(since)
      ensures backgroundOk == old(backgroundOk)
      ensures status == Success && !options.background ==> compaction.None? && wal.Some?
      ensures disk.failures == old(disk.failures) && !old(poisoned) && old(Closable()) ==> status == Success
      ensures options.background ==>
                status == Success && Look() == old(Look()) && disk.fs == old(disk.fs) && mutable.size == old(mutable.size)
      ensures disk.ledger.book == old(disk.ledger.book)
      ensures options.background || (old(compaction).None? && old(immutable).None? && Roomy(old(mutable.entries), old(mutable.size), options)) ==>
                status == Success && wal == old(wal) && immutable == old(immutable) && disk.calls == old(disk.calls) && disk.failures == old(disk.failures) &&
                mutable == old(mutable) && mutable.size == old(mutable.size)
      decreases 0, 9
    {
      hide *;
      if options.background {
        return Success;
      }
      RoomyIs(mutable.entries, mutable.size, options);
      ghost var start := disk.calls;
      status := FinishPending();
      if status == Success && mutable.entries != [] && mutable.size >= options.memtableSizeLimit {
        status := FlushLocked();
      }
      ValidParts();
    }

    /** What a committed write may set off. */
    method AfterWrite() returns (status: Status)
      requires Valid() && closed.None? && !poisoned && compaction.None?
      requires wal.Some? && wal.value < |disk.fs.files| && disk.fs.files[wal.value].Stable()
      modifies this, disk, disk.ledger, mutable
      ensures old(disk.trace) <= disk.trace && old(disk.calls) <= disk.calls && old(disk.failures) <= disk.failures
      ensures Valid() && closed.None? && disk.history == old(disk.history) && Log() == old(Log())
      ensures mutable == old(mutable) || fresh(mutable)
      ensures lastSequence == old(lastSequence) && !poisoned && since == old(since)
      ensures compaction.None? && (options.background ==> status == Success)
      ensures disk.failures == old(disk.failures) && status != Success ==> !Fits()
      ensures disk.ledger.book == old(disk.ledger.book)
      ensures options.background && (old(immutable).Some? || old(mutable.size) < options.memtableSizeLimit) ==>
                Look() == old(Look()) && disk.fs == old(disk.fs)
      ensures options.background && old(immutable).None? && old(mutable.size) >= options.memtableSizeLimit ==>
                Froze(old(Look()), disk.Quiet(old(disk.calls), 2), 2)
      decreases 0, 9
    {
      hide *;
      Looks();
      if mutable.size < options.memtableSizeLimit {
        return Success;
      }
      if !options.background {
        status := FlushLocked();
        return;
      }
      if immutable.None? {
        var ok := FreezeMutable(true);
        if !ok {
          SetBackground(false);
        }
        Looks();
        FrozeIs(old(Look()), disk.Quiet(old(disk.calls), 2), 2);
      }
      status := Success;
    }

    /** The MemTable was full and is frozen; if the next calls succeed, the next log is open and empty. */
    ghost predicate Froze(before: Snapshot, quiet: bool, calls: nat)
      reads this, disk, mutable
    {
      before.entries != [] && before.slots.generation != MAX64 ==>
        && immutable == Some(FrozenTable(before.slots.generation, before.entries)) && version == before.slots.version
        && readers == before.slots.readers && compaction == before.slots.compaction
        && (quiet ==>
              && wal.Some? && mutable.entries == [] && backgroundOk == before.slots.backgroundOk
              && disk.calls == before.calls + calls && disk.failures == before.failures)
    }

    lemma FrozeIs(before: Snapshot, quiet: bool, calls: nat)
      ensures Froze(before, quiet, calls) <==>
              (before.entries != [] && before.slots.generation != MAX64 ==>
                && immutable == Some(FrozenTable(before.slots.generation, before.entries)) && version == before.slots.version
                && readers == before.slots.readers && compaction == before.slots.compaction
                && (quiet ==>
                      && wal.Some? && mutable.entries == [] && backgroundOk == before.slots.backgroundOk
                      && disk.calls == before.calls + calls && disk.failures == before.failures))
    {
      hide FrozenTable;
    }

    method SetBackground(ok: bool)
      requires Valid() && closed.None?
      modifies this`backgroundOk
      ensures Valid() && backgroundOk == ok && Log() == old(Log())
    {
      hide *;
      ValidParts();
      Fields();
      backgroundOk := ok;
      Fields();
      PartsValid();
    }

    /** The table of the frozen MemTable has yet to be built, so the worker will release the lock. */
    predicate Unbuilt()
      reads this
    {
      immutable.Some? && !immutable.value.published && immutable.value.pending.None?
    }

    lemma UnbuiltIs()
      ensures Unbuilt() <==> immutable.Some? && !immutable.value.published && immutable.value.pending.None?
    {
    }

    /** The flush under way, if there is one, fits its fields. */
    ghost predicate Flushable()
      reads this
    {
      immutable.Some? && !immutable.value.published ==> FlushFits(version, immutable.value, options)
    }

    ghost predicate Compactable()
      reads this
    {
      compaction.Some? ==> CompactionFits(version, compaction.value, options)
    }

    /** Whatever a Flush has to do fits its fields: finish a compaction, finish a flush, or freeze and flush the MemTable. */
    ghost predicate Fits()
      reads this, mutable
    {
      && Compactable() && Flushable()
      && (compaction.None? && immutable.None? && mutable.entries != [] ==>
            generation != MAX64 && FlushFits(version, FrozenTable(generation, mutable.entries), options))
    }

    lemma FitsParts()
      ensures Flushable() <==> (immutable.Some? && !immutable.value.published ==> FlushFits(version, immutable.value, options))
      ensures Compactable() <==> (compaction.Some? ==> CompactionFits(version, compaction.value, options))
      ensures Fits() <==>
              && Compactable() && Flushable()
              && (compaction.None? && immutable.None? && mutable.entries != [] ==>
                    generation != MAX64 && FlushFits(version, FrozenTable(generation, mutable.entries), options))
    {
      hide FlushFits, CompactionFits, FrozenTable;
    }

    /** Both tables can be flushed: the Immutable first, the MemTable after it. */
    ghost predicate Closable()
      reads this, mutable
    {
      && Fits()
      && (immutable.Some? && mutable.entries != [] ==>
            && generation != MAX64 && immutable.value.records != []
            && FlushFits(if immutable.value.published then version else FlushedVersion(version, immutable.value, options),
                         FrozenTable(generation, mutable.entries), options))
    }

    lemma ClosableParts()
      ensures Closable() <==>
              && Fits()
              && (immutable.Some? && mutable.entries != [] ==>
                    && generation != MAX64 && immutable.value.records != []
                    && FlushFits(if immutable.value.published then version else FlushedVersion(version, immutable.value, options),
                                 FrozenTable(generation, mutable.entries), options))
    {
      hide FlushFits, FrozenTable, FlushedVersion, Fits;
    }

    /** Without background maintenance: the write that filled the MemTable found that it does not fit a table. */
    ghost predicate Unflushable()
      reads this, mutable
    {
      !options.background && !Fits()
    }

    lemma UnflushableIs()
      ensures Unflushable() <==> !options.background && !Fits()
    {
      hide Fits;
    }

    /** Nothing stands in the way of a write: no error, no exhausted number, and room left or to be made. */
    ghost predicate MayWrite(request: Request)
      reads this, mutable
    {
      && closed.None? && !poisoned && ValidRecord(Record(request.key, 1, request.kind, request.value), options)
      && lastSequence != MAX64
      && if options.background then wal.Some? && backgroundOk && (immutable.None? || mutable.size < options.memtableSizeLimit)
         else Closable() || (compaction.None? && immutable.None? && Roomy(mutable.entries, mutable.size, options))
    }

    lemma MayWriteParts(request: Request)
      ensures MayWrite(request) <==>
              && closed.None? && !poisoned && ValidRecord(Record(request.key, 1, request.kind, request.value), options)
              && lastSequence != MAX64
              && if options.background then wal.Some? && backgroundOk && (immutable.None? || mutable.size < options.memtableSizeLimit)
                 else Closable() || (compaction.None? && immutable.None? && Roomy(mutable.entries, mutable.size, options))
    {
      hide ValidRecord, Roomy, Closable;
    }

    /**
      Put or Delete.  At most one record is added to the history, numbered next; it is
      confirmed exactly if it is in the log from now on.
     */
    method Write(request: Request) returns (status: Status)
      requires Valid() && (options.background && compaction.Some? ==> !backgroundOk)
      modifies this, disk, disk.ledger, mutable
      ensures old(disk.trace) <= disk.trace && old(disk.calls) <= disk.calls && old(disk.failures) <= disk.failures
      ensures Valid() && closed == old(closed) && since == old(since)
      ensures mutable == old(mutable) || fresh(mutable)
      ensures var r := Record(request.key, old(lastSequence) + 1, request.kind, request.value);
              Wrote(old(disk.history), disk.history, old(Log()), Log(), r, poisoned)
      ensures status == Success ==>
                closed.None? && disk.history ==
                  old(disk.history) + [Event(Record(request.key, old(lastSequence) + 1, request.kind, request.value), true)]
      ensures disk.ledger.book == old(disk.ledger.book).(acked := disk.ledger.book.acked, asked := old(disk.ledger.book).asked + [request])
      ensures disk.ledger.book.acked ==
                if status == Success then
                  old(disk.ledger.book).acked + [Record(request.key, old(lastSequence) + 1, request.kind, request.value)]
                else old(disk.ledger.book).acked
      ensures Onward(old(lastSequence), old(Log()), lastSequence, Log())
      ensures options.background && old(immutable).Some? ==> Held() == old(Held()) && OnlyFile(old(disk.fs), disk.fs, wal)
      ensures options.background && old(MayWrite(request)) && disk.Quiet(old(disk.calls), 2) ==> status == Success
      ensures options.background && status == Success ==>
                Took(old(Look()), Record(request.key, old(lastSequence) + 1, request.kind, request.value))
      ensures options.background && compaction.Some? ==> !backgroundOk
      ensures old(closed).Some? ==> status in {Closed, InvalidArgument} && disk.history == old(disk.history)
      ensures old(MayWrite(request)) && disk.failures == old(disk.failures) ==>
                && (status == Success || Unflushable())
                && disk.history == old(disk.history) +
                                   [Event(Record(request.key, old(lastSequence) + 1, request.kind, request.value), true)]
      decreases 0, 12
    {
      hide *;
      Looks();
      OnlyFileSelf(disk.fs, wal);
      MayWriteParts(request);
      ghost var r := Record(request.key, lastSequence + 1, request.kind, request.value);
      WroteNothing(disk.history, Log(), r, poisoned);
      OnwardIs(lastSequence, Log(), lastSequence, Log());
      Ask(request);
      Looks();
      if !ValidRecord(Record(request.key, 1, request.kind, request.value), options) {
        return InvalidArgument;
      }
      if closed.Some? {
        return Closed;
      }
      if poisoned {
        return IOError;
      }
      ghost var start := disk.calls;
      status := MakeRoom();
      Looks();
      if status != Success {
        return;
      }
      if options.background && immutable.Some? && mutable.size >= options.memtableSizeLimit && backgroundOk {
        return Busy;
      }
      if options.background && !backgroundOk {
        return IOError;
      }
      ghost var ready := Look();
      status := Accept(request);
      Looks();
      if options.background {
        TookIs(ready, r);
        TookIs(old(Look()), r);
        FrozeIs(ready.(entries := Insert(ready.entries, r)), disk.Quiet(ready.calls, 4), 4);
        FrozeIs(old(Look()).(entries := Insert(old(Look()).entries, r)), disk.Quiet(old(Look()).calls, 4), 4);
      }
    }

    /** The write itself, what it sets off, and the reply. */
    method Accept(request: Request) returns (status: Status)
      requires Valid() && closed.None? && !poisoned && compaction.None? && (options.background ==> backgroundOk)
      requires ValidRecord(Record(request.key, 1, request.kind, request.value), options)
      modifies this, disk, disk.ledger, mutable
      ensures old(disk.trace) <= disk.trace && old(disk.calls) <= disk.calls && old(disk.failures) <= disk.failures
      ensures Valid() && closed.None? && since == old(since) && compaction.None?
      ensures mutable == old(mutable) || fresh(mutable)
      ensures var r := Record(request.key, old(lastSequence) + 1, request.kind, request.value);
              && Wrote(old(disk.history), disk.history, old(Log()), Log(), r, poisoned)
              && (status == Success ==> disk.history == old(disk.history) + [Event(r, true)])
              && (disk.failures == old(disk.failures) && old(lastSequence) != MAX64 && old(wal).Some? ==>
                    disk.history == old(disk.history) + [Event(r, true)] && (status == Success || Unflushable()))
              && disk.ledger.book ==
                   if status == Success then old(disk.ledger.book).(acked := old(disk.ledger.book).acked + [r])
                   else old(disk.ledger.book)
      ensures Onward(old(lastSequence), old(Log()), lastSequence, Log())
      ensures options.background && old(immutable).Some? ==> Held() == old(Held()) && OnlyFile(old(disk.fs), disk.fs, wal)
      ensures options.background && old(lastSequence) != MAX64 && old(wal).Some? && disk.Quiet(old(disk.calls), 2) ==> status == Success
      ensures options.background && status == Success ==>
                Took(old(Look()), Record(request.key, old(lastSequence) + 1, request.kind, request.value))
      decreases 0, 11
    {
      hide *;
      ghost var before, start := Look(), disk.calls;
      ghost var r := Record(request.key, lastSequence + 1, request.kind, request.value);
      ghost var h, log := disk.history, Log();
      ValidParts();
      Looks();
      AcksOk(h, disk.ledger.book, r);
      status := Commit(request);
      Looks();
      OnwardIs(before.lastSequence, log, lastSequence, Log());
      ValidParts();
      mutable.SizeIs();
      QuietPart(disk, start, 4, start + 2, 2);
      WroteOne(h, log, r, poisoned);
      WroteNothing(h, log, r, poisoned);
      if status == Success {
        ghost var committed := Look();
        status := Conclude(r);
        Looks();
        WroteOne(h, log, r, poisoned);
        OnwardIs(before.lastSequence, log, lastSequence, Log());
        TookIs(before, r);
        FrozeIs(committed, disk.Quiet(start + 2, 2), 2);
        FrozeIs(before.(entries := Insert(before.entries, r)), disk.Quiet(start, 4), 4);
      }
    }

    /** What an acknowledged write leaves of a database in background mode. */
    ghost predicate Took(before: Snapshot, r: Record)
      reads this, disk, mutable
    {
      var entries := Insert(before.entries, r);
      && lastSequence == before.lastSequence + 1 && !poisoned
      && if before.slots.immutable.Some? || RunBytes(entries) < options.memtableSizeLimit then
        Held() == before.slots && mutable.entries == entries && disk.calls == before.calls + 2 && disk.failures == before.failures
      else Froze(before.(entries := entries), disk.Quiet(before.calls, 4), 4)
    }

    lemma TookIs(before: Snapshot, r: Record)
      ensures before.slots.immutable.Some? || RunBytes(Insert(before.entries, r)) < options.memtableSizeLimit ==>
                (Took(before, r) <==>
                  && lastSequence == before.lastSequence + 1 && !poisoned
                  && Held() == before.slots && mutable.entries == Insert(before.entries, r)
                  && disk.calls == before.calls + 2 && disk.failures == before.failures)
      ensures before.slots.immutable.None? && RunBytes(Insert(before.entries, r)) >= options.memtableSizeLimit ==>
                (Took(before, r) <==>
                  && lastSequence == before.lastSequence + 1 && !poisoned
                  && Froze(before.(entries := Insert(before.entries, r)), disk.Quiet(before.calls, 4), 4))
    {
      hide Froze, Insert, RunBytes, Held, Disk.Quiet;
    }

    /** What follows a committed write: what it sets off, and the reply. */
    method Conclude(ghost r: Record) returns (status: Status)
      requires Valid() && closed.None? && !poisoned && compaction.None?
      requires wal.Some? && wal.value < |disk.fs.files| && disk.fs.files[wal.value].Stable()
      requires BookOk(disk.history, disk.ledger.book.(acked := disk.ledger.book.acked + [r]))
      modifies this, disk, disk.ledger, mutable
      ensures old(disk.trace) <= disk.trace && old(disk.calls) <= disk.calls && old(disk.failures) <= disk.failures
      ensures Valid() && closed.None? && disk.history == old(disk.history) && Log() == old(Log())
      ensures mutable == old(mutable) || fresh(mutable)
      ensures !poisoned && since == old(since) && compaction.None? && lastSequence == old(lastSequence)
      ensures disk.ledger.book ==
                if status == Success then old(disk.ledger.book).(acked := old(disk.ledger.book).acked + [r])
                else old(disk.ledger.book)
      ensures options.background && old(immutable).Some? ==> disk.fs == old(disk.fs)
      ensures options.background && (old(immutable).Some? || old(mutable.size) < options.memtableSizeLimit) ==>
                Held() == old(Held()) && mutable.entries == old(mutable.entries) && disk.calls == old(disk.calls) && disk.failures == old(disk.failures)
      ensures options.background && old(immutable).None? && old(mutable.size) >= options.memtableSizeLimit ==>
                Froze(old(Look()), disk.Quiet(old(disk.calls), 2), 2)
      ensures disk.failures == old(disk.failures) ==> status == Success || Unflushable()
      ensures options.background ==> status == Success
      decreases 0, 10
    {
      hide *;
      Looks();
      status := AfterWrite();
      Looks();
      UnflushableIs();
      FrozeIs(old(Look()), disk.Quiet(old(disk.calls), 2), 2);
      if status == Success {
        Reply(r);
        Looks();
        FrozeIs(old(Look()), disk.Quiet(old(disk.calls), 2), 2);
      }
    }

    /** A client asks for a write. */
    method Ask(ghost request: Request)
      requires Valid()
      modifies disk`trace, disk`path, disk`moments, disk.ledger
      ensures Valid() && old(disk.trace) <= disk.trace && Log() == old(Log()) && Held() == old(Held())
      ensures disk.ledger.book == old(disk.ledger.book).(asked := old(disk.ledger.book).asked + [request])
    {
      hide *;
      ValidParts();
      Fields();
      AttendsBook(disk.history, disk.ledger.book, disk.ledger.book.(asked := disk.ledger.book.asked + [request]), since, poisoned);
      Looks();
      disk.Ask(request);
      Fields();
      Looks();
      PartsValid();
    }

    /** The client is told that its write succeeded. */
    method Reply(ghost r: Record)
      requires Valid() && BookOk(disk.history, disk.ledger.book.(acked := disk.ledger.book.acked + [r]))
      modifies disk`trace, disk`path, disk`moments, disk.ledger
      ensures Valid() && old(disk.trace) <= disk.trace && Log() == old(Log()) && Held() == old(Held())
      ensures disk.ledger.book == old(disk.ledger.book).(acked := old(disk.ledger.book).acked + [r])
    {
      hide *;
      ValidParts();
      Fields();
      AttendsBook(disk.history, disk.ledger.book, disk.ledger.book.(acked := disk.ledger.book.acked + [r]), since, poisoned);
      Looks();
      disk.Acknowledge(r);
      Fields();
      Looks();
      PartsValid();
    }

    /** A point read shows the last write to the key, or nothing if that deleted it. */
    method Get(key: Key) returns (status: Status, value: Option<Bytes>)
      requires Valid()
      ensures closed.Some? ==> status == Closed
      ensures closed.None? ==> status == if 0 < |key| <= options.maxKeySize then Success else InvalidArgument
      ensures value == if status == Success then Visible(Last(Log(), key)) else None
    {
      hide *;
      value := None;
      if closed.Some? {
        return Closed, None;
      }
      ValidParts();
      Fields();
      InvParts(disk.fs, disk.history, Mem(), logs, options);
      InvMemory(disk.fs, disk.history, Mem(), logs, options);
      LayeredIsLast(Mem(), logs, options, key);
      LayeredCases(mutable.entries, immutable, RunsOf(readers, options), key);
      AcceptsIs(mutable, key);
      var valid, found := mutable.Search(key);
      if !valid {
        return InvalidArgument, None;
      }
      if found.None? && immutable.Some? {
        found := Lookup(immutable.value.records, key);
      }
      if found.None? {
        ReadersDistinct(Mem(), logs, options);
        found := NewestInTables(readers, key, options);
      }
      return Success, Visible(found);
    }

    method Flush() returns (status: Status)
      requires Valid()
      modifies this, disk, disk.ledger, mutable
      ensures old(disk.trace) <= disk.trace && old(disk.calls) <= disk.calls && old(disk.failures) <= disk.failures
      ensures Valid() && closed == old(closed) && since == old(since) && disk.history == old(disk.history)
      ensures lastSequence == old(lastSequence) && poisoned == old(poisoned)
      ensures mutable == old(mutable) || fresh(mutable)
      ensures closed.None? ==> Log() == old(Log()) && (status == Success ==> immutable.None? && compaction.None?)
      ensures closed.None? && status == Success && old(immutable).None? ==> mutable.entries == []
      ensures old(immutable).Some? ==> mutable.entries == old(mutable.entries)
      ensures closed.Some? ==> status == Closed
      ensures backgroundOk == (old(backgroundOk) || status == Success)
      ensures disk.ledger.book == old(disk.ledger.book)
      ensures disk.failures == old(disk.failures) && closed.None? && !old(poisoned) && old(Fits()) ==> status == Success
      ensures closed.None? && !poisoned && old(compaction).None? && old(Intact()) ==>
                Flushed(old(disk.calls), old(immutable), old(version), old(readers), old(Flushable()), old(wal), status)
    {
      hide *;
      if closed.Some? {
        return Closed;
      }
      status := FlushLocked();
      FlushedIs(old(disk.calls), old(immutable), old(version), old(readers), old(Flushable()), old(wal), status);
      if status == Success {
        SetBackground(true);
        FlushedIs(old(disk.calls), old(immutable), old(version), old(readers), old(Flushable()), old(wal), status);
      }
    }

    method Compact() returns (status: Status)
      requires Valid()
      modifies this, disk, disk.ledger, mutable
      ensures old(disk.trace) <= disk.trace && old(disk.calls) <= disk.calls && old(disk.failures) <= disk.failures
      ensures Valid() && closed == old(closed) && since == old(since) && disk.history == old(disk.history)
      ensures lastSequence == old(lastSequence) && poisoned == old(poisoned)
      ensures mutable == old(mutable) || fresh(mutable)
      ensures closed.None? ==> Log() == old(Log()) && (status == Success ==> compaction.None? && LevelZeroRange(version.tables).None?)
      ensures closed.None? && status == Success && old(compaction).None? ==> mutable.entries == [] && immutable.None?
      ensures closed.Some? ==> status == Closed
      ensures backgroundOk == (old(backgroundOk) || status == Success)
      ensures disk.ledger.book == old(disk.ledger.book)
      ensures disk.failures == old(disk.failures) && closed.None? && !old(poisoned) && old(Fits()) ==>
                if old(Overfull()) then status == Corruption else status == Success || TooLarge(status)
      ensures closed.None? && old(Idle()) && PlanFits(old(version), old(readers), options) && LevelZeroRange(old(version).tables).Some? ==>
                exists plan :: PlanOk(old(Mem()), old(logs), plan, options) && Untouched(plan) &&
                               Stalls(plan, old(disk.calls), old(version), old(readers), old(wal), status)
    {
      hide *;
      if closed.Some? {
        return Closed;
      }
      status := CompactLocked();
      if status == Success {
        ghost var planned := old(Idle()) && PlanFits(old(version), old(readers), options) && LevelZeroRange(old(version).tables).Some?;
        ghost var plan: CompactionState;
        if planned {
          plan :| PlanOk(old(Mem()), old(logs), plan, options) && Untouched(plan) &&
                  Stalls(plan, old(disk.calls), old(version), old(readers), old(wal), status);
          StallsNever(plan, old(disk.calls), old(version), old(readers), old(wal));
        }
        SetBackground(true);
        if planned {
          StallsNever(plan, old(disk.calls), old(version), old(readers), old(wal));
          assert PlanOk(old(Mem()), old(logs), plan, options) && Untouched(plan) &&
                 Stalls(plan, old(disk.calls), old(version), old(readers), old(wal), status);
        }
      }
    }

    /** Flushes what it can and stops; the disk stays recoverable whatever fails. */
    method Close() returns (status: Status)
      requires Valid()
      modifies this, disk, disk.ledger, mutable
      ensures old(disk.trace) <= disk.trace && old(disk.calls) <= disk.calls && old(disk.failures) <= disk.failures
      ensures Valid() && closed.Some? && since == old(since) && disk.history == old(disk.history)
      ensures mutable == old(mutable) || fresh(mutable)
      ensures old(closed).None? && status == Success ==> mutable.entries == [] && immutable.None? && compaction.None?
      ensures disk.ledger.book == old(disk.ledger.book)
      ensures closed == if old(closed).Some? then old(closed) else Some(status)
      ensures old(closed).Some? ==> status == old(closed).value && disk.fs == old(disk.fs)
      ensures disk.failures == old(disk.failures) && old(closed).None? && old(Closable()) ==> status == Success
    {
      hide *;
      if closed.Some? {
        return closed.value;
      }
      ghost var start := disk.calls;
      status := FinishPending();
      FitsParts();
      if status == Success && mutable.entries != [] {
        var ok := FreezeMutable(false);
        status := if ok then Success else InvalidArgument;
        if ok {
          FitsParts();
          status := ContinueFlush();
        }
      }
      ValidParts();
      wal, closed := None, Some(status);
      PartsValid();
    }

    /** One round of the background worker; `others` is what clients write while it does not hold the lock. */
    method BackgroundRound(others: seq<seq<Request>>) returns (status: Status)
      requires Valid() && closed.None? && options.background
      modifies this, disk, disk.ledger, mutable
      ensures old(disk.trace) <= disk.trace && old(disk.calls) <= disk.calls && old(disk.failures) <= disk.failures
      ensures Valid() && closed.None? && since == old(since) && (mutable == old(mutable) || fresh(mutable))
      ensures Follows(old(disk.history), old(Log()), disk.history, Log()) && Onward(old(lastSequence), old(Log()), lastSequence, Log())
      ensures old(disk.ledger.book).acked <= disk.ledger.book.acked
      ensures disk.ledger.book == old(disk.ledger.book).(acked := disk.ledger.book.acked, asked := disk.ledger.book.asked)
      ensures disk.ledger.book.asked == old(disk.ledger.book).asked + (if old(Unbuilt()) then Rest(others, 0) else [])
      ensures backgroundOk == (status == Success) && (status == Success ==> immutable.None?)
      ensures compaction.Some? && old(compaction).None? ==> status != Success
      ensures disk.failures == old(disk.failures) && old(compaction).None? && old(Flushable()) ==> status == Success || TooLarge(status)
    {
      hide *;
      ghost var start := disk.calls;
      FollowsSelf(disk.history, Log());
      OnwardIs(lastSequence, Log(), lastSequence, Log());
      FitsParts();
      UnbuiltIs();
      assert disk.ledger.book.asked + [] == disk.ledger.book.asked;
      status := Success;
      if immutable.Some? && !immutable.value.published {
        ValidParts();
        Fields();
        OneAtATime(disk.fs, disk.history, Mem(), logs, options);
        ghost var before := Look();
        Looks();
        var ok := EnsurePending(others);
        Looks();
        BesideParts(before, Look().(slots := before.slots), others == []);
        if FlushFits(version, old(immutable).value, options) { FlushFitsParts(version, old(immutable).value, options); }
        FlushFitsPending(version, old(immutable).value, immutable.value, options);
        FitsParts();
        status := if ok then Success else IOError;
      }
      if status == Success {
        status := ContinueFlush();
      }
      if status == Success {
        status := CompactWhenDue();
        TooLargeIs(status);
      }
      SetBackground(status == Success);
      TooLargeIs(status);
    }

    /** Starts a compaction once enough level-zero tables have gathered and nothing is unflushed. */
    method CompactWhenDue() returns (status: Status)
      requires Valid() && closed.None? && immutable.None?
      modifies this`version, this`readers, this`compaction, this`wal, this`generation, disk
      ensures old(disk.trace) <= disk.trace && old(disk.calls) <= disk.calls && old(disk.failures) <= disk.failures
      ensures Valid() && disk.history == old(disk.history) && Log() == old(Log())
      ensures compaction.Some? && old(compaction).None? ==> status != Success
      ensures mutable.entries != [] || CountLevelZero(old(version.tables)) < options.level0CompactionTrigger ==>
                status == Success && version == old(version)
      ensures disk.failures == old(disk.failures) && old(compaction).None? ==> status == Success || TooLarge(status)
      ensures status == Success && mutable.entries == [] && CountLevelZero(old(version.tables)) >= options.level0CompactionTrigger ==>
                compaction.None? && LevelZeroRange(version.tables).None?
    {
      hide *;
      if mutable.entries == [] && CountLevelZero(version.tables) >= options.level0CompactionTrigger {
        status := PrepareCompaction();
        TooLargeIs(status);
        if status == Success {
          status := ContinueCompaction();
          TooLargeIs(status);
        }
      } else {
        status := Success;
      }
    }
  }

  lemma OutputLimit(o: Options)
    requires o.Valid()
    ensures o.compactionOutputSizeLimit != 0
  {
  }

  /** The new table holds what the Immutable held. */
  lemma PublishedRuns(m: Memory, readers: seq<Reader>, o: Options)
    requires PendingOk(m, o) && m.immutable.Some? && m.immutable.value.pending.Some?
    ensures RunsOf(readers + [m.immutable.value.pending.value], o) == RunsOf(readers, o) + [m.immutable.value.records]
  {
    hide TableBytes, TableEncodable, OpenTable, Contents, SummaryOf;
  }

  /** A rename of the candidate's MANIFEST that was not synced is in the current view. */
  lemma CandidateRenaming(fs: FileSystem, h: History, m: Memory, l: Logs, o: Options)
    requires Inv(fs, h, m, l, o) && m.Compacting() && m.compaction.value.candidate.Some?
    requires ManifestEncodable(m.compaction.value.candidate.value, o.maxKeySize)
    ensures Renaming(Moved(fs, ManifestBytes(m.compaction.value.candidate.value)), m.compaction.value.candidate.value, o)
  {
    hide *;
    CompactionAllowed(fs, h, m, l, o);
    CompactingParts(m);
    InvRecoverable(fs, h, m, l, o);
    var s := CandidateOf(m, l, o).value;
    ReadyIsStored(Now(fs), s, h, o);
    NowIs(fs);
    ManifestEncodes(s.version, s, o);
    MovedRenaming(fs, ManifestBytes(s.version), s.version, o);
  }

  lemma ReadyIsStored(img: Image, s: Stored, h: History, o: Options)
    ensures ReadyFor(img, s, h, o) ==> StoredOk(s, o)
  {
    hide StoredOk, TablesOk, WalsOk;
  }

  /** How many calls it takes to publish the outputs of a compaction. */
  function OutputCalls(c: CompactionState): nat {
    if c.outputs == [] || c.published != [] then 0 else 5 * |c.outputs| + 1
  }

  lemma OutputCallsIs(c: CompactionState)
    ensures OutputCalls(c) == if c.outputs == [] || c.published != [] then 0 else 5 * |c.outputs| + 1
  {
  }

  /** A plan of which nothing has been carried out. */
  predicate Untouched(c: CompactionState) {
    c.published == [] && c.candidate == None && !c.versionPublished
  }

  lemma UntouchedIs(c: CompactionState)
    ensures Untouched(c) <==> c.published == [] && c.candidate == None && !c.versionPublished
  {
  }

  /** Adds up the outputs' sizes as far as they fit 64 bits. */
  method CountBytes(sizes: seq<nat>) returns (ok: bool)
    ensures ok <==> Merge.Sum(sizes) <= MAX64
  {
    var bytes := 0;
    for i := 0 to |sizes|
      invariant bytes == Merge.Sum(sizes[..i]) <= MAX64
    {
      assert sizes[..i + 1][..i] == sizes[..i];
      SumWithin(sizes, i + 1);
      bytes := bytes + sizes[i];
      if bytes > MAX64 {
        return false;
      }
    }
    assert sizes[..|sizes|] == sizes;
    ok := true;
  }

  lemma {:induction false} SumWithin(sizes: seq<nat>, n: nat)
    requires n <= |sizes|
    ensures Merge.Sum(sizes[..n]) <= Merge.Sum(sizes)
    decreases |sizes| - n
  {
    if n == |sizes| {
      assert sizes[..n] == sizes;
    } else {
      assert sizes[..n + 1][..n] == sizes[..n];
      SumWithin(sizes, n + 1);
    }
  }

  /** What freezing a MemTable makes of it. */
  function FrozenTable(generation: nat, entries: Run): Immutable
    requires entries != []
  {
    Immutable(generation, entries, MaximumSequence(entries), None, false, false)
  }

  lemma FrozenSlot(generation: nat, entries: Run)
    ensures entries != [] ==>
              FrozenTable(generation, entries) == Immutable(generation, entries, MaximumSequence(entries), None, false, false)
  {
    hide MaximumSequence;
  }

  lemma CandidateOrFits(v: Version, c: CompactionState, o: Options)
    ensures CompactionFits(v, c, o) && !c.versionPublished ==> v.id != MAX64 && Merge.Sum(OutputSizes(c.firstOutput, c.outputs, o)) <= MAX64
  {
    hide ManifestEncodable, CompactedVersion, TableEncodable, OutputSizes, Merge.Sum;
  }

  /** The MemTable takes another record without a flush before it. */
  predicate Roomy(entries: Run, size: nat, o: Options) {
    entries == [] || size < o.memtableSizeLimit
  }

  lemma RoomyIs(entries: Run, size: nat, o: Options)
    ensures Roomy(entries, size, o) <==> entries == [] || size < o.memtableSizeLimit
  {
  }

  function CountLevelZero(tables: seq<VersionTable>): nat {
    if tables == [] then 0
    else CountLevelZero(tables[..|tables| - 1]) + (if tables[|tables| - 1].level == 0 then 1 else 0)
  }

  /** What a write may have done to the history and to the log. */
  ghost predicate Wrote(h: History, h': History, log: seq<Record>, log': seq<Record>, r: Record, poisoned: bool) {
    || (h' == h && log' == log)
    || (h' == h + [Event(r, true)] && log' == log + [r])
    || (h' == h + [Event(r, false)] && log' == log && poisoned)
  }

  lemma WroteNothing(h: History, log: seq<Record>, r: Record, poisoned: bool)
    ensures forall p :: Wrote(h, h, log, log, r, p)
  {
  }

  lemma WroteOne(h: History, log: seq<Record>, r: Record, poisoned: bool)
    ensures Wrote(h, h + [Event(r, true)], log, log + [r], r, poisoned)
    ensures poisoned ==> Wrote(h, h + [Event(r, false)], log, log, r, poisoned)
  {
  }

  /** The writes of one turn: there may be any number of turns, and any number of writes in each. */
  function Turn(others: seq<seq<Request>>, n: nat): (turn: seq<Request>)
    ensures others == [] ==> turn == []
  {
    if n < |others| then others[n] else []
  }

  /** The writes of all turns from the n-th on. */
  function Rest(others: seq<seq<Request>>, n: nat): (rest: seq<Request>)
    ensures others == [] ==> rest == []
    decreases |others| - n
  {
    if n < |others| then others[n] + Rest(others, n + 1) else []
  }

  lemma RestStep(others: seq<seq<Request>>, n: nat, asked: seq<Request>)
    ensures Rest(others, n) == Turn(others, n) + Rest(others, n + 1)
    ensures (asked + Turn(others, n)) + Rest(others, n + 1) == asked + Rest(others, n)
  {
  }

  /** With the writes from the n-th turn on, everything will have been asked for. */
  ghost predicate Owed(asked: seq<Request>, others: seq<seq<Request>>, n: nat, all: seq<Request>) {
    asked + Rest(others, n) == all
  }

  lemma OwedIs(asked: seq<Request>, others: seq<seq<Request>>, n: nat, all: seq<Request>)
    ensures Owed(asked, others, n, all) <==> asked + Rest(others, n) == all
  {
    hide Rest;
  }

  lemma OwedStep(asked: seq<Request>, others: seq<seq<Request>>, n: nat, all: seq<Request>)
    requires Owed(asked, others, n, all)
    ensures Owed(asked + Turn(others, n), others, n + 1, all)
  {
    RestStep(others, n, asked);
  }

  lemma {:induction false} RestWithin(others: seq<seq<Request>>, n: nat)
    ensures |Turn(others, n)| <= |Rest(others, 0)| && |Rest(others, n)| <= |Rest(others, 0)|
  {
    RestStep(others, n, []);
    if n > 0 {
      RestWithin(others, n - 1);
      RestStep(others, n - 1, []);
    }
  }

  lemma NoTurn(others: seq<seq<Request>>, n: nat)
    ensures others == [] ==> Turn(others, n) == [] && Rest(others, n) == []
  {
  }

  lemma TurnsWithin(others: seq<seq<Request>>)
    ensures forall n: nat :: n <= 6 ==> |Turn(others, n)| <= |Rest(others, 0)| && |Rest(others, n)| <= |Rest(others, 0)|
  {
    forall n: nat | n <= 6 ensures |Turn(others, n)| <= |Rest(others, 0)| && |Rest(others, n)| <= |Rest(others, 0)| {
      RestWithin(others, n);
    }
  }

  lemma InvMemory(fs: FileSystem, h: History, m: Memory, l: Logs, o: Options)
    requires Inv(fs, h, m, l, o)
    ensures o.Valid() && ActiveLogOk(m, l, o) && FrozenLogOk(m, l, o) && GenerationsOk(m) && ReadersOk(m, l, o)
    ensures CompactionOk(m, l, o) && Explains(LogOf(m, l), h)
  {
    hide *;
    InvParts(fs, h, m, l, o);
    MemoryParts(m, l, o);
  }

  lemma RequestEncodable(request: Request, r: Record, o: Options, fs: FileSystem, h: History, m: Memory, l: Logs)
    requires Inv(fs, h, m, l, o) && ValidRecord(Record(request.key, 1, request.kind, request.value), o)
    requires r == Record(request.key, m.lastSequence + 1, request.kind, request.value)
    requires m.lastSequence != MAX64
    ensures Encodable(r, o)
  {
    hide *;
    InvMemory(fs, h, m, l, o);
    SequenceBound(m, l, o);
    SizesFit(request, r, o);
  }

  lemma SequenceBound(m: Memory, l: Logs, o: Options)
    requires ActiveLogOk(m, l, o)
    ensures m.lastSequence <= MAX64
  {
    hide Fold, AllEncodable, Rising;
  }

  lemma SizesFit(request: Request, r: Record, o: Options)
    requires o.Valid() && ValidRecord(Record(request.key, 1, request.kind, request.value), o)
    requires r == Record(request.key, r.sequence, request.kind, request.value) && 0 < r.sequence <= MAX64
    ensures Encodable(r, o)
  {
  }

  lemma AppendedThenSynced(fs: FileSystem, inode: Inode, data: Bytes)
    requires inode < |fs.files|
    ensures var written := fs.SetFile(inode, fs.files[inode].Append(data[..|data|]));
            && inode < |written.files|
            && written.SetFile(inode, written.files[inode].Sync()) == fs.SetFile(inode, fs.files[inode].Append(data).Sync())
            && fs.SetFile(inode, fs.files[inode].Append(data).Sync()).files[inode].Stable()
  {
    assert data[..|data|] == data;
  }

  lemma MutableAccepts(m: Memory, l: Logs, r: Record, fs: FileSystem, h: History, o: Options)
    requires Inv(fs, h, m, l, o) && Encodable(r, o) && r.sequence == m.lastSequence + 1
    ensures 0 < |r.key| <= o.maxKeySize && |r.value| <= o.maxValueSize && r.sequence != 0
    ensures r.kind == Deletion ==> r.value == []
    ensures Lookup(m.mutable, r.key).Some? ==> Lookup(m.mutable, r.key).value.sequence < r.sequence
  {
    hide *;
    InvMemory(fs, h, m, l, o);
    RecordSizes(r, o);
    AboveMutable(m, l, r, o);
  }

  lemma RecordSizes(r: Record, o: Options)
    requires Encodable(r, o)
    ensures 0 < |r.key| <= o.maxKeySize && |r.value| <= o.maxValueSize && r.sequence != 0
    ensures r.kind == Deletion ==> r.value == []
  {
  }

  lemma AboveMutable(m: Memory, l: Logs, r: Record, o: Options)
    requires ActiveLogOk(m, l, o) && r.sequence == m.lastSequence + 1
    ensures Lookup(m.mutable, r.key).Some? ==> Lookup(m.mutable, r.key).value.sequence < r.sequence
  {
    hide Fold, AllEncodable, Rising;
    FoldSorted(l.active);
    var found := Lookup(m.mutable, r.key);
    if found.Some? {
      var i :| 0 <= i < |l.active| && l.active[i] == found.value;
    }
  }

  lemma MutableInserted(table: MemTable, m: Memory, r: Record, ok: bool)
    requires table.options.maxKeySize >= |r.key| > 0 && |r.value| <= table.options.maxValueSize && r.sequence != 0
    requires Lookup(m.mutable, r.key).Some? ==> Lookup(m.mutable, r.key).value.sequence < r.sequence
    requires r.kind == Deletion ==> r.value == []
    requires var value := if r.kind == Put then r.value else [];
             ok <==> r.sequence != 0 && table.Accepts(r.key, value) &&
                     (Lookup(m.mutable, r.key).Some? ==> Lookup(m.mutable, r.key).value.sequence < r.sequence)
    requires table.entries == if ok then Insert(m.mutable, Record(r.key, r.sequence, r.kind, if r.kind == Put then r.value else []))
                              else m.mutable
    ensures ok && table.entries == Insert(m.mutable, r) && table.entries != []
  {
    hide Lookup;
  }

  /** An attempt that published its outputs published all of them. */
  lemma PublishedCount(m: Memory, l: Logs, c: CompactionState, o: Options)
    requires CompactionOk(m, l, o) && m.compaction == Some(c) && (c.outputs == [] || c.published != [])
    ensures |c.published| == |c.outputs|
  {
    hide PlanOk, CandidateOk, CleanupOk, BuiltTable;
  }

  /** Without published outputs there is no candidate yet. */
  lemma UnpublishedCandidate(m: Memory, l: Logs, c: CompactionState, o: Options)
    requires CompactionOk(m, l, o) && m.compaction == Some(c) && c.outputs != [] && c.published == []
    ensures !c.versionPublished && c.candidate == None
  {
    hide PlanOk, PublishedOk, CleanupOk, Apply;
  }

  lemma WithOutputsIs(m: Memory, readers: seq<Reader>)
    requires m.compaction.Some?
    ensures WithOutputs(m, readers) == m.(compaction := Some(m.compaction.value.(published := readers)))
  {
  }

  lemma CleanedMayOpen(m: Memory, l: Logs)
    requires m.compaction.Some? && m.compaction.value.versionPublished && m.compaction.value.cleanupSynced
    requires m.immutable.None? && m.wal.None?
    ensures MayOpenWal(m, l)
  {
  }

  /** The readers of the compacted database are already in file-number order. */
  lemma CompactedSorted(fs: FileSystem, h: History, m: Memory, l: Logs, c: CompactionState, o: Options)
    requires |c.picks| == |m.readers| && c.candidate.Some?
    requires Inv(fs, h, Compacted(m, c, c.candidate.value), l, o)
    ensures SortReaders(Select(m.readers, c.picks, false) + c.published) == Select(m.readers, c.picks, false) + c.published
  {
    hide *;
    var m' := Compacted(m, c, c.candidate.value);
    InvMemory(fs, h, m', l, o);
    ReadersParts(m', l, o);
    StoredVersion(StoredOf(m', l, o), o);
    CompactedIs(m, c, c.candidate.value);
    SortedAlready(m'.readers, m'.version.tables);
  }

  /** A compaction and a flush are never pending together. */
  lemma OneAtATime(fs: FileSystem, h: History, m: Memory, l: Logs, o: Options)
    requires Inv(fs, h, m, l, o)
    ensures m.immutable.Some? ==> m.compaction.None?
    ensures m.compaction.Some? ==> m.mutable == []
  {
    hide *;
    InvMemory(fs, h, m, l, o);
    FreezeAllowed(fs, h, m, l, o);
    if m.compaction.Some? {
      CompactionParts(m, l, o);
    }
  }

  lemma AcceptsIs(table: MemTable, key: Key)
    ensures table.Accepts(key, []) <==> 0 < |key| <= table.options.maxKeySize
  {
  }
}
