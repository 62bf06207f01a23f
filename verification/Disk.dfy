/**
  The environment a database runs in (include/minikv/flush.hpp, include/minikv/file.hpp).

  Any call may fail, as `faults` decides.  Every call demands that the disk it leaves
  behind is recoverable.  `moments` remembers each disk between two calls, the points at which
  a crash can fall.
 */
module Disks {
  import opened Coding
  import opened Configuration
  import opened FileSystem
  import opened Runs
  import opened Durability
  import opened Ledgers
  import opened Claims

  datatype Moment = Moment(fs: FileSystem, history: History, book: Book)

  /** The book of a run, apart from the disk: no call to the environment changes it. */
  class Ledger {
    ghost var book: Book

    constructor ()
      ensures book == NEW_BOOK
    {
      book := NEW_BOOK;
    }
  }

  /** A moment from which every crash outcome can be opened, with a book that its history bears out. */
  ghost predicate MomentOk(m: Moment, o: Options) {
    Recoverable(m.fs, m.history, o) && Settled(m.fs) && BookOk(m.history, m.book)
  }

  /** A moment and its place in the run. */
  datatype Mark = Mark(index: nat, moment: Moment)

  /** How many of the first n calls fail. */
  ghost function Faults(faults: nat -> bool, n: nat): nat {
    if n == 0 then 0 else Faults(faults, n - 1) + if faults(n - 1) then 1 else 0
  }

  class Disk {
    const options: Options
    /** Whether the n-th call fails. */
    const faults: nat -> bool
    /** How many bytes a failing write gets onto the disk. */
    const partial: nat -> nat
    var fs: FileSystem
    var calls: nat
    var moments: seq<FileSystem>
    /** Every record handed to a log. */
    ghost var history: History
    /** How many calls have failed. */
    ghost var failures: nat
    /** The moments with what had been written and reported by then, in order and as a set. */
    ghost var path: seq<Moment>
    ghost var trace: set<Mark>
    const ledger: Ledger

    /** None of these calls fails. */
    ghost predicate Quiet(from: nat, count: nat) {
      forall n: nat :: from <= n < from + count ==> !faults(n)
    }

    /** Every moment so far is recoverable, and the last one is the present. */
    ghost predicate Safe()
      reads this, ledger
    {
      && |moments| == |path| && ledger.book.start < |path| && path[|path| - 1] == Moment(fs, history, ledger.book)
      && (forall i :: 0 <= i < |path| ==> path[i].fs == moments[i] && MomentOk(path[i], options) && Mark(i, path[i]) in trace)
      && (forall i :: ledger.book.start <= i < |path| ==> Earlier(path[i].book, ledger.book))
      && (forall m :: m in trace ==> m.index < |path| && path[m.index] == m.moment)
      && failures == Faults(faults, calls)
    }

    /** Everything recorded so far but the present moment. */
    ghost predicate Recorded()
      reads this, ledger
    {
      && |moments| == |path| && ledger.book.start <= |path|
      && (forall i :: 0 <= i < |path| ==> path[i].fs == moments[i] && MomentOk(path[i], options) && Mark(i, path[i]) in trace)
      && (forall i :: ledger.book.start <= i < |path| ==> Earlier(path[i].book, ledger.book))
      && (forall m :: m in trace ==> m.index < |path| && path[m.index] == m.moment)
      && failures == Faults(faults, calls)
    }

    /** One more moment has been recorded, and it is the present. */
    ghost predicate Remembered(before: seq<Moment>, disks: seq<FileSystem>)
      reads this, ledger
    {
      path == before + [Moment(fs, history, ledger.book)] && moments == disks + [fs]
    }

    constructor (options: Options, faults: nat -> bool, partial: nat -> nat)
      ensures Safe() && fs == EMPTY && history == [] && calls == 0 && failures == 0 && fresh(ledger) && ledger.book == NEW_BOOK
      ensures this.options == options && this.faults == faults && this.partial == partial
    {
      this.options, this.faults, this.partial := options, faults, partial;
      fs, calls, failures, history := EMPTY, 0, 0, [];
      moments, path, trace := [EMPTY], [Moment(EMPTY, [], NEW_BOOK)], {Mark(0, Moment(EMPTY, [], NEW_BOOK))};
      ledger := new Ledger();
      new;
      EmptyRecoverable(options);
      EmptySettled();
      EmptyBook();
    }

    /** Records the disk after a call. */
    method Remember()
      requires Recoverable(fs, history, options) && Settled(fs) && BookOk(history, ledger.book) && Recorded()
      modifies this`trace, this`path, this`moments
      ensures Safe() && old(trace) <= trace && Remembered(old(path), old(moments))
    {
      hide Recoverable, Settled, BookOk, Faults;
      var now := fs;
      ghost var moment := Moment(fs, history, ledger.book);
      trace := trace + {Mark(|path|, moment)};
      moments, path := moments + [now], path + [moment];
    }

    lemma SafeNow()
      requires Safe()
      ensures Recoverable(fs, history, options) && Settled(fs) && BookOk(history, ledger.book)
    {
      hide Recoverable, Settled, BookOk;
    }

    /** A client asks for a write. */
    method Ask(ghost request: Request)
      requires Safe()
      modifies this`trace, this`path, this`moments, ledger
      ensures Safe() && old(trace) <= trace && Remembered(old(path), old(moments))
      ensures ledger.book == old(ledger.book).(asked := old(ledger.book).asked + [request])
    {
      hide Recoverable, Settled, BookOk;
      BookMarks(history, ledger.book, ledger.book.start, ledger.book.asked + [request]);
      ledger.book := ledger.book.(asked := ledger.book.asked + [request]);
      Remember();
    }

    /** A write is reported to its client as successful. */
    method Acknowledge(ghost r: Record)
      requires Safe() && BookOk(history, ledger.book.(acked := ledger.book.acked + [r]))
      modifies this`trace, this`path, this`moments, ledger
      ensures Safe() && old(trace) <= trace && Remembered(old(path), old(moments))
      ensures ledger.book == old(ledger.book).(acked := old(ledger.book).acked + [r])
    {
      hide Recoverable, Settled, BookOk;
      ledger.book := ledger.book.(acked := ledger.book.acked + [r]);
      Remember();
    }

    /**
      An Open has found this log and a session begins.  If the disk was synced, so that no crash can
      change what was found, it is known for certain from now on.
     */
    method Begin(ghost log: seq<Record>, ghost certain: bool)
      requires Safe() && Explains(log, history) && (certain ==> Recoverable(fs, Known(log), options))
      modifies this`history, this`trace, this`path, this`moments, ledger
      ensures Safe() && old(trace) <= trace && Remembered(old(path), old(moments))
      ensures |history| in ledger.book.sessions && ledger.book.start == |old(path)|
      ensures ledger.book.acked == old(ledger.book).acked && old(ledger.book).shown <= log
      ensures if certain then history == Known(log) && ledger.book.sessions == [|log|] && ledger.book.shown == log
              else history == old(history) && ledger.book.shown == old(ledger.book).shown &&
                   ledger.book.sessions == old(ledger.book).sessions + [|history|]
    {
      hide Recoverable, Settled, BookOk, Explains;
      BeginsOk(history, ledger.book, |path|);
      AdoptsOk(history, ledger.book, log, |path|);
      if certain {
        history, ledger.book := Known(log), Book([|log|], ledger.book.acked, log, |path|, ledger.book.asked);
      } else {
        ledger.book := ledger.book.(sessions := ledger.book.sessions + [|history|], start := |path|);
      }
      Remember();
    }

    method CreateTruncated(name: FileName) returns (ok: bool, inode: Inode)
      requires Safe() && Recoverable(fs.Create(name), history, options)
      modifies this
      ensures Safe() && old(trace) <= trace && history == old(history) && Remembered(old(path), old(moments))
      ensures calls == old(calls) + 1 && ok == !faults(old(calls)) && failures == old(failures) + if ok then 0 else 1
      ensures fs == if ok then old(fs).Create(name) else old(fs)
      ensures inode == |old(fs).files|
    {
      hide Recoverable, Settled, BookOk;
      SafeCreate(fs, name, history, options);
      ok, inode := !faults(calls), |fs.files|;
      if ok {
        fs := fs.Create(name);
      }
      calls, failures := calls + 1, failures + if ok then 0 else 1;
      Remember();
    }

    /** Opens for appending; creates the file if the name is free. */
    method OpenAppend(name: FileName) returns (ok: bool, inode: Inode)
      requires Safe() && (name !in fs.Current() ==> Recoverable(fs.Create(name), history, options))
      modifies this
      ensures Safe() && old(trace) <= trace && history == old(history) && Remembered(old(path), old(moments))
      ensures calls == old(calls) + 1 && ok == !faults(old(calls)) && failures == old(failures) + if ok then 0 else 1
      ensures fs == if ok && name !in old(fs).Current() then old(fs).Create(name) else old(fs)
      ensures inode == if name in old(fs).Current() then old(fs).Current()[name] else |old(fs).files|
    {
      hide Recoverable, Settled, BookOk;
      SafeCreate(fs, name, history, options);
      ok := !faults(calls);
      var known := fs.Current();
      inode := if name in known then known[name] else |fs.files|;
      if ok && name !in known {
        fs := fs.Create(name);
      }
      calls, failures := calls + 1, failures + if ok then 0 else 1;
      Remember();
    }

    /**
      WriteAll: appends the data, or a prefix of it when the call fails.  `next` is the
      history once bytes have been written.
     */
    method Write(inode: Inode, data: Bytes, ghost next: History) returns (ok: bool, ghost count: nat)
      requires Safe() && inode < |fs.files| && BookOk(next, ledger.book)
      requires forall n :: 0 <= n <= |data| ==>
                 Recoverable(fs.SetFile(inode, fs.files[inode].Append(data[..n])), next, options)
      modifies this
      ensures Safe() && old(trace) <= trace && history == next && Remembered(old(path), old(moments))
      ensures calls == old(calls) + 1 && ok == !faults(old(calls)) && failures == old(failures) + if ok then 0 else 1
      ensures count <= |data| && (ok ==> count == |data|)
      ensures fs == old(fs).SetFile(inode, old(fs).files[inode].Append(data[..count]))
    {
      hide Recoverable, Settled, BookOk;
      ok := !faults(calls);
      var written := if ok || partial(calls) > |data| then |data| else partial(calls);
      count := written;
      fs := fs.SetFile(inode, fs.files[inode].Append(data[..written]));
      SettledFiles(old(fs), fs);
      history := next;
      calls, failures := calls + 1, failures + if ok then 0 else 1;
      Remember();
    }

    /** Sync of one file; `next` is the history if it succeeds. */
    method SyncFile(inode: Inode, ghost next: History) returns (ok: bool)
      requires Safe() && inode < |fs.files| && BookOk(next, ledger.book)
      requires Recoverable(fs.SetFile(inode, fs.files[inode].Sync()), next, options)
      modifies this
      ensures Safe() && old(trace) <= trace && Remembered(old(path), old(moments))
      ensures calls == old(calls) + 1 && ok == !faults(old(calls)) && failures == old(failures) + if ok then 0 else 1
      ensures fs == if ok then old(fs).SetFile(inode, old(fs).files[inode].Sync()) else old(fs)
      ensures history == if ok then next else old(history)
    {
      hide Recoverable, Settled, BookOk;
      ok := !faults(calls);
      if ok {
        fs := fs.SetFile(inode, fs.files[inode].Sync());
        SettledFiles(old(fs), fs);
        history := next;
      }
      calls, failures := calls + 1, failures + if ok then 0 else 1;
      Remember();
    }

    method Truncate(inode: Inode, size: nat) returns (ok: bool)
      requires Safe() && inode < |fs.files| && size <= |fs.files[inode].current|
      requires Recoverable(fs.SetFile(inode, fs.files[inode].Truncate(size)), history, options)
      modifies this
      ensures Safe() && old(trace) <= trace && history == old(history) && Remembered(old(path), old(moments))
      ensures calls == old(calls) + 1 && ok == !faults(old(calls)) && failures == old(failures) + if ok then 0 else 1
      ensures fs == if ok then old(fs).SetFile(inode, old(fs).files[inode].Truncate(size)) else old(fs)
    {
      hide Recoverable, Settled, BookOk;
      ok := !faults(calls);
      if ok {
        fs := fs.SetFile(inode, fs.files[inode].Truncate(size));
        SettledFiles(old(fs), fs);
      }
      calls, failures := calls + 1, failures + if ok then 0 else 1;
      Remember();
    }

    method Read(inode: Inode) returns (ok: bool, content: Bytes)
      requires Safe() && inode < |fs.files|
      modifies this
      ensures Safe() && history == old(history) && fs == old(fs) && trace == old(trace) && path == old(path) && moments == old(moments)
      ensures calls == old(calls) + 1 && ok == !faults(old(calls)) && failures == old(failures) + if ok then 0 else 1
      ensures content == if ok then fs.files[inode].current else []
    {
      hide MomentOk, Earlier;
      ok := !faults(calls);
      content := if ok then fs.files[inode].current else [];
      calls, failures := calls + 1, failures + if ok then 0 else 1;
    }

    /** The names in the directory. */
    method List() returns (ok: bool, names: set<FileName>)
      requires Safe()
      modifies this
      ensures Safe() && history == old(history) && fs == old(fs) && trace == old(trace) && path == old(path) && moments == old(moments)
      ensures calls == old(calls) + 1 && ok == !faults(old(calls)) && failures == old(failures) + if ok then 0 else 1
      ensures ok ==> names == fs.Current().Keys
    {
      hide MomentOk, Earlier;
      ok, names := !faults(calls), fs.Current().Keys;
      calls, failures := calls + 1, failures + if ok then 0 else 1;
    }

    method Size(inode: Inode) returns (ok: bool, size: nat)
      requires Safe() && inode < |fs.files|
      modifies this
      ensures Safe() && history == old(history) && fs == old(fs) && trace == old(trace) && path == old(path) && moments == old(moments)
      ensures calls == old(calls) + 1 && ok == !faults(old(calls)) && failures == old(failures) + if ok then 0 else 1
      ensures ok ==> size == |fs.files[inode].current|
    {
      hide MomentOk, Earlier;
      ok, size := !faults(calls), |fs.files[inode].current|;
      calls, failures := calls + 1, failures + if ok then 0 else 1;
    }

    /** ReadAllAt within the file. */
    method ReadAt(inode: Inode, offset: nat, size: nat) returns (ok: bool, data: Bytes)
      requires Safe() && inode < |fs.files| && offset + size <= |fs.files[inode].current|
      modifies this
      ensures Safe() && history == old(history) && fs == old(fs) && trace == old(trace) && path == old(path) && moments == old(moments)
      ensures calls == old(calls) + 1 && ok == !faults(old(calls)) && failures == old(failures) + if ok then 0 else 1
      ensures ok ==> data == fs.files[inode].current[offset..offset + size]
    {
      hide MomentOk, Earlier;
      ok, data := !faults(calls), fs.files[inode].current[offset..offset + size];
      calls, failures := calls + 1, failures + if ok then 0 else 1;
    }

    method Rename(source: FileName, target: FileName) returns (ok: bool)
      requires Safe() && source in fs.Current() && !source.WalName? && !target.WalName?
      requires Recoverable(fs.Issue(Move(source, target)), history, options)
      modifies this
      ensures Safe() && old(trace) <= trace && history == old(history) && Remembered(old(path), old(moments))
      ensures calls == old(calls) + 1 && ok == !faults(old(calls)) && failures == old(failures) + if ok then 0 else 1
      ensures fs == if ok then old(fs).Issue(Move(source, target)) else old(fs)
    {
      hide Recoverable, Settled, BookOk;
      SettledMove(fs, source, target);
      ok := !faults(calls);
      if ok {
        fs := fs.Issue(Move(source, target));
      }
      calls, failures := calls + 1, failures + if ok then 0 else 1;
      Remember();
    }

    /** Removing a name that does not exist succeeds. */
    method RemoveFile(name: FileName) returns (ok: bool)
      requires Safe() && Recoverable(fs.Issue(Unlink(name)), history, options)
      modifies this
      ensures Safe() && old(trace) <= trace && history == old(history) && Remembered(old(path), old(moments))
      ensures calls == old(calls) + 1 && ok == !faults(old(calls)) && failures == old(failures) + if ok then 0 else 1
      ensures fs == if ok then old(fs).Issue(Unlink(name)) else old(fs)
    {
      hide Recoverable, Settled, BookOk;
      SettledUnlink(fs, name);
      ok := !faults(calls);
      if ok {
        fs := fs.Issue(Unlink(name));
      }
      calls, failures := calls + 1, failures + if ok then 0 else 1;
      Remember();
    }

    method SyncDirectory() returns (ok: bool)
      requires Safe()
      modifies this
      ensures Safe() && old(trace) <= trace && history == old(history) && Remembered(old(path), old(moments))
      ensures calls == old(calls) + 1 && ok == !faults(old(calls)) && failures == old(failures) + if ok then 0 else 1
      ensures fs == if ok then old(fs).SyncDirectory() else old(fs)
    {
      hide Recoverable, Settled, BookOk;
      ok := !faults(calls);
      SafeSync(fs, history, options);
      if ok {
        fs := fs.SyncDirectory();
      }
      calls, failures := calls + 1, failures + if ok then 0 else 1;
      Remember();
    }

    /** A crash at some moment of the past: what came later did not happen, and the disk is one of its outcomes. */
    method Restart(at: nat, after: FileSystem)
      requires Safe() && at < |moments| && CrashesTo(moments[at], after)
      modifies this`fs, this`history, this`trace, this`path, this`moments, ledger
      ensures Safe() && old(trace) <= trace && Remembered(old(path), old(moments)) && fs == after && at < |old(path)|
      ensures history == old(path)[at].history && ledger.book == old(path)[at].book.(start := |old(path)|)
    {
      hide Recoverable, Settled, CrashesTo, BookOk;
      ghost var moment := path[at];
      assert MomentOk(moment, options);
      CrashRecoverable(moments[at], after, moment.history, options);
      CrashSettled(moments[at], after);
      fs, history := after, moment.history;
      ledger.book := moment.book.(start := |path|);
      BookMarks(history, moment.book, |path|, moment.book.asked);
      Remember();
    }
  }

  lemma QuietPart(disk: Disk, from: nat, count: nat, a: nat, k: nat)
    requires from <= a && a + k <= from + count
    ensures disk.Quiet(from, count) ==> disk.Quiet(a, k)
  {
  }

  lemma QuietCall(disk: Disk, from: nat, count: nat, n: nat)
    requires from <= n < from + count
    ensures disk.Quiet(from, count) ==> !disk.faults(n)
  {
  }

  lemma {:induction false} FaultsGrow(faults: nat -> bool, a: nat, b: nat)
    requires a <= b
    ensures Faults(faults, a) <= Faults(faults, b)
    ensures Faults(faults, a) == Faults(faults, b) <==> forall n: nat :: a <= n < b ==> !faults(n)
  {
    if a < b { FaultsGrow(faults, a, b - 1); }
  }

  lemma EmptyRecoverable(o: Options)
    ensures Recoverable(EMPTY, [], o)
  {
    var img := ImageOf(EMPTY.View(0), EMPTY.files);
    assert Blank(img) && Explains([], []);
  }

  lemma EmptySettled()
    ensures Settled(EMPTY)
  {
  }

  lemma SafeCreate(fs: FileSystem, name: FileName, h: History, o: Options)
    requires Recoverable(fs, h, o) && Settled(fs)
    ensures Settled(fs.Create(name))
  {
    hide Settled;
    assert fs.Ok();
    SettledCreate(fs, name);
  }

  lemma SafeSync(fs: FileSystem, h: History, o: Options)
    requires Recoverable(fs, h, o) && Settled(fs)
    ensures Recoverable(fs.SyncDirectory(), h, o) && Settled(fs.SyncDirectory())
  {
    hide Settled, Keeps;
    SyncKeeps(fs, Anything, h, o);
    SettledView(fs, |fs.pending|, fs.SyncDirectory());
  }

  lemma CrashSettled(fs: FileSystem, after: FileSystem)
    requires Settled(fs) && CrashesTo(fs, after)
    ensures Settled(after)
  {
    hide Settled, PerformAll;
    var kept: nat :| kept <= |fs.pending| && after.synced == fs.View(kept);
    SettledView(fs, kept, after);
  }
}
