/** Replaying a write-ahead log into a MemTable (src/recovery.cpp). */
module Recovery {
  import opened Coding
  import opened Configuration
  import opened Runs
  import opened MemTables
  import opened Wal
  import opened WalLog
  import opened FileSystem
  import opened Durability
  import opened Claims
  import opened Disks
  import opened Statuses

  datatype RecoveryResult = RecoveryResult(
    count: nat,
    minimumSequence: nat,
    maximumSequence: nat,
    validBytes: nat,
    discardedBytes: nat)

  /** Having read `done` up to `offset`, what is left of the file decides the outcome. */
  ghost predicate Reached(content: Bytes, offset: nat, done: seq<Record>, o: Options) {
    && offset <= |content|
    && AllEncodable(done, o) && Rising(done, 0)
    && var rest := Recover(content[offset..], o, Top(done));
       Recover(content, o, 0) ==
         if rest.Rejected? then Rejected else Recovered(done + rest.records, offset + rest.validBytes)
  }

  /** The greatest sequence number so far. */
  function Top(done: seq<Record>): nat {
    if done == [] then 0 else done[|done| - 1].sequence
  }

  lemma ReachedStart(content: Bytes, o: Options)
    ensures Reached(content, 0, [], o)
  {
    hide Recover;
    assert content[0..] == content;
    var rest := Recover(content, o, 0);
    assert rest.Recovered? ==> [] + rest.records == rest.records;
  }

  /** Too few bytes left for a record: everything read so far is the log. */
  lemma ReachedTorn(content: Bytes, offset: nat, done: seq<Record>, o: Options)
    requires Reached(content, offset, done, o)
    requires |content| - offset < WAL_HEADER_SIZE ||
             var header := DecodeHeader(content[offset..offset + WAL_HEADER_SIZE], o);
             header.Ok? && header.value.recordSize > |content| - offset
    ensures Recover(content, o, 0) == Recovered(done, offset)
  {
    hide DecodeHeader, DecodeRecord, Rising, AllEncodable;
    var rest := content[offset..];
    assert |rest| >= WAL_HEADER_SIZE ==> rest[..WAL_HEADER_SIZE] == content[offset..offset + WAL_HEADER_SIZE];
    assert done + [] == done;
  }

  lemma ReachedBadHeader(content: Bytes, offset: nat, done: seq<Record>, o: Options)
    requires Reached(content, offset, done, o) && |content| - offset >= WAL_HEADER_SIZE
    requires !DecodeHeader(content[offset..offset + WAL_HEADER_SIZE], o).Ok?
    ensures Recover(content, o, 0) == Rejected
  {
    hide DecodeHeader, DecodeRecord, Rising, AllEncodable;
    assert content[offset..][..WAL_HEADER_SIZE] == content[offset..offset + WAL_HEADER_SIZE];
  }

  ghost predicate HeaderAt(content: Bytes, offset: nat, size: nat, o: Options) {
    && offset + WAL_HEADER_SIZE <= |content| && WAL_HEADER_SIZE <= size <= |content| - offset
    && var header := DecodeHeader(content[offset..offset + WAL_HEADER_SIZE], o);
       header.Ok? && header.value.recordSize == size
  }

  lemma ReachedBadRecord(content: Bytes, offset: nat, size: nat, done: seq<Record>, o: Options)
    requires Reached(content, offset, done, o) && HeaderAt(content, offset, size, o)
    requires var record := DecodeRecord(content[offset..offset + size], o); !record.Ok? || record.value.sequence <= Top(done)
    ensures Recover(content, o, 0) == Rejected
  {
    hide DecodeHeader, DecodeRecord, Rising, AllEncodable;
    var rest := content[offset..];
    assert rest[..WAL_HEADER_SIZE] == content[offset..offset + WAL_HEADER_SIZE];
    assert rest[..size] == content[offset..offset + size];
  }

  lemma ReachedNext(content: Bytes, offset: nat, size: nat, done: seq<Record>, r: Record, o: Options)
    requires Reached(content, offset, done, o) && HeaderAt(content, offset, size, o)
    requires DecodeRecord(content[offset..offset + size], o) == Decoded.Ok(r) && r.sequence > Top(done)
    ensures Encodable(r, o) && Reached(content, offset + size, done + [r], o)
  {
    hide DecodeHeader, DecodeRecord, Encodable, Encoding;
    var rest := content[offset..];
    assert rest[..WAL_HEADER_SIZE] == content[offset..offset + WAL_HEADER_SIZE];
    assert rest[..size] == content[offset..offset + size];
    RecoveredFirst(rest, o, size);
    assert rest[size..] == content[offset + size..];
    var tail := Recover(rest[size..], o, r.sequence);
    assert tail.Recovered? ==> done + ([r] + tail.records) == done + [r] + tail.records;
    assert Rising(done + [r], 0);
  }

  lemma ReachedEnd(content: Bytes, done: seq<Record>, o: Options)
    requires Reached(content, |content|, done, o)
    ensures Recover(content, o, 0) == Recovered(done, |content|)
  {
    assert content[|content|..] == [];
    assert done + [] == done;
  }

  /** A record that rises above the log is accepted by the MemTable of that log. */
  lemma Applies(done: seq<Record>, r: Record, o: Options)
    requires AllEncodable(done, o) && Rising(done, 0) && Encodable(r, o) && r.sequence > Top(done)
    ensures 0 < |r.key| <= o.maxKeySize && |r.value| <= o.maxValueSize && r.sequence != 0
    ensures r.kind == Deletion ==> r.value == []
    ensures Lookup(Fold(done), r.key).Some? ==> Lookup(Fold(done), r.key).value.sequence < r.sequence
    ensures Fold(done + [r]) == Insert(Fold(done), r)
  {
    FoldSorted(done);
    var found := Lookup(Fold(done), r.key);
    if found.Some? {
      var i :| 0 <= i < |done| && done[i] == found.value;
    }
    assert (done + [r])[..|done|] == done;
  }

  /** The disk may lose the torn tail of this log. */
  ghost predicate MayRepair(fs: FileSystem, inode: Inode, h: History, o: Options) {
    && inode < |fs.files|
    && var f, r := fs.files[inode], Recover(fs.files[inode].current, o, 0);
       r.Recovered? ==>
         && Recoverable(fs.SetFile(inode, f.Truncate(r.validBytes)), h, o)
         && Recoverable(fs.SetFile(inode, f.Truncate(r.validBytes).Sync()), h, o)
  }

  /** The disk after recovery. */
  ghost predicate Repaired(before: FileSystem, after: FileSystem, inode: Inode, o: Options)
    requires inode < |before.files|
  {
    var f, r := before.files[inode], Recover(before.files[inode].current, o, 0);
    && r.Recovered?
    && after == if r.validBytes == |f.current| then before else before.SetFile(inode, f.Truncate(r.validBytes).Sync())
  }

  /** The disk after a recovery that stopped at an I/O error or at a corrupt record. */
  ghost predicate Abandoned(before: FileSystem, after: FileSystem, inode: Inode, o: Options)
    requires inode < |before.files|
  {
    var f, r := before.files[inode], Recover(before.files[inode].current, o, 0);
    || after == before
    || (r.Recovered? && after == before.SetFile(inode, f.Truncate(r.validBytes)))
  }

  /** What recovery reports about the records it replayed. */
  ghost predicate Reports(result: RecoveryResult, records: seq<Record>) {
    && result.count == |records| && result.maximumSequence == Top(records)
    && result.minimumSequence == if records == [] then 0 else records[0].sequence
  }

  /** TruncateIncompleteTail. */
  method TruncateTail(disk: Disk, inode: Inode, offset: nat) returns (ok: bool)
    requires disk.Safe() && MayRepair(disk.fs, inode, disk.history, disk.options)
    requires offset < |disk.fs.files[inode].current|
    requires exists records :: Recover(disk.fs.files[inode].current, disk.options, 0) == Recovered(records, offset)
    modifies disk
    ensures old(disk.trace) <= disk.trace
    ensures disk.Safe() && disk.history == old(disk.history) && disk.calls >= old(disk.calls) && disk.failures >= old(disk.failures)
    ensures disk.failures == old(disk.failures) ==> ok
    ensures if ok then Repaired(old(disk.fs), disk.fs, inode, disk.options)
            else Abandoned(old(disk.fs), disk.fs, inode, disk.options)
  {
    hide Recoverable, Disk.Safe, Recover;
    ghost var before := disk.fs;
    ok := disk.Truncate(inode, offset);
    if ok {
      assert disk.fs.SetFile(inode, disk.fs.files[inode].Sync()) ==
             before.SetFile(inode, before.files[inode].Truncate(offset).Sync());
      disk.SafeNow();
      ok := disk.SyncFile(inode, disk.history);
    }
  }

  datatype Outcome = TornTail | BadRecord | Unreadable | Next(record: Record, length: nat)

  /** Reads the record at `offset`: its header first, then the whole of it. */
  method ReadRecord(disk: Disk, inode: Inode, offset: nat, floor: nat, ghost done: seq<Record>) returns (outcome: Outcome)
    requires disk.Safe() && inode < |disk.fs.files| && offset < |disk.fs.files[inode].current|
    requires Reached(disk.fs.files[inode].current, offset, done, disk.options) && floor == Top(done)
    modifies disk
    ensures old(disk.trace) <= disk.trace
    ensures disk.Safe() && disk.history == old(disk.history) && disk.fs == old(disk.fs) && disk.calls >= old(disk.calls) && disk.failures >= old(disk.failures)
    ensures disk.failures == old(disk.failures) ==> outcome != Unreadable
    ensures var content, o := disk.fs.files[inode].current, disk.options;
            match outcome
            case Unreadable => true
            case TornTail => Recover(content, o, 0) == Recovered(done, offset)
            case BadRecord => Recover(content, o, 0) == Rejected
            case Next(r, length) =>
              && 0 < length <= |content| - offset && Encodable(r, o) && r.sequence > floor
              && Reached(content, offset + length, done + [r], o)
  {
    hide *;
    ghost var content, o, start := disk.fs.files[inode].current, disk.options, disk.calls;
    var size := |disk.fs.files[inode].current|;
    if size - offset < WAL_HEADER_SIZE {
      ReachedTorn(content, offset, done, o);
      return TornTail;
    }
    var ok, header, encoded;
    ok, header := disk.ReadAt(inode, offset, WAL_HEADER_SIZE);
    if !ok {
      return Unreadable;
    }
    var decoded := DecodeHeader(header, disk.options);
    if !decoded.Ok? {
      ReachedBadHeader(content, offset, done, o);
      return BadRecord;
    }
    var length := decoded.value.recordSize;
    if length > size - offset {
      ReachedTorn(content, offset, done, o);
      return TornTail;
    }
    ok, encoded := disk.ReadAt(inode, offset, length);
    if !ok {
      return Unreadable;
    }
    HeaderHere(content, offset, length, o);
    var record := DecodeRecord(encoded, disk.options);
    if !record.Ok? || record.value.sequence <= floor {
      ReachedBadRecord(content, offset, length, done, o);
      return BadRecord;
    }
    ReachedNext(content, offset, length, done, record.value, o);
    outcome := Next(record.value, length);
  }

  lemma HeaderHere(content: Bytes, offset: nat, size: nat, o: Options)
    requires offset + WAL_HEADER_SIZE <= |content| && WAL_HEADER_SIZE <= size <= |content| - offset
    requires DecodeHeader(content[offset..offset + WAL_HEADER_SIZE], o).Ok?
    requires DecodeHeader(content[offset..offset + WAL_HEADER_SIZE], o).value.recordSize == size
    ensures HeaderAt(content, offset, size, o) && 0 < size
  {
    hide DecodeHeader;
  }

  /** Applies a decoded record; it is never refused. */
  method Replay(table: MemTable, r: Record, ghost done: seq<Record>)
    requires table.Valid() && table.entries == Fold(done)
    requires AllEncodable(done, table.options) && Rising(done, 0)
    requires Encodable(r, table.options) && r.sequence > Top(done)
    modifies table
    ensures table.Valid() && table.entries == Fold(done + [r])
  {
    Applies(done, r, table.options);
    hide Fold, AllEncodable, Rising, Encodable, Insert, Lookup, MemTable.Valid;
    var ok;
    if r.kind == Put {
      ok := table.Put(r.sequence, r.key, r.value);
    } else {
      ok := table.Delete(r.sequence, r.key);
    }
    assert ok;
  }

  /** Exactly the complete records are replayed, and exactly the torn tail is cut off. */
  method RecoverWal(disk: Disk, inode: Inode) returns (status: Status, table: MemTable, result: RecoveryResult, ghost records: seq<Record>)
    requires disk.Safe() && MayRepair(disk.fs, inode, disk.history, disk.options)
    modifies disk
    ensures old(disk.trace) <= disk.trace
    ensures disk.Safe() && disk.history == old(disk.history) && disk.calls >= old(disk.calls) && disk.failures >= old(disk.failures)
    ensures fresh(table) && table.Valid() && table.options == disk.options
    ensures status in {Success, Corruption, IOError}
    ensures status == Success ==>
              && Repaired(old(disk.fs), disk.fs, inode, disk.options)
              && records == Recover(old(disk.fs).files[inode].current, disk.options, 0).records
              && table.entries == Fold(records) && Reports(result, records)
    ensures status == Corruption ==>
              Recover(old(disk.fs).files[inode].current, disk.options, 0).Rejected? && disk.fs == old(disk.fs)
    ensures status != Success ==> Abandoned(old(disk.fs), disk.fs, inode, disk.options)
    ensures disk.failures == old(disk.failures) ==> status != IOError
  {
    hide Recoverable, Disk.Safe, Recover, Fold, Reached, AllEncodable, Rising, Encodable, MemTable.Valid;
    ghost var start, content, o := disk.calls, disk.fs.files[inode].current, disk.options;
    ghost var before := disk.fs;
    table := new MemTable(disk.options);
    result := RecoveryResult(0, 0, 0, 0, 0);
    records := [];
    var ok, size := disk.Size(inode);
    if !ok {
      return IOError, table, result, records;
    }
    var offset := 0;
    ReachedStart(content, o);
    FoldNothing();
    while offset < size
      invariant old(disk.trace) <= disk.trace
      invariant disk.Safe() && disk.history == old(disk.history) && disk.fs == before && disk.calls >= start && disk.failures >= old(disk.failures)
      invariant fresh(table) && table.Valid() && table.options == o && table.entries == Fold(records)
      invariant Reports(result, records)
      invariant offset <= size == |content| && Reached(content, offset, records, o)
      decreases size - offset
    {
      var outcome := ReadRecord(disk, inode, offset, result.maximumSequence, records);
      match outcome {
        case Unreadable => return IOError, table, result, records;
        case BadRecord => return Corruption, table, result, records;
        case TornTail =>
          ok := TruncateTail(disk, inode, offset);
          result := result.(discardedBytes := size - offset);
          return if ok then Success else IOError, table, result, records;
        case Next(r, length) =>
          ReachedRecords(content, offset, records, o);
          Replay(table, r, records);
          result := result.(
            minimumSequence := if result.count == 0 then r.sequence else result.minimumSequence,
            count := result.count + 1, maximumSequence := r.sequence, validBytes := offset + length);
          records := records + [r];
          offset := offset + length;
      }
    }
    ReachedEnd(content, records, o);
    status := Success;
  }

  lemma FoldNothing()
    ensures Fold([]) == []
  {
  }

  lemma ReachedRecords(content: Bytes, offset: nat, done: seq<Record>, o: Options)
    requires Reached(content, offset, done, o)
    ensures AllEncodable(done, o) && Rising(done, 0)
  {
    hide Recover, AllEncodable, Rising;
  }
}
