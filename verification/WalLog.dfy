/** What a whole WAL file means: its complete records, and a torn tail (src/recovery.cpp). */
module WalLog {
  import opened Coding
  import opened Layout
  import opened Configuration
  import opened Runs
  import opened Wal

  /** The bytes of a log: its records' encodings one after the other. */
  function LogBytes(log: seq<Record>): Bytes {
    if log == [] then [] else Encoding(log[0]) + LogBytes(log[1..])
  }

  ghost predicate AllEncodable(log: seq<Record>, o: Options) {
    forall r :: r in log ==> Encodable(r, o)
  }

  /** Sequence numbers that rise strictly from above `floor`. */
  ghost predicate Rising(log: seq<Record>, floor: nat) {
    && (forall i :: 0 <= i < |log| ==> log[i].sequence > floor)
    && SequencesAscend(log)
  }

  /** A strict prefix of one record's encoding: what an interrupted append leaves. */
  ghost predicate Torn(tail: Bytes, o: Options) {
    tail == [] || exists r: Record :: Encodable(r, o) && tail <= Encoding(r) && tail != Encoding(r)
  }

  datatype Recovered = Recovered(records: seq<Record>, validBytes: nat) | Rejected

  /**
    RecoverWal as a function of the file's contents: the complete records and where
    they end, or a rejection.  `floor` is the sequence number the next must exceed.
   */
  function Recover(content: Bytes, o: Options, floor: nat): (r: Recovered)
    ensures r.Recovered? ==> r.validBytes <= |content|
    decreases |content|
  {
    if |content| < WAL_HEADER_SIZE then Recovered([], 0) else
    var header := DecodeHeader(content[..WAL_HEADER_SIZE], o);
    if !header.Ok? then Rejected else
    var size := header.value.recordSize;
    if size > |content| then Recovered([], 0) else
    var record := DecodeRecord(content[..size], o);
    if !record.Ok? || record.value.sequence <= floor then Rejected else
    var rest := Recover(content[size..], o, record.value.sequence);
    if rest.Rejected? then Rejected
    else Recovered([record.value] + rest.records, size + rest.validBytes)
  }

  // ----- Recovery is exact ---------------------------------------------------------

  lemma {:induction false} LogBytesAppend(a: seq<Record>, b: seq<Record>)
    ensures LogBytes(a + b) == LogBytes(a) + LogBytes(b)
  {
    hide Encoding;
    if a == [] {
      assert a + b == b;
    } else {
      assert (a + b)[1..] == a[1..] + b;
      LogBytesAppend(a[1..], b);
    }
  }

  lemma LogBytesOne(r: Record)
    ensures LogBytes([r]) == Encoding(r)
  {
    hide Encoding;
    assert LogBytes([r]) == Encoding(r) + LogBytes([]);
  }

  lemma RecoverTorn(tail: Bytes, o: Options, floor: nat)
    requires Torn(tail, o)
    ensures Recover(tail, o, floor) == Recovered([], 0)
  {
    hide Encoding, DecodeHeader, DecodeRecord, Crc, HeaderPrefix, Encodable;
    if |tail| >= WAL_HEADER_SIZE {
      var r: Record :| Encodable(r, o) && tail <= Encoding(r) && tail != Encoding(r);
      var header := tail[..WAL_HEADER_SIZE];
      assert header == Encoding(r)[..WAL_HEADER_SIZE];
      assert header[..WAL_HEADER_SIZE] == header;
      DecodeHeaderOfEncoding(r, o, header);
    }
  }

  /** One step of recovery over a file that starts with a complete record. */
  lemma RecoverStep(r: Record, rest: Bytes, o: Options, floor: nat)
    requires Encodable(r, o) && r.sequence > floor
    ensures var tail := Recover(rest, o, r.sequence);
            Recover(Encoding(r) + rest, o, floor) ==
              if tail.Rejected? then Rejected
              else Recovered([r] + tail.records, RecordSize(r) + tail.validBytes)
  {
    hide Encoding, DecodeHeader, DecodeRecord, Crc, HeaderPrefix, Encodable;
    var content := Encoding(r) + rest;
    var header := content[..WAL_HEADER_SIZE];
    assert header == Encoding(r)[..WAL_HEADER_SIZE];
    assert header[..WAL_HEADER_SIZE] == header;
    DecodeHeaderOfEncoding(r, o, header);
    assert content[..RecordSize(r)] == Encoding(r) + [];
    DecodeEncoding(r, o, []);
    assert content[RecordSize(r)..] == rest;
  }

  /** Complete records followed by a torn tail: recovery returns exactly the records and their end. */
  lemma {:induction false} RecoverExact(log: seq<Record>, tail: Bytes, o: Options, floor: nat)
    requires AllEncodable(log, o) && Rising(log, floor) && Torn(tail, o)
    ensures Recover(LogBytes(log) + tail, o, floor) == Recovered(log, |LogBytes(log)|)
  {
    hide Encoding, Recover, Torn, Encodable;
    if log == [] {
      assert LogBytes(log) + tail == tail;
      RecoverTorn(tail, o, floor);
    } else {
      var rest := log[1..];
      assert LogBytes(log) + tail == Encoding(log[0]) + (LogBytes(rest) + tail);
      RecoverExact(rest, tail, o, log[0].sequence);
      RecoverStep(log[0], LogBytes(rest) + tail, o, floor);
      assert [log[0]] + rest == log;
    }
  }

  /** Whatever recovery accepts is a log of encodable, rising records; cutting the file at its end changes nothing. */
  lemma {:induction false} RecoveredParts(content: Bytes, o: Options, floor: nat)
    requires Recover(content, o, floor).Recovered?
    ensures var r := Recover(content, o, floor);
            && AllEncodable(r.records, o) && Rising(r.records, floor)
            && content[..r.validBytes] == LogBytes(r.records)
    decreases |content|
  {
    hide Encoding, DecodeHeader, DecodeRecord, Encodable, Crc, HeaderPrefix;
    var r := Recover(content, o, floor);
    if r.records != [] {
      var size := DecodeHeader(content[..WAL_HEADER_SIZE], o).value.recordSize;
      var first := DecodeRecord(content[..size], o).value;
      var rest := Recover(content[size..], o, first.sequence);
      RecoveredParts(content[size..], o, first.sequence);
      RecoveredFirst(content, o, size);
      RecoveredCons(content, o, floor, size, first, rest);
    }
  }

  lemma RecoveredCons(content: Bytes, o: Options, floor: nat, size: nat, first: Record, rest: Recovered)
    requires size <= |content| && content[..size] == Encoding(first) && Encodable(first, o)
    requires rest.Recovered? && size + rest.validBytes <= |content|
    requires AllEncodable(rest.records, o) && Rising(rest.records, first.sequence) && first.sequence > floor
    requires content[size..][..rest.validBytes] == LogBytes(rest.records)
    ensures AllEncodable([first] + rest.records, o) && Rising([first] + rest.records, floor)
    ensures content[..size + rest.validBytes] == LogBytes([first] + rest.records)
  {
    hide Encoding, Encodable;
    assert ([first] + rest.records)[1..] == rest.records;
    assert content[..size + rest.validBytes] == content[..size] + content[size..][..rest.validBytes];
  }

  lemma RecoveredFirst(content: Bytes, o: Options, size: nat)
    requires WAL_HEADER_SIZE <= size <= |content|
    requires DecodeHeader(content[..WAL_HEADER_SIZE], o).Ok?
    requires DecodeHeader(content[..WAL_HEADER_SIZE], o).value.recordSize == size
    requires DecodeRecord(content[..size], o).Ok?
    ensures var first := DecodeRecord(content[..size], o).value;
            Encodable(first, o) && content[..size] == Encoding(first)
  {
    hide DecodeHeader, DecodeRecord, Encoding, Encodable;
    RecoveredRecordSize(content, o, size);
    EncodingOfDecoded(content[..size], o);
    assert content[..size][..size] == content[..size];
  }

  lemma RecoveredRecordSize(content: Bytes, o: Options, size: nat)
    requires WAL_HEADER_SIZE <= size <= |content|
    requires DecodeHeader(content[..WAL_HEADER_SIZE], o).Ok?
    requires DecodeHeader(content[..WAL_HEADER_SIZE], o).value.recordSize == size
    requires DecodeRecord(content[..size], o).Ok?
    ensures RecordSize(DecodeRecord(content[..size], o).value) == size
  {
    hide Unpack, Field, Crc, ValidLengths;
    assert content[..size][..WAL_HEADER_SIZE] == content[..WAL_HEADER_SIZE];
    UnpackPrefix(content[..size], content[..WAL_HEADER_SIZE], PREFIX);
  }

  /** Cutting a file anywhere after its last complete record changes nothing. */
  lemma {:induction false} RecoverShorter(content: Bytes, n: nat, o: Options, floor: nat)
    requires Recover(content, o, floor).Recovered? && Recover(content, o, floor).validBytes <= n <= |content|
    ensures Recover(content[..n], o, floor) == Recover(content, o, floor)
    decreases |content|
  {
    hide Encoding, DecodeHeader, DecodeRecord, Encodable, Crc, HeaderPrefix;
    if |content| >= WAL_HEADER_SIZE {
      var header := DecodeHeader(content[..WAL_HEADER_SIZE], o);
      var size := header.value.recordSize;
      HeaderSize(content[..WAL_HEADER_SIZE], o);
      if size <= |content| {
        var first := DecodeRecord(content[..size], o).value;
        assert content[..n][..WAL_HEADER_SIZE] == content[..WAL_HEADER_SIZE] && content[..n][..size] == content[..size];
        assert content[..n][size..] == content[size..][..n - size];
        RecoverShorter(content[size..], n - size, o, first.sequence);
      } else if n >= WAL_HEADER_SIZE {
        assert content[..n][..WAL_HEADER_SIZE] == content[..WAL_HEADER_SIZE];
      }
    }
  }

  lemma HeaderSize(header: Bytes, o: Options)
    requires DecodeHeader(header, o).Ok?
    ensures DecodeHeader(header, o).value.recordSize >= WAL_HEADER_SIZE
  {
  }

  /** Recovery is idempotent: the truncated file recovers to the same records with nothing left to cut. */
  lemma RecoverIdempotent(content: Bytes, o: Options, floor: nat)
    requires Recover(content, o, floor).Recovered?
    ensures var r := Recover(content, o, floor);
            Recover(content[..r.validBytes], o, floor) == Recovered(r.records, r.validBytes)
  {
    var r := Recover(content, o, floor);
    RecoveredParts(content, o, floor);
    RecoverExact(r.records, [], o, floor);
    assert LogBytes(r.records) + [] == content[..r.validBytes];
  }

  // ----- Any single changed byte is caught --------------------------------------------

  /** The size fields sit at these offsets; a header is accepted only if they agree. */
  lemma SizesAgree(input: Bytes, o: Options)
    requires DecodeHeader(input, o).Ok?
    ensures |input| >= WAL_HEADER_SIZE
    ensures DecodeHeader(input, o).value.recordSize == Field(input, 8, 4)
    ensures Field(input, 8, 4) == WAL_HEADER_SIZE + Field(input, 20, 4) + Field(input, 24, 4)
    ensures DecodeHeader(input, o).value.checksum == Field(input, CHECKSUM_OFFSET, 4)
  {
    hide Field, Unpack;
    UnpackAt(input, PREFIX, 4);
    UnpackAt(input, PREFIX, 6);
    UnpackAt(input, PREFIX, 7);
    assert Offset(PREFIX, 4) == 8 && Offset(PREFIX, 6) == 20 && Offset(PREFIX, 7) == 24;
  }

  lemma FieldChanges(a: Bytes, b: Bytes, at: nat, offset: nat, width: nat)
    requires DifferAt(a, b, at) && offset + width <= |a|
    ensures Field(a, offset, width) == Field(b, offset, width) <==> !(offset <= at < offset + width)
  {
    hide Value;
    var x, y := a[offset..offset + width], b[offset..offset + width];
    ValueInjective(x, y);
    if offset <= at < offset + width {
      assert x[at - offset] == a[at] && y[at - offset] == b[at];
    } else {
      SameOutside(a, b, at, offset, offset + width);
    }
  }

  /** One changed byte cannot turn a header into another acceptable header of a different size. */
  lemma ChangedHeaderKeepsSize(a: Bytes, b: Bytes, at: nat, o: Options)
    requires DifferAt(a, b, at) && DecodeHeader(a, o).Ok? && DecodeHeader(b, o).Ok?
    ensures DecodeHeader(a, o).value.recordSize == DecodeHeader(b, o).value.recordSize
    ensures !(8 <= at < 12)
  {
    hide DecodeHeader, Field;
    SizesAgree(a, o);
    SizesAgree(b, o);
    FieldChanges(a, b, at, 8, 4);
    FieldChanges(a, b, at, 20, 4);
    FieldChanges(a, b, at, 24, 4);
  }

  lemma ChangedRecordIsCorrupt(r: Record, o: Options, b: Bytes, at: nat)
    requires Encodable(r, o) && DifferAt(Encoding(r), b, at)
    ensures DecodeRecord(b, o) == Corrupt
  {
    hide DecodeHeader, Crc, Field, Encoding;
    var a := Encoding(r);
    DecodeEncoding(r, o, []);
    assert a + [] == a;
    assert DecodeHeader(a, o).Ok?;
    var size := RecordSize(r);
    assert a[..WAL_HEADER_SIZE] == Encoding(r)[..WAL_HEADER_SIZE];
    DecodeHeaderOfEncoding(r, o, a);
    if DecodeHeader(b, o).Ok? {
      ChangedHeaderKeepsSize(a, b, at, o);
      SizesAgree(a, o);
      SizesAgree(b, o);
      FieldChanges(a, b, at, CHECKSUM_OFFSET, 4);
      var x, y := a[..CHECKSUM_OFFSET] + a[WAL_HEADER_SIZE..size], b[..CHECKSUM_OFFSET] + b[WAL_HEADER_SIZE..size];
      assert x == a[..CHECKSUM_OFFSET] + a[WAL_HEADER_SIZE..] && y == b[..CHECKSUM_OFFSET] + b[WAL_HEADER_SIZE..];
      if CHECKSUM_OFFSET <= at < WAL_HEADER_SIZE {
        SameOutside(a, b, at, 0, CHECKSUM_OFFSET);
        SameOutside(a, b, at, WAL_HEADER_SIZE, size);
        assert x == a[0..CHECKSUM_OFFSET] + a[WAL_HEADER_SIZE..size] == y;
      } else {
        DifferAfterCut(a, b, at, CHECKSUM_OFFSET, WAL_HEADER_SIZE);
        CrcSeesByte(x, y, if at < CHECKSUM_OFFSET then at else at - 4);
      }
    }
  }

  /** Recovery stops at a changed record, whatever follows it, and does not take it for a torn tail. */
  lemma ChangedRecordRejected(r: Record, o: Options, b: Bytes, at: nat, rest: Bytes, floor: nat)
    requires Encodable(r, o) && DifferAt(Encoding(r), b, at)
    ensures Recover(b + rest, o, floor) == Rejected
  {
    hide DecodeHeader, DecodeRecord, Crc, Field, Encoding, HeaderPrefix, Encodable;
    var a, content, size := Encoding(r), b + rest, RecordSize(r);
    var header := content[..WAL_HEADER_SIZE];
    assert header == b[..WAL_HEADER_SIZE];
    var plain := a[..WAL_HEADER_SIZE];
    assert plain[..WAL_HEADER_SIZE] == plain;
    DecodeHeaderOfEncoding(r, o, plain);
    ChangedRecordIsCorrupt(r, o, b, at);
    if DecodeHeader(header, o).Ok? {
      if at < WAL_HEADER_SIZE {
        DifferInPrefix(a, b, at, WAL_HEADER_SIZE);
        ChangedHeaderKeepsSize(plain, header, at, o);
      } else {
        SameOutside(a, b, at, 0, WAL_HEADER_SIZE);
        assert plain == a[0..WAL_HEADER_SIZE] == b[0..WAL_HEADER_SIZE] == header;
      }
      assert content[..size] == b;
    }
  }

  lemma DifferInPrefix(a: Bytes, b: Bytes, at: nat, n: nat)
    requires DifferAt(a, b, at) && at < n <= |a|
    ensures DifferAt(a[..n], b[..n], at)
  {
    DifferPointwise(a, b, at);
  }

  /**
    A file of complete records with one byte altered anywhere is rejected as corrupt; it is
    never mistaken for a file with a torn tail, so nothing is truncated.
   */
  lemma {:induction false} OneByteRejected(log: seq<Record>, o: Options, floor: nat, b: Bytes, at: nat, rest: Bytes)
    requires AllEncodable(log, o) && Rising(log, floor) && DifferAt(LogBytes(log), b, at)
    ensures Recover(b + rest, o, floor) == Rejected
  {
    hide Encoding, Encodable, Recover;
    var a := LogBytes(log);
    var size := |Encoding(log[0])|;
    var others := LogBytes(log[1..]);
    assert a[..size] == Encoding(log[0]) && a[size..] == others;
    assert b + rest == b[..size] + (b[size..] + rest);
    if at < size {
      DifferInPrefix(a, b, at, size);
      ChangedRecordRejected(log[0], o, b[..size], at, b[size..] + rest, floor);
    } else {
      SameOutside(a, b, at, 0, size);
      assert b[..size] == b[0..size] == a[0..size] == Encoding(log[0]);
      DifferInSuffix(a, b, at, size);
      OneByteRejected(log[1..], o, log[0].sequence, b[size..], at - size, rest);
      RecoverStep(log[0], b[size..] + rest, o, floor);
    }
  }

  lemma DifferInSuffix(a: Bytes, b: Bytes, at: nat, n: nat)
    requires DifferAt(a, b, at) && n <= at
    ensures DifferAt(a[n..], b[n..], at - n)
  {
    DifferPointwise(a, b, at);
  }
}
