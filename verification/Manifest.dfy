/** The MANIFEST codec (src/manifest.cpp:192-375). */
module Manifest {
  import opened Coding
  import opened Layout
  import opened Keys
  import opened Versions

  const MAGIC: nat := 0x464D4B4D  // "MKMF"
  const FORMAT: nat := 1
  const STORAGE: nat := 2
  const HEADER_SIZE: nat := 64
  const CHECKSUM_OFFSET: nat := 56
  const TABLE_FIXED_SIZE: nat := 56
  const MAXIMUM_SIZE: nat := 64 * 1024 * 1024

  const TABLE: Widths := [4, 4, 8, 8, 8, 8, 8, 4, 4]
  const HEADER: Widths := [4, 1, 1, 2, 8, 8, 8, 8, 4, 4, 8]

  // ----- Encoding --------------------------------------------------------------

  function TableSize(t: VersionTable): nat {
    TABLE_FIXED_SIZE + |t.summary.minimumKey| + |t.summary.maximumKey|
  }

  function TableFields(t: VersionTable): seq<nat> {
    var s := t.summary;
    [TableSize(t), t.level, s.generation, s.fileSize, s.recordCount, s.minimumSequence, s.maximumSequence,
     |s.minimumKey|, |s.maximumKey|]
  }

  function TableRecord(t: VersionTable): (b: Bytes)
    ensures |b| == TableSize(t)
  {
    Pack(TableFields(t), TABLE) + (t.summary.minimumKey + t.summary.maximumKey)
  }

  function Payload(tables: seq<VersionTable>): (b: Bytes)
    ensures |b| >= TABLE_FIXED_SIZE * |tables|
  {
    if tables == [] then [] else TableRecord(tables[0]) + Payload(tables[1..])
  }

  function HeaderFields(v: Version, payloadSize: nat): seq<nat> {
    [MAGIC, FORMAT, STORAGE, HEADER_SIZE, HEADER_SIZE + payloadSize, v.id, v.nextFileNumber, v.lastSequence,
     |v.tables|, payloadSize, 0]
  }

  function Head(v: Version, payloadSize: nat): (b: Bytes)
    ensures |b| == CHECKSUM_OFFSET
  {
    Pack(HeaderFields(v, payloadSize), HEADER)
  }

  function Assemble(head: Bytes, payload: Bytes): Bytes {
    head + Fixed(Crc(head + payload), 4) + Fixed(0, 4) + payload
  }

  function ManifestBytes(v: Version): Bytes {
    var payload := Payload(v.tables);
    Assemble(Head(v, |payload|), payload)
  }

  /** The widths of the source's integer types. */
  predicate TableInWidth(t: VersionTable) {
    var s := t.summary;
    && t.level <= MAX32 && s.generation <= MAX64 && s.fileSize <= MAX64 && s.recordCount <= MAX64
    && s.minimumSequence <= MAX64 && s.maximumSequence <= MAX64
  }

  predicate InWidth(v: Version) {
    && v.id <= MAX64 && v.nextFileNumber <= MAX64 && v.lastSequence <= MAX64
    && forall i :: 0 <= i < |v.tables| ==> TableInWidth(v.tables[i])
  }

  /** The versions EncodeManifest accepts. */
  predicate ManifestEncodable(v: Version, maxKeySize: nat) {
    && ValidVersion(v, maxKeySize) && |v.tables| <= MAX32
    && (forall i :: 0 <= i < |v.tables| ==> TableSize(v.tables[i]) <= MAX32)
    && HEADER_SIZE + |Payload(v.tables)| <= MAXIMUM_SIZE
  }

  lemma {:induction false} PayloadAppend(tables: seq<VersionTable>, t: VersionTable)
    ensures Payload(tables + [t]) == Payload(tables) + TableRecord(t)
  {
    hide TableRecord;
    if tables == [] {
      assert tables + [t] == [t];
      assert Payload([t]) == TableRecord(t) + Payload([]);
    } else {
      assert (tables + [t])[1..] == tables[1..] + [t];
      PayloadAppend(tables[1..], t);
    }
  }

  lemma {:induction false} PayloadGrows(tables: seq<VersionTable>, n: nat)
    requires n <= |tables|
    ensures |Payload(tables[..n])| <= |Payload(tables)|
    ensures n < |tables| ==> |Payload(tables[..n])| + TableSize(tables[n]) <= |Payload(tables)|
  {
    hide TableRecord, TableSize;
    if n > 0 {
      assert tables[..n][1..] == tables[1..][..n - 1];
      PayloadGrows(tables[1..], n - 1);
    } else {
      assert tables[..0] == [];
    }
  }

  method EncodePayload(tables: seq<VersionTable>) returns (ok: bool, payload: Bytes)
    ensures ok <==>
            && (forall i :: 0 <= i < |tables| ==> TableSize(tables[i]) <= MAX32)
            && HEADER_SIZE + |Payload(tables)| <= MAXIMUM_SIZE
    ensures ok ==> payload == Payload(tables)
  {
    hide Pack, Payload;
    ok, payload := false, [];
    assert Payload(tables[..0]) == [] by { PayloadEmpty(tables); }
    for i := 0 to |tables|
      invariant payload == Payload(tables[..i])
      invariant HEADER_SIZE + |payload| <= MAXIMUM_SIZE
      invariant forall k :: 0 <= k < i ==> TableSize(tables[k]) <= MAX32
    {
      var t := tables[i];
      if TableSize(t) > MAX32 {
        return;
      }
      assert tables[..i + 1] == tables[..i] + [t];
      PayloadAppend(tables[..i], t);
      PayloadGrows(tables, i + 1);
      payload := PutFields(payload, TableFields(t), TABLE);
      payload := payload + t.summary.minimumKey + t.summary.maximumKey;
      assert payload == Payload(tables[..i]) + TableRecord(t);
      if |payload| > MAXIMUM_SIZE - HEADER_SIZE {
        return;
      }
    }
    assert tables[..|tables|] == tables;
    ok := true;
  }

  lemma PayloadEmpty(tables: seq<VersionTable>)
    ensures Payload(tables[..0]) == []
  {
  }

  method EncodeManifest(v: Version, maxKeySize: nat) returns (ok: bool, encoded: Bytes)
    ensures ok <==> ManifestEncodable(v, maxKeySize)
    ensures ok ==> encoded == ManifestBytes(v)
  {
    hide Pack, Crc, Fixed, ValidVersion, Payload;
    ok, encoded := false, [];
    if !ValidVersion(v, maxKeySize) || |v.tables| > MAX32 {
      return;
    }
    var payload;
    ok, payload := EncodePayload(v.tables);
    if ok {
      var head := PutFields([], HeaderFields(v, |payload|), HEADER);
      assert head == Head(v, |payload|);
      var checksum := Crc32c(head + payload);
      encoded := PutFixed(head, checksum, 4);
      encoded := PutFixed(encoded, 0, 4);
      encoded := encoded + payload;
    }
  }

  // ----- Decoding --------------------------------------------------------------

  datatype Decoded = Accepted(version: Version) | Unsupported | Corrupted

  function DecodeTable(record: Bytes, maxKeySize: nat): (t: Option<VersionTable>)
    ensures t.Some? ==> TableSize(t.value) <= |record|
  {
    if |record| < TABLE_FIXED_SIZE then None else
    var f := Unpack(record, TABLE);
    if f[0] != TABLE_FIXED_SIZE + f[7] + f[8] || f[0] > |record| || f[7] > maxKeySize || f[8] > maxKeySize then None
    else
      var keys := record[TABLE_FIXED_SIZE..f[0]];
      Some(VersionTable(f[1], TableSummary(f[2], f[3], f[4], f[5], f[6], keys[..f[7]], keys[f[7]..])))
  }

  /** Exactly `count` table records and nothing after them. */
  function DecodeTables(rest: Bytes, count: nat, maxKeySize: nat): (tables: Option<seq<VersionTable>>)
    ensures tables.Some? ==> |tables.value| == count
    decreases count
  {
    if count == 0 then
      if rest == [] then Some([]) else None
    else
      var t := DecodeTable(rest, maxKeySize);
      if t.None? then None else
      var others := DecodeTables(rest[TableSize(t.value)..], count - 1, maxKeySize);
      if others.None? then None else Some([t.value] + others.value)
  }

  predicate HeaderOk(b: Bytes, f: seq<nat>)
    requires |b| >= HEADER_SIZE && |f| == |HEADER|
  {
    && f[3] == HEADER_SIZE && f[4] == |b| && f[9] == |b| - HEADER_SIZE && |b| <= MAXIMUM_SIZE
    && f[10] == 0 && Field(b, CHECKSUM_OFFSET + 4, 4) == 0
    && f[8] <= f[9] / TABLE_FIXED_SIZE
  }

  predicate ChecksumOk(b: Bytes)
    requires |b| >= HEADER_SIZE
  {
    Crc(b[..CHECKSUM_OFFSET] + b[HEADER_SIZE..]) == Field(b, CHECKSUM_OFFSET, 4)
  }

  function DecodeManifest(b: Bytes, maxKeySize: nat): (r: Decoded)
  {
    if |b| < HEADER_SIZE then Corrupted else
    var f := Unpack(b, HEADER);
    if f[0] != MAGIC then Corrupted
    else if f[1] != FORMAT || f[2] != STORAGE then Unsupported
    else if !HeaderOk(b, f) || !ChecksumOk(b) then Corrupted
    else
      var tables := DecodeTables(b[HEADER_SIZE..], f[8], maxKeySize);
      if tables.None? then Corrupted else
      var v := Version(f[5], f[6], f[7], tables.value);
      if ValidVersion(v, maxKeySize) then Accepted(v) else Corrupted
  }

  // ----- The two directions of the codec -----------------------------------------

  lemma TableFits(t: VersionTable)
    requires TableInWidth(t) && TableSize(t) <= MAX32
    ensures Fits(TableFields(t), TABLE)
  {
    Capacities();
  }

  lemma TableFromFields(t: VersionTable, record: Bytes, maxKeySize: nat)
    requires TableSize(t) <= |record|
    requires Unpack(record, TABLE) == TableFields(t)
    requires record[TABLE_FIXED_SIZE..TableSize(t)] == t.summary.minimumKey + t.summary.maximumKey
    requires |t.summary.minimumKey| <= maxKeySize && |t.summary.maximumKey| <= maxKeySize
    ensures DecodeTable(record, maxKeySize) == Some(t)
  {
    hide Unpack;
    var s := t.summary;
    var keys := s.minimumKey + s.maximumKey;
    assert keys[..|s.minimumKey|] == s.minimumKey && keys[|s.minimumKey|..] == s.maximumKey;
  }

  lemma DecodeTableRecord(t: VersionTable, rest: Bytes, maxKeySize: nat)
    requires TableInWidth(t) && TableSize(t) <= MAX32
    requires |t.summary.minimumKey| <= maxKeySize && |t.summary.maximumKey| <= maxKeySize
    ensures DecodeTable(TableRecord(t) + rest, maxKeySize) == Some(t)
  {
    hide Unpack, Pack, DecodeTable;
    var record := TableRecord(t) + rest;
    var keys := t.summary.minimumKey + t.summary.maximumKey;
    TableFits(t);
    UnpackPack(TableFields(t), TABLE, keys + rest);
    assert record == Pack(TableFields(t), TABLE) + (keys + rest);
    assert record[TABLE_FIXED_SIZE..TableSize(t)] == keys;
    TableFromFields(t, record, maxKeySize);
  }

  lemma {:induction false} DecodePayload(tables: seq<VersionTable>, maxKeySize: nat)
    requires forall i :: 0 <= i < |tables| ==>
               && TableInWidth(tables[i]) && TableSize(tables[i]) <= MAX32
               && |tables[i].summary.minimumKey| <= maxKeySize && |tables[i].summary.maximumKey| <= maxKeySize
    ensures DecodeTables(Payload(tables), |tables|, maxKeySize) == Some(tables)
  {
    hide TableRecord, DecodeTable, TableInWidth, TableSize;
    if tables != [] {
      var rest := tables[1..];
      DecodeTableRecord(tables[0], Payload(rest), maxKeySize);
      DecodePayload(rest, maxKeySize);
      assert Payload(tables) == TableRecord(tables[0]) + Payload(rest);
      assert Payload(tables)[TableSize(tables[0])..] == Payload(rest);
      assert DecodeTable(Payload(tables), maxKeySize) == Some(tables[0]);
      assert [tables[0]] + rest == tables;
    }
  }

  lemma HeaderFits(v: Version, payloadSize: nat)
    requires v.id <= MAX64 && v.nextFileNumber <= MAX64 && v.lastSequence <= MAX64
    requires |v.tables| <= MAX32 && HEADER_SIZE + payloadSize <= MAXIMUM_SIZE
    ensures Fits(HeaderFields(v, payloadSize), HEADER)
  {
    Capacities();
    assert Capacity(1) == 256;
  }

  lemma AssembleParts(head: Bytes, payload: Bytes)
    requires |head| == CHECKSUM_OFFSET
    ensures var b := Assemble(head, payload);
            && |b| == HEADER_SIZE + |payload|
            && b[..CHECKSUM_OFFSET] == head && b[HEADER_SIZE..] == payload
            && b[CHECKSUM_OFFSET..CHECKSUM_OFFSET + 4] == Fixed(Crc(head + payload), 4)
            && b[CHECKSUM_OFFSET + 4..HEADER_SIZE] == Fixed(0, 4)
  {
    hide Crc, Fixed;
  }

  lemma AssembleChecks(head: Bytes, payload: Bytes)
    requires |head| == CHECKSUM_OFFSET
    ensures var b := Assemble(head, payload);
            |b| == HEADER_SIZE + |payload| && ChecksumOk(b) && Field(b, CHECKSUM_OFFSET + 4, 4) == 0
  {
    hide Crc, Fixed, Value, Capacity;
    AssembleParts(head, payload);
    Capacities();
    ValueOfFixed(Crc(head + payload), 4);
    ValueOfFixed(0, 4);
  }

  lemma AcceptedFromFields(v: Version, b: Bytes, maxKeySize: nat)
    requires ManifestEncodable(v, maxKeySize)
    requires |b| == HEADER_SIZE + |Payload(v.tables)| && b[HEADER_SIZE..] == Payload(v.tables)
    requires Unpack(b, HEADER) == HeaderFields(v, |Payload(v.tables)|)
    requires ChecksumOk(b) && Field(b, CHECKSUM_OFFSET + 4, 4) == 0
    requires DecodeTables(Payload(v.tables), |v.tables|, maxKeySize) == Some(v.tables)
    ensures DecodeManifest(b, maxKeySize) == Accepted(v)
  {
    hide Unpack, Payload, ChecksumOk, Field, DecodeTables, ValidVersion;
  }

  lemma HeaderUnpacks(v: Version, payload: Bytes)
    requires v.id <= MAX64 && v.nextFileNumber <= MAX64 && v.lastSequence <= MAX64
    requires |v.tables| <= MAX32 && HEADER_SIZE + |payload| <= MAXIMUM_SIZE
    ensures var b := Assemble(Head(v, |payload|), payload);
            |b| >= HEADER_SIZE && Unpack(b, HEADER) == HeaderFields(v, |payload|)
  {
    hide Unpack, Pack, Assemble;
    var head := Head(v, |payload|);
    AssembleParts(head, payload);
    HeaderFits(v, |payload|);
    UnpackPack(HeaderFields(v, |payload|), HEADER, []);
    assert head + [] == head;
    UnpackPrefix(Assemble(head, payload), head, HEADER);
  }

  /** Decoding an encoded version gives the version back. */
  lemma DecodeManifestBytes(v: Version, maxKeySize: nat)
    requires ManifestEncodable(v, maxKeySize) && InWidth(v)
    ensures DecodeManifest(ManifestBytes(v), maxKeySize) == Accepted(v)
  {
    var payload := Payload(v.tables);
    EncodableTables(v, maxKeySize);
    hide Unpack, Payload, ChecksumOk, Field, DecodeTables, DecodeManifest, Assemble, Head, ValidVersion;
    HeaderUnpacks(v, payload);
    AssembleParts(Head(v, |payload|), payload);
    AssembleChecks(Head(v, |payload|), payload);
    DecodePayload(v.tables, maxKeySize);
    AcceptedFromFields(v, ManifestBytes(v), maxKeySize);
  }

  lemma EncodableTables(v: Version, maxKeySize: nat)
    requires ManifestEncodable(v, maxKeySize)
    ensures forall i :: 0 <= i < |v.tables| ==> ValidTable(v.tables[i], v.nextFileNumber, maxKeySize)
  {
    hide ValidTable, Payload, DistinctGenerations;
  }

  lemma RecordOfDecoded(record: Bytes, maxKeySize: nat)
    requires DecodeTable(record, maxKeySize).Some?
    ensures var t := DecodeTable(record, maxKeySize).value;
            && TableInWidth(t) && TableSize(t) <= MAX32
            && record[..TableSize(t)] == TableRecord(t)
  {
    hide Pack, Unpack;
    var t := DecodeTable(record, maxKeySize).value;
    PackUnpack(record, TABLE);
    Capacities();
    var f := Unpack(record, TABLE);
    assert f == TableFields(t);
    var keys := record[TABLE_FIXED_SIZE..f[0]];
    assert keys == t.summary.minimumKey + t.summary.maximumKey;
    assert record[..f[0]] == record[..TABLE_FIXED_SIZE] + keys;
  }

  lemma {:induction false} PayloadOfDecoded(rest: Bytes, count: nat, maxKeySize: nat)
    requires DecodeTables(rest, count, maxKeySize).Some?
    ensures var tables := DecodeTables(rest, count, maxKeySize).value;
            && Payload(tables) == rest
            && forall i :: 0 <= i < |tables| ==> TableInWidth(tables[i]) && TableSize(tables[i]) <= MAX32
    decreases count
  {
    hide TableRecord, DecodeTable, TableInWidth, TableSize;
    if count > 0 {
      var t := DecodeTable(rest, maxKeySize).value;
      RecordOfDecoded(rest, maxKeySize);
      PayloadOfDecoded(rest[TableSize(t)..], count - 1, maxKeySize);
      assert rest == rest[..TableSize(t)] + rest[TableSize(t)..];
    }
  }

  /** The parts of an accepted file. */
  lemma AcceptedParts(b: Bytes, maxKeySize: nat)
    requires DecodeManifest(b, maxKeySize).Accepted?
    ensures |b| >= HEADER_SIZE
    ensures var v := DecodeManifest(b, maxKeySize).version;
            && ValidVersion(v, maxKeySize) && ChecksumOk(b)
            && Field(b, CHECKSUM_OFFSET + 4, 4) == 0
            && |b| <= MAXIMUM_SIZE
            && DecodeTables(b[HEADER_SIZE..], |v.tables|, maxKeySize) == Some(v.tables)
            && Unpack(b, HEADER) == HeaderFields(v, |b| - HEADER_SIZE)
  {
    hide Unpack, ChecksumOk, Field, ValidVersion;
  }

  lemma AcceptedHeader(b: Bytes, maxKeySize: nat)
    requires DecodeManifest(b, maxKeySize).Accepted?
    ensures |b| >= HEADER_SIZE
    ensures var v := DecodeManifest(b, maxKeySize).version;
            && v.id <= MAX64 && v.nextFileNumber <= MAX64 && v.lastSequence <= MAX64 && |v.tables| <= MAX32
            && b[..CHECKSUM_OFFSET] == Head(v, |b| - HEADER_SIZE)
  {
    hide Unpack, Pack, ChecksumOk, Field, ValidVersion, DecodeTables, DecodeManifest;
    AcceptedParts(b, maxKeySize);
    PackUnpack(b, HEADER);
    Capacities();
    var v := DecodeManifest(b, maxKeySize).version;
    var f := HeaderFields(v, |b| - HEADER_SIZE);
    assert f[5] < Capacity(8) && f[6] < Capacity(8) && f[7] < Capacity(8) && f[8] < Capacity(4);
  }

  lemma Reassemble(b: Bytes)
    requires |b| >= HEADER_SIZE && ChecksumOk(b) && Field(b, CHECKSUM_OFFSET + 4, 4) == 0
    ensures b == Assemble(b[..CHECKSUM_OFFSET], b[HEADER_SIZE..])
  {
    hide Crc, Fixed, Value;
    FixedOfValue(b[CHECKSUM_OFFSET..CHECKSUM_OFFSET + 4]);
    FixedOfValue(b[CHECKSUM_OFFSET + 4..CHECKSUM_OFFSET + 8]);
    assert b == b[..CHECKSUM_OFFSET] + b[CHECKSUM_OFFSET..CHECKSUM_OFFSET + 4] +
                b[CHECKSUM_OFFSET + 4..CHECKSUM_OFFSET + 8] + b[HEADER_SIZE..];
  }

  /** Every accepted file is the encoding of the version it decodes to. */
  lemma ManifestBytesOfDecoded(b: Bytes, maxKeySize: nat)
    requires DecodeManifest(b, maxKeySize).Accepted?
    ensures var v := DecodeManifest(b, maxKeySize).version;
            ManifestEncodable(v, maxKeySize) && InWidth(v) && ManifestBytes(v) == b
  {
    hide Head, Assemble, ChecksumOk, Field, ValidVersion, DecodeTables, DecodeManifest, Payload, TableInWidth, Unpack;
    var v := DecodeManifest(b, maxKeySize).version;
    AcceptedParts(b, maxKeySize);
    AcceptedHeader(b, maxKeySize);
    PayloadOfDecoded(b[HEADER_SIZE..], |v.tables|, maxKeySize);
    Reassemble(b);
  }

  /** No file that differs from an accepted one in a single byte is accepted. */
  lemma OneByteRejected(a: Bytes, b: Bytes, at: nat, maxKeySize: nat)
    requires DecodeManifest(a, maxKeySize).Accepted? && DifferAt(a, b, at)
    ensures !DecodeManifest(b, maxKeySize).Accepted?
  {
    hide Unpack, ValidVersion, DecodeTables, DecodeManifest;
    AcceptedParts(a, maxKeySize);
    if DecodeManifest(b, maxKeySize).Accepted? {
      AcceptedParts(b, maxKeySize);
      OneByteBreaksChecks(a, b, at);
    }
  }

  lemma OneByteBreaksChecks(a: Bytes, b: Bytes, at: nat)
    requires |a| >= HEADER_SIZE && DifferAt(a, b, at)
    requires ChecksumOk(a) && Field(a, CHECKSUM_OFFSET + 4, 4) == 0
    ensures !(ChecksumOk(b) && Field(b, CHECKSUM_OFFSET + 4, 4) == 0)
  {
    hide Crc, Value;
    var x, y := a[..CHECKSUM_OFFSET] + a[HEADER_SIZE..], b[..CHECKSUM_OFFSET] + b[HEADER_SIZE..];
    var c, d := a[CHECKSUM_OFFSET..CHECKSUM_OFFSET + 4], b[CHECKSUM_OFFSET..CHECKSUM_OFFSET + 4];
    var z, w := a[CHECKSUM_OFFSET + 4..CHECKSUM_OFFSET + 8], b[CHECKSUM_OFFSET + 4..CHECKSUM_OFFSET + 8];
    if CHECKSUM_OFFSET <= at < HEADER_SIZE {
      SameOutside(a, b, at, 0, CHECKSUM_OFFSET);
      SameOutside(a, b, at, HEADER_SIZE, |a|);
      assert x == a[0..CHECKSUM_OFFSET] + a[HEADER_SIZE..|a|] == y;
      var k := at - CHECKSUM_OFFSET;
      if k < 4 {
        assert c[k] == a[at] && d[k] == b[at];
        ValueInjective(c, d);
      } else {
        assert z[k - 4] == a[at] && w[k - 4] == b[at];
        ValueInjective(z, w);
      }
    } else {
      SameOutside(a, b, at, CHECKSUM_OFFSET, CHECKSUM_OFFSET + 4);
      DifferAfterCut(a, b, at, CHECKSUM_OFFSET, HEADER_SIZE);
      CrcSeesByte(x, y, if at < CHECKSUM_OFFSET then at else at - 8);
    }
  }

  /** The decoding loop of the source, against the recursive definition. */
  method ReadManifest(encoded: Bytes, maxKeySize: nat) returns (result: Decoded)
    ensures result == DecodeManifest(encoded, maxKeySize)
  {
    hide Unpack, ValidVersion, ChecksumOk, Field, DecodeTable;
    if |encoded| < HEADER_SIZE {
      return Corrupted;
    }
    var f := Unpack(encoded, HEADER);
    if f[0] != MAGIC {
      return Corrupted;
    }
    if f[1] != FORMAT || f[2] != STORAGE {
      return Unsupported;
    }
    if !HeaderOk(encoded, f) || !ChecksumOk(encoded) {
      return Corrupted;
    }
    var ok, tables := ReadTables(encoded, f[8], maxKeySize);
    if !ok {
      return Corrupted;
    }
    var v := Version(f[5], f[6], f[7], tables);
    result := if ValidVersion(v, maxKeySize) then Accepted(v) else Corrupted;
  }

  method ReadTables(encoded: Bytes, count: nat, maxKeySize: nat) returns (ok: bool, tables: seq<VersionTable>)
    requires |encoded| >= HEADER_SIZE
    ensures ok <==> DecodeTables(encoded[HEADER_SIZE..], count, maxKeySize).Some?
    ensures ok ==> DecodeTables(encoded[HEADER_SIZE..], count, maxKeySize) == Some(tables)
  {
    hide DecodeTable, TableSize;
    ok, tables := false, [];
    var offset := HEADER_SIZE;
    ghost var expected := DecodeTables(encoded[HEADER_SIZE..], count, maxKeySize);
    assert expected.Some? ==> [] + expected.value == expected.value;
    for index := 0 to count
      invariant HEADER_SIZE <= offset <= |encoded|
      invariant var others := DecodeTables(encoded[offset..], count - index, maxKeySize);
                expected == if others.None? then None else Some(tables + others.value)
    {
      var t := DecodeTable(encoded[offset..], maxKeySize);
      if t.None? {
        return;
      }
      assert encoded[offset..][TableSize(t.value)..] == encoded[offset + TableSize(t.value)..];
      ghost var others := DecodeTables(encoded[offset + TableSize(t.value)..], count - index - 1, maxKeySize);
      assert others.Some? ==> tables + ([t.value] + others.value) == tables + [t.value] + others.value;
      tables := tables + [t.value];
      offset := offset + TableSize(t.value);
    }
    ok := offset == |encoded|;
    assert tables + [] == tables;
  }
}
