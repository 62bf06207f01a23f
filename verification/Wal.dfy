/** Write-ahead-log records: validation, encoding and decoding (src/wal.cpp). */
module Wal {
  import opened Coding
  import opened Layout
  import opened Configuration
  import opened Runs

  const MAGIC: nat := 0x57564B4D  // "MKVW"
  const FORMAT: nat := 1
  const PREFIX: Widths := [4, 1, 1, 2, 4, 8, 4, 4]
  const CHECKSUM_OFFSET: nat := 28

  /** ValidateWalRecord and ValidateLengths, for 64-bit sequence numbers. */
  predicate ValidRecord(r: Record, o: Options) {
    && 0 < r.sequence <= MAX64
    && ValidLengths(|r.key|, |r.value|, r.kind, o)
  }

  predicate ValidLengths(keySize: nat, valueSize: nat, kind: Kind, o: Options) {
    && 0 < keySize <= o.maxKeySize && valueSize <= o.maxValueSize
    && keySize <= MAX32 && valueSize <= MAX32
    && (kind == Deletion ==> valueSize == 0)
  }

  /** A record EncodeWalRecord accepts: valid, and its size fits the 32-bit size field. */
  predicate Encodable(r: Record, o: Options) {
    ValidRecord(r, o) && RecordSize(r) <= MAX32
  }

  function RecordSize(r: Record): nat {
    WAL_HEADER_SIZE + |r.key| + |r.value|
  }

  function KindByte(kind: Kind): nat {
    if kind == Put then 1 else 2
  }

  function HeaderFields(r: Record): seq<nat> {
    [MAGIC, FORMAT, KindByte(r.kind), WAL_HEADER_SIZE, RecordSize(r), r.sequence, |r.key|, |r.value|]
  }

  function HeaderPrefix(r: Record): (b: Bytes)
    ensures |b| == CHECKSUM_OFFSET
  {
    Pack(HeaderFields(r), PREFIX)
  }

  /** The bytes of one record: header prefix, checksum of everything else, key, value. */
  function Encoding(r: Record): (b: Bytes)
    ensures |b| == RecordSize(r)
  {
    var payload := r.key + r.value;
    HeaderPrefix(r) + Fixed(Crc(HeaderPrefix(r) + payload), 4) + payload
  }

  method EncodeWalRecord(r: Record, o: Options) returns (ok: bool, encoded: Bytes)
    ensures ok <==> Encodable(r, o)
    ensures ok ==> encoded == Encoding(r)
  {
    encoded := [];
    ok := ValidRecord(r, o) && |r.key| + |r.value| <= MAX32 - WAL_HEADER_SIZE;
    if ok {
      encoded := PutRecord(r);
    }
  }

  method PutRecord(r: Record) returns (encoded: Bytes)
    ensures encoded == Encoding(r)
  {
    hide Crc, Fixed, Pack;
    var header := PutFields([], HeaderFields(r), PREFIX);
    assert header == HeaderPrefix(r);
    var checksum := Crc32c(header + (r.key + r.value));
    encoded := PutFixed(header, checksum, 4);
    encoded := encoded + r.key + r.value;
  }

  // ----- Decoding ------------------------------------------------------------

  datatype Header = Header(kind: Kind, recordSize: nat, sequence: nat, keySize: nat, valueSize: nat, checksum: nat)

  datatype Decoded<T> = Ok(value: T) | Incomplete | Corrupt

  function DecodeHeader(input: Bytes, o: Options): (h: Decoded<Header>)
    ensures h.Incomplete? <==> |input| < WAL_HEADER_SIZE
    ensures h.Ok? ==> h.value.recordSize == WAL_HEADER_SIZE + h.value.keySize + h.value.valueSize
  {
    if |input| < WAL_HEADER_SIZE then Incomplete else
    var f := Unpack(input, PREFIX);
    var checksum := Field(input, CHECKSUM_OFFSET, 4);
    if f[0] != MAGIC || f[1] != FORMAT then Corrupt
    else if f[2] != 1 && f[2] != 2 then Corrupt
    else if f[3] != WAL_HEADER_SIZE || f[5] == 0 then Corrupt
    else
      var kind := if f[2] == 1 then Put else Deletion;
      if !ValidLengths(f[6], f[7], kind, o) then Corrupt
      else if f[4] != WAL_HEADER_SIZE + f[6] + f[7] then Corrupt
      else Ok(Header(kind, f[4], f[5], f[6], f[7], checksum))
  }

  function DecodeRecord(input: Bytes, o: Options): (r: Decoded<Record>)
    ensures r.Ok? ==> RecordSize(r.value) <= |input|
  {
    match DecodeHeader(input, o)
    case Incomplete => Incomplete
    case Corrupt => Corrupt
    case Ok(h) =>
      if |input| < h.recordSize then Incomplete else
      var payload := input[WAL_HEADER_SIZE..h.recordSize];
      if Crc(input[..CHECKSUM_OFFSET] + payload) != h.checksum then Corrupt
      else Ok(Record(payload[..h.keySize], h.sequence, h.kind, payload[h.keySize..]))
  }

  lemma HeaderFits(r: Record, o: Options)
    requires Encodable(r, o)
    ensures Fits(HeaderFields(r), PREFIX)
  {
    Capacities();
    assert Capacity(1) == 256;
  }

  lemma HeaderFromFields(r: Record, o: Options, input: Bytes)
    requires Encodable(r, o) && |input| >= WAL_HEADER_SIZE
    requires Unpack(input, PREFIX) == HeaderFields(r)
    ensures DecodeHeader(input, o) ==
            Ok(Header(r.kind, RecordSize(r), r.sequence, |r.key|, |r.value|, Field(input, CHECKSUM_OFFSET, 4)))
  {
    hide Unpack, Field;
  }

  /** A decoder given at least the header of an encoded record reads its fields back. */
  lemma DecodeHeaderOfEncoding(r: Record, o: Options, input: Bytes)
    requires Encodable(r, o)
    requires |input| >= WAL_HEADER_SIZE && input[..WAL_HEADER_SIZE] == Encoding(r)[..WAL_HEADER_SIZE]
    ensures DecodeHeader(input, o) ==
            Ok(Header(r.kind, RecordSize(r), r.sequence, |r.key|, |r.value|, Crc(HeaderPrefix(r) + (r.key + r.value))))
  {
    hide Crc, Pack, Unpack, Fixed, Value, Capacity, DecodeHeader;
    var prefix, payload := HeaderPrefix(r), r.key + r.value;
    var checksum := Crc(prefix + payload);
    HeaderFits(r, o);
    UnpackPack(HeaderFields(r), PREFIX, []);
    assert prefix + [] == prefix;
    assert Encoding(r)[..WAL_HEADER_SIZE] == prefix + Fixed(checksum, 4);
    assert input[..CHECKSUM_OFFSET] == input[..WAL_HEADER_SIZE][..CHECKSUM_OFFSET] == prefix;
    UnpackPrefix(input, prefix, PREFIX);
    HeaderFromFields(r, o, input);
    assert input[CHECKSUM_OFFSET..WAL_HEADER_SIZE] == input[..WAL_HEADER_SIZE][CHECKSUM_OFFSET..] == Fixed(checksum, 4);
    Capacities();
    ValueOfFixed(checksum, 4);
  }

  /** Round trip: the first record of a buffer comes back whole, whatever follows it. */
  lemma DecodeEncoding(r: Record, o: Options, rest: Bytes)
    requires Encodable(r, o)
    ensures DecodeRecord(Encoding(r) + rest, o) == Ok(r)
  {
    hide Crc, HeaderPrefix, DecodeHeader, Fixed;
    var input := Encoding(r) + rest;
    assert input[..WAL_HEADER_SIZE] == Encoding(r)[..WAL_HEADER_SIZE];
    DecodeHeaderOfEncoding(r, o, input);
    var payload := r.key + r.value;
    assert input[WAL_HEADER_SIZE..RecordSize(r)] == payload;
    assert input[..CHECKSUM_OFFSET] == HeaderPrefix(r);
    assert payload[..|r.key|] == r.key && payload[|r.key|..] == r.value;
  }

  lemma DecodedFields(input: Bytes, o: Options)
    requires DecodeRecord(input, o).Ok?
    ensures Unpack(input, PREFIX) == HeaderFields(DecodeRecord(input, o).value)
  {
    hide Crc, Unpack, Value;
  }

  /** Nothing else is accepted: a decoded record is encodable and its encoding is the input. */
  lemma EncodingOfDecoded(input: Bytes, o: Options)
    requires DecodeRecord(input, o).Ok?
    ensures Encodable(DecodeRecord(input, o).value, o)
    ensures input[..RecordSize(DecodeRecord(input, o).value)] == Encoding(DecodeRecord(input, o).value)
  {
    hide Crc, Pack, Unpack, Fixed, Value, Capacity;
    var h := DecodeHeader(input, o).value;
    var r := DecodeRecord(input, o).value;
    PackUnpack(input, PREFIX);
    Capacities();
    var payload := input[WAL_HEADER_SIZE..h.recordSize];
    assert payload == r.key + r.value;
    DecodedFields(input, o);
    assert HeaderPrefix(r) == input[..CHECKSUM_OFFSET];
    FixedOfValue(input[CHECKSUM_OFFSET..CHECKSUM_OFFSET + 4]);
    assert input[..h.recordSize] == input[..CHECKSUM_OFFSET] + input[CHECKSUM_OFFSET..CHECKSUM_OFFSET + 4] + payload;
  }
}
