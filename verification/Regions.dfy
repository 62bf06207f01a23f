/**
  Checksummed regions: fixed fields, a CRC32C of the fields and the payload, the payload.
  Data blocks, the sparse index, Bloom filters, table headers and footers and scan tokens
  all have this shape (src/table.cpp, src/bloom_filter.cpp, src/scan.cpp).
 */
module Regions {
  import opened Coding
  import opened Layout

  function Region(values: seq<nat>, widths: Widths, payload: Bytes): (b: Bytes)
    requires |values| == |widths|
    ensures |b| == Total(widths) + 4 + |payload|
  {
    var head := Pack(values, widths);
    head + Fixed(Crc(head + payload), 4) + payload
  }

  /** The checksum stored after the fields is that of the fields and the payload. */
  predicate Sealed(b: Bytes, widths: Widths)
    requires |b| >= Total(widths) + 4
  {
    var n := Total(widths);
    Crc(b[..n] + b[n + 4..]) == Field(b, n, 4)
  }

  method PutRegion(values: seq<nat>, widths: Widths, payload: Bytes) returns (b: Bytes)
    requires |values| == |widths|
    ensures b == Region(values, widths, payload)
  {
    hide Pack, Crc, Fixed;
    var head := PutFields([], values, widths);
    assert head == Pack(values, widths);
    var checksum := Crc32c(head + payload);
    b := PutFixed(head, checksum, 4);
    b := b + payload;
  }

  method CheckRegion(b: Bytes, widths: Widths) returns (ok: bool)
    requires |b| >= Total(widths) + 4
    ensures ok == Sealed(b, widths)
  {
    hide Crc, Value;
    var n := Total(widths);
    var checksum := Crc32c(b[..n] + b[n + 4..]);
    ok := checksum == Field(b, n, 4);
  }

  /** The fields, the seal and the payload of a region can be read back. */
  lemma RegionParts(values: seq<nat>, widths: Widths, payload: Bytes)
    requires Fits(values, widths)
    ensures var b, n := Region(values, widths, payload), Total(widths);
            && |b| == n + 4 + |payload| && Unpack(b, widths) == values && Sealed(b, widths) && b[n + 4..] == payload
  {
    hide Pack, Unpack, Crc, Fixed, Value, Capacity;
    var b, n, head := Region(values, widths, payload), Total(widths), Pack(values, widths);
    var tail := Fixed(Crc(head + payload), 4) + payload;
    assert b == head + tail;
    UnpackPack(values, widths, tail);
    assert b[..n] == head && b[n + 4..] == payload && b[n..n + 4] == Fixed(Crc(head + payload), 4);
    Capacities();
    ValueOfFixed(Crc(head + payload), 4);
  }

  /** A sealed region is the one its fields and payload make. */
  lemma RegionOf(b: Bytes, widths: Widths)
    requires |b| >= Total(widths) + 4 && Sealed(b, widths)
    ensures Fits(Unpack(b, widths), widths)
    ensures b == Region(Unpack(b, widths), widths, b[Total(widths) + 4..])
  {
    hide Pack, Unpack, Crc, Fixed, Value, Capacity;
    var n := Total(widths);
    PackUnpack(b, widths);
    FixedOfValue(b[n..n + 4]);
    assert b == b[..n] + b[n..n + 4] + b[n + 4..];
  }

  /** A sealed region does not stay sealed when one byte changes. */
  lemma OneByteBreaksSeal(a: Bytes, b: Bytes, widths: Widths, at: nat)
    requires |a| >= Total(widths) + 4 && DifferAt(a, b, at) && Sealed(a, widths)
    ensures !Sealed(b, widths)
  {
    hide Crc, Value;
    var n := Total(widths);
    if n <= at < n + 4 {
      SameOutside(a, b, at, 0, n);
      SameOutside(a, b, at, n + 4, |a|);
      assert a[..n] + a[n + 4..] == a[0..n] + a[n + 4..|a|] == b[..n] + b[n + 4..];
      ValueInjective(a[n..n + 4], b[n..n + 4]);
      assert a[n..n + 4][at - n] == a[at] && b[n..n + 4][at - n] == b[at];
    } else {
      SameOutside(a, b, at, n, n + 4);
      DifferAfterCut(a, b, at, n, n + 4);
      CrcSeesByte(a[..n] + a[n + 4..], b[..n] + b[n + 4..], if at < n then at else at - 4);
    }
  }
}
