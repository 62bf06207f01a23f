/** Bloom filters: hashing, membership and the on-disk form (src/bloom_filter.cpp). */
module Bloom {
  import opened Coding
  import opened Configuration
  import opened Keys
  import opened Layout
  import opened Regions

  const MAGIC: nat := 0x46424B4D  // "MKBF"
  const FORMAT: nat := 1
  const HEADER_SIZE: nat := 32
  const HEADER: Widths := [4, 1, 1, 2, 4, 8, 8]

  // ----- Bits of a byte ---------------------------------------------------------------------

  /** Bit `j` of a number. */
  predicate BitOf(b: nat, j: nat) {
    if j == 0 then b % 2 == 1 else BitOf(b / 2, j - 1)
  }

  /** The number with bit `j` set: b | (1 << j). */
  function WithBit(b: nat, j: nat): nat {
    if j == 0 then b - b % 2 + 1 else b % 2 + 2 * WithBit(b / 2, j - 1)
  }

  /** Setting a bit sets that bit and no other. */
  lemma {:induction false} WithBitSets(b: nat, j: nat, k: nat)
    ensures BitOf(WithBit(b, j), k) <==> BitOf(b, k) || j == k
  {
    if j == 0 {
      DoubleParts(1, b / 2);
      assert WithBit(b, 0) == 1 + 2 * (b / 2);
    } else {
      DoubleParts(b % 2, WithBit(b / 2, j - 1));
      if k > 0 { WithBitSets(b / 2, j - 1, k - 1); }
    }
  }

  /** Setting a bit below the width keeps the number within the width. */
  lemma {:induction false} WithBitFits(b: nat, j: nat, n: nat)
    requires j < n && b < Power2(n)
    ensures WithBit(b, j) < Power2(n)
    decreases n
  {
    var half := Power2(n - 1);
    assert Power2(n) == 2 * half;
    HalfFits(b, half);
    if j > 0 {
      WithBitFits(b / 2, j - 1, n - 1);
      hide Power2;
      assert WithBit(b, j) == b % 2 + 2 * WithBit(b / 2, j - 1);
    }
  }

  lemma HalfFits(b: nat, half: nat)
    requires b < 2 * half
    ensures b / 2 < half && b - b % 2 + 1 < 2 * half
  {
  }

  lemma DoubleParts(r: nat, x: nat)
    requires r < 2
    ensures (r + 2 * x) / 2 == x && (r + 2 * x) % 2 == r
  {
  }

  lemma BytePower()
    ensures Power2(8) == 256
  {
    assert Power2(4) == 16;
    assert Power2(6) == 64;
  }

  // ----- The bit array -------------------------------------------------------------------------

  predicate IsSet(bits: Bytes, p: nat)
    requires p / 8 < |bits|
  {
    BitOf(bits[p / 8], p % 8)
  }

  function SetAt(bits: Bytes, p: nat): (r: Bytes)
    requires p / 8 < |bits|
    ensures |r| == |bits|
  {
    BytePower();
    WithBitFits(bits[p / 8], p % 8, 8);
    bits[p / 8 := WithBit(bits[p / 8], p % 8)]
  }

  lemma SetAtSets(bits: Bytes, p: nat, q: nat)
    requires p / 8 < |bits| && q / 8 < |bits|
    ensures IsSet(SetAt(bits, p), q) <==> IsSet(bits, q) || p == q
  {
    WithBitSets(bits[p / 8], p % 8, q % 8);
    hide BitOf, WithBit, Power2;
    assert p == 8 * (p / 8) + p % 8 && q == 8 * (q / 8) + q % 8;
  }

  // ----- Hashing ----------------------------------------------------------------------------------

  const OFFSET: bv64 := 14695981039346656037
  const PRIME: bv64 := 1099511628211
  const FIRST_SEED: bv64 := OFFSET ^ 0x9e3779b97f4a7c15
  const SECOND_SEED: bv64 := OFFSET ^ 0xd6e8feb86659fd93

  /** One step of FNV-1a, in wrapping 64-bit arithmetic. */
  function MixByte(state: bv64, b: Byte): bv64 {
    (state ^ (b as bv64)) * PRIME
  }

  function Mix(seed: bv64, key: Bytes): bv64 {
    if key == [] then seed else MixByte(Mix(seed, key[..|key| - 1]), key[|key| - 1])
  }

  function Finalize(hash: bv64): bv64 {
    var a := (hash ^ (hash >> 33)) * 0xff51afd7ed558ccd;
    var b := (a ^ (a >> 33)) * 0xc4ceb9fe1a85ec53;
    b ^ (b >> 33)
  }

  method BloomHashes(key: Bytes) returns (first: bv64, second: bv64)
    ensures first == Finalize(Mix(FIRST_SEED, key)) && second == Finalize(Mix(SECOND_SEED, key))
  {
    hide Finalize, MixByte;
    first, second := FIRST_SEED, SECOND_SEED;
    for i := 0 to |key|
      invariant first == Mix(FIRST_SEED, key[..i]) && second == Mix(SECOND_SEED, key[..i])
    {
      assert key[..i + 1][..i] == key[..i];
      first, second := MixByte(first, key[i]), MixByte(second, key[i]);
    }
    assert key[..|key|] == key;
    first, second := Finalize(first), Finalize(second);
  }

  /** The i-th probe of double hashing. */
  function ProbeOf(first: bv64, second: bv64, i: nat, bitCount: nat): (p: nat)
    requires i < 256 && bitCount > 0
    ensures p < bitCount
  {
    ((first + (i as bv64) * (second | 1)) as nat) % bitCount
  }

  function Probe(key: Bytes, i: nat, bitCount: nat): (p: nat)
    requires i < 256 && bitCount > 0
    ensures p < bitCount
  {
    ProbeOf(Finalize(Mix(FIRST_SEED, key)), Finalize(Mix(SECOND_SEED, key)), i, bitCount)
  }

  // ----- Filters -----------------------------------------------------------------------------------

  datatype Filter = Filter(bitCount: nat, hashCount: nat, keyCount: nat, bits: Bytes)

  const EMPTY_FILTER: Filter := Filter(0, 0, 0, [])

  /** FilterShapeIsValid. */
  predicate ShapeOk(f: Filter) {
    if f.bitCount == 0 then f == EMPTY_FILTER
    else
      && f.bitCount % 8 == 0 && f.bitCount / 8 == |f.bits| <= MAXIMUM_BLOOM_FILTER_SIZE
      && 1 <= f.hashCount <= MAXIMUM_BLOOM_HASH_COUNT
  }

  predicate ProbesSet(bits: Bytes, key: Bytes, count: nat, bitCount: nat)
    requires count <= 256 && bitCount > 0 && bitCount <= 8 * |bits|
  {
    forall i :: 0 <= i < count ==> IsSet(bits, Probe(key, i, bitCount))
  }

  predicate MayContain(f: Filter, key: Bytes) {
    ShapeOk(f) && f.bitCount != 0 && f.keyCount != 0 && ProbesSet(f.bits, key, f.hashCount, f.bitCount)
  }

  /** The bit array after the first `count` probes of a key are set. */
  function SetProbes(bits: Bytes, key: Bytes, count: nat, bitCount: nat): (r: Bytes)
    requires count <= 256 && bitCount > 0 && bitCount <= 8 * |bits|
    ensures |r| == |bits|
  {
    if count == 0 then bits else SetAt(SetProbes(bits, key, count - 1, bitCount), Probe(key, count - 1, bitCount))
  }

  predicate CanAdd(f: Filter) {
    ShapeOk(f) && f.bitCount != 0 && f.keyCount < MAX64
  }

  function Added(f: Filter, key: Bytes): (r: Filter)
    requires CanAdd(f)
    ensures ShapeOk(r) && r.keyCount == f.keyCount + 1 && r.bitCount == f.bitCount && r.hashCount == f.hashCount
  {
    f.(bits := SetProbes(f.bits, key, f.hashCount, f.bitCount), keyCount := f.keyCount + 1)
  }

  lemma {:induction false} SetProbesSets(bits: Bytes, key: Bytes, count: nat, bitCount: nat, q: nat)
    requires count <= 256 && bitCount > 0 && bitCount <= 8 * |bits| && q < bitCount
    ensures IsSet(SetProbes(bits, key, count, bitCount), q) <==>
            IsSet(bits, q) || exists i :: 0 <= i < count && Probe(key, i, bitCount) == q
  {
    hide IsSet, SetAt, Probe;
    if count > 0 {
      SetProbesSets(bits, key, count - 1, bitCount, q);
      SetAtSets(SetProbes(bits, key, count - 1, bitCount), Probe(key, count - 1, bitCount), q);
    }
  }

  /** What was added is found. */
  lemma AddedFound(f: Filter, key: Bytes)
    requires CanAdd(f)
    ensures MayContain(Added(f, key), key)
  {
    hide IsSet, SetProbes, Probe;
    var r := Added(f, key);
    forall i | 0 <= i < r.hashCount ensures IsSet(r.bits, Probe(key, i, r.bitCount)) {
      SetProbesSets(f.bits, key, f.hashCount, f.bitCount, Probe(key, i, f.bitCount));
    }
  }

  /** Adding never loses what was found before. */
  lemma AddedKeeps(f: Filter, key: Bytes, other: Bytes)
    requires CanAdd(f) && MayContain(f, other)
    ensures MayContain(Added(f, key), other)
  {
    hide IsSet, SetProbes, Probe;
    var r := Added(f, key);
    forall i | 0 <= i < r.hashCount ensures IsSet(r.bits, Probe(other, i, r.bitCount)) {
      SetProbesSets(f.bits, key, f.hashCount, f.bitCount, Probe(other, i, f.bitCount));
    }
  }

  function AddedAll(f: Filter, keys: seq<Bytes>): (r: Filter)
    requires ShapeOk(f) && f.bitCount != 0 && f.keyCount + |keys| <= MAX64
    ensures ShapeOk(r) && r.bitCount == f.bitCount && r.hashCount == f.hashCount && r.keyCount == f.keyCount + |keys|
  {
    if keys == [] then f else Added(AddedAll(f, keys[..|keys| - 1]), keys[|keys| - 1])
  }

  /** No false negatives: every key that went in is found. */
  lemma {:induction false} NoFalseNegative(f: Filter, keys: seq<Bytes>, i: nat)
    requires ShapeOk(f) && f.bitCount != 0 && f.keyCount + |keys| <= MAX64 && i < |keys|
    ensures MayContain(AddedAll(f, keys), keys[i])
  {
    hide MayContain, Added, ShapeOk;
    var n := |keys| - 1;
    AllShape(f, keys[..n]);
    if i == n {
      AddedFound(AddedAll(f, keys[..n]), keys[n]);
    } else {
      NoFalseNegative(f, keys[..n], i);
      AddedKeeps(AddedAll(f, keys[..n]), keys[n], keys[i]);
    }
  }

  lemma AllShape(f: Filter, keys: seq<Bytes>)
    requires ShapeOk(f) && f.bitCount != 0 && f.keyCount + |keys| < MAX64
    ensures CanAdd(AddedAll(f, keys))
  {
  }

  lemma ShapeRoom(f: Filter)
    requires ShapeOk(f) && f.bitCount != 0
    ensures f.bitCount <= 8 * |f.bits| && f.hashCount <= 30
  {
  }

  /** The loop of Add. */
  method SetBits(bits: Bytes, key: Bytes, hashes: nat, bitCount: nat) returns (r: Bytes)
    requires hashes <= 256 && 0 < bitCount <= 8 * |bits|
    ensures r == SetProbes(bits, key, hashes, bitCount)
  {
    hide IsSet, SetAt, Finalize, Mix, ProbeOf;
    var first, second := BloomHashes(key);
    r := bits;
    for i := 0 to hashes
      invariant |r| == |bits| && r == SetProbes(bits, key, i, bitCount)
    {
      r := SetAt(r, ProbeOf(first, second, i, bitCount));
    }
  }

  /** The loop of MayContain. */
  method TestBits(bits: Bytes, key: Bytes, hashes: nat, bitCount: nat) returns (found: bool)
    requires hashes <= 256 && 0 < bitCount <= 8 * |bits|
    ensures found == ProbesSet(bits, key, hashes, bitCount)
  {
    hide IsSet, Finalize, Mix, ProbeOf;
    var first, second := BloomHashes(key);
    for i := 0 to hashes
      invariant ProbesSet(bits, key, i, bitCount)
    {
      var bit := ProbeOf(first, second, i, bitCount);
      assert bit == Probe(key, i, bitCount);
      if !IsSet(bits, bit) {
        return false;
      }
    }
    found := true;
  }

  // ----- The class -----------------------------------------------------------------------------------

  class BloomFilter {
    var bitCount: nat
    var hashCount: nat
    var keyCount: nat
    var bits: Bytes

    function View(): Filter
      reads this
    {
      Filter(bitCount, hashCount, keyCount, bits)
    }

    /** Create, for the size that was computed from the number of keys. */
    constructor (bits: nat, hashes: nat)
      ensures View() == Filter(bits, hashes, 0, seq(bits / 8, _ => 0))
    {
      bitCount, hashCount, keyCount := bits, hashes, 0;
      this.bits := seq(bits / 8, _ => 0);
    }

    method Add(key: Bytes) returns (ok: bool)
      modifies this
      ensures ok == CanAdd(old(View()))
      ensures View() == if ok then Added(old(View()), key) else old(View())
    {
      hide SetProbes;
      ok := CanAdd(View());
      if ok {
        ShapeRoom(View());
        bits := SetBits(bits, key, hashCount, bitCount);
        keyCount := keyCount + 1;
      }
    }

    method Contains(key: Bytes) returns (found: bool)
      ensures found == MayContain(View(), key)
    {
      hide ProbesSet;
      if !ShapeOk(View()) || bitCount == 0 || keyCount == 0 {
        return false;
      }
      ShapeRoom(View());
      found := TestBits(bits, key, hashCount, bitCount);
    }
  }

  // ----- The encoded form ------------------------------------------------------------------------------

  function FilterFields(f: Filter): seq<nat> {
    [MAGIC, FORMAT, f.hashCount, HEADER_SIZE, HEADER_SIZE + |f.bits|, f.bitCount, f.keyCount]
  }

  function FilterBytes(f: Filter): (b: Bytes)
    ensures |b| == HEADER_SIZE + |f.bits|
  {
    Region(FilterFields(f), HEADER, f.bits)
  }

  function DecodeFilter(b: Bytes): (f: Option<Filter>)
    ensures f.Some? ==> ShapeOk(f.value)
  {
    if |b| < HEADER_SIZE || |b| > HEADER_SIZE + MAXIMUM_BLOOM_FILTER_SIZE then None else
    var v := Unpack(b, HEADER);
    if v[0] != MAGIC || v[1] != FORMAT || v[3] != HEADER_SIZE || v[4] != |b| || !Sealed(b, HEADER) then None else
    var f := Filter(v[5], v[2], v[6], b[HEADER_SIZE..]);
    if f.bitCount == 0 then
      if f.hashCount != 0 || f.keyCount != 0 || f.bits != [] then None else Some(EMPTY_FILTER)
    else if f.bitCount % 8 != 0 || f.bitCount / 8 != |f.bits| || f.hashCount == 0 || f.hashCount > MAXIMUM_BLOOM_HASH_COUNT then None
    else Some(f)
  }

  lemma FilterFits(f: Filter)
    requires ShapeOk(f) && f.keyCount <= MAX64
    ensures Fits(FilterFields(f), HEADER)
  {
    Capacities();
    assert Capacity(1) == 256;
  }

  lemma DecodedFromFields(f: Filter, b: Bytes)
    requires ShapeOk(f) && |b| == HEADER_SIZE + |f.bits| && Unpack(b, HEADER) == FilterFields(f)
    requires Sealed(b, HEADER) && b[HEADER_SIZE..] == f.bits
    ensures DecodeFilter(b) == Some(f)
  {
    hide Unpack, Sealed;
  }

  /** A filter survives encoding and decoding, and so does everything it finds. */
  lemma DecodeFilterBytes(f: Filter)
    requires ShapeOk(f) && f.keyCount <= MAX64
    ensures DecodeFilter(FilterBytes(f)) == Some(f)
  {
    hide Unpack, Sealed, DecodeFilter, Region, ShapeOk;
    FilterFits(f);
    RegionParts(FilterFields(f), HEADER, f.bits);
    DecodedFromFields(f, FilterBytes(f));
  }

  /** Every accepted filter region is the encoding of what it decodes to. */
  lemma FilterBytesOfDecoded(b: Bytes)
    requires DecodeFilter(b).Some?
    ensures FilterBytes(DecodeFilter(b).value) == b
  {
    hide Unpack, Sealed, Region;
    RegionOf(b, HEADER);
    var f := DecodeFilter(b).value;
    assert Unpack(b, HEADER) == FilterFields(f);
  }
}
