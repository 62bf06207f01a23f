/**
  Fixed-width little-endian integers and CRC32C (src/coding.cpp).

  Bytes are integers below 256, so that lengths and sequence numbers can be
  reasoned about arithmetically.  The CRC state is a 32-bit vector; Bits and
  Number move between the two by their binary digits.
 */
module Coding {

  type Byte = x: int | 0 <= x < 256
  type Bytes = seq<Byte>

  const MAX32: nat := 0xFFFF_FFFF
  const MAX64: nat := 0xFFFF_FFFF_FFFF_FFFF

  // ----- Fixed-width integers -----------------------------------------------

  /** 256 to the power `width`: the number of values that fit `width` bytes. */
  function Capacity(width: nat): (c: nat)
    ensures c > 0
  {
    if width == 0 then 1 else 256 * Capacity(width - 1)
  }

  /** The `width` low-order bytes of `v`, least significant first. */
  function Fixed(v: nat, width: nat): (b: Bytes)
    ensures |b| == width
    decreases width
  {
    if width == 0 then [] else [v % 256] + Fixed(v / 256, width - 1)
  }

  /** The number whose little-endian digits are `b`. */
  function Value(b: Bytes): (v: nat)
  {
    if b == [] then 0 else b[0] + 256 * Value(b[1..])
  }

  /** The field of `width` bytes at `offset`, as a number. */
  function Field(b: Bytes, offset: nat, width: nat): nat
    requires offset + width <= |b|
  {
    Value(b[offset..offset + width])
  }

  lemma {:induction false} ValueOfFixed(v: nat, width: nat)
    requires v < Capacity(width)
    ensures Value(Fixed(v, width)) == v
    decreases width
  {
    if width > 0 {
      ValueOfFixed(v / 256, width - 1);
      assert Fixed(v, width)[1..] == Fixed(v / 256, width - 1);
    }
  }

  lemma {:induction false} FixedOfValue(b: Bytes)
    ensures Value(b) < Capacity(|b|)
    ensures Fixed(Value(b), |b|) == b
  {
    if b != [] {
      FixedOfValue(b[1..]);
      assert Value(b) % 256 == b[0] && Value(b) / 256 == Value(b[1..]);
    }
  }

  /** Two fields of equal width hold the same number only if they hold the same bytes. */
  lemma ValueInjective(a: Bytes, b: Bytes)
    requires |a| == |b|
    ensures Value(a) == Value(b) <==> a == b
  {
    FixedOfValue(a);
    FixedOfValue(b);
  }

  lemma Capacities()
    ensures Capacity(2) == 0x1_0000
    ensures Capacity(4) == MAX32 + 1
    ensures Capacity(8) == MAX64 + 1
  {
    assert Capacity(2) == 0x1_0000;
    assert Capacity(4) == 0x1_0000 * Capacity(2);
    assert Capacity(6) == 0x1_0000 * Capacity(4);
    assert Capacity(8) == 0x1_0000 * Capacity(6);
  }

  /** PutFixed16, PutFixed32 and PutFixed64: append `width` bytes of `value`. */
  method PutFixed(destination: Bytes, value: nat, width: nat) returns (result: Bytes)
    ensures result == destination + Fixed(value, width)
  {
    result := destination;
    var rest := value;
    var put := 0;
    while put < width
      invariant 0 <= put <= width
      invariant result + Fixed(rest, width - put) == destination + Fixed(value, width)
    {
      assert Fixed(rest, width - put) == [rest % 256] + Fixed(rest / 256, width - put - 1);
      result := result + [rest % 256];
      rest := rest / 256;
      put := put + 1;
    }
  }

  /** DecodeFixed16, DecodeFixed32 and DecodeFixed64: refuse a short input, read the rest. */
  method DecodeFixed(input: Bytes, width: nat) returns (ok: bool, value: nat)
    ensures ok <==> |input| >= width
    ensures ok ==> value < Capacity(width) && Fixed(value, width) == input[..width]
  {
    ok, value := |input| >= width, 0;
    if ok {
      var index := width;
      while index > 0
        invariant 0 <= index <= width
        invariant value == Value(input[index..width])
      {
        index := index - 1;
        assert input[index..width][1..] == input[index + 1..width];
        value := input[index] + 256 * value;
      }
      FixedOfValue(input[..width]);
      assert input[0..width] == input[..width];
    }
  }

  // ----- CRC32C -------------------------------------------------------------

  const POLYNOMIAL: bv32 := 0x82F63B78

  /** One bit of the reflected Castagnoli division. */
  function Shift(state: bv32): bv32 {
    (state >> 1) ^ (POLYNOMIAL & (0 - (state & 1)))
  }

  function Shifts(state: bv32, count: nat): bv32 {
    if count == 0 then state else Shift(Shifts(state, count - 1))
  }

  /** The `count` low binary digits of `n` as the low bits of a 32-bit word. */
  function Bits(n: nat, count: nat): bv32
    decreases count
  {
    if count == 0 then 0 else Join(Bits(n / 2, count - 1), n % 2 == 1)
  }

  predicate Odd(w: bv32) {
    w & 1 == 1
  }

  function Half(w: bv32): bv32 {
    w >> 1
  }

  function Join(high: bv32, odd: bool): bv32 {
    (high << 1) | (if odd then 1 else 0)
  }

  function Flip(w: bv32): bv32 {
    w ^ 0xFFFF_FFFF
  }

  /** The `count` low bits of a word as a number. */
  function Number(w: bv32, count: nat): nat {
    if count == 0 then 0 else (if Odd(w) then 1 else 0) + 2 * Number(Half(w), count - 1)
  }

  function Absorb(state: bv32, b: Byte): bv32 {
    Shifts(state ^ Bits(b, 8), 8)
  }

  function Extend(state: bv32, data: Bytes): bv32
    decreases |data|
  {
    if data == [] then state else Extend(Absorb(state, data[0]), data[1..])
  }

  const INITIAL: bv32 := 0xFFFF_FFFF

  /** CRC32C of section 12.1 of RFC 3720. */
  function Crc(data: Bytes): (n: nat)
    ensures n <= MAX32
  {
    NumberBound(Flip(Extend(INITIAL, data)), 32);
    Number(Flip(Extend(INITIAL, data)), 32)
  }

  /** Crc32c and ExtendCrc32c: the two nested loops of the source. */
  method Crc32c(data: Bytes) returns (checksum: nat)
    ensures checksum == Crc(data)
  {
    hide Shift, Bits, Number;
    var state := INITIAL;
    for i := 0 to |data|
      invariant Extend(state, data[i..]) == Extend(INITIAL, data)
    {
      assert data[i..][1..] == data[i + 1..];
      state := state ^ Bits(data[i], 8);
      ghost var entry := state;
      for bit := 0 to 8
        invariant state == Shifts(entry, bit)
      {
        state := Shift(state);
      }
    }
    assert data[|data|..] == [];
    checksum := Number(Flip(state), 32);
  }

  // ----- Every byte reaches the checksum --------------------------------------

  /** The top bit of the polynomial is set, so a shifted state still shows the bit it lost. */
  lemma ShiftInjective(a: bv32, b: bv32)
    requires Shift(a) == Shift(b)
    ensures a == b
  {
  }

  lemma {:induction false} ShiftsInjective(a: bv32, b: bv32, count: nat)
    requires Shifts(a, count) == Shifts(b, count)
    ensures a == b
  {
    if count > 0 {
      ShiftInjective(Shifts(a, count - 1), Shifts(b, count - 1));
      ShiftsInjective(a, b, count - 1);
    }
  }

  /** The words that fit `count` bits have no bit above this one. */
  function Mask(count: nat): bv32 {
    if count == 0 then 0 else Join(Mask(count - 1), true)
  }

  function Power2(count: nat): nat {
    if count == 0 then 1 else 2 * Power2(count - 1)
  }

  lemma {:induction false} NumberBound(w: bv32, count: nat)
    ensures Number(w, count) < Power2(count)
    ensures Power2(32) == MAX32 + 1
  {
    if count > 0 {
      NumberBound(Half(w), count - 1);
    } else {
      assert Power2(8) == 256;
      assert Power2(16) == 256 * Power2(8);
      assert Power2(24) == 256 * Power2(16);
      assert Power2(32) == 256 * Power2(24);
    }
  }

  predicate Agree(v: bv32, w: bv32, mask: bv32) {
    v & mask == w & mask
  }

  lemma MaskStep(v: bv32, w: bv32, mask: bv32)
    requires Odd(v) == Odd(w) && Agree(Half(v), Half(w), mask)
    ensures Agree(v, w, Join(mask, true))
  {
  }

  lemma {:induction false} NumberAgrees(v: bv32, w: bv32, count: nat)
    requires Number(v, count) == Number(w, count)
    ensures Agree(v, w, Mask(count))
  {
    if count > 0 {
      hide Odd, Half, Join, Agree;
      NumberAgrees(Half(v), Half(w), count - 1);
      MaskStep(v, w, Mask(count - 1));
    }
  }

  lemma FullMask()
    ensures Mask(32) == 0xFFFF_FFFF
  {
    assert Mask(8) == 0xFF;
    assert Mask(16) == 0xFFFF;
    assert Mask(24) == 0xFF_FFFF;
  }

  lemma NumberInjective(v: bv32, w: bv32)
    requires Number(v, 32) == Number(w, 32)
    ensures v == w
  {
    NumberAgrees(v, w, 32);
    FullMask();
  }

  lemma JoinInjective(x: bv32, y: bv32, e: bool, f: bool)
    requires x <= 0xFF && y <= 0xFF && Join(x, e) == Join(y, f)
    ensures x == y && e == f
  {
  }

  const LIMITS: seq<bv32> := [0, 1, 3, 7, 15, 31, 63, 127, 255]

  lemma BoundStep(x: bv32, e: bool, count: nat)
    requires count < 8 && x <= LIMITS[count]
    ensures Join(x, e) <= LIMITS[count + 1] <= 0xFF
  {
  }

  lemma {:induction false} BitsBound(n: nat, count: nat)
    requires count <= 8
    ensures Bits(n, count) <= LIMITS[count] <= 0xFF
    decreases count
  {
    if count > 0 {
      hide Join;
      BitsBound(n / 2, count - 1);
      BoundStep(Bits(n / 2, count - 1), n % 2 == 1, count - 1);
    }
  }

  lemma {:induction false} BitsInjective(a: nat, b: nat, count: nat)
    requires count <= 8 && a < Power2(count) && b < Power2(count)
    requires Bits(a, count) == Bits(b, count)
    ensures a == b
    decreases count
  {
    if count > 0 {
      hide Join;
      BitsBound(a / 2, count - 1);
      BitsBound(b / 2, count - 1);
      JoinInjective(Bits(a / 2, count - 1), Bits(b / 2, count - 1), a % 2 == 1, b % 2 == 1);
      BitsInjective(a / 2, b / 2, count - 1);
    }
  }

  lemma AbsorbInjective(s: bv32, t: bv32, a: Byte, b: Byte)
    requires Absorb(s, a) == Absorb(t, b)
    ensures a == b ==> s == t
    ensures s == t ==> a == b
  {
    hide Bits, Shifts;
    var x, y := Bits(a, 8), Bits(b, 8);
    ShiftsInjective(s ^ x, t ^ y, 8);
    XorCancels(s, t, x, y);
    if s == t {
      assert Power2(8) == 256;
      BitsInjective(a, b, 8);
    }
  }

  lemma XorCancels(s: bv32, t: bv32, x: bv32, y: bv32)
    requires s ^ x == t ^ y
    ensures x == y ==> s == t
    ensures s == t ==> x == y
  {
  }

  lemma {:induction false} ExtendInjective(s: bv32, t: bv32, data: Bytes)
    requires Extend(s, data) == Extend(t, data)
    ensures s == t
    decreases |data|
  {
    if data != [] {
      ExtendInjective(Absorb(s, data[0]), Absorb(t, data[0]), data[1..]);
      AbsorbInjective(s, t, data[0], data[0]);
    }
  }

  /** The two strings have the same length and differ in exactly the byte at `at`. */
  predicate DifferAt(a: Bytes, b: Bytes, at: nat) {
    |a| == |b| && at < |a| && a[at] != b[at] && a[..at] == b[..at] && a[at + 1..] == b[at + 1..]
  }

  lemma {:induction false} ExtendSeesByte(s: bv32, a: Bytes, b: Bytes, at: nat)
    requires DifferAt(a, b, at)
    ensures Extend(s, a) != Extend(s, b)
    decreases |a|
  {
    if at == 0 {
      if Extend(s, a) == Extend(s, b) {
        ExtendInjective(Absorb(s, a[0]), Absorb(s, b[0]), a[1..]);
        AbsorbInjective(s, s, a[0], b[0]);
      }
    } else {
      assert a[0] == a[..at][0] == b[..at][0] == b[0];
      assert a[1..][..at - 1] == a[..at][1..] == b[..at][1..] == b[1..][..at - 1];
      assert a[1..][at..] == a[at + 1..] && b[1..][at..] == b[at + 1..];
      ExtendSeesByte(Absorb(s, a[0]), a[1..], b[1..], at - 1);
    }
  }

  /** Changing any one byte changes the checksum. */
  lemma CrcSeesByte(a: Bytes, b: Bytes, at: nat)
    requires DifferAt(a, b, at)
    ensures Crc(a) != Crc(b)
  {
    ExtendSeesByte(INITIAL, a, b, at);
    if Crc(a) == Crc(b) {
      hide Flip, Number, Extend;
      NumberInjective(Flip(Extend(INITIAL, a)), Flip(Extend(INITIAL, b)));
      FlipInjective(Extend(INITIAL, a), Extend(INITIAL, b));
    }
  }

  /** Regions that avoid the changed byte are equal. */
  lemma SameOutside(a: Bytes, b: Bytes, at: nat, from: nat, to: nat)
    requires DifferAt(a, b, at) && from <= to <= |a| && (to <= at || at < from)
    ensures a[from..to] == b[from..to]
  {
    DifferPointwise(a, b, at);
  }

  lemma DifferPointwise(a: Bytes, b: Bytes, at: nat)
    requires DifferAt(a, b, at)
    ensures forall i :: 0 <= i < |a| && i != at ==> a[i] == b[i]
  {
    forall i | 0 <= i < |a| && i != at ensures a[i] == b[i] {
      if i < at {
        assert a[i] == a[..at][i] && b[i] == b[..at][i];
      } else {
        assert a[i] == a[at + 1..][i - at - 1] && b[i] == b[at + 1..][i - at - 1];
      }
    }
  }

  /** Cutting out a region that keeps the changed byte leaves strings that differ in one byte. */
  lemma DifferAfterCut(a: Bytes, b: Bytes, at: nat, from: nat, to: nat)
    requires DifferAt(a, b, at) && from <= to <= |a| && (at < from || to <= at)
    ensures DifferAt(a[..from] + a[to..], b[..from] + b[to..], if at < from then at else at - (to - from))
  {
    DifferPointwise(a, b, at);
    var x, y := a[..from] + a[to..], b[..from] + b[to..];
    var k := if at < from then at else at - (to - from);
    assert x[k] == a[at] && y[k] == b[at];
    assert forall i :: 0 <= i < |x| && i != k ==> x[i] == y[i];
  }

  lemma FlipInjective(v: bv32, w: bv32)
    requires Flip(v) == Flip(w)
    ensures v == w
  {
  }
}
