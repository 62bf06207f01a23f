/**
  Fixed headers as lists of little-endian fields.

  Every file format of the engine starts a region with a fixed header of fields
  at known offsets, magic numbers and version bytes among them.  A layout is the
  list of the fields' widths; packing and unpacking against a layout are inverse.
 */
module Layout {
  import opened Coding

  type Widths = seq<nat>

  function Total(widths: Widths): nat {
    if widths == [] then 0 else widths[0] + Total(widths[1..])
  }

  lemma {:induction false} TotalConcat(a: Widths, b: Widths)
    ensures Total(a + b) == Total(a) + Total(b)
  {
    if a == [] {
      assert a + b == b;
    } else {
      assert (a + b)[1..] == a[1..] + b;
      TotalConcat(a[1..], b);
    }
  }

  predicate Fits(values: seq<nat>, widths: Widths) {
    |values| == |widths| && forall i :: 0 <= i < |values| ==> values[i] < Capacity(widths[i])
  }

  function Pack(values: seq<nat>, widths: Widths): (b: Bytes)
    requires |values| == |widths|
    ensures |b| == Total(widths)
  {
    if values == [] then [] else Fixed(values[0], widths[0]) + Pack(values[1..], widths[1..])
  }

  function Unpack(b: Bytes, widths: Widths): (values: seq<nat>)
    requires |b| >= Total(widths)
    ensures |values| == |widths|
  {
    if widths == [] then [] else [Value(b[..widths[0]])] + Unpack(b[widths[0]..], widths[1..])
  }

  /** Appends the fields of a header one after the other. */
  method PutFields(destination: Bytes, values: seq<nat>, widths: Widths) returns (result: Bytes)
    requires |values| == |widths|
    ensures result == destination + Pack(values, widths)
  {
    result := destination;
    for i := 0 to |values|
      invariant result + Pack(values[i..], widths[i..]) == destination + Pack(values, widths)
    {
      assert values[i..][1..] == values[i + 1..] && widths[i..][1..] == widths[i + 1..];
      result := PutFixed(result, values[i], widths[i]);
    }
  }

  lemma {:induction false} UnpackPack(values: seq<nat>, widths: Widths, rest: Bytes)
    requires Fits(values, widths)
    ensures Unpack(Pack(values, widths) + rest, widths) == values
  {
    if values != [] {
      var head, tail := Fixed(values[0], widths[0]), Pack(values[1..], widths[1..]);
      assert Pack(values, widths) + rest == head + (tail + rest);
      ValueOfFixed(values[0], widths[0]);
      UnpackPack(values[1..], widths[1..], rest);
      assert (head + (tail + rest))[widths[0]..] == tail + rest;
    }
  }

  lemma {:induction false} PackUnpack(b: Bytes, widths: Widths)
    requires |b| >= Total(widths)
    ensures Fits(Unpack(b, widths), widths)
    ensures Pack(Unpack(b, widths), widths) == b[..Total(widths)]
  {
    if widths != [] {
      var w := widths[0];
      FixedOfValue(b[..w]);
      PackUnpack(b[w..], widths[1..]);
      assert b[..Total(widths)] == b[..w] + b[w..][..Total(widths[1..])];
    }
  }

  function Offset(widths: Widths, i: nat): (at: nat)
    requires i < |widths|
    ensures at + widths[i] <= Total(widths)
  {
    if i == 0 then 0 else
      assert widths[1..][i - 1] == widths[i];
      widths[0] + Offset(widths[1..], i - 1)
  }

  /** Unpacking reads each field at its offset from the start of the header. */
  lemma {:induction false} UnpackAt(b: Bytes, widths: Widths, i: nat)
    requires |b| >= Total(widths) && i < |widths|
    ensures Unpack(b, widths)[i] == Field(b, Offset(widths, i), widths[i])
  {
    hide Value;
    if i > 0 {
      UnpackAt(b[widths[0]..], widths[1..], i - 1);
      FieldAfter(b, widths[0], Offset(widths[1..], i - 1), widths[i]);
    }
  }

  lemma FieldAfter(b: Bytes, skip: nat, offset: nat, width: nat)
    requires skip + offset + width <= |b|
    ensures Field(b[skip..], offset, width) == Field(b, skip + offset, width)
  {
    assert b[skip..][offset..offset + width] == b[skip + offset..skip + offset + width];
  }

  /** Unpacking looks only at the header. */
  lemma {:induction false} UnpackPrefix(b: Bytes, c: Bytes, widths: Widths)
    requires |b| >= Total(widths) && |c| >= Total(widths)
    requires b[..Total(widths)] == c[..Total(widths)]
    ensures Unpack(b, widths) == Unpack(c, widths)
  {
    PackUnpack(b, widths);
    PackUnpack(c, widths);
    var h := b[..Total(widths)];
    UnpackPack(Unpack(b, widths), widths, []);
    UnpackPack(Unpack(c, widths), widths, []);
    assert h + [] == h;
  }
}
