/** Scan bounds and the continuation tokens that resume a scan (src/scan.cpp:19-215). */
module ScanTokens {
  import opened Coding
  import opened Configuration
  import opened Keys
  import opened Layout
  import opened Regions

  const MAGIC: nat := 0x54434B4D  // "MKCT"
  const FORMAT: nat := 1
  const TOKEN_HEADER_SIZE: nat := 44
  const HEADER: Widths := [4, 1, 1, 2, 4] + SIZES
  const SIZES: Widths := [8, 8, 4, 4, 4]

  datatype Bounds = Bounds(begin: Key, end: Option<Key>)
  {
    function EndKey(): Key {
      if end.Some? then end.value else []
    }
  }

  /** Where a scan stopped, and in which state of the database. */
  datatype Token = Token(bounds: Bounds, version: nat, sequence: nat, lastKey: Key)
  {
    function Payload(): Bytes {
      bounds.begin + bounds.EndKey() + lastKey
    }

    function Fields(): seq<nat> {
      [MAGIC, FORMAT, if bounds.end.Some? then 1 else 0, 0, TOKEN_HEADER_SIZE + |Payload()|]
      + [version, sequence, |bounds.begin|, |bounds.EndKey()|, |lastKey|]
    }

    predicate Encodable() {
      lastKey != [] && TOKEN_HEADER_SIZE + |Payload()| <= MAX32
    }
  }

  lemma HeaderTotal()
    ensures Total(HEADER) == 40 && Total([4, 1, 1, 2, 4]) == 12 && Total(SIZES) == 28
  {
    TotalConcat([4, 1, 1, 2, 4], SIZES);
  }

  function TokenBytes(t: Token): (b: Bytes)
    ensures |b| == TOKEN_HEADER_SIZE + |t.Payload()|
  {
    HeaderTotal();
    Region(t.Fields(), HEADER, t.Payload())
  }

  /** EncodeScanToken: refuses an empty key and tokens whose length does not fit its field. */
  method EncodeToken(t: Token) returns (b: Option<Bytes>)
    ensures b == if t.Encodable() then Some(TokenBytes(t)) else None
  {
    hide Total, Region;
    HeaderTotal();
    if t.lastKey == [] || |t.bounds.begin| > MAX32 || |t.bounds.EndKey()| > MAX32 || |t.lastKey| > MAX32 {
      return None;
    }
    if TOKEN_HEADER_SIZE + |t.bounds.begin| + |t.bounds.EndKey()| + |t.lastKey| > MAX32 {
      return None;
    }
    var bytes := PutRegion(t.Fields(), HEADER, t.Payload());
    b := Some(bytes);
  }

  /** The header fields that DecodeScanToken accepts for these bounds. */
  predicate HeaderOk(v: seq<nat>, size: nat, bounds: Bounds, o: Options)
    requires |v| == |HEADER| && size >= TOKEN_HEADER_SIZE
  {
    && v[0] == MAGIC && v[1] == FORMAT && v[2] <= 1 && v[3] == 0 && v[4] == size
    && (v[2] == 1 <==> bounds.end.Some?) && (v[2] == 0 ==> v[8] == 0)
    && v[7] <= o.maxKeySize && v[8] <= o.maxKeySize && 0 < v[9] <= o.maxKeySize
    && v[7] + v[8] + v[9] == size - TOKEN_HEADER_SIZE
  }

  /** The payload is the expected range and a key inside it. */
  function DecodePayload(p: Bytes, n: nat, m: nat, bounds: Bounds): Option<Key>
    requires n + m <= |p|
  {
    var begin, end, lastKey := p[..n], p[n..n + m], p[n + m..];
    if begin != bounds.begin || (bounds.end.Some? && end != bounds.end.value) then None
    else if !InRange(lastKey, bounds.begin, bounds.end) then None
    else Some(lastKey)
  }

  /** DecodeScanToken: the key to resume after, for a token of this range and this state of the database. */
  function DecodeToken(b: Bytes, bounds: Bounds, o: Options, version: nat, sequence: nat): Option<Key> {
    if |b| < TOKEN_HEADER_SIZE then None else
    HeaderTotal();
    var v := Unpack(b, HEADER);
    if !HeaderOk(v, |b|, bounds, o) || !Sealed(b, HEADER) then None
    else if v[5] != version || v[6] != sequence then None
    else DecodePayload(b[TOKEN_HEADER_SIZE..], v[7], v[8], bounds)
  }

  /** A key at which a scan of these bounds may resume. */
  predicate ResumesAt(bounds: Bounds, o: Options, key: Key) {
    && 0 < |key| <= o.maxKeySize && InRange(key, bounds.begin, bounds.end)
    && |bounds.begin| <= o.maxKeySize && |bounds.EndKey()| <= o.maxKeySize
  }

  lemma TokenFits(t: Token)
    requires t.Encodable() && t.version <= MAX64 && t.sequence <= MAX64
    ensures Fits(t.Fields(), HEADER)
  {
    Capacities();
    assert Capacity(1) == 256;
  }

  lemma FieldsAt(t: Token)
    ensures var v := t.Fields();
            && |v| == |HEADER| == 10
            && v[0] == MAGIC && v[1] == FORMAT && v[2] == (if t.bounds.end.Some? then 1 else 0) && v[3] == 0
            && v[4] == TOKEN_HEADER_SIZE + |t.Payload()| && v[5] == t.version && v[6] == t.sequence
            && v[7] == |t.bounds.begin| && v[8] == |t.bounds.EndKey()| && v[9] == |t.lastKey|
  {
  }

  lemma PayloadParts(t: Token)
    ensures var p, n, m := t.Payload(), |t.bounds.begin|, |t.bounds.EndKey()|;
            && |p| == n + m + |t.lastKey| && p[..n] == t.bounds.begin && p[n..n + m] == t.bounds.EndKey() && p[n + m..] == t.lastKey
  {
  }

  /** A token resumes its own scan as long as the database has not changed. */
  lemma TokenResumes(t: Token, o: Options)
    requires t.Encodable() && t.version <= MAX64 && t.sequence <= MAX64 && ResumesAt(t.bounds, o, t.lastKey)
    ensures DecodeToken(TokenBytes(t), t.bounds, o, t.version, t.sequence) == Some(t.lastKey)
  {
    hide Unpack, Sealed, Region, Total, Less, Token.Payload, Token.Fields, Token.Encodable, DecodePayload, Bounds.EndKey;
    HeaderTotal();
    TokenFits(t);
    RegionParts(t.Fields(), HEADER, t.Payload());
    FieldsAt(t);
    PayloadParts(t);
    PayloadDecodes(t);
    NoEnd(t.bounds);
  }

  lemma NoEnd(bounds: Bounds)
    ensures bounds.end.None? ==> bounds.EndKey() == []
  {
  }

  lemma PayloadDecodes(t: Token)
    requires InRange(t.lastKey, t.bounds.begin, t.bounds.end)
    ensures var n, m := |t.bounds.begin|, |t.bounds.EndKey()|;
            n + m <= |t.Payload()| && DecodePayload(t.Payload(), n, m, t.bounds) == Some(t.lastKey)
  {
    hide Less, Token.Payload;
    PayloadParts(t);
  }

  /**
    Only the token that this range and this state of the database issue for a key is accepted:
    a token of another range, of a changed database, or with any byte changed is not.
   */
  lemma TokenOfDecoded(b: Bytes, bounds: Bounds, o: Options, version: nat, sequence: nat)
    requires DecodeToken(b, bounds, o, version, sequence).Some?
    ensures var key := DecodeToken(b, bounds, o, version, sequence).value;
            && ResumesAt(bounds, o, key) && Token(bounds, version, sequence, key).Encodable()
            && b == TokenBytes(Token(bounds, version, sequence, key))
  {
    hide *;
    HeaderTotal();
    var key := DecodeToken(b, bounds, o, version, sequence).value;
    var t := Token(bounds, version, sequence, key);
    DecodedParts(b, bounds, o, version, sequence);
    RegionOf(b, HEADER);
    TokenBytesIs(t);
    TokenSized(t, b);
  }

  lemma TokenBytesIs(t: Token)
    ensures TokenBytes(t) == Region(t.Fields(), HEADER, t.Payload())
  {
  }

  lemma TokenSized(t: Token, b: Bytes)
    requires |HEADER| == |t.Fields()| && Fits(t.Fields(), HEADER) && t.lastKey != []
    ensures t.Encodable()
  {
    hide Token.Payload;
    FieldsAt(t);
    Capacities();
  }

  /** What the accepted bytes hold. */
  lemma DecodedParts(b: Bytes, bounds: Bounds, o: Options, version: nat, sequence: nat)
    requires DecodeToken(b, bounds, o, version, sequence).Some?
    ensures var t := Token(bounds, version, sequence, DecodeToken(b, bounds, o, version, sequence).value);
            && |b| >= TOKEN_HEADER_SIZE == Total(HEADER) + 4 && Sealed(b, HEADER)
            && Unpack(b, HEADER) == t.Fields() && b[TOKEN_HEADER_SIZE..] == t.Payload()
            && ResumesAt(bounds, o, t.lastKey) && |HEADER| == |t.Fields()| && t.lastKey != []
  {
    hide Unpack, Sealed, Total, Less, Token.Payload, Token.Fields, DecodePayload, HeaderOk;
    HeaderTotal();
    var v, key := Unpack(b, HEADER), DecodeToken(b, bounds, o, version, sequence).value;
    var t := Token(bounds, version, sequence, key);
    HeaderParts(v, |b|, bounds, o);
    PayloadIs(t, b[TOKEN_HEADER_SIZE..], v[7], v[8], o);
    FieldsAre(t, v, |b|, o);
    FieldsAt(t);
  }

  lemma HeaderParts(v: seq<nat>, size: nat, bounds: Bounds, o: Options)
    requires |v| == |HEADER| && size >= TOKEN_HEADER_SIZE && HeaderOk(v, size, bounds, o)
    ensures |v| == 10 && v[7] + v[8] + v[9] == size - TOKEN_HEADER_SIZE && 0 < v[9] <= o.maxKeySize
    ensures v[7] <= o.maxKeySize && v[8] <= o.maxKeySize && (bounds.end.None? ==> v[8] == 0)
  {
  }

  lemma PayloadIs(t: Token, p: Bytes, n: nat, m: nat, o: Options)
    requires n + m <= |p| && DecodePayload(p, n, m, t.bounds) == Some(t.lastKey) && (t.bounds.end.None? ==> m == 0)
    requires n <= o.maxKeySize && m <= o.maxKeySize && 0 < |p| - n - m <= o.maxKeySize
    ensures p == t.Payload() && n == |t.bounds.begin| && m == |t.bounds.EndKey()| && |t.lastKey| == |p| - n - m
    ensures ResumesAt(t.bounds, o, t.lastKey)
  {
    hide Less;
    assert p == p[..n] + p[n..n + m] + p[n + m..];
  }

  lemma FieldsAre(t: Token, v: seq<nat>, size: nat, o: Options)
    requires |v| == |HEADER| && size >= TOKEN_HEADER_SIZE && HeaderOk(v, size, t.bounds, o)
    requires v[5] == t.version && v[6] == t.sequence && v[7] == |t.bounds.begin| && v[8] == |t.bounds.EndKey()|
    requires |t.Payload()| == size - TOKEN_HEADER_SIZE == v[7] + v[8] + |t.lastKey|
    ensures v == t.Fields() && t.lastKey != []
  {
    hide Token.Payload, Bounds.EndKey, Token.Fields;
    FieldsAt(t);
  }

  lemma TokenExact(b: Bytes, bounds: Bounds, o: Options, version: nat, sequence: nat, key: Key)
    requires version <= MAX64 && sequence <= MAX64
    ensures DecodeToken(b, bounds, o, version, sequence) == Some(key) <==>
            var t := Token(bounds, version, sequence, key);
            ResumesAt(bounds, o, key) && t.Encodable() && b == TokenBytes(t)
  {
    hide DecodeToken, TokenBytes, ResumesAt, Token.Encodable;
    var t := Token(bounds, version, sequence, key);
    if DecodeToken(b, bounds, o, version, sequence) == Some(key) {
      TokenOfDecoded(b, bounds, o, version, sequence);
    }
    if ResumesAt(bounds, o, key) && t.Encodable() && b == TokenBytes(t) {
      TokenResumes(t, o);
    }
  }

  /** A token with one byte changed resumes nothing. */
  lemma DamagedToken(t: Token, b: Bytes, at: nat, bounds: Bounds, o: Options, version: nat, sequence: nat)
    requires t.Encodable() && t.version <= MAX64 && t.sequence <= MAX64 && DifferAt(TokenBytes(t), b, at)
    ensures DecodeToken(b, bounds, o, version, sequence).None?
  {
    hide Unpack, Sealed, Region, Total, Less, Token.Payload, Token.Fields, Token.Encodable, HeaderOk;
    HeaderTotal();
    TokenFits(t);
    RegionParts(t.Fields(), HEADER, t.Payload());
    OneByteBreaksSeal(TokenBytes(t), b, HEADER, at);
  }

  // ----- Prefix scans -----------------------------------------------------------------------------

  predicate HasPrefix(k: Key, prefix: Key) {
    prefix <= k
  }

  /** The byte before `offset` can be incremented and all bytes from there on cannot. */
  ghost predicate Carries(prefix: Key, offset: nat) {
    offset <= |prefix| && forall i :: offset <= i < |prefix| ==> prefix[i] == 255
  }

  /** The least key above every key with the prefix; none if the prefix is all 0xFF. */
  method PrefixUpperBound(prefix: Key) returns (upper: Option<Key>)
    ensures forall k :: HasPrefix(k, prefix) <==> InRange(k, prefix, upper)
  {
    hide HasPrefix, InRange, Less;
    upper := None;
    if prefix == [] {
      forall k ensures HasPrefix(k, prefix) <==> InRange(k, prefix, None) { EmptyPrefix(k); }
      return;
    }
    var offset: nat := |prefix|;
    while offset > 0
      invariant Carries(prefix, offset)
    {
      if prefix[offset - 1] != 255 {
        var bound := prefix[..offset - 1] + [prefix[offset - 1] + 1];
        forall k ensures HasPrefix(k, prefix) <==> InRange(k, prefix, Some(bound)) { BoundIsExact(prefix, offset, k); }
        return Some(bound);
      }
      offset := offset - 1;
    }
    forall k ensures HasPrefix(k, prefix) <==> InRange(k, prefix, None) { NoBoundAbove(prefix, k); }
  }

  lemma EmptyPrefix(k: Key)
    ensures HasPrefix(k, []) && InRange(k, [], None)
  {
  }

  /** Above a prefix of 0xFF bytes are only the keys that start with it. */
  lemma {:induction false} NoBoundAbove(prefix: Key, k: Key)
    requires Carries(prefix, 0)
    ensures HasPrefix(k, prefix) <==> InRange(k, prefix, None)
  {
    hide Rank;
    if prefix == [] {
    } else if k == [] {
    } else if k[0] == prefix[0] {
      NoBoundAbove(prefix[1..], k[1..]);
      assert prefix <= k <==> prefix[1..] <= k[1..] by { Uncons(prefix, k); }
    } else {
      assert prefix[0] == 255;
    }
  }

  lemma Uncons(a: Key, b: Key)
    requires a != [] && b != [] && a[0] == b[0]
    ensures a <= b <==> a[1..] <= b[1..]
  {
    assert a == [a[0]] + a[1..] && b == [b[0]] + b[1..];
  }

  lemma {:induction false} BoundIsExact(prefix: Key, offset: nat, k: Key)
    requires 0 < offset && Carries(prefix, offset) && prefix[offset - 1] != 255
    ensures HasPrefix(k, prefix) <==> InRange(k, prefix, Some(prefix[..offset - 1] + [prefix[offset - 1] + 1]))
    decreases offset
  {
    hide Rank;
    var bound := prefix[..offset - 1] + [prefix[offset - 1] + 1];
    if k == [] {
    } else if offset == 1 {
      assert bound == [prefix[0] + 1] && bound[1..] == [] && !Less(k[1..], []);
      if k[0] == prefix[0] {
        assert Carries(prefix[1..], 0);
        NoBoundAbove(prefix[1..], k[1..]);
        Uncons(prefix, k);
      }
    } else {
      assert bound[0] == prefix[0] && bound[1..] == prefix[1..][..offset - 2] + [prefix[1..][offset - 2] + 1];
      if k[0] == prefix[0] {
        assert Carries(prefix[1..], offset - 1);
        BoundIsExact(prefix[1..], offset - 1, k[1..]);
        Uncons(prefix, k);
      }
    }
  }
}
