/**
  User keys and their bytewise order: std::string comparison, as used by every
  ordered structure of the engine.
 */
module Keys {
  import opened Coding

  type Key = Bytes

  /**
    An order-preserving embedding of byte strings into the reals, read off the
    base-257 expansion.  Stated once here, it lets every later proof about sorted
    keys be arithmetic.
   */
  ghost function Rank(k: Bytes): (r: real)
    ensures 0.0 <= r < 1.0
    ensures k != [] ==> r > 0.0
  {
    if k == [] then 0.0 else (k[0] as real + 1.0 + Rank(k[1..])) / 257.0
  }

  /** Unsigned lexicographic comparison; a proper prefix comes first. */
  predicate Less(a: Bytes, b: Bytes)
    ensures Less(a, b) <==> Rank(a) < Rank(b)
    ensures a == b <==> Rank(a) == Rank(b)
    decreases |a|
  {
    RankOrders(a, b);
    if b == [] then false
    else if a == [] then true
    else if a[0] != b[0] then a[0] < b[0]
    else Less(a[1..], b[1..])
  }

  /** The rank compares first bytes first and remaining bytes next. */
  lemma {:induction false} RankOrders(a: Bytes, b: Bytes)
    ensures Rank(a) == Rank(b) ==> a == b
    ensures a == [] && b != [] ==> Rank(a) < Rank(b)
    ensures a != [] && b != [] && a[0] < b[0] ==> Rank(a) < Rank(b)
    ensures a != [] && b != [] && a[0] == b[0] ==> (Rank(a) < Rank(b) <==> Rank(a[1..]) < Rank(b[1..]))
  {
    if a != [] && b != [] {
      if a[0] == b[0] {
        RankOrders(a[1..], b[1..]);
        assert a == [a[0]] + a[1..] && b == [b[0]] + b[1..];
      } else if a[0] < b[0] {
        assert a[0] as real + 1.0 <= b[0] as real;
      } else {
        assert b[0] as real + 1.0 <= a[0] as real;
      }
    }
  }

  predicate AtMost(a: Bytes, b: Bytes) {
    !Less(b, a)
  }

  /** Keys of the half-open interval [begin, end); no end means unbounded. */
  predicate InRange(k: Key, begin: Key, end: Option<Key>) {
    AtMost(begin, k) && (end.Some? ==> Less(k, end.value))
  }

  datatype Option<+T> = None | Some(value: T)

  function Smaller(a: Key, b: Key): Key {
    if Less(b, a) then b else a
  }

  function Larger(a: Key, b: Key): Key {
    if Less(a, b) then b else a
  }
}
