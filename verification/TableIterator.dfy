/** The forward iterator over a key range of one table (src/table.cpp:859-1002). */
module TableIterators {
  import opened Configuration
  import opened Keys
  import opened Runs
  import opened Versions
  import opened Summaries
  import opened Blocks
  import opened Tables
  import opened TableReader

  // ----- Ranges of a run --------------------------------------------------------------------------

  /** The records of a run from a key on. */
  function From(run: Run, begin: Key): Run {
    if run == [] || AtMost(begin, run[0].key) then run else From(run[1..], begin)
  }

  /** The records of a run before a key. */
  function Until(run: Run, end: Option<Key>): Run {
    if run == [] || (end.Some? && AtMost(end.value, run[0].key)) then [] else [run[0]] + Until(run[1..], end)
  }

  function Range(run: Run, begin: Key, end: Option<Key>): Run {
    Until(From(run, begin), end)
  }

  lemma {:induction false} FromMembers(run: Run, begin: Key)
    requires Sorted(run)
    ensures Sorted(From(run, begin))
    ensures forall r :: r in From(run, begin) <==> r in run && AtMost(begin, r.key)
  {
    hide Less;
    if run != [] {
      assert run == [run[0]] + run[1..];
      RestMembers(run);
      if AtMost(begin, run[0].key) {
        forall r | r in run ensures AtMost(begin, r.key) { LeastFirst(run, r, begin); }
      } else {
        FromMembers(run[1..], begin);
      }
    }
  }

  lemma LeastFirst(run: Run, r: Record, begin: Key)
    requires Sorted(run) && r in run && AtMost(begin, run[0].key)
    ensures AtMost(begin, r.key)
  {
    FirstIsLeast(run, r);
  }

  lemma {:induction false} UntilMembers(run: Run, end: Option<Key>)
    requires Sorted(run)
    ensures Sorted(Until(run, end))
    ensures forall r :: r in Until(run, end) <==> r in run && (end.Some? ==> Less(r.key, end.value))
  {
    if run != [] {
      assert run == [run[0]] + run[1..];
      RestMembers(run);
      if end.Some? && AtMost(end.value, run[0].key) {
        forall r | r in run ensures !Less(r.key, end.value) { FirstIsLeast(run, r); }
      } else {
        UntilMembers(run[1..], end);
        PrependSorted(run[0], Until(run[1..], end)) by {
          forall x | x in Until(run[1..], end) ensures Less(run[0].key, x.key) {
            var j :| 0 <= j < |run[1..]| && run[1..][j] == x;
          }
        }
      }
    }
  }

  /** The range holds exactly the records whose keys lie in it, in order. */
  lemma RangeMembers(run: Run, begin: Key, end: Option<Key>)
    requires Sorted(run)
    ensures Sorted(Range(run, begin, end))
    ensures forall r :: r in Range(run, begin, end) <==> r in run && InRange(r.key, begin, end)
  {
    hide From, Until, Less;
    FromMembers(run, begin);
    UntilMembers(From(run, begin), end);
  }

  lemma {:induction false} FromSkips(a: Run, b: Run, begin: Key)
    requires forall r :: r in a ==> Less(r.key, begin)
    ensures From(a + b, begin) == From(b, begin)
  {
    hide Less;
    if a == [] {
      assert a + b == b;
    } else {
      assert a[0] in a && (a + b)[0] == a[0];
      assert (a + b)[1..] == a[1..] + b;
      FromSkips(a[1..], b, begin);
    }
  }

  lemma FromStays(run: Run, begin: Key)
    requires run != [] ==> AtMost(begin, run[0].key)
    ensures From(run, begin) == run
  {
  }

  lemma {:induction false} FlattenCons(blocks: seq<Run>)
    requires blocks != []
    ensures Flatten(blocks) == blocks[0] + Flatten(blocks[1..])
  {
    var n := |blocks| - 1;
    if n == 0 {
      assert blocks == [blocks[0]] && blocks[..0] == [] && blocks[1..] == [];
      assert Flatten(blocks) == Flatten([]) + blocks[0];
      assert blocks[0] + [] == blocks[0];
    } else {
      FlattenCons(blocks[..n]);
      assert blocks[..n][1..] == blocks[1..][..n - 1] && blocks[1..][n - 1] == blocks[n];
      assert blocks[0] + Flatten(blocks[1..][..n - 1]) + blocks[n] == blocks[0] + (Flatten(blocks[1..][..n - 1]) + blocks[n]);
    }
  }

  /** All records from record `record` of block `block` on. */
  ghost function Tail(blocks: seq<Run>, block: nat, record: nat): Run
    requires block < |blocks| && record <= |blocks[block]|
  {
    blocks[block][record..] + Flatten(blocks[block + 1..])
  }

  lemma TailStart(blocks: seq<Run>, block: nat)
    requires block < |blocks|
    ensures Tail(blocks, block, 0) == Flatten(blocks[block..])
  {
    hide Flatten;
    FlattenCons(blocks[block..]);
    assert blocks[block..][1..] == blocks[block + 1..] && blocks[block][0..] == blocks[block];
  }

  /** At the end of a block the tail is what the following blocks hold. */
  lemma TailNextBlock(blocks: seq<Run>, block: nat)
    requires block < |blocks|
    ensures Tail(blocks, block, |blocks[block]|) ==
            if block + 1 < |blocks| then Tail(blocks, block + 1, 0) else []
  {
    hide Flatten;
    assert blocks[block][|blocks[block]|..] == [];
    if block + 1 < |blocks| {
      TailStart(blocks, block + 1);
    } else {
      assert blocks[block + 1..] == [];
      FlattenNone();
    }
    assert [] + Flatten(blocks[block + 1..]) == Flatten(blocks[block + 1..]);
  }

  lemma TailNextRecord(blocks: seq<Run>, block: nat, record: nat)
    requires block < |blocks| && record < |blocks[block]|
    ensures Tail(blocks, block, record) == [blocks[block][record]] + Tail(blocks, block, record + 1)
  {
    hide Flatten;
    assert blocks[block][record..] == [blocks[block][record]] + blocks[block][record + 1..];
  }

  lemma {:induction false} FlattenSplit(blocks: seq<Run>, i: nat)
    requires i <= |blocks|
    ensures Flatten(blocks) == Flatten(blocks[..i]) + Flatten(blocks[i..])
    decreases |blocks| - i
  {
    if i == |blocks| {
      assert blocks[..i] == blocks && blocks[i..] == [];
      FlattenNone();
    } else {
      FlattenSplit(blocks, i + 1);
      FlattenCons(blocks[i..]);
      assert blocks[i..][1..] == blocks[i + 1..] && blocks[..i + 1][..i] == blocks[..i];
      assert Flatten(blocks[..i + 1]) == Flatten(blocks[..i]) + blocks[i];
    }
  }

  /** Record `at` of block `first` is where the records from `begin` on start. */
  ghost predicate StartsAt(blocks: seq<Run>, begin: Key, first: nat, at: nat) {
    && first < |blocks| && at <= |blocks[first]|
    && (forall j :: 0 <= j < at ==> Less(blocks[first][j].key, begin))
    && (forall j :: at <= j < |blocks[first]| ==> AtMost(begin, blocks[first][j].key))
    && (first > 0 ==> blocks[first] != [] && AtMost(blocks[first][0].key, begin))
    && (first + 1 < |blocks| ==> blocks[first + 1] != [] && AtMost(begin, blocks[first + 1][0].key))
  }

  lemma FromStart(blocks: seq<Run>, begin: Key, first: nat, at: nat)
    requires Sorted(Flatten(blocks)) && StartsAt(blocks, begin, first, at)
    ensures From(Flatten(blocks), begin) == Tail(blocks, first, at)
  {
    hide Flatten, From, Less, Tail;
    var before := Flatten(blocks[..first]) + blocks[first][..at];
    forall r | r in before ensures Less(r.key, begin) {
      if r in Flatten(blocks[..first]) {
        var j := FlattenIndex(blocks[..first], r);
        FlattenApart(blocks, j, first, r, blocks[first][0]);
      }
    }
    SplitAt(blocks, first, at);
    FromSkips(before, Tail(blocks, first, at), begin);
    TailStartsLate(blocks, begin, first, at);
    FromStays(Tail(blocks, first, at), begin);
  }

  lemma SplitAt(blocks: seq<Run>, first: nat, at: nat)
    requires first < |blocks| && at <= |blocks[first]|
    ensures Flatten(blocks) == Flatten(blocks[..first]) + blocks[first][..at] + Tail(blocks, first, at)
  {
    hide Flatten;
    FlattenSplit(blocks, first);
    TailStart(blocks, first);
    assert blocks[first] == blocks[first][..at] + blocks[first][at..];
  }

  lemma TailStartsLate(blocks: seq<Run>, begin: Key, first: nat, at: nat)
    requires StartsAt(blocks, begin, first, at)
    ensures var tail := Tail(blocks, first, at); tail != [] ==> AtMost(begin, tail[0].key)
  {
    hide Flatten, Less, Tail;
    if at < |blocks[first]| {
      TailNextRecord(blocks, first, at);
    } else {
      TailNextBlock(blocks, first);
      if first + 1 < |blocks| {
        TailNextRecord(blocks, first + 1, 0);
      }
    }
  }

  lemma NothingInRange(run: Run, begin: Key, end: Option<Key>)
    requires Sorted(run) && forall r :: r in run ==> !InRange(r.key, begin, end)
    ensures Range(run, begin, end) == []
  {
    hide Range, InRange;
    var found := Range(run, begin, end);
    assert found == [] || found[0] in found;
    RangeMembers(run, begin, end);
  }

  lemma OutOfBounds(rd: Reader, begin: Key, end: Option<Key>, o: Options)
    requires Opened(rd, o)
    requires Less(rd.summary.maximumKey, begin) || (end.Some? && (AtMost(end.value, rd.summary.minimumKey) || begin == end.value))
    ensures Range(Contents(rd, o), begin, end) == []
  {
    hide Opened, Contents, Describes, Range, Lookup;
    OpenedDescribes(rd, o);
    DescribedSorted(rd.summary, Contents(rd, o));
    forall r | r in Contents(rd, o) ensures !InRange(r.key, begin, end) {
      LookupMember(Contents(rd, o), r);
      InSummaryRange(rd.summary, Contents(rd, o), r.key);
    }
    NothingInRange(Contents(rd, o), begin, end);
  }

  lemma DescribedSorted(t: TableSummary, run: Run)
    requires Describes(t, run)
    ensures Sorted(run)
  {
  }

  // ----- The iterator ---------------------------------------------------------------------------------

  class TableIterator {
    const reader: Reader
    const options: Options
    const begin: Key
    const end: Option<Key>
    var block: nat
    var record: nat
    var records: Run
    var valid: bool

    /** A position at a record or just past the last record of a block. */
    ghost predicate Placed()
      reads this
    {
      && Opened(reader, options)
      && (valid ==> block < |BlocksIn(reader, options)| && records == BlocksIn(reader, options)[block] && record <= |records|)
    }

    /** Everything from the position to the end of the table. */
    ghost function Remaining(): Run
      reads this
      requires Placed()
    {
      if valid then Tail(BlocksIn(reader, options), block, record) else []
    }

    ghost predicate Valid()
      reads this
    {
      Placed() && (valid ==> record < |records| && (end.Some? ==> Less(records[record].key, end.value)))
    }

    /** What is still to come, the current record first. */
    ghost function Rest(): Run
      reads this
      requires Valid()
    {
      Until(Remaining(), end)
    }

    constructor (reader: Reader, begin: Key, end: Option<Key>, options: Options)
      requires Opened(reader, options)
      ensures Valid() && !valid && this.reader == reader && this.options == options && this.begin == begin && this.end == end
    {
      hide Opened, Less, BlocksIn, Tail, Until;
      this.reader, this.options, this.begin, this.end := reader, options, begin, end;
      block, record, records, valid := 0, 0, [], false;
    }

    /** The current record, if any is left. */
    method Current() returns (r: Option<Record>)
      requires Valid()
      ensures r == if Rest() == [] then None else Some(Rest()[0])
    {
      hide Tail, Flatten, Opened, BlocksIn;
      if valid {
        TailNextRecord(BlocksIn(reader, options), block, record);
      }
      r := if valid then Some(records[record]) else None;
    }

    method LoadBlock(next: nat)
      requires Placed()
      modifies this
      ensures Placed() && (valid <==> next < |BlocksIn(reader, options)|)
      ensures valid ==> block == next && record == 0 && records != []
      ensures Remaining() == if next < |BlocksIn(reader, options)| then Tail(BlocksIn(reader, options), next, 0) else []
    {
      hide Tail, Flatten, Opened, BlocksIn, DecodeBlock, Less, Sorted, Contents;
      BlocksInside(reader, options);
      records, record := [], 0;
      if next >= |reader.index| {
        valid := false;
        return;
      }
      block := next;
      var e := reader.index[next];
      var read := ReadBlock(reader.file[e.offset..e.offset + e.size], options);
      records := read.value;
      valid := records != [];
    }

    /** Moves past the end of a block to the next record there is. */
    method SkipBlocks()
      requires Placed() && valid
      modifies this
      ensures Placed() && (valid ==> record < |records|)
      ensures Remaining() == old(Remaining())
    {
      hide Tail, Flatten, Opened, BlocksIn;
      while record >= |records|
        invariant Placed() && valid && Remaining() == old(Remaining())
        decreases |BlocksIn(reader, options)| - block
      {
        TailNextBlock(BlocksIn(reader, options), block);
        LoadBlock(block + 1);
        if !valid {
          return;
        }
      }
    }

    method EnforceUpperBound()
      requires Placed() && (valid ==> record < |records|)
      modifies this
      ensures Valid() && Rest() == Until(old(Remaining()), end)
    {
      hide Tail, Flatten, Opened, BlocksIn;
      if valid {
        TailNextRecord(BlocksIn(reader, options), block, record);
      }
      if valid && end.Some? && AtMost(end.value, records[record].key) {
        valid, records, record := false, [], 0;
      }
    }

    /** Positions at the first record of the range, so that exactly the records of the range are to come. */
    method Initialize()
      requires Valid()
      modifies this
      ensures Valid() && Rest() == Range(Contents(reader, options), begin, end)
    {
      hide Tail, Flatten, Opened, BlocksIn, Until, From, Contents, DecodeBlock, Less;
      if Less(reader.summary.maximumKey, begin)
         || (end.Some? && AtMost(end.value, reader.summary.minimumKey)) || (end.Some? && begin == end.value) {
        valid := false;
        OutOfBounds(reader, begin, end, options);
        NothingUntil(end);
        return;
      }
      BlocksInside(reader, options);
      IndexAscends(reader, options);
      var first := 0;
      if begin != [] {
        var upper := UpperBound(reader.index, begin);
        if upper != 0 {
          first := upper - 1;
        }
      }
      LoadBlock(first);
      var at := LowerBound(records, begin);
      record := at;
      FromStart(BlocksIn(reader, options), begin, first, at);
      SkipBlocks();
      EnforceUpperBound();
    }

    /** Moves on by one record. */
    method Next()
      requires Valid()
      modifies this
      ensures Valid() && Rest() == if old(Rest()) == [] then [] else old(Rest())[1..]
    {
      hide Tail, Flatten, Opened, BlocksIn;
      if !valid {
        return;
      }
      TailNextRecord(BlocksIn(reader, options), block, record);
      record := record + 1;
      SkipBlocks();
      EnforceUpperBound();
    }
  }

  /** SSTableReader::NewIterator: refuses bounds that are too long or reversed, else positions at the range. */
  method NewIterator(rd: Reader, begin: Key, end: Option<Key>, o: Options) returns (it: TableIterator?)
    requires Opened(rd, o)
    ensures it == null <==>
            |begin| > o.maxKeySize || (end.Some? && |end.value| > o.maxKeySize) || (end.Some? && Less(end.value, begin))
    ensures it != null ==> fresh(it) && it.Valid() && it.reader == rd && it.options == o && it.Rest() == Range(Contents(rd, o), begin, end)
  {
    hide Opened, Contents, Range, Less, TableIterator.Rest, TableIterator.Valid;
    if |begin| > o.maxKeySize || (end.Some? && |end.value| > o.maxKeySize) {
      return null;
    }
    if end.Some? && Less(end.value, begin) {
      return null;
    }
    it := new TableIterator(rd, begin, end, o);
    it.Initialize();
  }

  /** Reads an iterator to its end. */
  method Drain(it: TableIterator) returns (records: Run)
    requires it.Valid()
    modifies it
    ensures it.Valid() && it.Rest() == [] && records == old(it.Rest())
  {
    hide *;
    records := [];
    var current := it.Current();
    while current.Some?
      invariant it.Valid() && records + it.Rest() == old(it.Rest())
      invariant current == if it.Rest() == [] then None else Some(it.Rest()[0])
      decreases |it.Rest()|
    {
      assert it.Rest() == [current.value] + it.Rest()[1..];
      records := records + [current.value];
      it.Next();
      current := it.Current();
    }
  }

  /** The verified blocks of an open table. */
  ghost function BlocksIn(rd: Reader, o: Options): seq<Run>
    requires Opened(rd, o)
  {
    OpenedBlocks(rd, o);
    VerifiedBlocks(rd.file, rd.index, rd.filter, o).value
  }

  lemma BlocksInside(rd: Reader, o: Options)
    requires Opened(rd, o)
    ensures var blocks := BlocksIn(rd, o);
            && |blocks| == |rd.index| > 0 && Sorted(Flatten(blocks)) && Contents(rd, o) == Flatten(blocks)
            && (forall i :: 0 <= i < |rd.index| ==>
                  && rd.index[i].offset + rd.index[i].size <= |rd.file|
                  && DecodeBlock(rd.file[rd.index[i].offset..rd.index[i].offset + rd.index[i].size], o) == Some(blocks[i])
                  && blocks[i] != [] && Sorted(blocks[i]) && blocks[i][0].key == rd.index[i].firstKey)
  {
    hide Opened, Contents, Flatten, VerifiedBlocks, AllIndexed, DecodeBlock, Admits, Describes;
    OpenedBlocks(rd, o);
    IndexedParts(rd, BlocksIn(rd, o), o);
    OpenedDescribes(rd, o);
    DescribedHolds(rd.summary, Contents(rd, o));
    if rd.index == [] {
      FlattenNone();
    }
    forall i | 0 <= i < |rd.index| ensures Sorted(BlocksIn(rd, o)[i]) { FlattenSorted(BlocksIn(rd, o), i); }
  }

  lemma DescribedHolds(t: TableSummary, run: Run)
    requires Describes(t, run)
    ensures run != []
  {
  }

  lemma NothingUntil(end: Option<Key>)
    ensures Until([], end) == []
  {
  }
}
