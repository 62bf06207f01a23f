/** Opening and reading a table (src/table.cpp:369-857). */
module TableReader {
  import opened Coding
  import opened Configuration
  import opened Keys
  import opened Runs
  import opened Wal
  import opened WalLog
  import opened Versions
  import opened Summaries
  import opened Blocks
  import opened SparseIndex
  import opened TableFormat
  import opened Tables
  import Bloom

  // ----- Opening ---------------------------------------------------------------------------------

  /** Reads one block and compares it with its entry, the block before it and the filter. */
  method CheckBlock(b: Bytes, e: IndexEntry, done: seq<Run>, filter: Option<Bloom.Filter>, o: Options) returns (block: Option<Run>)
    ensures var there := BlockAt(b, e, o);
            block == if there.None? || !MayComeNext(done, e, there.value, filter) then None else there
  {
    hide DecodeBlock, Bloom.MayContain, Less, Admits;
    if e.offset + e.size > |b| {
      return None;
    }
    block := ReadBlock(b[e.offset..e.offset + e.size], o);
    if block.None? || block.value == [] || block.value[0].key != e.firstKey {
      return None;
    }
    if done != [] && done[|done| - 1] != [] {
      var previous := done[|done| - 1];
      if !Less(previous[|previous| - 1].key, block.value[0].key) {
        return None;
      }
    }
    var admitted := AllAdmitted(filter, block.value);
    if !admitted {
      block := None;
    }
  }

  lemma VerifiedStep(b: Bytes, entries: seq<IndexEntry>, i: nat, done: seq<Run>, filter: Option<Bloom.Filter>, o: Options)
    requires i < |entries| && VerifiedBlocks(b, entries[..i], filter, o) == Some(done)
    ensures var there := BlockAt(b, entries[i], o);
            if there.None? || !MayComeNext(done, entries[i], there.value, filter) then VerifiedBlocks(b, entries, filter, o).None?
            else VerifiedBlocks(b, entries[..i + 1], filter, o) == Some(done + [there.value])
  {
    hide BlockAt, MayComeNext;
    assert entries[..i + 1][..i] == entries[..i];
    VerifiedNone(b, entries, i + 1, filter, o);
  }

  /** Reads and checks every block the index names, in order. */
  method VerifyBlocks(b: Bytes, entries: seq<IndexEntry>, filter: Option<Bloom.Filter>, o: Options) returns (blocks: Option<seq<Run>>)
    ensures blocks == VerifiedBlocks(b, entries, filter, o)
  {
    hide *;
    var done: seq<Run> := [];
    VerifiedStart(b, entries, filter, o);
    for i := 0 to |entries|
      invariant VerifiedBlocks(b, entries[..i], filter, o) == Some(done)
    {
      VerifiedStep(b, entries, i, done, filter, o);
      var block := CheckBlock(b, entries[i], done, filter, o);
      if block.None? {
        return None;
      }
      done := done + [block.value];
    }
    assert entries[..|entries|] == entries;
    blocks := Some(done);
  }

  lemma VerifiedStart(b: Bytes, entries: seq<IndexEntry>, filter: Option<Bloom.Filter>, o: Options)
    ensures VerifiedBlocks(b, entries[..0], filter, o) == Some([])
  {
  }

  /** A bad block anywhere refuses the table. */
  lemma {:induction false} VerifiedNone(b: Bytes, entries: seq<IndexEntry>, i: nat, filter: Option<Bloom.Filter>, o: Options)
    requires i <= |entries|
    ensures VerifiedBlocks(b, entries[..i], filter, o).None? ==> VerifiedBlocks(b, entries, filter, o).None?
    decreases |entries| - i
  {
    hide BlockAt, MayComeNext;
    if i == |entries| {
      assert entries[..i] == entries;
    } else {
      assert entries[..i + 1][..i] == entries[..i];
      VerifiedNone(b, entries, i + 1, filter, o);
    }
  }

  method AllAdmitted(filter: Option<Bloom.Filter>, block: Run) returns (ok: bool)
    ensures ok == Admits(filter, block)
  {
    hide Bloom.MayContain;
    ok := true;
    if filter.Some? {
      for i := 0 to |block|
        invariant forall j :: 0 <= j < i ==> Bloom.MayContain(filter.value, block[j].key)
      {
        if !Bloom.MayContain(filter.value, block[i].key) {
          return false;
        }
      }
    }
  }

  /** The running count and sequence range of Open, over all records. */
  method CheckSummary(f: Footer, run: Run) returns (ok: bool)
    ensures ok == SummaryAgrees(f, run)
  {
    if run == [] || |run| != f.records {
      return false;
    }
    var minimum, maximum := run[0].sequence, run[0].sequence;
    assert run[..1] == [run[0]];
    for i := 1 to |run|
      invariant minimum == MinimumSequence(run[..i]) && maximum == MaximumSequence(run[..i])
    {
      assert run[..i + 1][..i] == run[..i] && run[..i + 1][i] == run[i];
      minimum := if run[i].sequence < minimum then run[i].sequence else minimum;
      maximum := if run[i].sequence > maximum then run[i].sequence else maximum;
    }
    assert run[..|run|] == run;
    ok := minimum == f.minimumSequence && maximum == f.maximumSequence;
  }

  method Concatenate(blocks: seq<Run>) returns (run: Run)
    ensures run == Flatten(blocks)
  {
    run := [];
    assert blocks[..0] == [];
    for i := 0 to |blocks|
      invariant run == Flatten(blocks[..i])
    {
      assert blocks[..i + 1][..i] == blocks[..i];
      run := run + blocks[i];
    }
    assert blocks[..|blocks|] == blocks;
  }

  /** SSTableReader::Open on the bytes of a file. */
  method Load(b: Bytes, o: Options) returns (rd: Option<Reader>)
    ensures rd == OpenTable(b, o)
  {
    hide ReadLayout, ReadFilter, VerifiedBlocks, SummaryAgrees, Flatten, DecodeEntries, IndexRegionOk, MinimumSequence,
         MaximumSequence;
    var layout := ReadLayout(b, o);
    if layout.None? {
      return None;
    }
    var f := layout.value;
    var filter := ReadFilter(b[f.bloomOffset..f.bloomOffset + f.bloomSize], f.records);
    if filter.BadFilter? {
      return None;
    }
    var region := b[f.indexOffset..f.indexOffset + f.indexSize];
    if |region| < TABLE_INDEX_HEADER_SIZE || !IndexRegionOk(region, f.blocks) {
      return None;
    }
    var entries := ReadEntries(region[TABLE_INDEX_HEADER_SIZE..], f.blocks, TABLE_HEADER_SIZE, LimitsOf(f.indexOffset, o));
    if entries.None? {
      return None;
    }
    var blocks := VerifyBlocks(b, entries.value, filter.ToOption(), o);
    if blocks.None? {
      return None;
    }
    var run := Concatenate(blocks.value);
    var agrees := CheckSummary(f, run);
    if !agrees {
      return None;
    }
    AgreesParts(f, run);
    rd := Some(Reader(TableSummary(f.generation, |b|, f.records, f.minimumSequence, f.maximumSequence, run[0].key, run[|run| - 1].key),
                      b, entries.value, filter.ToOption()));
  }

  lemma AgreesParts(f: Footer, run: Run)
    requires SummaryAgrees(f, run)
    ensures run != [] && f.records == |run| && f.minimumSequence == MinimumSequence(run) && f.maximumSequence == MaximumSequence(run)
  {
    hide MinimumSequence, MaximumSequence;
  }

  // ----- Point reads ----------------------------------------------------------------------------------

  lemma OpenedBlocks(rd: Reader, o: Options)
    requires Opened(rd, o)
    ensures VerifiedBlocks(rd.file, rd.index, rd.filter, o).Some?
    ensures var blocks := VerifiedBlocks(rd.file, rd.index, rd.filter, o).value;
            && AllIndexed(rd.file, rd.index, blocks, rd.filter, o) && Sorted(Flatten(blocks))
            && Contents(rd, o) == Flatten(blocks) && |blocks| == |rd.index|
    ensures exists end: nat :: EntriesOk(rd.index, TABLE_HEADER_SIZE, None, LimitsOf(end, o))
  {
    OpenedIndex(rd, o);
    hide ReadLayout, ReadFilter, ReadIndex, SummaryAgrees, AllIndexed, Sorted, Flatten, VerifiedBlocks, EntriesOk;
    VerifiedParts(rd.file, rd.index, rd.filter, o);
    assert |VerifiedBlocks(rd.file, rd.index, rd.filter, o).value| == |rd.index|;
  }

  lemma OpenedIndex(rd: Reader, o: Options)
    requires Opened(rd, o)
    ensures exists end: nat :: EntriesOk(rd.index, TABLE_HEADER_SIZE, None, LimitsOf(end, o))
  {
    hide ReadFilter, SummaryAgrees, Flatten, VerifiedBlocks, EntriesOk, DecodeEntries, IndexRegionOk, ReadLayout, LimitsOf;
    var f := ReadLayout(rd.file, o).value;
    var region := rd.file[f.indexOffset..f.indexOffset + f.indexSize];
    DecodedEntriesOk(region[TABLE_INDEX_HEADER_SIZE..], f.blocks, TABLE_HEADER_SIZE, None, LimitsOf(f.indexOffset, o));
  }

  lemma IndexAscends(rd: Reader, o: Options)
    requires Opened(rd, o)
    ensures forall i, j :: 0 <= i < j < |rd.index| ==> Less(rd.index[i].firstKey, rd.index[j].firstKey)
    ensures forall i :: 0 <= i < |rd.index| ==> 0 < |rd.index[i].firstKey|
  {
    OpenedIndex(rd, o);
    hide *;
    var end: nat :| EntriesOk(rd.index, TABLE_HEADER_SIZE, None, LimitsOf(end, o));
    forall i, j | 0 <= i < j < |rd.index| ensures Less(rd.index[i].firstKey, rd.index[j].firstKey) {
      EntriesAscend(rd.index, TABLE_HEADER_SIZE, None, LimitsOf(end, o), i, j);
    }
    forall i | 0 <= i < |rd.index| ensures 0 < |rd.index[i].firstKey| {
      EntryAt(rd.index, TABLE_HEADER_SIZE, None, LimitsOf(end, o), i);
    }
  }

  /** std::upper_bound over the index: how many blocks start at or before the key. */
  method UpperBound(index: seq<IndexEntry>, key: Key) returns (i: nat)
    requires forall i, j :: 0 <= i < j < |index| ==> Less(index[i].firstKey, index[j].firstKey)
    ensures i <= |index|
    ensures forall j :: 0 <= j < i ==> AtMost(index[j].firstKey, key)
    ensures forall j :: i <= j < |index| ==> Less(key, index[j].firstKey)
  {
    i := 0;
    var high := |index|;
    while i < high
      invariant i <= high <= |index|
      invariant forall j :: 0 <= j < i ==> AtMost(index[j].firstKey, key)
      invariant forall j :: high <= j < |index| ==> Less(key, index[j].firstKey)
    {
      var middle := (i + high) / 2;
      if Less(key, index[middle].firstKey) {
        high := middle;
      } else {
        i := middle + 1;
      }
    }
  }

  /** std::lower_bound over a block: how many records are below the key. */
  method LowerBound(records: Run, key: Key) returns (i: nat)
    requires Sorted(records)
    ensures i <= |records|
    ensures forall j :: 0 <= j < i ==> Less(records[j].key, key)
    ensures forall j :: i <= j < |records| ==> AtMost(key, records[j].key)
  {
    i := 0;
    var high := |records|;
    while i < high
      invariant i <= high <= |records|
      invariant forall j :: 0 <= j < i ==> Less(records[j].key, key)
      invariant forall j :: high <= j < |records| ==> AtMost(key, records[j].key)
    {
      var middle := (i + high) / 2;
      if Less(records[middle].key, key) {
        i := middle + 1;
      } else {
        high := middle;
      }
    }
  }

  lemma LowerBoundLookup(records: Run, key: Key, i: nat)
    requires Sorted(records) && i <= |records|
    requires forall j :: 0 <= j < i ==> Less(records[j].key, key)
    requires forall j :: i <= j < |records| ==> AtMost(key, records[j].key)
    ensures Lookup(records, key) == if i < |records| && records[i].key == key then Some(records[i]) else None
  {
    if i < |records| && records[i].key == key {
      LookupMember(records, records[i]);
    } else {
      forall r | r in records ensures r.key != key {
        var j :| 0 <= j < |records| && records[j] == r;
        assert j > i ==> Less(records[i].key, records[j].key);
      }
    }
  }

  /** A key can only be in the last block that starts at or before it. */
  lemma OnlyBlock(blocks: seq<Run>, index: seq<IndexEntry>, key: Key, i: nat)
    requires |blocks| == |index| && Sorted(Flatten(blocks)) && i <= |index|
    requires forall j :: 0 <= j < |index| ==> blocks[j] != [] && blocks[j][0].key == index[j].firstKey
    requires forall j :: 0 <= j < i ==> AtMost(index[j].firstKey, key)
    requires forall j :: i <= j < |index| ==> Less(key, index[j].firstKey)
    ensures Lookup(Flatten(blocks), key) == if i == 0 then None else Lookup(blocks[i - 1], key)
  {
    hide Flatten, Lookup;
    if i > 0 && Lookup(blocks[i - 1], key).Some? {
      var r := Lookup(blocks[i - 1], key).value;
      FlattenMembers(blocks, i - 1, r);
      LookupMember(Flatten(blocks), r);
    } else if Lookup(Flatten(blocks), key).Some? {
      var r := Lookup(Flatten(blocks), key).value;
      var j := FlattenIndex(blocks, r);
      NotInOther(blocks, index, key, i, j, r);
    }
  }

  lemma {:induction false} FlattenIndex(blocks: seq<Run>, r: Record) returns (j: nat)
    requires r in Flatten(blocks)
    ensures j < |blocks| && r in blocks[j]
  {
    var n := |blocks| - 1;
    if r in blocks[n] {
      j := n;
    } else {
      j := FlattenIndex(blocks[..n], r);
    }
  }

  lemma NotInOther(blocks: seq<Run>, index: seq<IndexEntry>, key: Key, i: nat, j: nat, r: Record)
    requires |blocks| == |index| && Sorted(Flatten(blocks)) && i <= |index| && j < |blocks|
    requires forall j :: 0 <= j < |index| ==> blocks[j] != [] && blocks[j][0].key == index[j].firstKey
    requires forall j :: 0 <= j < i ==> AtMost(index[j].firstKey, key)
    requires forall j :: i <= j < |index| ==> Less(key, index[j].firstKey)
    requires r in blocks[j] && r.key == key
    ensures i > 0 && j == i - 1
  {
    hide Flatten;
    FlattenSorted(blocks, j);
    FirstIsLeast(blocks[j], r);
    if j + 1 < i {
      FlattenApart(blocks, j, i - 1, r, blocks[i - 1][0]);
    }
  }

  /** The indexed, filtered search finds what a search through all records finds. */
  method Get(rd: Reader, key: Key, o: Options) returns (valid: bool, found: Option<Record>)
    requires Opened(rd, o)
    ensures valid <==> 0 < |key| <= o.maxKeySize
    ensures found == Lookup(Contents(rd, o), key)
  {
    hide *;
    found := None;
    valid := 0 < |key| <= o.maxKeySize;
    if !valid {
      InvalidAbsent(rd, key, o);
      return;
    }
    if Less(key, rd.summary.minimumKey) || Less(rd.summary.maximumKey, key) {
      OutsideAbsent(rd, key, o);
      return;
    }
    if o.bloomEnabled && rd.filter.Some? && !Bloom.MayContain(rd.filter.value, key) {
      ExcludedAbsent(rd, key, o);
      return;
    }
    IndexAscends(rd, o);
    OpenedBlocks(rd, o);
    ghost var blocks := VerifiedBlocks(rd.file, rd.index, rd.filter, o).value;
    IndexedParts(rd, blocks, o);
    var i := UpperBound(rd.index, key);
    OnlyBlock(blocks, rd.index, key, i);
    if i == 0 {
      return;
    }
    var e := rd.index[i - 1];
    var block := ReadBlock(rd.file[e.offset..e.offset + e.size], o);
    FlattenSorted(blocks, i - 1);
    var at := LowerBound(block.value, key);
    LowerBoundLookup(block.value, key, at);
    if at < |block.value| && block.value[at].key == key {
      found := Some(block.value[at]);
    }
  }

  lemma IndexedParts(rd: Reader, blocks: seq<Run>, o: Options)
    requires AllIndexed(rd.file, rd.index, blocks, rd.filter, o)
    ensures |blocks| == |rd.index|
    ensures forall i :: 0 <= i < |rd.index| ==>
              && rd.index[i].offset + rd.index[i].size <= |rd.file|
              && DecodeBlock(rd.file[rd.index[i].offset..rd.index[i].offset + rd.index[i].size], o) == Some(blocks[i])
              && blocks[i] != [] && blocks[i][0].key == rd.index[i].firstKey && Admits(rd.filter, blocks[i])
  {
    hide DecodeBlock, Admits;
    forall i | 0 <= i < |rd.index|
      ensures rd.index[i].offset + rd.index[i].size <= |rd.file|
      ensures DecodeBlock(rd.file[rd.index[i].offset..rd.index[i].offset + rd.index[i].size], o) == Some(blocks[i])
      ensures blocks[i] != [] && blocks[i][0].key == rd.index[i].firstKey && Admits(rd.filter, blocks[i])
    {
      assert Indexed(rd.file, rd.index[i], blocks[i], rd.filter, o);
    }
  }

  lemma InvalidAbsent(rd: Reader, key: Key, o: Options)
    requires Opened(rd, o) && !(0 < |key| <= o.maxKeySize)
    ensures Lookup(Contents(rd, o), key) == None
  {
    hide *;
    OpenedDescribes(rd, o);
    InvalidNotFound(Contents(rd, o), key, o);
  }

  lemma InvalidNotFound(run: Run, key: Key, o: Options)
    requires AllEncodable(run, o) && !(0 < |key| <= o.maxKeySize)
    ensures Lookup(run, key) == None
  {
    forall r | r in run ensures r.key != key { assert Encodable(r, o); }
  }

  lemma OutsideAbsent(rd: Reader, key: Key, o: Options)
    requires Opened(rd, o) && (Less(key, rd.summary.minimumKey) || Less(rd.summary.maximumKey, key))
    ensures Lookup(Contents(rd, o), key) == None
  {
    OpenedDescribes(rd, o);
    hide Opened, Contents, Describes, Lookup;
    if Lookup(Contents(rd, o), key).Some? {
      InSummaryRange(rd.summary, Contents(rd, o), key);
    }
  }

  lemma ExcludedAbsent(rd: Reader, key: Key, o: Options)
    requires Opened(rd, o) && rd.filter.Some? && !Bloom.MayContain(rd.filter.value, key)
    ensures Lookup(Contents(rd, o), key) == None
  {
    hide *;
    OpenedBlocks(rd, o);
    var blocks := VerifiedBlocks(rd.file, rd.index, rd.filter, o).value;
    IndexedParts(rd, blocks, o);
    forall r | r in Flatten(blocks) ensures Bloom.MayContain(rd.filter.value, r.key) {
      var j := FlattenIndex(blocks, r);
      AdmitsMember(rd.filter, blocks[j], r);
    }
  }

  lemma AdmitsMember(filter: Option<Bloom.Filter>, block: Run, r: Record)
    requires filter.Some? && Admits(filter, block) && r in block
    ensures Bloom.MayContain(filter.value, r.key)
  {
    hide Bloom.MayContain;
  }

  // ----- Reading everything -------------------------------------------------------------------------------

  /** The first `limit` records, block by block. */
  method ReadRecords(rd: Reader, limit: nat, o: Options) returns (records: Run)
    requires Opened(rd, o)
    ensures records == if |Contents(rd, o)| <= limit then Contents(rd, o) else Contents(rd, o)[..limit]
  {
    hide *;
    OpenedBlocks(rd, o);
    ghost var blocks := VerifiedBlocks(rd.file, rd.index, rd.filter, o).value;
    IndexedParts(rd, blocks, o);
    records := [];
    FlattenStart(blocks);
    for i := 0 to |rd.index|
      invariant |records| <= limit && records == Prefix(Flatten(blocks[..i]), limit)
    {
      var e := rd.index[i];
      var block := ReadBlock(rd.file[e.offset..e.offset + e.size], o);
      PrefixNext(blocks, i, limit);
      records := Prefix(records + block.value, limit);
    }
    assert blocks[..|rd.index|] == blocks;
    PrefixIs(Flatten(blocks), limit);
  }

  function Prefix(run: Run, limit: nat): (p: Run)
    ensures |p| <= limit
  {
    if |run| <= limit then run else run[..limit]
  }

  lemma PrefixIs(run: Run, limit: nat)
    ensures Prefix(run, limit) == if |run| <= limit then run else run[..limit]
  {
  }

  lemma FlattenStart(blocks: seq<Run>)
    ensures Flatten(blocks[..0]) == [] && forall n: nat :: Prefix([], n) == []
  {
  }

  lemma PrefixNext(blocks: seq<Run>, i: nat, limit: nat)
    requires i < |blocks|
    ensures Prefix(Flatten(blocks[..i + 1]), limit) == Prefix(Prefix(Flatten(blocks[..i]), limit) + blocks[i], limit)
  {
    assert blocks[..i + 1][..i] == blocks[..i];
    var a := Flatten(blocks[..i]);
    if |a| > limit {
      assert (a + blocks[i])[..limit] == a[..limit];
      assert (a[..limit] + blocks[i])[..limit] == a[..limit];
    }
  }
}
