/** Sorted-string tables: building, opening and reading (src/table.cpp). */
module Tables {
  import opened Coding
  import opened Configuration
  import opened Keys
  import opened Runs
  import opened Wal
  import opened WalLog
  import opened Versions
  import opened Summaries
  import opened Blocks
  import opened SparseIndex
  import opened TableFormat
  import Bloom

  /** An open table: verified metadata, the sparse index, the filter, and the file it reads blocks from. */
  datatype Reader = Reader(summary: TableSummary, file: Bytes, index: seq<IndexEntry>, filter: Option<Bloom.Filter>)

  // ----- Verified blocks --------------------------------------------------------------------------

  function BlockAt(b: Bytes, e: IndexEntry, o: Options): Option<Run> {
    if e.offset + e.size <= |b| then DecodeBlock(b[e.offset..e.offset + e.size], o) else None
  }

  predicate Admits(filter: Option<Bloom.Filter>, block: Run) {
    filter.None? || forall r :: r in block ==> Bloom.MayContain(filter.value, r.key)
  }

  /** A block that may follow the ones before it. */
  predicate MayComeNext(blocks: seq<Run>, e: IndexEntry, block: Run, filter: Option<Bloom.Filter>) {
    && block != [] && block[0].key == e.firstKey && Admits(filter, block)
    && (blocks != [] && blocks[|blocks| - 1] != [] ==>
          Less(blocks[|blocks| - 1][|blocks[|blocks| - 1]| - 1].key, block[0].key))
  }

  /** What the indexed blocks hold, if each is intact, agrees with its entry and comes after the one before. */
  function VerifiedBlocks(b: Bytes, entries: seq<IndexEntry>, filter: Option<Bloom.Filter>, o: Options): (blocks: Option<seq<Run>>)
    ensures blocks.Some? ==> |blocks.value| == |entries|
  {
    if entries == [] then Some([])
    else
      var n := |entries| - 1;
      var before := VerifiedBlocks(b, entries[..n], filter, o);
      if before.None? then None else
      var block := BlockAt(b, entries[n], o);
      if block.None? || !MayComeNext(before.value, entries[n], block.value, filter) then None
      else Some(before.value + [block.value])
  }

  /** The i-th entry leads to the i-th block, whose keys the filter admits. */
  ghost predicate Indexed(b: Bytes, e: IndexEntry, block: Run, filter: Option<Bloom.Filter>, o: Options) {
    && BlockAt(b, e, o) == Some(block) && block != [] && block[0].key == e.firstKey && Admits(filter, block)
  }

  ghost predicate AllIndexed(b: Bytes, entries: seq<IndexEntry>, blocks: seq<Run>, filter: Option<Bloom.Filter>, o: Options) {
    |blocks| == |entries| && forall i :: 0 <= i < |entries| ==> Indexed(b, entries[i], blocks[i], filter, o)
  }

  /** The last record of all is the last record of the last block. */
  ghost predicate EndsAlike(blocks: seq<Run>) {
    blocks != [] ==>
      var run, last := Flatten(blocks), blocks[|blocks| - 1];
      last != [] && run != [] && run[|run| - 1] == last[|last| - 1]
  }

  lemma {:induction false} VerifiedParts(b: Bytes, entries: seq<IndexEntry>, filter: Option<Bloom.Filter>, o: Options)
    requires VerifiedBlocks(b, entries, filter, o).Some?
    ensures var blocks := VerifiedBlocks(b, entries, filter, o).value;
            && AllIndexed(b, entries, blocks, filter, o) && Sorted(Flatten(blocks)) && AllEncodable(Flatten(blocks), o)
            && EndsAlike(blocks)
  {
    hide BlockAt, Admits, Sorted, AllEncodable, Less;
    if entries == [] {
      NothingSorted(o);
    } else {
      var n := |entries| - 1;
      VerifiedParts(b, entries[..n], filter, o);
      var before, block := VerifiedBlocks(b, entries[..n], filter, o).value, BlockAt(b, entries[n], o).value;
      BlockAtParts(b, entries[n], o);
      FlattenLast(before, block);
      SortedAfter(Flatten(before), block);
      EncodableAfter(Flatten(before), block, o);
      IndexedLast(b, entries, before, block, filter, o);
    }
  }

  lemma IndexedLast(b: Bytes, entries: seq<IndexEntry>, before: seq<Run>, block: Run, filter: Option<Bloom.Filter>, o: Options)
    requires entries != [] && AllIndexed(b, entries[..|entries| - 1], before, filter, o)
    requires Indexed(b, entries[|entries| - 1], block, filter, o)
    ensures AllIndexed(b, entries, before + [block], filter, o)
  {
    hide Indexed;
    var n, blocks := |entries| - 1, before + [block];
    forall i | 0 <= i < |entries| ensures Indexed(b, entries[i], blocks[i], filter, o) {
      assert i < n ==> entries[..n][i] == entries[i];
    }
  }

  lemma NothingSorted(o: Options)
    ensures Sorted([]) && AllEncodable([], o)
  {
  }

  lemma BlockAtParts(b: Bytes, e: IndexEntry, o: Options)
    requires BlockAt(b, e, o).Some?
    ensures var block := BlockAt(b, e, o).value; block != [] && Sorted(block) && AllEncodable(block, o)
  {
    hide DecodeBlock, Sorted, AllEncodable;
    BlockBytesOfDecoded(b[e.offset..e.offset + e.size], o);
  }

  lemma SortedAfter(a: Run, b: Run)
    requires Sorted(a) && Sorted(b) && b != [] && (a != [] ==> Less(a[|a| - 1].key, b[0].key))
    ensures Sorted(a + b)
  {
    var all := a + b;
    forall i, j | 0 <= i < j < |all| ensures Less(all[i].key, all[j].key) {
      if i < |a| <= j {
        assert i < |a| - 1 ==> Less(a[i].key, a[|a| - 1].key);
        assert j > |a| ==> Less(b[0].key, b[j - |a|].key);
      }
    }
  }

  lemma EncodableAfter(a: Run, b: Run, o: Options)
    requires AllEncodable(a, o) && AllEncodable(b, o)
    ensures AllEncodable(a + b, o)
  {
    hide Encodable;
  }

  /** Blocks that agree with the index and are sorted throughout are verified. */
  lemma {:induction false} VerifiedFrom(b: Bytes, entries: seq<IndexEntry>, blocks: seq<Run>, filter: Option<Bloom.Filter>, o: Options)
    requires AllIndexed(b, entries, blocks, filter, o) && Sorted(Flatten(blocks))
    ensures VerifiedBlocks(b, entries, filter, o) == Some(blocks)
    decreases |entries|
  {
    hide BlockAt, Admits, Less, Sorted;
    if entries != [] {
      var n := |entries| - 1;
      var before, block := blocks[..n], blocks[n];
      assert Indexed(b, entries[n], blocks[n], filter, o);
      assert blocks == before + [block];
      SortedParts(Flatten(before), block);
      forall i | 0 <= i < n ensures Indexed(b, entries[..n][i], before[i], filter, o) {
        assert Indexed(b, entries[i], blocks[i], filter, o);
      }
      VerifiedFrom(b, entries[..n], before, filter, o);
      if n > 0 {
        assert Indexed(b, entries[n - 1], blocks[n - 1], filter, o);
        var previous := before[n - 1];
        FlattenMembers(before, n - 1, previous[|previous| - 1]);
        assert block[0] in block;
      }
    }
  }

  // ----- Opening -------------------------------------------------------------------------------------

  datatype FilterRegion = NoFilter | BadFilter | Filtered(filter: Bloom.Filter)
  {
    function ToOption(): Option<Bloom.Filter> {
      if Filtered? then Some(filter) else None
    }
  }

  function ReadFilter(section: Bytes, records: nat): FilterRegion {
    if section == [] then NoFilter else
    var f := Bloom.DecodeFilter(section);
    if f.None? || f.value.keyCount != records then BadFilter else Filtered(f.value)
  }

  /** Header and footer, in agreement with each other and with the file's size. */
  function ReadLayout(b: Bytes, o: Options): (f: Option<Footer>)
    ensures f.Some? ==>
              && |b| == f.value.fileSize && RegionsOk(f.value, o)
              && f.value.bloomOffset + f.value.bloomSize + TABLE_FOOTER_SIZE == |b|
  {
    if |b| < TABLE_HEADER_SIZE + TABLE_INDEX_HEADER_SIZE + TABLE_FOOTER_SIZE then None else
    var h := ReadHeader(b[..TABLE_HEADER_SIZE]);
    if h.None? then None else
    var f := ReadFooter(b[|b| - TABLE_FOOTER_SIZE..], |b|, h.value);
    if f.None? || !RegionsOk(f.value, o) then None else f
  }

  /** MaximumBlockSize. */
  function MaximumBlockSize(o: Options): nat {
    var record := WAL_HEADER_SIZE + o.maxKeySize + o.maxValueSize;
    TABLE_BLOCK_HEADER_SIZE + if o.blockSize < record then record else o.blockSize
  }

  function LimitsOf(dataEnd: nat, o: Options): Limits {
    Limits(o.maxKeySize, MaximumBlockSize(o), dataEnd)
  }

  function ReadIndex(region: Bytes, blocks: nat, dataEnd: nat, o: Options): Option<seq<IndexEntry>> {
    if |region| < TABLE_INDEX_HEADER_SIZE || !IndexRegionOk(region, blocks) then None
    else DecodeEntries(region[TABLE_INDEX_HEADER_SIZE..], blocks, TABLE_HEADER_SIZE, None, LimitsOf(dataEnd, o))
  }

  /** The footer's summary is that of the records. */
  predicate SummaryAgrees(f: Footer, run: Run) {
    && run != [] && |run| == f.records
    && MinimumSequence(run) == f.minimumSequence && MaximumSequence(run) == f.maximumSequence
  }

  function OpenTable(b: Bytes, o: Options): (rd: Option<Reader>) {
    var layout := ReadLayout(b, o);
    if layout.None? then None else
    var f := layout.value;
    var filter := ReadFilter(b[f.bloomOffset..f.bloomOffset + f.bloomSize], f.records);
    if filter.BadFilter? then None else
    var entries := ReadIndex(b[f.indexOffset..f.indexOffset + f.indexSize], f.blocks, f.indexOffset, o);
    if entries.None? then None else
    var blocks := VerifiedBlocks(b, entries.value, filter.ToOption(), o);
    if blocks.None? || !SummaryAgrees(f, Flatten(blocks.value)) then None
    else Some(Reader(SummaryOf(f.generation, Flatten(blocks.value), |b|), b, entries.value, filter.ToOption()))
  }

  /** A reader that Open returned. */
  ghost predicate Opened(rd: Reader, o: Options) {
    OpenTable(rd.file, o) == Some(rd)
  }

  /** The records of a table, in key order. */
  ghost function Contents(rd: Reader, o: Options): Run {
    var blocks := VerifiedBlocks(rd.file, rd.index, rd.filter, o);
    if blocks.None? then [] else Flatten(blocks.value)
  }

  lemma OpenTableOpened(b: Bytes, o: Options)
    requires OpenTable(b, o).Some?
    ensures Opened(OpenTable(b, o).value, o)
  {
    hide VerifiedBlocks, ReadLayout, ReadFilter, ReadIndex, SummaryAgrees, Flatten;
  }

  /** Opening accepts a file only if its summary is exactly that of its records, which are sorted and valid. */
  lemma OpenedDescribes(rd: Reader, o: Options)
    requires Opened(rd, o)
    ensures Describes(rd.summary, Contents(rd, o)) && AllEncodable(Contents(rd, o), o)
    ensures rd.summary.fileSize == |rd.file|
  {
    hide VerifiedBlocks, ReadLayout, ReadFilter, ReadIndex, Flatten, MinimumSequence, MaximumSequence;
    VerifiedParts(rd.file, rd.index, rd.filter, o);
  }

  // ----- The bytes of a table ------------------------------------------------------------------------

  ghost function Chunks(blocks: seq<Run>): (chunks: seq<Bytes>)
    ensures |chunks| == |blocks| && forall i :: 0 <= i < |chunks| ==> chunks[i] == BlockBytes(blocks[i])
  {
    seq(|blocks|, i requires 0 <= i < |blocks| => BlockBytes(blocks[i]))
  }

  ghost function FirstKeys(blocks: seq<Run>): (keys: seq<Key>)
    ensures |keys| == |blocks| && forall i :: 0 <= i < |keys| && blocks[i] != [] ==> keys[i] == blocks[i][0].key
  {
    seq(|blocks|, i requires 0 <= i < |blocks| => if blocks[i] == [] then [] else blocks[i][0].key)
  }

  ghost function DataOf(run: Run, o: Options): Bytes {
    Joined(Chunks(Partition(run, o)))
  }

  ghost function IndexOf(run: Run, o: Options): seq<IndexEntry> {
    EntriesOf(FirstKeys(Partition(run, o)), Chunks(Partition(run, o)), TABLE_HEADER_SIZE)
  }

  function KeysOf(run: Run): (keys: seq<Bytes>)
    ensures |keys| == |run| && forall i :: 0 <= i < |run| ==> keys[i] == run[i].key
  {
    seq(|run|, i requires 0 <= i < |run| => run[i].key)
  }

  function EmptyFilter(bits: nat, hashes: nat): Bloom.Filter {
    Bloom.Filter(bits, hashes, 0, seq(bits / 8, _ => 0))
  }

  /** The filter over a run's keys, if filters are on and one of that size is allowed. */
  ghost function FilterOf(run: Run, o: Options): (filter: Option<Bloom.Filter>)
    requires o.SizingOk(|run|) && |run| <= MAX64
    ensures filter.Some? ==> Bloom.ShapeOk(filter.value) && filter.value.bitCount != 0 && filter.value.keyCount == |run|
  {
    if o.bloomEnabled && o.bloomSizing(|run|).Shape? then
      var shape := o.bloomSizing(|run|);
      Some(Bloom.AddedAll(EmptyFilter(shape.bitCount, shape.hashCount), KeysOf(run)))
    else None
  }

  function FilterSection(filter: Option<Bloom.Filter>): Bytes {
    if filter.None? then [] else Bloom.FilterBytes(filter.value)
  }

  ghost function FooterOf(g: nat, run: Run, o: Options): Footer
    requires run != [] && o.SizingOk(|run|) && |run| <= MAX64
  {
    var data, index := |DataOf(run, o)|, TABLE_INDEX_HEADER_SIZE + |IndexPayload(IndexOf(run, o))|;
    var bloom := |FilterSection(FilterOf(run, o))|;
    var end := TABLE_HEADER_SIZE + data + index + bloom;
    Footer(end + TABLE_FOOTER_SIZE, g, |run|, MinimumSequence(run), MaximumSequence(run),
           TABLE_HEADER_SIZE, data, TABLE_HEADER_SIZE + data, index, TABLE_HEADER_SIZE + data + index, bloom,
           |Partition(run, o)|)
  }

  /** The runs EncodeTable accepts: every count and size fits its field, and the index and the filter their limits. */
  ghost predicate TableEncodable(g: nat, run: Run, o: Options) {
    && run != [] && |run| <= MAX64 && 0 < g <= MAX64 && o.SizingOk(|run|)
    && |Partition(run, o)| <= MAX32
    && (forall i :: 0 <= i < |Partition(run, o)| ==> |BlockBytes(Partition(run, o)[i])| <= MAX32)
    && TABLE_INDEX_HEADER_SIZE + |IndexPayload(IndexOf(run, o))| <= MAXIMUM_INDEX_SIZE
    && (o.bloomEnabled ==> o.bloomSizing(|run|).Shape?)
    && FooterOf(g, run, o).fileSize <= MAX64
  }

  lemma TableEncodableParts(g: nat, run: Run, o: Options)
    requires TableEncodable(g, run, o)
    ensures g != 0 && run != []
  {
    hide Partition, BlockBytes, IndexPayload, IndexOf, FooterOf;
  }

  ghost function TableBytes(g: nat, run: Run, o: Options): Bytes {
    if !TableEncodable(g, run, o) then []
    else
      Assembled(HeaderBytes(TableHeader(g, |run|, |Partition(run, o)|)), DataOf(run, o),
                IndexBytes(IndexPayload(IndexOf(run, o)), |Partition(run, o)|),
                FilterSection(FilterOf(run, o)), FooterBytes(FooterOf(g, run, o)))
  }

  function Assembled(header: Bytes, data: Bytes, index: Bytes, bloom: Bytes, footer: Bytes): Bytes {
    header + data + index + bloom + footer
  }

  lemma AssembledParts(header: Bytes, data: Bytes, index: Bytes, bloom: Bytes, footer: Bytes)
    ensures var b := Assembled(header, data, index, bloom, footer);
            var i := |header| + |data|;
            && |b| == i + |index| + |bloom| + |footer|
            && b[..|header|] == header && b[|header|..i] == data && b[i..i + |index|] == index
            && b[i + |index|..i + |index| + |bloom|] == bloom && b[|b| - |footer|..] == footer
  {
  }

  /** The parts of a table file are where its footer says. */
  lemma TableBytesParts(g: nat, run: Run, o: Options)
    requires TableEncodable(g, run, o)
    ensures var b, f := TableBytes(g, run, o), FooterOf(g, run, o);
            && |b| == f.fileSize && f.dataOffset == TABLE_HEADER_SIZE && f.dataSize == |DataOf(run, o)|
            && f.indexOffset == TABLE_HEADER_SIZE + f.dataSize && f.bloomOffset == f.indexOffset + f.indexSize
            && |b| == f.bloomOffset + f.bloomSize + TABLE_FOOTER_SIZE
            && f.indexSize == TABLE_INDEX_HEADER_SIZE + |IndexPayload(IndexOf(run, o))|
            && f.bloomSize == |FilterSection(FilterOf(run, o))|
            && b[..TABLE_HEADER_SIZE] == HeaderBytes(TableHeader(g, |run|, |Partition(run, o)|))
            && b[f.dataOffset..f.indexOffset] == DataOf(run, o)
            && b[f.indexOffset..f.bloomOffset] == IndexBytes(IndexPayload(IndexOf(run, o)), |Partition(run, o)|)
            && b[f.bloomOffset..f.bloomOffset + f.bloomSize] == FilterSection(FilterOf(run, o))
            && b[|b| - TABLE_FOOTER_SIZE..] == FooterBytes(f)
            && f.generation == g && f.records == |run| && f.blocks == |Partition(run, o)|
            && f.minimumSequence == MinimumSequence(run) && f.maximumSequence == MaximumSequence(run)
  {
    hide HeaderBytes, DataOf, IndexBytes, FilterSection, FooterBytes, Assembled, Partition, IndexOf, IndexPayload, FilterOf,
         MinimumSequence, MaximumSequence, BlockBytes;
    AssembledParts(HeaderBytes(TableHeader(g, |run|, |Partition(run, o)|)), DataOf(run, o),
                   IndexBytes(IndexPayload(IndexOf(run, o)), |Partition(run, o)|),
                   FilterSection(FilterOf(run, o)), FooterBytes(FooterOf(g, run, o)));
  }

  // ----- A table reads back ----------------------------------------------------------------------------

  /** What a run must satisfy to become a table. */
  ghost predicate Tabular(g: nat, run: Run, o: Options) {
    TableEncodable(g, run, o) && o.Valid() && Sorted(run) && AllEncodable(run, o)
  }

  lemma SequencesInWidth(run: Run, o: Options)
    requires run != [] && AllEncodable(run, o)
    ensures 0 < MinimumSequence(run) <= MaximumSequence(run) <= MAX64
  {
    var least := MinimumHolder(run);
    var most := MaximumHolder(run);
    assert Encodable(least, o) && Encodable(most, o);
    hide MinimumSequence, MaximumSequence;
  }

  /** Every block of a table is within the limits that its reader imposes. */
  lemma TableChunksOk(g: nat, run: Run, o: Options, dataEnd: nat)
    requires Tabular(g, run, o)
    ensures ChunksOk(FirstKeys(Partition(run, o)), Chunks(Partition(run, o)), LimitsOf(dataEnd, o))
  {
    hide *;
    PartitionOk(run, o);
    TabularParts(g, run, o);
    var blocks: seq<Run> := Partition(run, o);
    forall i | 0 <= i < |blocks|
      ensures blocks[i] != [] && 0 < |blocks[i][0].key| <= o.maxKeySize
      ensures TABLE_BLOCK_HEADER_SIZE <= |BlockBytes(blocks[i])| <= MaximumBlockSize(o)
    {
      NonemptyBlock(blocks[i], o);
      FlattenMembers(blocks, i, blocks[i][0]);
      BlockWithin(blocks[i], o, run);
    }
    forall i, j | 0 <= i < j < |blocks| ensures Less(blocks[i][0].key, blocks[j][0].key) {
      FlattenApart(blocks, i, j, blocks[i][0], blocks[j][0]);
    }
    PartsChunks(blocks, dataEnd, o);
  }

  lemma TabularParts(g: nat, run: Run, o: Options)
    requires Tabular(g, run, o)
    ensures TableEncodable(g, run, o) && o.Valid() && Sorted(run) && AllEncodable(run, o) && run != []
    ensures |run| <= MAX64 && 0 < g <= MAX64 && o.SizingOk(|run|) && |Partition(run, o)| <= MAX32
    ensures forall i :: 0 <= i < |Partition(run, o)| ==> |BlockBytes(Partition(run, o)[i])| <= MAX32
    ensures TABLE_INDEX_HEADER_SIZE + |IndexPayload(IndexOf(run, o))| <= MAXIMUM_INDEX_SIZE
    ensures FooterOf(g, run, o).fileSize <= MAX64
    ensures o.bloomEnabled ==> o.bloomSizing(|run|).Shape?
  {
    hide Sorted, AllEncodable, Partition, IndexOf, IndexPayload, BlockBytes, FooterOf;
  }

  lemma NonemptyBlock(block: Run, o: Options)
    requires BlockSizeOk(block, o)
    ensures block != []
  {
  }

  lemma BlockWithin(block: Run, o: Options, run: Run)
    requires BlockSizeOk(block, o) && AllEncodable(run, o) && block != [] && block[0] in run
    ensures TABLE_BLOCK_HEADER_SIZE <= |BlockBytes(block)| <= MaximumBlockSize(o) && 0 < |block[0].key| <= o.maxKeySize
  {
    hide BlockBytes, LogBytes;
    assert Encodable(block[0], o);
  }

  lemma PartsChunks(blocks: seq<Run>, dataEnd: nat, o: Options)
    requires forall i :: 0 <= i < |blocks| ==>
               && blocks[i] != [] && 0 < |blocks[i][0].key| <= o.maxKeySize
               && TABLE_BLOCK_HEADER_SIZE <= |BlockBytes(blocks[i])| <= MaximumBlockSize(o)
    requires forall i, j :: 0 <= i < j < |blocks| ==> Less(blocks[i][0].key, blocks[j][0].key)
    ensures ChunksOk(FirstKeys(blocks), Chunks(blocks), LimitsOf(dataEnd, o))
  {
    hide BlockBytes, Less;
  }

  lemma {:induction false} IndexPayloadBound(entries: seq<IndexEntry>, at: nat, previous: Option<Key>, l: Limits)
    requires EntriesOk(entries, at, previous, l)
    ensures |IndexPayload(entries)| <= |entries| * (ENTRY_FIXED_SIZE + l.maxKeySize)
    decreases |entries|
  {
    hide EntryBytes, Less;
    if entries != [] {
      IndexPayloadBound(entries[1..], at + entries[0].size, Some(entries[0].firstKey), l);
      var n := |entries| - 1;
      assert (n + 1) * (ENTRY_FIXED_SIZE + l.maxKeySize) == n * (ENTRY_FIXED_SIZE + l.maxKeySize) + (ENTRY_FIXED_SIZE + l.maxKeySize);
    }
  }

  /** The index that the file holds is accepted. */
  lemma TableIndexOk(g: nat, run: Run, o: Options)
    requires Tabular(g, run, o)
    ensures var f := FooterOf(g, run, o);
            && ReadIndex(IndexBytes(IndexPayload(IndexOf(run, o)), |Partition(run, o)|), |Partition(run, o)|,
                         TABLE_HEADER_SIZE + |DataOf(run, o)|, o) == Some(IndexOf(run, o))
            && |IndexPayload(IndexOf(run, o))| <= |Partition(run, o)| * (ENTRY_FIXED_SIZE + o.maxKeySize)
  {
    hide *;
    TabularParts(g, run, o);
    var blocks := Partition(run, o);
    var keys, chunks, end := FirstKeys(blocks), Chunks(blocks), TABLE_HEADER_SIZE + |DataOf(run, o)|;
    TableChunksOk(g, run, o, end);
    IndexIs(run, o);
    LimitsAre(end, o);
    EntriesOfOk(keys, chunks, TABLE_HEADER_SIZE, None, LimitsOf(end, o));
    FooterEnds(g, run, o);
    forall i | 0 <= i < |IndexOf(run, o)| ensures IndexOf(run, o)[i].size <= MAX32 {
      EntryPoints(keys, chunks, TABLE_HEADER_SIZE, i);
    }
    DecodeIndexPayload(IndexOf(run, o), TABLE_HEADER_SIZE, None, LimitsOf(end, o));
    IndexPayloadBound(IndexOf(run, o), TABLE_HEADER_SIZE, None, LimitsOf(end, o));
    IndexBytesOk(IndexPayload(IndexOf(run, o)), |blocks|);
    IndexReads(IndexBytes(IndexPayload(IndexOf(run, o)), |blocks|), |blocks|, end, o);
  }

  lemma IndexIs(run: Run, o: Options)
    ensures IndexOf(run, o) == EntriesOf(FirstKeys(Partition(run, o)), Chunks(Partition(run, o)), TABLE_HEADER_SIZE)
    ensures DataOf(run, o) == Joined(Chunks(Partition(run, o))) && |IndexOf(run, o)| == |Partition(run, o)|
  {
    hide Partition, Joined, EntriesOf, BlockBytes;
  }

  lemma LimitsAre(dataEnd: nat, o: Options)
    ensures LimitsOf(dataEnd, o).dataEnd == dataEnd && LimitsOf(dataEnd, o).maxKeySize == o.maxKeySize
    ensures o.Valid() ==> LimitsOf(dataEnd, o).maxKeySize <= MAX32
  {
  }

  lemma FooterEnds(g: nat, run: Run, o: Options)
    requires run != [] && o.SizingOk(|run|) && |run| <= MAX64
    ensures TABLE_HEADER_SIZE + |DataOf(run, o)| <= FooterOf(g, run, o).fileSize
  {
    hide DataOf, IndexPayload, IndexOf, FilterSection, FilterOf, Partition, MinimumSequence, MaximumSequence;
  }

  lemma IndexReads(region: Bytes, blocks: nat, dataEnd: nat, o: Options)
    requires |region| >= TABLE_INDEX_HEADER_SIZE && IndexRegionOk(region, blocks)
    ensures ReadIndex(region, blocks, dataEnd, o) ==
            DecodeEntries(region[TABLE_INDEX_HEADER_SIZE..], blocks, TABLE_HEADER_SIZE, None, LimitsOf(dataEnd, o))
  {
    hide IndexRegionOk, DecodeEntries;
  }

  /** The filter of a table admits all its keys. */
  lemma FilterAdmits(run: Run, o: Options, r: Record)
    requires o.SizingOk(|run|) && |run| <= MAX64 && r in run && FilterOf(run, o).Some?
    ensures Bloom.MayContain(FilterOf(run, o).value, r.key)
  {
    var shape := o.bloomSizing(|run|);
    var k :| 0 <= k < |run| && run[k] == r;
    assert Bloom.ShapeOk(EmptyFilter(shape.bitCount, shape.hashCount));
    Bloom.NoFalseNegative(EmptyFilter(shape.bitCount, shape.hashCount), KeysOf(run), k);
    hide Bloom.MayContain, Bloom.AddedAll, Bloom.ShapeOk;
    assert KeysOf(run)[k] == r.key;
  }

  /** Each block lies where the index says. */
  lemma BlockThere(b: Bytes, run: Run, o: Options, i: nat)
    requires i < |Partition(run, o)| && |b| >= TABLE_HEADER_SIZE + |DataOf(run, o)|
    requires b[TABLE_HEADER_SIZE..TABLE_HEADER_SIZE + |DataOf(run, o)|] == DataOf(run, o)
    ensures i < |IndexOf(run, o)|
    ensures var e := IndexOf(run, o)[i];
            && e.offset + e.size <= |b| && b[e.offset..e.offset + e.size] == BlockBytes(Partition(run, o)[i])
            && (Partition(run, o)[i] != [] ==> e.firstKey == Partition(run, o)[i][0].key)
  {
    hide *;
    IndexIs(run, o);
    var blocks := Partition(run, o);
    EntryPoints(FirstKeys(blocks), Chunks(blocks), TABLE_HEADER_SIZE, i);
    var e := IndexOf(run, o)[i];
    Within(b, TABLE_HEADER_SIZE, DataOf(run, o), e.offset, e.size);
  }

  lemma Within(b: Bytes, start: nat, data: Bytes, offset: nat, size: nat)
    requires start + |data| <= |b| && b[start..start + |data|] == data
    requires start <= offset && offset - start + size <= |data|
    ensures offset + size <= |b| && b[offset..offset + size] == data[offset - start..offset - start + size]
  {
    var part, inner := b[offset..offset + size], data[offset - start..offset - start + size];
    forall k | 0 <= k < size ensures part[k] == inner[k] {
      assert data[offset - start + k] == b[start..start + |data|][offset - start + k] == b[offset + k];
    }
    assert part == inner;
  }

  lemma TableBlockIndexed(g: nat, run: Run, o: Options, i: nat)
    requires Tabular(g, run, o) && i < |Partition(run, o)|
    ensures i < |IndexOf(run, o)|
    ensures Indexed(TableBytes(g, run, o), IndexOf(run, o)[i], Partition(run, o)[i], FilterOf(run, o), o)
  {
    hide *;
    TabularParts(g, run, o);
    TableBytesParts(g, run, o);
    PartitionOk(run, o);
    BlockThere(TableBytes(g, run, o), run, o, i);
    var blocks: seq<Run> := Partition(run, o);
    NonemptyBlock(blocks[i], o);
    FlattenSorted(blocks, i);
    forall r | r in blocks[i] ensures r in run {
      FlattenMembers(blocks, i, r);
    }
    PartEncodable(blocks[i], run, o);
    BlockBytesSize(blocks[i]);
    DecodeBlockBytes(blocks[i], o);
    forall r | r in blocks[i] && FilterOf(run, o).Some? ensures Bloom.MayContain(FilterOf(run, o).value, r.key) {
      FilterAdmits(run, o, r);
    }
    PartsIndexed(TableBytes(g, run, o), IndexOf(run, o)[i], blocks[i], FilterOf(run, o), o);
  }

  lemma BlockBytesSize(block: Run)
    ensures |BlockBytes(block)| == TABLE_BLOCK_HEADER_SIZE + |LogBytes(block)|
  {
    hide LogBytes;
  }

  lemma PartEncodable(part: Run, run: Run, o: Options)
    requires AllEncodable(run, o) && forall r :: r in part ==> r in run
    ensures AllEncodable(part, o)
  {
    hide Encodable;
  }

  lemma PartsIndexed(b: Bytes, e: IndexEntry, block: Run, filter: Option<Bloom.Filter>, o: Options)
    requires e.offset + e.size <= |b| && DecodeBlock(b[e.offset..e.offset + e.size], o) == Some(block)
    requires block != [] && e.firstKey == block[0].key
    requires forall r :: r in block && filter.Some? ==> Bloom.MayContain(filter.value, r.key)
    ensures Indexed(b, e, block, filter, o)
  {
    hide DecodeBlock, Bloom.MayContain;
  }

  lemma TableVerified(g: nat, run: Run, o: Options)
    requires Tabular(g, run, o)
    ensures VerifiedBlocks(TableBytes(g, run, o), IndexOf(run, o), FilterOf(run, o), o) == Some(Partition(run, o))
    ensures Flatten(Partition(run, o)) == run
  {
    hide *;
    TabularParts(g, run, o);
    PartitionOk(run, o);
    IndexIs(run, o);
    forall i | 0 <= i < |IndexOf(run, o)|
      ensures Indexed(TableBytes(g, run, o), IndexOf(run, o)[i], Partition(run, o)[i], FilterOf(run, o), o)
    {
      TableBlockIndexed(g, run, o, i);
    }
    PartsAllIndexed(TableBytes(g, run, o), IndexOf(run, o), Partition(run, o), FilterOf(run, o), o);
    VerifiedFrom(TableBytes(g, run, o), IndexOf(run, o), Partition(run, o), FilterOf(run, o), o);
  }

  lemma PartsAllIndexed(b: Bytes, entries: seq<IndexEntry>, blocks: seq<Run>, filter: Option<Bloom.Filter>, o: Options)
    requires |blocks| == |entries| && forall i :: 0 <= i < |entries| ==> Indexed(b, entries[i], blocks[i], filter, o)
    ensures AllIndexed(b, entries, blocks, filter, o)
  {
    hide Indexed;
  }

  lemma TableFilterReads(run: Run, o: Options)
    requires o.SizingOk(|run|) && |run| <= MAX64
    ensures ReadFilter(FilterSection(FilterOf(run, o)), |run|).ToOption() == FilterOf(run, o)
    ensures !ReadFilter(FilterSection(FilterOf(run, o)), |run|).BadFilter?
    ensures FilterOf(run, o).Some? ==> |FilterSection(FilterOf(run, o))| >= Bloom.HEADER_SIZE
    ensures |FilterSection(FilterOf(run, o))| <= Bloom.HEADER_SIZE + MAXIMUM_BLOOM_FILTER_SIZE
    ensures FilterOf(run, o).None? ==> FilterSection(FilterOf(run, o)) == []
  {
    hide *;
    FilterShape(run, o);
    SectionReads(FilterOf(run, o), |run|);
  }

  lemma FilterShape(run: Run, o: Options)
    requires o.SizingOk(|run|) && |run| <= MAX64
    ensures FilterOf(run, o).Some? ==>
              var f := FilterOf(run, o).value; Bloom.ShapeOk(f) && f.keyCount == |run|
  {
  }

  lemma SectionReads(filter: Option<Bloom.Filter>, records: nat)
    requires filter.Some? ==> Bloom.ShapeOk(filter.value) && filter.value.keyCount == records <= MAX64
    ensures ReadFilter(FilterSection(filter), records).ToOption() == filter
    ensures !ReadFilter(FilterSection(filter), records).BadFilter?
    ensures filter.Some? ==> |FilterSection(filter)| >= Bloom.HEADER_SIZE
    ensures |FilterSection(filter)| <= Bloom.HEADER_SIZE + MAXIMUM_BLOOM_FILTER_SIZE
    ensures filter.None? ==> FilterSection(filter) == []
  {
    if filter.Some? {
      assert |filter.value.bits| <= MAXIMUM_BLOOM_FILTER_SIZE;
      hide Bloom.DecodeFilter, Bloom.FilterBytes, Bloom.ShapeOk;
      Bloom.DecodeFilterBytes(filter.value);
      assert |Bloom.FilterBytes(filter.value)| == Bloom.HEADER_SIZE + |filter.value.bits|;
    }
  }

  lemma TableLayoutReads(g: nat, run: Run, o: Options)
    requires Tabular(g, run, o)
    ensures ReadLayout(TableBytes(g, run, o), o) == Some(FooterOf(g, run, o))
  {
    hide *;
    TabularParts(g, run, o);
    TableBytesParts(g, run, o);
    SequencesInWidth(run, o);
    TableIndexOk(g, run, o);
    TableFilterReads(run, o);
    TableDataNonempty(run, o);
    var f, h := FooterOf(g, run, o), TableHeader(g, |run|, |Partition(run, o)|);
    ReadHeaderBytes(h);
    TableFooterOk(f, h, o);
    ReadFooterBytes(f, h);
    LayoutReads(TableBytes(g, run, o), f, h, o);
  }

  lemma TableDataNonempty(run: Run, o: Options)
    requires run != []
    ensures Partition(run, o) != [] && |DataOf(run, o)| > 0
  {
    hide LogBytes, Joins;
    var chunks := Chunks(Partition(run, o));
    assert Joined(chunks) == chunks[0] + Joined(chunks[1..]);
  }

  lemma TableFooterOk(f: Footer, h: TableHeader, o: Options)
    requires f.generation == h.generation && f.records == h.records && f.blocks == h.blocks
    requires 0 < f.minimumSequence <= f.maximumSequence <= MAX64 && h.generation <= MAX64 && h.records <= MAX64 && h.blocks <= MAX32
    requires f.dataOffset == TABLE_HEADER_SIZE && f.dataSize != 0 && f.fileSize <= MAX64
    requires f.indexOffset == TABLE_HEADER_SIZE + f.dataSize && f.bloomOffset == f.indexOffset + f.indexSize
    requires f.fileSize == f.bloomOffset + f.bloomSize + TABLE_FOOTER_SIZE
    requires TABLE_INDEX_HEADER_SIZE <= f.indexSize <= MAXIMUM_INDEX_SIZE
    requires f.indexSize - TABLE_INDEX_HEADER_SIZE <= f.blocks * (ENTRY_FIXED_SIZE + o.maxKeySize)
    requires f.bloomSize == 0 || f.bloomSize >= Bloom.HEADER_SIZE
    requires f.bloomSize <= Bloom.HEADER_SIZE + MAXIMUM_BLOOM_FILTER_SIZE
    ensures FooterInWidth(f) && FooterAgrees(f, f.fileSize, h) && RegionsOk(f, o)
  {
  }

  lemma LayoutReads(b: Bytes, f: Footer, h: TableHeader, o: Options)
    requires |b| == f.fileSize && RegionsOk(f, o) && |b| >= TABLE_HEADER_SIZE + TABLE_FOOTER_SIZE
    requires ReadHeader(b[..TABLE_HEADER_SIZE]) == Some(h)
    requires ReadFooter(b[|b| - TABLE_FOOTER_SIZE..], f.fileSize, h) == Some(f)
    ensures ReadLayout(b, o) == Some(f)
  {
    hide ReadHeader, ReadFooter;
  }

  /** A table that EncodeTable builds is accepted by Open and reads back as the records it was built from. */
  lemma OpenTableBytes(g: nat, run: Run, o: Options)
    requires TableEncodable(g, run, o) && o.Valid() && Sorted(run) && run != [] && AllEncodable(run, o)
    ensures var b := TableBytes(g, run, o);
            && 0 < |b| <= MAX64 && |run| <= |b|
            && OpenTable(b, o) == Some(Reader(SummaryOf(g, run, |b|), b, IndexOf(run, o), FilterOf(run, o)))
            && Contents(OpenTable(b, o).value, o) == run
  {
    hide *;
    PartsTabular(g, run, o);
    TabularParts(g, run, o);
    TableBytesParts(g, run, o);
    TableLayoutReads(g, run, o);
    TableIndexOk(g, run, o);
    TableFilterReads(run, o);
    TableVerified(g, run, o);
    DataAtLeast(run, o);
    OpensAs(TableBytes(g, run, o), FooterOf(g, run, o), IndexOf(run, o), FilterOf(run, o), Partition(run, o), run, o);
  }

  lemma PartsTabular(g: nat, run: Run, o: Options)
    requires TableEncodable(g, run, o) && o.Valid() && Sorted(run) && AllEncodable(run, o)
    ensures Tabular(g, run, o)
  {
    hide TableEncodable, Sorted, AllEncodable;
  }

  lemma OpensAs(
    b: Bytes, f: Footer, entries: seq<IndexEntry>, filter: Option<Bloom.Filter>, blocks: seq<Run>, run: Run, o: Options)
    requires ReadLayout(b, o) == Some(f) && run != [] && Flatten(blocks) == run && |b| == f.fileSize
    requires f.bloomOffset + f.bloomSize <= |b| && f.bloomOffset == f.indexOffset + f.indexSize
    requires ReadFilter(b[f.bloomOffset..f.bloomOffset + f.bloomSize], f.records).ToOption() == filter
    requires !ReadFilter(b[f.bloomOffset..f.bloomOffset + f.bloomSize], f.records).BadFilter?
    requires ReadIndex(b[f.indexOffset..f.bloomOffset], f.blocks, f.indexOffset, o) == Some(entries)
    requires VerifiedBlocks(b, entries, filter, o) == Some(blocks)
    requires f.records == |run| && f.minimumSequence == MinimumSequence(run) && f.maximumSequence == MaximumSequence(run)
    ensures OpenTable(b, o) == Some(Reader(SummaryOf(f.generation, run, |b|), b, entries, filter))
    ensures Contents(OpenTable(b, o).value, o) == run
  {
    hide ReadLayout, ReadFilter, ReadIndex, VerifiedBlocks, Flatten, MinimumSequence, MaximumSequence;
  }

  /** A table is at least as long as it has records. */
  lemma DataAtLeast(run: Run, o: Options)
    ensures |DataOf(run, o)| >= |run|
  {
    hide *;
    PartitionOk(run, o);
    IndexIs(run, o);
    JoinedAtLeast(Partition(run, o));
  }

  lemma {:induction false} JoinedAtLeast(blocks: seq<Run>)
    ensures |Joined(Chunks(blocks))| >= |Flatten(blocks)|
  {
    hide *;
    if blocks == [] {
      NoChunks();
    } else {
      var n := |blocks| - 1;
      JoinedAtLeast(blocks[..n]);
      assert blocks == blocks[..n] + [blocks[n]];
      FlattenLast(blocks[..n], blocks[n]);
      ChunksAppend(blocks[..n], blocks[n]);
      JoinedAppend(Chunks(blocks[..n]), BlockBytes(blocks[n]));
      ChunkAtLeast(blocks[n]);
    }
  }

  lemma NoChunks()
    ensures Joined(Chunks([])) == [] && Flatten([]) == []
  {
  }

  lemma ChunksAppend(blocks: seq<Run>, block: Run)
    ensures Chunks(blocks + [block]) == Chunks(blocks) + [BlockBytes(block)]
  {
    hide *;
    var a, b := Chunks(blocks + [block]), Chunks(blocks) + [BlockBytes(block)];
    ChunksAre(blocks);
    ChunksAre(blocks + [block]);
    assert forall i :: 0 <= i < |a| ==> a[i] == b[i];
  }

  lemma ChunksAre(blocks: seq<Run>)
    ensures |Chunks(blocks)| == |blocks| && forall i :: 0 <= i < |blocks| ==> Chunks(blocks)[i] == BlockBytes(blocks[i])
  {
    hide BlockBytes;
  }

  lemma FirstKeysAppend(blocks: seq<Run>, block: Run)
    requires block != []
    ensures FirstKeys(blocks + [block]) == FirstKeys(blocks) + [block[0].key]
  {
  }

  lemma ChunkAtLeast(block: Run)
    ensures |BlockBytes(block)| >= |block|
  {
    hide LogBytes;
    LogBytesSize(block);
  }
}
