/** Every byte of a table file is under some checksum that Open verifies (src/table.cpp:369-669). */
module TableDamage {
  import opened Coding
  import opened Configuration
  import opened Keys
  import opened Layout
  import opened Regions
  import opened Runs
  import opened Summaries
  import opened WalLog
  import opened Blocks
  import opened SparseIndex
  import opened TableFormat
  import opened Tables
  import Bloom

  lemma DifferInSlice(a: Bytes, b: Bytes, at: nat, from: nat, to: nat)
    requires DifferAt(a, b, at) && from <= at < to <= |a|
    ensures DifferAt(a[from..to], b[from..to], at - from)
  {
    DifferPointwise(a, b, at);
    var x, y := a[from..to], b[from..to];
    assert forall i :: 0 <= i < |x| && i != at - from ==> x[i] == y[i];
  }

  lemma DamagedHeader(a: Bytes, b: Bytes, at: nat)
    requires |a| == TABLE_HEADER_SIZE && DifferAt(a, b, at) && ReadHeader(a).Some?
    ensures ReadHeader(b).None?
  {
    hide Unpack, Sealed;
    OneByteBreaksSeal(a, b, TABLE_HEADER, at);
  }

  lemma DamagedFooter(a: Bytes, b: Bytes, at: nat, fileSize: nat, h: TableHeader)
    requires |a| == TABLE_FOOTER_SIZE && DifferAt(a, b, at) && ReadFooter(a, fileSize, h).Some?
    ensures ReadFooter(b, fileSize, h).None?
  {
    hide Unpack, Sealed, Total;
    FooterTotal();
    OneByteBreaksSeal(a, b, FOOTER, at);
  }

  /** A change to the header or the footer is seen; any other change leaves both as they were. */
  lemma DamagedLayout(a: Bytes, b: Bytes, at: nat, o: Options)
    requires DifferAt(a, b, at) && ReadLayout(a, o).Some?
    ensures var f := ReadLayout(a, o).value;
            ReadLayout(b, o) == if TABLE_HEADER_SIZE <= at < f.bloomOffset + f.bloomSize then Some(f) else None
  {
    hide ReadHeader, ReadFooter, RegionsOk;
    var f, end := ReadLayout(a, o).value, |a| - TABLE_FOOTER_SIZE;
    var h := ReadHeader(a[..TABLE_HEADER_SIZE]);
    assert a[0..TABLE_HEADER_SIZE] == a[..TABLE_HEADER_SIZE] && b[0..TABLE_HEADER_SIZE] == b[..TABLE_HEADER_SIZE];
    assert a[end..|a|] == a[end..] && b[end..|a|] == b[end..];
    if at < TABLE_HEADER_SIZE {
      DifferInSlice(a, b, at, 0, TABLE_HEADER_SIZE);
      DamagedHeader(a[..TABLE_HEADER_SIZE], b[..TABLE_HEADER_SIZE], at);
    } else {
      SameOutside(a, b, at, 0, TABLE_HEADER_SIZE);
      if at < end {
        SameOutside(a, b, at, end, |a|);
      } else {
        DifferInSlice(a, b, at, end, |a|);
        DamagedFooter(a[end..], b[end..], at - end, |a|, h.value);
      }
    }
  }

  lemma DamagedFilter(a: Bytes, b: Bytes, at: nat, records: nat)
    requires DifferAt(a, b, at) && !ReadFilter(a, records).BadFilter?
    ensures ReadFilter(b, records).BadFilter?
  {
    hide Unpack, Sealed;
    OneByteBreaksSeal(a, b, Bloom.HEADER, at);
  }

  lemma DamagedIndex(a: Bytes, b: Bytes, at: nat, blocks: nat, dataEnd: nat, o: Options)
    requires DifferAt(a, b, at) && ReadIndex(a, blocks, dataEnd, o).Some?
    ensures ReadIndex(b, blocks, dataEnd, o).None?
  {
    hide Unpack, Sealed, DecodeEntries;
    OneByteBreaksSeal(a, b, INDEX_HEADER, at);
  }

  lemma DamagedBlock(a: Bytes, b: Bytes, at: nat, o: Options)
    requires DifferAt(a, b, at) && DecodeBlock(a, o).Some?
    ensures DecodeBlock(b, o).None?
  {
    hide Unpack, Sealed, DecodeRecords, Sorted, BlockHeaderOk;
    OneByteBreaksSeal(a, b, BLOCK, at);
  }

  /** The blocks of an index cover the data: every byte lies in one of them. */
  lemma {:induction false} BlockAround(entries: seq<IndexEntry>, start: nat, previous: Option<Key>, l: Limits, at: nat) returns (i: nat)
    requires EntriesOk(entries, start, previous, l) && start <= at < l.dataEnd
    ensures i < |entries| && entries[i].offset <= at < entries[i].offset + entries[i].size
    decreases |entries|
  {
    hide Less;
    if at < start + entries[0].size {
      i := 0;
    } else {
      i := BlockAround(entries[1..], start + entries[0].size, Some(entries[0].firstKey), l, at);
      i := i + 1;
    }
  }

  lemma DamagedData(a: Bytes, b: Bytes, at: nat, entries: seq<IndexEntry>, filter: Option<Bloom.Filter>, l: Limits, o: Options)
    requires DifferAt(a, b, at) && EntriesOk(entries, TABLE_HEADER_SIZE, None, l) && TABLE_HEADER_SIZE <= at < l.dataEnd
    requires VerifiedBlocks(a, entries, filter, o).Some?
    ensures VerifiedBlocks(b, entries, filter, o).None?
  {
    hide *;
    var i := BlockAround(entries, TABLE_HEADER_SIZE, None, l, at);
    var e := entries[i];
    VerifiedBlockAt(a, entries, filter, o, i);
    DifferSizes(a, b, at);
    DifferInSlice(a, b, at, e.offset, e.offset + e.size);
    DamagedBlock(a[e.offset..e.offset + e.size], b[e.offset..e.offset + e.size], at - e.offset, o);
    if VerifiedBlocks(b, entries, filter, o).Some? {
      VerifiedBlockAt(b, entries, filter, o, i);
    }
  }

  lemma DifferSizes(a: Bytes, b: Bytes, at: nat)
    requires DifferAt(a, b, at)
    ensures |a| == |b|
  {
  }

  lemma VerifiedBlockAt(b: Bytes, entries: seq<IndexEntry>, filter: Option<Bloom.Filter>, o: Options, i: nat)
    requires VerifiedBlocks(b, entries, filter, o).Some? && i < |entries|
    ensures entries[i].offset + entries[i].size <= |b|
    ensures DecodeBlock(b[entries[i].offset..entries[i].offset + entries[i].size], o).Some?
  {
    hide VerifiedBlocks, DecodeBlock, Flatten, Admits, Sorted, AllEncodable, EndsAlike;
    VerifiedParts(b, entries, filter, o);
    var blocks := VerifiedBlocks(b, entries, filter, o).value;
    assert Indexed(b, entries[i], blocks[i], filter, o);
  }

  lemma SlicesMove(a: Bytes, b: Bytes, at: nat, from: nat, size: nat)
    requires DifferAt(a, b, at) && from + size <= |a|
    ensures from <= at < from + size ==> DifferAt(a[from..from + size], b[from..from + size], at - from)
    ensures !(from <= at < from + size) ==> a[from..from + size] == b[from..from + size]
  {
    hide DifferAt;
    DifferSizes(a, b, at);
    if from <= at < from + size {
      DifferInSlice(a, b, at, from, from + size);
    } else {
      SameOutside(a, b, at, from, from + size);
    }
  }

  /** No table file stays acceptable when one of its bytes changes. */
  lemma DamagedTable(a: Bytes, b: Bytes, at: nat, o: Options)
    requires OpenTable(a, o).Some? && DifferAt(a, b, at)
    ensures OpenTable(b, o).None?
  {
    hide ReadLayout, ReadFilter, ReadIndex, VerifiedBlocks, SummaryAgrees, Flatten, DifferAt, SummaryOf, EntriesOk, DecodeEntries;
    DifferSizes(a, b, at);
    DamagedLayout(a, b, at, o);
    var f := ReadLayout(a, o).value;
    LayoutParts(a, o);
    if TABLE_HEADER_SIZE <= at < f.bloomOffset + f.bloomSize {
      SlicesMove(a, b, at, f.bloomOffset, f.bloomSize);
      SlicesMove(a, b, at, f.indexOffset, f.indexSize);
      if f.bloomOffset <= at {
        DamagedFilter(a[f.bloomOffset..f.bloomOffset + f.bloomSize], b[f.bloomOffset..f.bloomOffset + f.bloomSize], at - f.bloomOffset, f.records);
      } else if f.indexOffset <= at {
        DamagedIndex(a[f.indexOffset..f.indexOffset + f.indexSize], b[f.indexOffset..f.indexOffset + f.indexSize], at - f.indexOffset,
                     f.blocks, f.indexOffset, o);
      } else {
        var region := a[f.indexOffset..f.indexOffset + f.indexSize];
        var entries := ReadIndex(region, f.blocks, f.indexOffset, o).value;
        IndexCovers(region, f.blocks, f.indexOffset, o);
        var filter := ReadFilter(a[f.bloomOffset..f.bloomOffset + f.bloomSize], f.records);
        DamagedData(a, b, at, entries, filter.ToOption(), LimitsOf(f.indexOffset, o), o);
      }
    }
  }

  lemma LayoutParts(b: Bytes, o: Options)
    requires ReadLayout(b, o).Some?
    ensures var f := ReadLayout(b, o).value;
            && TABLE_HEADER_SIZE < f.indexOffset && f.bloomOffset == f.indexOffset + f.indexSize
            && f.bloomOffset + f.bloomSize + TABLE_FOOTER_SIZE == |b|
  {
    hide ReadHeader, ReadFooter;
  }

  lemma IndexCovers(region: Bytes, blocks: nat, dataEnd: nat, o: Options)
    requires ReadIndex(region, blocks, dataEnd, o).Some?
    ensures EntriesOk(ReadIndex(region, blocks, dataEnd, o).value, TABLE_HEADER_SIZE, None, LimitsOf(dataEnd, o))
    ensures LimitsOf(dataEnd, o).dataEnd == dataEnd
  {
    hide EntriesOk, DecodeEntries, IndexRegionOk;
    DecodedEntriesOk(region[TABLE_INDEX_HEADER_SIZE..], blocks, TABLE_HEADER_SIZE, None, LimitsOf(dataEnd, o));
  }
}
