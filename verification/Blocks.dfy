/** Data blocks: their bytes, how records are divided among them and how they are read (src/table.cpp:133-177, 671-741). */
module Blocks {
  import opened Coding
  import opened Configuration
  import opened Keys
  import opened Layout
  import opened Regions
  import opened Runs
  import opened Wal
  import opened WalLog

  const BLOCK_MAGIC: nat := 0x42444B4D  // "MKDB"
  const BLOCK: Widths := [4, 4, 4, 4]

  // ----- The bytes of a block -------------------------------------------------------------------

  function BlockFields(payloadSize: nat, count: nat): seq<nat> {
    [BLOCK_MAGIC, TABLE_BLOCK_HEADER_SIZE + payloadSize, count, payloadSize]
  }

  function BlockBytes(block: Run): (b: Bytes)
    ensures |b| == TABLE_BLOCK_HEADER_SIZE + |LogBytes(block)|
  {
    Region(BlockFields(|LogBytes(block)|, |block|), BLOCK, LogBytes(block))
  }

  /** Exactly `count` records and nothing after them. */
  function DecodeRecords(rest: Bytes, count: nat, o: Options): (records: Option<Run>)
    ensures records.Some? ==> |records.value| == count
    decreases count
  {
    if count == 0 then
      if rest == [] then Some([]) else None
    else
      var r := DecodeRecord(rest, o);
      if !r.Ok? then None else
      var others := DecodeRecords(rest[RecordSize(r.value)..], count - 1, o);
      if others.None? then None else Some([r.value] + others.value)
  }

  predicate BlockHeaderOk(b: Bytes, f: seq<nat>)
    requires |f| == |BLOCK| && |b| >= TABLE_BLOCK_HEADER_SIZE
  {
    && f[0] == BLOCK_MAGIC && f[1] == |b| && f[2] != 0 && f[3] == |b| - TABLE_BLOCK_HEADER_SIZE
    && f[2] <= f[3] / WAL_HEADER_SIZE
  }

  function DecodeBlock(b: Bytes, o: Options): (block: Option<Run>)
    ensures block.Some? ==> block.value != [] && Sorted(block.value)
  {
    if |b| < TABLE_BLOCK_HEADER_SIZE then None else
    var f := Unpack(b, BLOCK);
    if !BlockHeaderOk(b, f) || !Sealed(b, BLOCK) then None else
    var records := DecodeRecords(b[TABLE_BLOCK_HEADER_SIZE..], f[2], o);
    if records.None? || !Sorted(records.value) then None else records
  }

  lemma {:induction false} LogBytesSize(log: seq<Record>)
    ensures |LogBytes(log)| >= WAL_HEADER_SIZE * |log|
  {
    hide Encoding;
    if log != [] {
      LogBytesSize(log[1..]);
    }
  }

  lemma {:induction false} DecodeLogBytes(log: seq<Record>, o: Options)
    requires AllEncodable(log, o)
    ensures DecodeRecords(LogBytes(log), |log|, o) == Some(log)
  {
    hide Encoding, DecodeRecord, Encodable;
    if log != [] {
      DecodeEncoding(log[0], o, LogBytes(log[1..]));
      DecodeLogBytes(log[1..], o);
      assert LogBytes(log)[RecordSize(log[0])..] == LogBytes(log[1..]);
      assert [log[0]] + log[1..] == log;
    }
  }

  lemma {:induction false} LogBytesOfDecoded(rest: Bytes, count: nat, o: Options)
    requires DecodeRecords(rest, count, o).Some?
    ensures var log := DecodeRecords(rest, count, o).value; LogBytes(log) == rest && AllEncodable(log, o)
    decreases count
  {
    hide Encoding, DecodeRecord, Encodable;
    if count > 0 {
      var r := DecodeRecord(rest, o).value;
      EncodingOfDecoded(rest, o);
      LogBytesOfDecoded(rest[RecordSize(r)..], count - 1, o);
      assert rest == rest[..RecordSize(r)] + rest[RecordSize(r)..];
      var log := DecodeRecords(rest, count, o).value;
      assert log[1..] == DecodeRecords(rest[RecordSize(r)..], count - 1, o).value;
    }
  }

  lemma BlockFits(block: Run)
    requires TABLE_BLOCK_HEADER_SIZE + |LogBytes(block)| <= MAX32
    ensures Fits(BlockFields(|LogBytes(block)|, |block|), BLOCK) && |block| <= |LogBytes(block)| / WAL_HEADER_SIZE
  {
    LogBytesSize(block);
    Capacities();
    hide LogBytes, Capacity;
    assert |LogBytes(block)| / WAL_HEADER_SIZE >= |block|;
  }

  lemma BlockFromFields(block: Run, b: Bytes, o: Options)
    requires block != [] && Sorted(block) && |b| == TABLE_BLOCK_HEADER_SIZE + |LogBytes(block)|
    requires Unpack(b, BLOCK) == BlockFields(|LogBytes(block)|, |block|) && Sealed(b, BLOCK) && b[TABLE_BLOCK_HEADER_SIZE..] == LogBytes(block)
    requires DecodeRecords(LogBytes(block), |block|, o) == Some(block) && |block| <= |LogBytes(block)| / WAL_HEADER_SIZE
    ensures DecodeBlock(b, o) == Some(block)
  {
    hide Unpack, Sealed, LogBytes, DecodeRecords, Sorted;
  }

  /** A block reads back as the records it was made of. */
  lemma DecodeBlockBytes(block: Run, o: Options)
    requires block != [] && Sorted(block) && AllEncodable(block, o)
    requires TABLE_BLOCK_HEADER_SIZE + |LogBytes(block)| <= MAX32
    ensures DecodeBlock(BlockBytes(block), o) == Some(block)
  {
    hide Unpack, Sealed, LogBytes, DecodeRecords, Sorted, DecodeBlock, Region, AllEncodable;
    BlockFits(block);
    DecodeLogBytes(block, o);
    RegionParts(BlockFields(|LogBytes(block)|, |block|), BLOCK, LogBytes(block));
    BlockFromFields(block, BlockBytes(block), o);
  }

  /** Every accepted block is the encoding of what it decodes to, and its records are valid. */
  lemma BlockBytesOfDecoded(b: Bytes, o: Options)
    requires DecodeBlock(b, o).Some?
    ensures var block := DecodeBlock(b, o).value;
            BlockBytes(block) == b && AllEncodable(block, o) && block != [] && Sorted(block)
  {
    hide Unpack, Sealed, DecodeRecords, Sorted, Region, AllEncodable, LogBytes;
    var block := DecodeBlock(b, o).value;
    var f := Unpack(b, BLOCK);
    LogBytesOfDecoded(b[TABLE_BLOCK_HEADER_SIZE..], f[2], o);
    RegionOf(b, BLOCK);
    assert f == BlockFields(|LogBytes(block)|, |block|);
  }

  // ----- Reading a block -------------------------------------------------------------------------

  lemma AppendSorted(run: Run, r: Record)
    requires Sorted(run) && (run != [] ==> Less(run[|run| - 1].key, r.key))
    ensures Sorted(run + [r])
  {
    forall i | 0 <= i < |run| ensures Less(run[i].key, r.key) {
      assert i < |run| - 1 ==> Less(run[i].key, run[|run| - 1].key);
    }
  }

  /** What is left of a block decides the outcome. */
  ghost predicate Decoding(payload: Bytes, count: nat, rest: Bytes, done: Run, o: Options) {
    && |done| <= count && Sorted(done)
    && var others := DecodeRecords(rest, count - |done|, o);
       DecodeRecords(payload, count, o) == if others.None? then None else Some(done + others.value)
  }

  lemma DecodingNext(payload: Bytes, count: nat, rest: Bytes, done: Run, o: Options)
    requires Decoding(payload, count, rest, done, o) && |done| < count
    ensures var r := DecodeRecord(rest, o);
            if !r.Ok? then DecodeRecords(payload, count, o).None?
            else if done != [] && !Less(done[|done| - 1].key, r.value.key) then
              DecodeRecords(payload, count, o).None? || !Sorted(DecodeRecords(payload, count, o).value)
            else Decoding(payload, count, rest[RecordSize(r.value)..], done + [r.value], o)
  {
    hide DecodeRecord, Less, Sorted;
    var r := DecodeRecord(rest, o);
    if r.Ok? {
      var others := DecodeRecords(rest[RecordSize(r.value)..], count - |done| - 1, o);
      if others.Some? {
        assert done + ([r.value] + others.value) == done + [r.value] + others.value;
      }
      if done == [] || Less(done[|done| - 1].key, r.value.key) {
        AppendSorted(done, r.value);
      } else if others.Some? {
        Unsorted(done, r.value, others.value);
      }
    }
  }

  lemma Unsorted(done: Run, r: Record, others: Run)
    requires done != [] && !Less(done[|done| - 1].key, r.key)
    ensures !Sorted(done + [r] + others)
  {
    hide Less;
    var all := done + [r] + others;
    assert all[|done| - 1] == done[|done| - 1] && all[|done|] == r;
  }

  /** ReadBlock: the checks in the order of the source, one record after the other. */
  method ReadBlock(b: Bytes, o: Options) returns (block: Option<Run>)
    ensures block == DecodeBlock(b, o)
  {
    hide Unpack, Sealed, DecodeRecords, Sorted, Decoding, DecodeRecord, Less;
    if |b| < TABLE_BLOCK_HEADER_SIZE {
      return None;
    }
    var f := Unpack(b, BLOCK);
    var sealed_ := CheckRegion(b, BLOCK);
    if !BlockHeaderOk(b, f) || !sealed_ {
      return None;
    }
    var rest, records := b[TABLE_BLOCK_HEADER_SIZE..], [];
    ghost var payload := rest;
    DecodingStart(payload, f[2], o);
    for i := 0 to f[2]
      invariant |records| == i && Decoding(payload, f[2], rest, records, o)
    {
      DecodingNext(payload, f[2], rest, records, o);
      var r := DecodeRecord(rest, o);
      if !r.Ok? || (records != [] && !Less(records[|records| - 1].key, r.value.key)) {
        return None;
      }
      rest, records := rest[RecordSize(r.value)..], records + [r.value];
    }
    DecodingEnd(payload, f[2], rest, records, o);
    if rest != [] {
      return None;
    }
    block := Some(records);
  }

  lemma DecodingStart(payload: Bytes, count: nat, o: Options)
    ensures Decoding(payload, count, payload, [], o)
  {
    hide DecodeRecord;
    var all := DecodeRecords(payload, count, o);
    assert all.Some? ==> [] + all.value == all.value;
  }

  lemma DecodingEnd(payload: Bytes, count: nat, rest: Bytes, done: Run, o: Options)
    requires Decoding(payload, count, rest, done, o) && |done| == count
    ensures DecodeRecords(payload, count, o) == if rest == [] then Some(done) else None
    ensures Sorted(done)
  {
    assert done + [] == done;
  }

  // ----- Dividing records among blocks --------------------------------------------------------------

  /** A record joins the block before it unless that would exceed the block size. */
  predicate Joins(block: Run, r: Record, o: Options) {
    TABLE_BLOCK_HEADER_SIZE + |LogBytes(block)| + RecordSize(r) <= o.blockSize
  }

  function Partition(run: Run, o: Options): (blocks: seq<Run>)
    ensures run != [] ==> blocks != []
  {
    if run == [] then []
    else
      var done, r := Partition(run[..|run| - 1], o), run[|run| - 1];
      if done == [] then [[r]]
      else
        var last := |done| - 1;
        if Joins(done[last], r, o) then done[last := done[last] + [r]] else done + [[r]]
  }

  /** Blocks that hold several records fit the block size; a block of one record may be as large as a record. */
  predicate BlockSizeOk(block: Run, o: Options) {
    && block != []
    && (|block| > 1 ==> |BlockBytes(block)| <= o.blockSize)
    && (|block| == 1 ==> |BlockBytes(block)| == TABLE_BLOCK_HEADER_SIZE + RecordSize(block[0]))
  }

  lemma BlockGrows(block: Run, r: Record)
    ensures |LogBytes(block + [r])| == |LogBytes(block)| + RecordSize(r)
    ensures |LogBytes([r])| == RecordSize(r)
  {
    hide Encoding;
    LogBytesAppend(block, [r]);
    LogBytesOne(r);
  }

  lemma FlattenLast(runs: seq<Run>, last: Run)
    ensures Flatten(runs + [last]) == Flatten(runs) + last
  {
    assert (runs + [last])[..|runs|] == runs;
  }

  /** The blocks are the records in order, none empty, each within its size. */
  lemma {:induction false} PartitionOk(run: Run, o: Options)
    ensures Flatten(Partition(run, o)) == run
    ensures forall i :: 0 <= i < |Partition(run, o)| ==> BlockSizeOk(Partition(run, o)[i], o)
  {
    hide LogBytes, RecordSize, BlockBytes, BlockSizeOk;
    if run != [] {
      var n := |run| - 1;
      var done, r := Partition(run[..n], o), run[n];
      PartitionOk(run[..n], o);
      assert run == run[..n] + [r];
      PartitionStep(done, r, o);
    }
  }

  lemma PartitionStep(done: seq<Run>, r: Record, o: Options)
    requires forall i :: 0 <= i < |done| ==> BlockSizeOk(done[i], o)
    ensures var blocks := if done == [] then [[r]]
                          else if Joins(done[|done| - 1], r, o) then done[|done| - 1 := done[|done| - 1] + [r]]
                          else done + [[r]];
            && Flatten(blocks) == Flatten(done) + [r]
            && forall i :: 0 <= i < |blocks| ==> BlockSizeOk(blocks[i], o)
  {
    hide LogBytes, Flatten, BlockSizeOk;
    OneBlock(r, o);
    if done == [] {
      FlattenOne([r]);
      FlattenNone();
    } else if Joins(done[|done| - 1], r, o) {
      var last := |done| - 1;
      JoinedBlock(done[last], r, o);
      FlattenLast(done[..last], done[last]);
      FlattenLast(done[..last], done[last] + [r]);
      assert done == done[..last] + [done[last]];
      assert done[last := done[last] + [r]] == done[..last] + [done[last] + [r]];
    } else {
      FlattenLast(done, [r]);
    }
  }

  lemma FlattenNone()
    ensures Flatten([]) == []
  {
  }

  lemma FlattenOne(run: Run)
    ensures Flatten([run]) == run
  {
    assert [run][..0] == [];
  }

  lemma OneBlock(r: Record, o: Options)
    ensures BlockSizeOk([r], o)
  {
    hide LogBytes;
    BlockGrows([], r);
  }

  lemma JoinedBlock(block: Run, r: Record, o: Options)
    requires Joins(block, r, o)
    ensures BlockSizeOk(block + [r], o)
  {
    hide LogBytes;
    BlockGrows(block, r);
    if block == [] {
      assert block + [r] == [r];
      OneBlock(r, o);
    }
  }
}
