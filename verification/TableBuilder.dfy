/** Building a table in memory (src/table.cpp:133-177, 188-367). */
module TableBuilder {
  import opened Coding
  import opened Configuration
  import opened Keys
  import opened Layout
  import opened Regions
  import opened Runs
  import opened Wal
  import opened WalLog
  import opened Summaries
  import opened Blocks
  import opened SparseIndex
  import opened TableFormat
  import opened Tables
  import Bloom

  // ----- How the blocks of a prefix relate to those of the run --------------------------------------

  /** The blocks before the last one are final. */
  function Done(blocks: seq<Run>): seq<Run> {
    if blocks == [] then [] else blocks[..|blocks| - 1]
  }

  function Current(blocks: seq<Run>): Run {
    if blocks == [] then [] else blocks[|blocks| - 1]
  }

  lemma PartitionNext(run: Run, i: nat, o: Options)
    requires i < |run|
    ensures var before, after := Partition(run[..i], o), Partition(run[..i + 1], o);
            if before != [] && Joins(Current(before), run[i], o) then
              Done(after) == Done(before) && Current(after) == Current(before) + [run[i]]
            else Done(after) == before && Current(after) == [run[i]]
  {
    hide Joins;
    assert run[..i + 1][..i] == run[..i];
  }

  /** What is finished in a prefix stays finished. */
  lemma {:induction false} DoneStays(run: Run, i: nat, o: Options)
    requires i <= |run|
    ensures |Partition(run[..i], o)| <= |Partition(run, o)|
    ensures forall k :: 0 <= k < |Done(Partition(run[..i], o))| ==> Partition(run, o)[k] == Done(Partition(run[..i], o))[k]
    decreases |run| - i
  {
    hide Partition;
    if i == |run| {
      assert run[..i] == run;
    } else {
      DoneStays(run, i + 1, o);
      PartitionNext(run, i, o);
    }
  }

  lemma PartitionNonempty(run: Run, i: nat, o: Options)
    requires i <= |run|
    ensures Partition(run[..i], o) == [] <==> i == 0
    ensures forall k :: 0 <= k < |Partition(run[..i], o)| ==> Partition(run[..i], o)[k] != []
  {
    hide LogBytes, BlockSizeOk;
    PartitionOk(run[..i], o);
    forall k | 0 <= k < |Partition(run[..i], o)| ensures Partition(run[..i], o)[k] != [] {
      NonemptyBlock(Partition(run[..i], o)[k], o);
    }
  }

  // ----- The state of the builder ---------------------------------------------------------------------

  /** Data and index hold the finished blocks. */
  ghost predicate Holds(data: Bytes, index: seq<IndexEntry>, blocks: seq<Run>) {
    data == Joined(Chunks(blocks)) && index == EntriesOf(FirstKeys(blocks), Chunks(blocks), TABLE_HEADER_SIZE)
  }

  lemma HoldsNothing()
    ensures Holds([], [], [])
  {
    assert Chunks([]) == [] && FirstKeys([]) == [];
  }

  lemma HoldsMore(data: Bytes, index: seq<IndexEntry>, blocks: seq<Run>, block: Run)
    requires Holds(data, index, blocks) && block != []
    ensures Holds(data + BlockBytes(block), index + [IndexEntry(block[0].key, TABLE_HEADER_SIZE + |data|, |BlockBytes(block)|)],
                  blocks + [block])
  {
    hide BlockBytes, Joined, EntriesOf, Chunks, FirstKeys;
    ChunksAppend(blocks, block);
    FirstKeysAppend(blocks, block);
    KeysMatch(blocks);
    JoinedAppend(Chunks(blocks), BlockBytes(block));
    EntriesAppend(FirstKeys(blocks), Chunks(blocks), block[0].key, BlockBytes(block), TABLE_HEADER_SIZE);
  }

  lemma KeysMatch(blocks: seq<Run>)
    ensures |FirstKeys(blocks)| == |Chunks(blocks)| == |blocks|
  {
  }

  /** FinishBlock: seals the current block and starts an empty one. */
  method FinishBlock(data: Bytes, index: seq<IndexEntry>, payload: Bytes, count: nat, firstKey: Key, ghost blocks: seq<Run>, ghost block: Run)
    returns (ok: bool, data': Bytes, index': seq<IndexEntry>)
    requires Holds(data, index, blocks) && block != []
    requires payload == LogBytes(block) && count == |block| && firstKey == block[0].key && |blocks| <= MAX32
    ensures ok <==> |BlockBytes(block)| <= MAX32 && |blocks| < MAX32
    ensures ok ==> Holds(data', index', blocks + [block])
  {
    hide *;
    BlockBytesSize(block);
    HoldsCount(data, index, blocks);
    data', index' := data, index;
    var size := TABLE_BLOCK_HEADER_SIZE + |payload|;
    if size > MAX32 || |index| == MAX32 {
      return false, data, index;
    }
    BlockFieldsCount(|payload|, count);
    var region := PutRegion(BlockFields(|payload|, count), BLOCK, payload);
    BlockBytesAre(block);
    HoldsMore(data, index, blocks, block);
    index' := index + [IndexEntry(firstKey, TABLE_HEADER_SIZE + |data|, size)];
    data' := data + region;
    ok := true;
  }

  lemma HoldsCount(data: Bytes, index: seq<IndexEntry>, blocks: seq<Run>)
    requires Holds(data, index, blocks)
    ensures |index| == |blocks|
  {
    hide BlockBytes;
  }

  lemma BlockFieldsCount(size: nat, count: nat)
    ensures |BlockFields(size, count)| == |BLOCK|
  {
  }

  lemma BlockBytesAre(block: Run)
    ensures BlockBytes(block) == Region(BlockFields(|LogBytes(block)|, |block|), BLOCK, LogBytes(block))
  {
    hide LogBytes, Region;
  }

  // ----- The loop over the records -------------------------------------------------------------------

  /** Every block fits the format's 32-bit fields. */
  ghost predicate BlocksFit(blocks: seq<Run>) {
    |blocks| <= MAX32 && forall k :: 0 <= k < |blocks| ==> |BlockBytes(blocks[k])| <= MAX32
  }

  /** The builder after the first `i` records. */
  ghost predicate Built(run: Run, i: nat, o: Options, data: Bytes, index: seq<IndexEntry>, payload: Bytes, count: nat, firstKey: Key)
    requires i <= |run|
  {
    var blocks := Partition(run[..i], o);
    && Holds(data, index, Done(blocks)) && BlocksFit(Done(blocks))
    && payload == LogBytes(Current(blocks)) && count == |Current(blocks)|
    && (count > 0 ==> firstKey == Current(blocks)[0].key)
  }

  lemma BuiltStart(run: Run, o: Options, key: Key)
    ensures Built(run, 0, o, [], [], [], 0, key)
  {
    HoldsNothing();
    assert run[..0] == [];
  }

  lemma BuiltParts(run: Run, i: nat, o: Options, data: Bytes, index: seq<IndexEntry>, payload: Bytes, count: nat, firstKey: Key)
    requires i <= |run| && Built(run, i, o, data, index, payload, count, firstKey)
    ensures var blocks := Partition(run[..i], o);
            && Holds(data, index, Done(blocks)) && BlocksFit(Done(blocks)) && |Done(blocks)| <= MAX32
            && payload == LogBytes(Current(blocks)) && count == |Current(blocks)|
            && (count > 0 ==> firstKey == Current(blocks)[0].key)
    ensures count == 0 <==> i == 0
    ensures i > 0 ==> Partition(run[..i], o) != []
    ensures i > 0 ==> Partition(run[..i], o) == Done(Partition(run[..i], o)) + [Current(Partition(run[..i], o))]
  {
    hide Holds, Partition, LogBytes, BlockBytes;
    PartitionNonempty(run, i, o);
  }

  /** The record joins the current block. */
  lemma BuiltJoin(run: Run, i: nat, o: Options, data: Bytes, index: seq<IndexEntry>, payload: Bytes, count: nat, firstKey: Key)
    requires i < |run| && Built(run, i, o, data, index, payload, count, firstKey)
    requires count > 0 && TABLE_BLOCK_HEADER_SIZE + |payload| + RecordSize(run[i]) <= o.blockSize
    ensures Built(run, i + 1, o, data, index, payload + Encoding(run[i]), count + 1, firstKey)
  {
    hide *;
    BuiltParts(run, i, o, data, index, payload, count, firstKey);
    PartitionNext(run, i, o);
    var current := Current(Partition(run[..i], o));
    JoinsIs(current, run[i], o);
    LogBytesAppend(current, [run[i]]);
    LogBytesOne(run[i]);
    PartsBuilt(run, i + 1, o, data, index, payload + Encoding(run[i]), count + 1, firstKey);
  }

  lemma JoinsIs(block: Run, r: Record, o: Options)
    ensures Joins(block, r, o) <==> TABLE_BLOCK_HEADER_SIZE + |LogBytes(block)| + RecordSize(r) <= o.blockSize
  {
    hide LogBytes;
  }

  lemma PartsBuilt(run: Run, i: nat, o: Options, data: Bytes, index: seq<IndexEntry>, payload: Bytes, count: nat, firstKey: Key)
    requires i <= |run|
    requires var blocks := Partition(run[..i], o);
             && Holds(data, index, Done(blocks)) && BlocksFit(Done(blocks))
             && payload == LogBytes(Current(blocks)) && count == |Current(blocks)|
             && (count > 0 ==> firstKey == Current(blocks)[0].key)
    ensures Built(run, i, o, data, index, payload, count, firstKey)
  {
    hide Holds, Partition, LogBytes, BlockBytes;
  }

  /** The record starts a new block; what was current is finished. */
  lemma BuiltNew(run: Run, i: nat, o: Options, data: Bytes, index: seq<IndexEntry>)
    requires i < |run| && Holds(data, index, Partition(run[..i], o)) && BlocksFit(Partition(run[..i], o))
    requires Partition(run[..i], o) == [] || !Joins(Current(Partition(run[..i], o)), run[i], o)
    ensures Built(run, i + 1, o, data, index, Encoding(run[i]), 1, run[i].key)
  {
    hide *;
    PartitionNext(run, i, o);
    LogBytesOne(run[i]);
    PartsBuilt(run, i + 1, o, data, index, Encoding(run[i]), 1, run[i].key);
  }

  /** A finished block that does not fit is a block of the whole run. */
  lemma BlockTooLarge(run: Run, i: nat, o: Options)
    requires i < |run| && Partition(run[..i], o) != [] && !Joins(Current(Partition(run[..i], o)), run[i], o)
    ensures BlocksFit(Partition(run, o)) ==>
              |BlockBytes(Current(Partition(run[..i], o)))| <= MAX32 && |Done(Partition(run[..i], o))| < MAX32
  {
    var before := Partition(run[..i], o);
    PartitionNext(run, i, o);
    DoneStays(run, i + 1, o);
    PartitionNonempty(run, i + 1, o);
    hide Partition, BlockBytes, Joins;
    var after := Partition(run[..i + 1], o);
    assert Done(after) == before;
    assert Partition(run, o)[|before| - 1] == before[|before| - 1];
  }

  lemma BlocksFitMore(blocks: seq<Run>, block: Run)
    requires BlocksFit(blocks) && |BlockBytes(block)| <= MAX32 && |blocks| < MAX32
    ensures BlocksFit(blocks + [block])
  {
    hide BlockBytes;
  }

  lemma PartitionFits(run: Run, o: Options)
    requires run != []
    ensures Partition(run, o) == Done(Partition(run, o)) + [Current(Partition(run, o))] && Partition(run, o) != []
    ensures BlocksFit(Partition(run, o)) ==>
              |BlockBytes(Current(Partition(run, o)))| <= MAX32 && |Done(Partition(run, o))| < MAX32
  {
    hide BlockBytes, Joins;
  }

  /** A record and the block it joins stay within 32 bits. */
  lemma RoomFor(count: nat, payload: Bytes, block: Run, r: Record, o: Options)
    requires o.Checked() && Encodable(r, o) && payload == LogBytes(block) && count == |block|
    requires count > 0 ==> TABLE_BLOCK_HEADER_SIZE + |payload| + RecordSize(r) <= o.blockSize
    ensures count != MAX32 && |payload| <= MAX32 - RecordSize(r)
  {
    LogBytesSize(block);
    if block == [] {
      assert LogBytes(block) == [];
    }
    hide LogBytes;
  }

  /** The loop of EncodeTable: data blocks and index entries. */
  method BuildData(run: Run, o: Options) returns (ok: bool, data: Bytes, index: seq<IndexEntry>)
    requires o.Valid() && AllEncodable(run, o) && run != []
    ensures ok <==> BlocksFit(Partition(run, o))
    ensures ok ==> Holds(data, index, Partition(run, o))
  {
    hide *;
    var payload: Bytes, count: nat, firstKey: Key;
    data, index, payload, count, firstKey := [], [], [], 0, run[0].key;
    BuiltStart(run, o, firstKey);
    OptionsChecked(o);
    for i := 0 to |run|
      invariant Built(run, i, o, data, index, payload, count, firstKey)
    {
      var r := run[i];
      BuiltParts(run, i, o, data, index, payload, count, firstKey);
      EncodableAt(run, i, o);
      var encoded;
      ok, encoded := EncodeWalRecord(r, o);
      EncodingSize(r);
      ghost var blocks := Partition(run[..i], o);
      JoinsIs(Current(blocks), r, o);
      if count != 0 && TABLE_BLOCK_HEADER_SIZE + |payload| + |encoded| > o.blockSize {
        BlockTooLarge(run, i, o);
        ok, data, index := FinishBlock(data, index, payload, count, firstKey, Done(blocks), Current(blocks));
        if !ok {
          return;
        }
        BlocksFitMore(Done(blocks), Current(blocks));
        BuiltNew(run, i, o, data, index);
        payload, count := [], 0;
      }
      if count == 0 {
        if i == 0 { FirstBuilt(run, o, data, index, payload, firstKey); }
        RoomFor(0, [], [], r, o) by { NoLog(); }
        firstKey := r.key;
      } else {
        RoomFor(count, payload, Current(blocks), r, o);
        BuiltJoin(run, i, o, data, index, payload, count, firstKey);
      }
      if count == MAX32 || |payload| > MAX32 - |encoded| {
        return false, data, index;
      }
      if count == 0 { EmptyPlus(encoded); }
      payload, count := payload + encoded, count + 1;
    }
    assert run[..|run|] == run;
    BuiltParts(run, |run|, o, data, index, payload, count, firstKey);
    PartitionFits(run, o);
    ok, data, index := FinishBlock(data, index, payload, count, firstKey, Done(Partition(run, o)), Current(Partition(run, o)));
    if ok {
      BlocksFitMore(Done(Partition(run, o)), Current(Partition(run, o)));
    }
  }

  lemma OptionsChecked(o: Options)
    requires o.Valid()
    ensures o.Checked()
  {
  }

  lemma EncodableAt(run: Run, i: nat, o: Options)
    requires AllEncodable(run, o) && i < |run|
    ensures Encodable(run[i], o)
  {
    hide Encodable;
  }

  lemma EncodingSize(r: Record)
    ensures |Encoding(r)| == RecordSize(r)
  {
  }

  lemma NoLog()
    ensures LogBytes([]) == []
  {
  }

  lemma EmptyPlus(b: Bytes)
    ensures [] + b == b
  {
  }

  /** The first record. */
  lemma FirstBuilt(run: Run, o: Options, data: Bytes, index: seq<IndexEntry>, payload: Bytes, key: Key)
    requires run != [] && Built(run, 0, o, data, index, payload, 0, key)
    ensures payload == [] && Built(run, 1, o, data, index, Encoding(run[0]), 1, run[0].key)
  {
    hide *;
    BuiltParts(run, 0, o, data, index, payload, 0, key);
    FirstParts(run, o);
    BuiltNew(run, 0, o, data, index);
  }

  lemma FirstParts(run: Run, o: Options)
    ensures Partition(run[..0], o) == [] && Done([]) == [] && Current([]) == [] && LogBytes([]) == []
  {
  }

  // ----- Index, filter, footer ---------------------------------------------------------------------------

  method EncodeIndex(index: seq<IndexEntry>) returns (payload: Bytes)
    ensures payload == IndexPayload(index)
  {
    hide Pack;
    payload := [];
    for i := 0 to |index|
      invariant payload + IndexPayload(index[i..]) == IndexPayload(index)
    {
      var e := index[i];
      var fields := PutFields([], [|e.firstKey|, e.offset, e.size], ENTRY);
      assert fields + e.firstKey == EntryBytes(e);
      assert index[i..][1..] == index[i + 1..];
      assert payload + (EntryBytes(e) + IndexPayload(index[i + 1..])) == payload + EntryBytes(e) + IndexPayload(index[i + 1..]);
      payload := payload + (fields + e.firstKey);
    }
    assert index[|index|..] == [];
    assert payload + [] == payload;
  }

  /** The filter region; refused only if a filter of that size may not exist. */
  method BuildFilter(run: Run, o: Options) returns (ok: bool, section: Bytes)
    requires o.SizingOk(|run|) && |run| <= MAX64
    ensures ok <==> (o.bloomEnabled ==> o.bloomSizing(|run|).Shape?)
    ensures ok ==> section == FilterSection(FilterOf(run, o))
  {
    hide *;
    ok, section := true, [];
    FilterCases(run, o);
    if !o.bloomEnabled {
      return;
    }
    match o.bloomSizing(|run|) {
      case TooLarge => ok := false;
      case Shape(bits, hashes) =>
        FilterIs(run, o, bits, hashes);
        var filter := AddKeys(run, bits, hashes);
        section := Bloom.FilterBytes(filter.View());
    }
  }

  lemma FilterCases(run: Run, o: Options)
    requires o.SizingOk(|run|) && |run| <= MAX64
    ensures !o.bloomEnabled ==> FilterSection(FilterOf(run, o)) == []
    ensures forall f :: FilterSection(Some(f)) == Bloom.FilterBytes(f)
  {
  }

  /** A filter with every key of the run. */
  method AddKeys(run: Run, bits: nat, hashes: nat) returns (filter: Bloom.BloomFilter)
    requires Bloom.ShapeOk(EmptyFilter(bits, hashes)) && bits != 0 && |run| <= MAX64
    ensures fresh(filter) && filter.View() == Bloom.AddedAll(EmptyFilter(bits, hashes), KeysOf(run))
  {
    hide *;
    ghost var start, keys := EmptyFilter(bits, hashes), KeysOf(run);
    EmptyFilterIs(bits, hashes);
    filter := new Bloom.BloomFilter(bits, hashes);
    AddedNone(start, keys);
    for i := 0 to |run|
      invariant fresh(filter) && |keys[..i]| == i && filter.View() == Bloom.AddedAll(start, keys[..i])
    {
      AddedNext(start, keys, i);
      var added := filter.Add(run[i].key);
    }
    assert keys[..|run|] == keys;
  }

  lemma EmptyFilterIs(bits: nat, hashes: nat)
    ensures EmptyFilter(bits, hashes) == Bloom.Filter(bits, hashes, 0, seq(bits / 8, _ => 0))
  {
  }

  lemma AddedNone(start: Bloom.Filter, keys: seq<Bytes>)
    requires Bloom.ShapeOk(start) && start.bitCount != 0 && start.keyCount <= MAX64
    ensures Bloom.AddedAll(start, keys[..0]) == start
  {
  }

  lemma AddedNext(start: Bloom.Filter, keys: seq<Bytes>, i: nat)
    requires Bloom.ShapeOk(start) && start.bitCount != 0 && start.keyCount + |keys| <= MAX64 && i < |keys|
    ensures |keys[..i + 1]| == i + 1 && Bloom.CanAdd(Bloom.AddedAll(start, keys[..i]))
    ensures Bloom.AddedAll(start, keys[..i + 1]) == Bloom.Added(Bloom.AddedAll(start, keys[..i]), keys[i])
  {
    hide Bloom.ShapeOk, Bloom.Added;
    Bloom.AllShape(start, keys[..i]);
    assert keys[..i + 1][..i] == keys[..i];
  }

  lemma FilterIs(run: Run, o: Options, bits: nat, hashes: nat)
    requires o.SizingOk(|run|) && |run| <= MAX64 && o.bloomEnabled && o.bloomSizing(|run|) == Shape(bits, hashes)
    ensures Bloom.ShapeOk(EmptyFilter(bits, hashes)) && bits != 0
    ensures FilterOf(run, o) == Some(Bloom.AddedAll(EmptyFilter(bits, hashes), KeysOf(run)))
  {
    hide Bloom.AddedAll;
  }

  method SequenceRange(run: Run) returns (minimum: nat, maximum: nat)
    requires run != []
    ensures minimum == MinimumSequence(run) && maximum == MaximumSequence(run)
  {
    minimum, maximum := run[0].sequence, run[0].sequence;
    assert run[..1] == [run[0]];
    for i := 1 to |run|
      invariant minimum == MinimumSequence(run[..i]) && maximum == MaximumSequence(run[..i])
    {
      assert run[..i + 1][..i] == run[..i] && run[..i + 1][i] == run[i];
      minimum := if run[i].sequence < minimum then run[i].sequence else minimum;
      maximum := if run[i].sequence > maximum then run[i].sequence else maximum;
    }
    assert run[..|run|] == run;
  }

  /** Builds the whole file.  Refused exactly if a count or a size does not fit. */
  method EncodeTable(generation: nat, run: Run, o: Options) returns (ok: bool, encoded: Bytes)
    requires o.Valid() && Sorted(run) && AllEncodable(run, o)
    ensures ok <==> TableEncodable(generation, run, o)
    ensures ok ==> encoded == TableBytes(generation, run, o)
  {
    hide *;
    ok, encoded := false, [];
    EncodableIs(generation, run, o);
    if generation == 0 || run == [] || generation > MAX64 || |run| > MAX64 {
      return;
    }
    SizedAt(run, o);
    var data, index;
    ok, data, index := BuildData(run, o);
    if !ok {
      return;
    }
    HoldsCount(data, index, Partition(run, o));
    HoldsAre(data, index, run, o);
    var payload := EncodeIndex(index);
    if TABLE_INDEX_HEADER_SIZE + |payload| > MAXIMUM_INDEX_SIZE {
      return false, [];
    }
    var bloom;
    ok, bloom := BuildFilter(run, o);
    if !ok {
      return;
    }
    FooterIs(generation, run, o);
    var end := TABLE_HEADER_SIZE + |data| + (TABLE_INDEX_HEADER_SIZE + |payload|) + |bloom|;
    if end + TABLE_FOOTER_SIZE > MAX64 {
      return false, [];
    }
    var minimum, maximum := SequenceRange(run);
    var f := Footer(end + TABLE_FOOTER_SIZE, generation, |run|, minimum, maximum, TABLE_HEADER_SIZE, |data|,
                    TABLE_HEADER_SIZE + |data|, TABLE_INDEX_HEADER_SIZE + |payload|,
                    TABLE_HEADER_SIZE + |data| + (TABLE_INDEX_HEADER_SIZE + |payload|), |bloom|, |index|);
    encoded := Assemble(TableHeader(generation, |run|, |index|), data, payload, |index|, bloom, f);
    BytesAre(generation, run, o);
    ok := true;
  }

  method Assemble(h: TableHeader, data: Bytes, payload: Bytes, blocks: nat, bloom: Bytes, f: Footer) returns (encoded: Bytes)
    ensures encoded == Assembled(HeaderBytes(h), data, IndexBytes(payload, blocks), bloom, FooterBytes(f))
  {
    hide *;
    AssembleIs(h, data, payload, blocks, bloom, f);
    var header := PutRegion(TableHeaderFields(h), TABLE_HEADER, []);
    var index := PutRegion(IndexFields(|payload|, blocks), INDEX_HEADER, payload);
    var footer := PutRegion(FooterFields(f), FOOTER, []);
    encoded := header + data + index + bloom + footer;
  }

  lemma AssembleIs(h: TableHeader, data: Bytes, payload: Bytes, blocks: nat, bloom: Bytes, f: Footer)
    ensures |TableHeaderFields(h)| == |TABLE_HEADER| && |IndexFields(|payload|, blocks)| == |INDEX_HEADER|
    ensures |FooterFields(f)| == |FOOTER|
    ensures HeaderBytes(h) == Region(TableHeaderFields(h), TABLE_HEADER, [])
    ensures IndexBytes(payload, blocks) == Region(IndexFields(|payload|, blocks), INDEX_HEADER, payload)
    ensures FooterBytes(f) == Region(FooterFields(f), FOOTER, [])
    ensures forall a: Bytes, b: Bytes, c: Bytes, d: Bytes, e: Bytes {:trigger Assembled(a, b, c, d, e)} ::
              Assembled(a, b, c, d, e) == a + b + c + d + e
  {
    FooterTotal();
    hide Region, Total;
  }

  lemma EncodableIs(g: nat, run: Run, o: Options)
    requires o.Valid()
    ensures TableEncodable(g, run, o) <==>
              && run != [] && |run| <= MAX64 && 0 < g <= MAX64 && o.SizingOk(|run|)
              && BlocksFit(Partition(run, o))
              && TABLE_INDEX_HEADER_SIZE + |IndexPayload(IndexOf(run, o))| <= MAXIMUM_INDEX_SIZE
              && (o.bloomEnabled ==> o.bloomSizing(|run|).Shape?)
              && FooterOf(g, run, o).fileSize <= MAX64
  {
    hide Partition, BlockBytes, IndexPayload, IndexOf, FooterOf;
  }

  lemma SizedAt(run: Run, o: Options)
    requires o.Valid()
    ensures o.SizingOk(|run|)
  {
  }

  lemma HoldsAre(data: Bytes, index: seq<IndexEntry>, run: Run, o: Options)
    requires Holds(data, index, Partition(run, o))
    ensures data == DataOf(run, o) && index == IndexOf(run, o)
  {
    hide Partition, BlockBytes, Joined, EntriesOf;
  }

  lemma FooterIs(g: nat, run: Run, o: Options)
    requires run != [] && o.SizingOk(|run|) && |run| <= MAX64
    ensures FooterOf(g, run, o) ==
              var data, index := |DataOf(run, o)|, TABLE_INDEX_HEADER_SIZE + |IndexPayload(IndexOf(run, o))|;
              var bloom := |FilterSection(FilterOf(run, o))|;
              var end := TABLE_HEADER_SIZE + data + index + bloom;
              Footer(end + TABLE_FOOTER_SIZE, g, |run|, MinimumSequence(run), MaximumSequence(run),
                     TABLE_HEADER_SIZE, data, TABLE_HEADER_SIZE + data, index, TABLE_HEADER_SIZE + data + index, bloom,
                     |Partition(run, o)|)
  {
    hide DataOf, IndexPayload, IndexOf, FilterSection, FilterOf, Partition, MinimumSequence, MaximumSequence;
  }

  lemma BytesAre(g: nat, run: Run, o: Options)
    requires TableEncodable(g, run, o)
    ensures TableBytes(g, run, o) ==
              Assembled(HeaderBytes(TableHeader(g, |run|, |Partition(run, o)|)), DataOf(run, o),
                        IndexBytes(IndexPayload(IndexOf(run, o)), |Partition(run, o)|),
                        FilterSection(FilterOf(run, o)), FooterBytes(FooterOf(g, run, o)))
  {
    hide DataOf, IndexPayload, IndexOf, FilterSection, FilterOf, Partition, HeaderBytes, FooterBytes, IndexBytes, Assembled,
         FooterOf, BlockBytes;
  }
}
