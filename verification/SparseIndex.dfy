/** The sparse index of a table: one entry per data block (src/table.cpp:266-293, 553-608). */
module SparseIndex {
  import opened Coding
  import opened Configuration
  import opened Keys
  import opened Layout

  const ENTRY: Widths := [4, 8, 4]
  const ENTRY_FIXED_SIZE: nat := 16

  datatype IndexEntry = IndexEntry(firstKey: Key, offset: nat, size: nat)

  /** What an index is checked against: the options' limits and where the data ends. */
  datatype Limits = Limits(maxKeySize: nat, maxBlockSize: nat, dataEnd: nat)

  function EntryBytes(e: IndexEntry): (b: Bytes)
    ensures |b| == ENTRY_FIXED_SIZE + |e.firstKey|
  {
    Pack([|e.firstKey|, e.offset, e.size], ENTRY) + e.firstKey
  }

  function IndexPayload(entries: seq<IndexEntry>): Bytes {
    if entries == [] then [] else EntryBytes(entries[0]) + IndexPayload(entries[1..])
  }

  /** An entry that may come at this offset after that key. */
  predicate EntryOk(e: IndexEntry, at: nat, previous: Option<Key>, l: Limits) {
    && 0 < |e.firstKey| <= l.maxKeySize
    && TABLE_BLOCK_HEADER_SIZE <= e.size <= l.maxBlockSize
    && e.offset == at && at + e.size <= l.dataEnd
    && (previous.Some? ==> Less(previous.value, e.firstKey))
  }

  function DecodeEntry(rest: Bytes): (e: Option<IndexEntry>)
    ensures e.Some? ==> ENTRY_FIXED_SIZE + |e.value.firstKey| <= |rest|
  {
    if |rest| < ENTRY_FIXED_SIZE then None else
    var f := Unpack(rest, ENTRY);
    if f[0] > |rest| - ENTRY_FIXED_SIZE then None
    else Some(IndexEntry(rest[ENTRY_FIXED_SIZE..ENTRY_FIXED_SIZE + f[0]], f[1], f[2]))
  }

  /** Exactly `count` entries that cover the data without gaps, and nothing after them. */
  function DecodeEntries(rest: Bytes, count: nat, at: nat, previous: Option<Key>, l: Limits): (entries: Option<seq<IndexEntry>>)
    ensures entries.Some? ==> |entries.value| == count
    decreases count
  {
    if count == 0 then
      if rest == [] && at == l.dataEnd then Some([]) else None
    else
      var e := DecodeEntry(rest);
      if e.None? || !EntryOk(e.value, at, previous, l) then None else
      var others := DecodeEntries(rest[ENTRY_FIXED_SIZE + |e.value.firstKey|..], count - 1, at + e.value.size, Some(e.value.firstKey), l);
      if others.None? then None else Some([e.value] + others.value)
  }

  predicate EntriesOk(entries: seq<IndexEntry>, at: nat, previous: Option<Key>, l: Limits) {
    if entries == [] then at == l.dataEnd
    else EntryOk(entries[0], at, previous, l) &&
         EntriesOk(entries[1..], at + entries[0].size, Some(entries[0].firstKey), l)
  }

  lemma DecodeEntryBytes(e: IndexEntry, rest: Bytes)
    requires |e.firstKey| <= MAX32 && e.offset <= MAX64 && e.size <= MAX32
    ensures DecodeEntry(EntryBytes(e) + rest) == Some(e)
  {
    hide Pack, Unpack, Capacity;
    Capacities();
    var fields := [|e.firstKey|, e.offset, e.size];
    var b := EntryBytes(e) + rest;
    assert b == Pack(fields, ENTRY) + (e.firstKey + rest);
    UnpackPack(fields, ENTRY, e.firstKey + rest);
    assert b[ENTRY_FIXED_SIZE..ENTRY_FIXED_SIZE + |e.firstKey|] == e.firstKey;
  }

  /** An index that satisfies the checks reads back. */
  lemma {:induction false} DecodeIndexPayload(entries: seq<IndexEntry>, at: nat, previous: Option<Key>, l: Limits)
    requires EntriesOk(entries, at, previous, l) && l.maxKeySize <= MAX32 && l.dataEnd <= MAX64
    requires forall i :: 0 <= i < |entries| ==> entries[i].size <= MAX32
    ensures DecodeEntries(IndexPayload(entries), |entries|, at, previous, l) == Some(entries)
    decreases |entries|
  {
    hide EntryBytes, Less, DecodeEntries;
    if entries != [] {
      var e := entries[0];
      DecodeIndexPayload(entries[1..], at + e.size, Some(e.firstKey), l);
      DecodeEntriesCons(e, IndexPayload(entries[1..]), |entries| - 1, at, previous, l);
      assert [e] + entries[1..] == entries;
    } else {
      NothingDecoded(at, previous, l);
    }
  }

  lemma NothingDecoded(at: nat, previous: Option<Key>, l: Limits)
    requires at == l.dataEnd
    ensures DecodeEntries([], 0, at, previous, l) == Some([])
  {
  }

  lemma DecodeEntriesCons(e: IndexEntry, rest: Bytes, count: nat, at: nat, previous: Option<Key>, l: Limits)
    requires EntryOk(e, at, previous, l) && |e.firstKey| <= MAX32 && e.offset <= MAX64 && e.size <= MAX32
    ensures var others := DecodeEntries(rest, count, at + e.size, Some(e.firstKey), l);
            DecodeEntries(EntryBytes(e) + rest, count + 1, at, previous, l) ==
              if others.None? then None else Some([e] + others.value)
  {
    hide EntryBytes, DecodeEntry, EntryOk;
    DecodeEntryBytes(e, rest);
    assert (EntryBytes(e) + rest)[ENTRY_FIXED_SIZE + |e.firstKey|..] == rest;
  }

  lemma {:induction false} DecodedEntriesOk(rest: Bytes, count: nat, at: nat, previous: Option<Key>, l: Limits)
    requires DecodeEntries(rest, count, at, previous, l).Some?
    ensures EntriesOk(DecodeEntries(rest, count, at, previous, l).value, at, previous, l)
    decreases count
  {
    hide DecodeEntry, EntryOk;
    if count > 0 {
      var e := DecodeEntry(rest).value;
      var tail := rest[ENTRY_FIXED_SIZE + |e.firstKey|..];
      DecodedEntriesOk(tail, count - 1, at + e.size, Some(e.firstKey), l);
      var entries := DecodeEntries(rest, count, at, previous, l).value;
      assert entries[1..] == DecodeEntries(tail, count - 1, at + e.size, Some(e.firstKey), l).value;
    }
  }

  /** Where the i-th block lies. */
  lemma {:induction false} EntryAt(entries: seq<IndexEntry>, at: nat, previous: Option<Key>, l: Limits, i: nat)
    requires EntriesOk(entries, at, previous, l) && i < |entries|
    ensures at <= entries[i].offset && entries[i].offset + entries[i].size <= l.dataEnd
    ensures TABLE_BLOCK_HEADER_SIZE <= entries[i].size <= l.maxBlockSize && 0 < |entries[i].firstKey| <= l.maxKeySize
    ensures previous.Some? ==> Less(previous.value, entries[i].firstKey)
    decreases i
  {
    if i > 0 {
      EntryAt(entries[1..], at + entries[0].size, Some(entries[0].firstKey), l, i - 1);
    }
  }

  lemma {:induction false} EntriesAscend(entries: seq<IndexEntry>, at: nat, previous: Option<Key>, l: Limits, i: nat, j: nat)
    requires EntriesOk(entries, at, previous, l) && i < j < |entries|
    ensures Less(entries[i].firstKey, entries[j].firstKey)
    decreases i
  {
    var e := entries[0];
    if i == 0 {
      EntryAt(entries[1..], at + e.size, Some(e.firstKey), l, j - 1);
    } else {
      EntriesAscend(entries[1..], at + e.size, Some(e.firstKey), l, i - 1, j - 1);
    }
  }

  // ----- Reading the index ---------------------------------------------------------------------------

  /** Having read `done`, what is left decides the outcome. */
  ghost predicate Scanning(
    payload: Bytes, count: nat, start: nat, l: Limits, rest: Bytes, done: seq<IndexEntry>, at: nat, previous: Option<Key>)
  {
    && |done| <= count
    && var others := DecodeEntries(rest, count - |done|, at, previous, l);
       DecodeEntries(payload, count, start, None, l) == if others.None? then None else Some(done + others.value)
  }

  lemma ScanningNext(
    payload: Bytes, count: nat, start: nat, l: Limits, rest: Bytes, done: seq<IndexEntry>, at: nat, previous: Option<Key>)
    requires Scanning(payload, count, start, l, rest, done, at, previous) && |done| < count
    ensures var e := DecodeEntry(rest);
            if e.None? || !EntryOk(e.value, at, previous, l) then DecodeEntries(payload, count, start, None, l).None?
            else Scanning(payload, count, start, l, rest[ENTRY_FIXED_SIZE + |e.value.firstKey|..], done + [e.value],
                          at + e.value.size, Some(e.value.firstKey))
  {
    hide DecodeEntry, EntryOk;
    var e := DecodeEntry(rest);
    if e.Some? && EntryOk(e.value, at, previous, l) {
      var tail := rest[ENTRY_FIXED_SIZE + |e.value.firstKey|..];
      var others := DecodeEntries(tail, count - |done| - 1, at + e.value.size, Some(e.value.firstKey), l);
      if others.Some? {
        assert done + ([e.value] + others.value) == done + [e.value] + others.value;
      }
    }
  }

  method ReadEntries(payload: Bytes, count: nat, start: nat, l: Limits) returns (entries: Option<seq<IndexEntry>>)
    ensures entries == DecodeEntries(payload, count, start, None, l)
  {
    hide DecodeEntry, EntryOk, DecodeEntries, Scanning;
    var rest: Bytes, done: seq<IndexEntry>, at: nat, previous: Option<Key> := payload, [], start, None;
    ScanningStart(payload, count, start, l);
    for i := 0 to count
      invariant |done| == i && Scanning(payload, count, start, l, rest, done, at, previous)
    {
      ScanningNext(payload, count, start, l, rest, done, at, previous);
      var e := DecodeEntry(rest);
      if e.None? || !EntryOk(e.value, at, previous, l) {
        return None;
      }
      rest, done := rest[ENTRY_FIXED_SIZE + |e.value.firstKey|..], done + [e.value];
      at, previous := at + e.value.size, Some(e.value.firstKey);
    }
    ScanningEnd(payload, count, start, l, rest, done, at, previous);
    entries := if rest == [] && at == l.dataEnd then Some(done) else None;
  }

  lemma ScanningStart(payload: Bytes, count: nat, start: nat, l: Limits)
    ensures Scanning(payload, count, start, l, payload, [], start, None)
  {
    hide DecodeEntries;
    var all := DecodeEntries(payload, count, start, None, l);
    assert all.Some? ==> [] + all.value == all.value;
  }

  lemma ScanningEnd(
    payload: Bytes, count: nat, start: nat, l: Limits, rest: Bytes, done: seq<IndexEntry>, at: nat, previous: Option<Key>)
    requires Scanning(payload, count, start, l, rest, done, at, previous) && |done| == count
    ensures DecodeEntries(payload, count, start, None, l) == if rest == [] && at == l.dataEnd then Some(done) else None
  {
    assert done + [] == done;
  }

  // ----- The index of some blocks --------------------------------------------------------------------

  /** The bytes of the blocks one after the other. */
  function Joined(chunks: seq<Bytes>): Bytes {
    if chunks == [] then [] else chunks[0] + Joined(chunks[1..])
  }

  /** The entries of blocks with these first keys and bytes, the first one at `at`. */
  function EntriesOf(keys: seq<Key>, chunks: seq<Bytes>, at: nat): (entries: seq<IndexEntry>)
    requires |keys| == |chunks|
    ensures |entries| == |chunks|
  {
    if chunks == [] then []
    else [IndexEntry(keys[0], at, |chunks[0]|)] + EntriesOf(keys[1..], chunks[1..], at + |chunks[0]|)
  }

  lemma {:induction false} JoinedAppend(chunks: seq<Bytes>, chunk: Bytes)
    ensures Joined(chunks + [chunk]) == Joined(chunks) + chunk
  {
    if chunks == [] {
      assert [] + [chunk] == [chunk] && [chunk][1..] == [];
      assert Joined([chunk]) == chunk + Joined([]);
    } else {
      assert (chunks + [chunk])[1..] == chunks[1..] + [chunk];
      JoinedAppend(chunks[1..], chunk);
    }
  }

  lemma {:induction false} EntriesAppend(keys: seq<Key>, chunks: seq<Bytes>, key: Key, chunk: Bytes, at: nat)
    requires |keys| == |chunks|
    ensures EntriesOf(keys + [key], chunks + [chunk], at) ==
            EntriesOf(keys, chunks, at) + [IndexEntry(key, at + |Joined(chunks)|, |chunk|)]
    decreases |chunks|
  {
    hide EntriesOf, Joined;
    var last := IndexEntry(key, at + |Joined(chunks)|, |chunk|);
    NothingJoined(at);
    EntriesCons(keys + [key], chunks + [chunk], at);
    if chunks == [] {
      assert chunks + [chunk] == [chunk] && [chunk][1..] == [] && keys + [key] == [key] && [key][1..] == [];
      assert [last] + [] == [] + [last];
    } else {
      EntriesCons(keys, chunks, at);
      assert (chunks + [chunk])[1..] == chunks[1..] + [chunk] && (keys + [key])[1..] == keys[1..] + [key];
      EntriesAppend(keys[1..], chunks[1..], key, chunk, at + |chunks[0]|);
      var head, rest := [IndexEntry(keys[0], at, |chunks[0]|)], EntriesOf(keys[1..], chunks[1..], at + |chunks[0]|);
      assert head + (rest + [last]) == head + rest + [last];
    }
  }

  lemma EntriesCons(keys: seq<Key>, chunks: seq<Bytes>, at: nat)
    requires |keys| == |chunks| > 0
    ensures EntriesOf(keys, chunks, at) ==
            [IndexEntry(keys[0], at, |chunks[0]|)] + EntriesOf(keys[1..], chunks[1..], at + |chunks[0]|)
    ensures Joined(chunks) == chunks[0] + Joined(chunks[1..])
  {
  }

  lemma NothingJoined(at: nat)
    ensures EntriesOf([], [], at) == [] && Joined([]) == []
    ensures forall n :: n >= 0 ==> EntriesOf([], [], n) == []
  {
  }

  /** The limits that the blocks of a table must keep. */
  ghost predicate ChunksOk(keys: seq<Key>, chunks: seq<Bytes>, l: Limits) {
    && |keys| == |chunks|
    && (forall i :: 0 <= i < |chunks| ==>
          0 < |keys[i]| <= l.maxKeySize && TABLE_BLOCK_HEADER_SIZE <= |chunks[i]| <= l.maxBlockSize)
    && (forall i, j :: 0 <= i < j < |keys| ==> Less(keys[i], keys[j]))
  }

  lemma {:induction false} EntriesOfOk(keys: seq<Key>, chunks: seq<Bytes>, at: nat, previous: Option<Key>, l: Limits)
    requires ChunksOk(keys, chunks, l) && l.dataEnd == at + |Joined(chunks)|
    requires previous.Some? && keys != [] ==> Less(previous.value, keys[0])
    ensures EntriesOk(EntriesOf(keys, chunks, at), at, previous, l)
    decreases |chunks|
  {
    hide Less, EntriesOf, Joined;
    NothingJoined(at);
    if chunks != [] {
      var size := |chunks[0]|;
      EntriesCons(keys, chunks, at);
      assert forall i :: 0 <= i < |keys[1..]| ==> keys[1..][i] == keys[i + 1] && chunks[1..][i] == chunks[i + 1];
      EntriesOfOk(keys[1..], chunks[1..], at + size, Some(keys[0]), l);
      assert EntriesOf(keys, chunks, at)[1..] == EntriesOf(keys[1..], chunks[1..], at + size);
    }
  }

  /** The i-th entry points at the bytes of the i-th block. */
  lemma {:induction false} EntryPoints(keys: seq<Key>, chunks: seq<Bytes>, at: nat, i: nat)
    requires |keys| == |chunks| && i < |chunks|
    ensures var e := EntriesOf(keys, chunks, at)[i];
            && e.firstKey == keys[i] && at <= e.offset && e.offset - at + e.size <= |Joined(chunks)|
            && Joined(chunks)[e.offset - at..e.offset - at + e.size] == chunks[i]
    decreases i
  {
    hide EntriesOf, Joined;
    var size := |chunks[0]|;
    EntriesCons(keys, chunks, at);
    if i == 0 {
      assert Joined(chunks)[..size] == chunks[0];
    } else {
      EntryPoints(keys[1..], chunks[1..], at + size, i - 1);
      var e := EntriesOf(keys[1..], chunks[1..], at + size)[i - 1];
      assert EntriesOf(keys, chunks, at)[i] == e;
      var data, tail := Joined(chunks), Joined(chunks[1..]);
      assert data[size..] == tail;
      assert data[e.offset - at..e.offset - at + e.size] == tail[e.offset - at - size..e.offset - at - size + e.size];
    }
  }
}
