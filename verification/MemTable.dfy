/** The in-memory table and its byte counter (src/memtable.cpp). */
module MemTables {
  import opened Coding
  import opened Configuration
  import opened Keys
  import opened Runs

  /** sizeof(uint64_t) + sizeof(ValueType): what is counted per record beside key and value. */
  const RECORD_METADATA_SIZE: nat := 9

  function RecordBytes(r: Record): nat {
    RECORD_METADATA_SIZE + |r.key| + |r.value|
  }

  function RunBytes(run: Run): nat {
    if run == [] then 0 else RunBytes(run[..|run| - 1]) + RecordBytes(run[|run| - 1])
  }

  lemma {:induction false} RunBytesConcat(a: Run, b: Run)
    ensures RunBytes(a + b) == RunBytes(a) + RunBytes(b)
  {
    if b == [] {
      assert a + b == a;
    } else {
      assert (a + b)[..|a + b| - 1] == a + b[..|b| - 1];
      RunBytesConcat(a, b[..|b| - 1]);
    }
  }

  /** Where a key is, or belongs. */
  ghost predicate Splits(run: Run, key: Key, i: nat) {
    && i <= |run|
    && (forall j :: 0 <= j < i ==> Less(run[j].key, key))
    && (i < |run| ==> AtMost(key, run[i].key))
  }

  predicate HasAt(run: Run, key: Key, i: nat) {
    i < |run| && run[i].key == key
  }

  lemma {:induction false} InsertAt(run: Run, r: Record, i: nat)
    requires Sorted(run) && Splits(run, r.key, i)
    ensures Insert(run, r) == run[..i] + [r] + run[if HasAt(run, r.key, i) then i + 1 else i..]
  {
    var rest := if HasAt(run, r.key, i) then i + 1 else i;
    if i == 0 {
      assert run[..0] + [r] + run[rest..] == [r] + run[rest..];
    } else {
      TailSplits(run, r.key, i);
      InsertAt(run[1..], r, i - 1);
      hide Sorted, Splits, Less;
      Joined(run, r, i, rest);
    }
  }

  lemma TailSplits(run: Run, key: Key, i: nat)
    requires Sorted(run) && Splits(run, key, i) && i > 0
    ensures Less(run[0].key, key) && run[0].key != key && !Less(key, run[0].key)
    ensures Sorted(run[1..]) && Splits(run[1..], key, i - 1) && (HasAt(run[1..], key, i - 1) <==> HasAt(run, key, i))
  {
  }

  lemma Joined(run: Run, r: Record, i: nat, rest: nat)
    requires 0 < i <= rest <= |run|
    ensures [run[0]] + (run[1..][..i - 1] + [r] + run[1..][rest - 1..]) == run[..i] + [r] + run[rest..]
  {
    assert run[1..][rest - 1..] == run[rest..];
    assert run[..i] == [run[0]] + run[1..][..i - 1];
  }

  lemma LookupAt(run: Run, key: Key, i: nat)
    requires Sorted(run) && Splits(run, key, i)
    ensures Lookup(run, key) == if HasAt(run, key, i) then Some(run[i]) else None
  {
    if HasAt(run, key, i) {
      LookupMember(run, run[i]);
    }
  }

  class MemTable {
    const options: Options
    var entries: Run
    var size: nat

    /** One entry per key, in key order, and a byte counter that is their exact sum. */
    ghost predicate Valid()
      reads this
    {
      Sorted(entries) && size == RunBytes(entries)
    }

    lemma SizeIs()
      requires Valid()
      ensures size == RunBytes(entries)
    {
    }

    constructor (options: Options)
      ensures Valid() && entries == [] && this.options == options
    {
      this.options, entries, size := options, [], 0;
    }

    /** Validate. */
    predicate Accepts(key: Key, value: Bytes)
    {
      0 < |key| <= options.maxKeySize && |value| <= options.maxValueSize
    }

    /** The place of a key in the ordered map. */
    method Find(key: Key) returns (i: nat)
      requires Valid()
      ensures Splits(entries, key, i)
    {
      i := 0;
      while i < |entries| && Less(entries[i].key, key)
        invariant i <= |entries| && forall j :: 0 <= j < i ==> Less(entries[j].key, key)
      {
        i := i + 1;
      }
    }

    method Add(sequence: nat, kind: Kind, key: Key, value: Bytes) returns (ok: bool)
      requires Valid()
      modifies this
      ensures Valid()
      ensures var old_ := old(Lookup(entries, key));
              ok <==> sequence != 0 && Accepts(key, value) && (old_.Some? ==> old_.value.sequence < sequence)
      ensures entries == if ok then Insert(old(entries), Record(key, sequence, kind, value)) else old(entries)
    {
      if sequence == 0 || !Accepts(key, value) {
        return false;
      }
      var i := Find(key);
      LookupAt(entries, key, i);
      var present := i < |entries| && entries[i].key == key;
      if present && sequence <= entries[i].sequence {
        return false;
      }
      var r := Record(key, sequence, kind, value);
      InsertAt(entries, r, i);
      InsertMembers(entries, r);
      ghost var before := entries;
      ReplaceBytes(entries, r, i);
      if present {
        size := size - RecordBytes(entries[i]) + RecordBytes(r);
        entries := entries[..i] + [r] + entries[i + 1..];
      } else {
        size := size + RecordBytes(r);
        entries := entries[..i] + [r] + entries[i..];
      }
      ok := true;
    }

    method Put(sequence: nat, key: Key, value: Bytes) returns (ok: bool)
      requires Valid()
      modifies this
      ensures Valid()
      ensures var old_ := old(Lookup(entries, key));
              ok <==> sequence != 0 && Accepts(key, value) && (old_.Some? ==> old_.value.sequence < sequence)
      ensures entries == if ok then Insert(old(entries), Record(key, sequence, Kind.Put, value)) else old(entries)
    {
      ok := Add(sequence, Kind.Put, key, value);
    }

    method Delete(sequence: nat, key: Key) returns (ok: bool)
      requires Valid()
      modifies this
      ensures Valid()
      ensures var old_ := old(Lookup(entries, key));
              ok <==> sequence != 0 && Accepts(key, []) && (old_.Some? ==> old_.value.sequence < sequence)
      ensures entries == if ok then Insert(old(entries), Record(key, sequence, Deletion, [])) else old(entries)
    {
      ok := Add(sequence, Deletion, key, []);
    }

    /** Tombstones included; a key that could not have been written is refused. */
    method Search(key: Key) returns (valid: bool, found: Option<Record>)
      requires Valid()
      ensures valid == Accepts(key, [])
      ensures found == if valid then Lookup(entries, key) else None
    {
      valid, found := Accepts(key, []), None;
      if valid {
        var i := Find(key);
        LookupAt(entries, key, i);
        if i < |entries| && entries[i].key == key {
          found := Some(entries[i]);
        }
      }
    }

    method Get(key: Key) returns (valid: bool, value: Option<Bytes>)
      requires Valid()
      ensures valid == Accepts(key, [])
      ensures value == if valid then Visible(Lookup(entries, key)) else None
    {
      var found;
      valid, found := Search(key);
      value := if found.Some? && found.value.kind == Kind.Put then Some(found.value.value) else None;
    }
  }

  lemma MiddleBytes(a: Run, r: Record, b: Run)
    ensures RunBytes(a + [r] + b) == RunBytes(a) + RecordBytes(r) + RunBytes(b)
  {
    hide RecordBytes;
    RunBytesConcat(a + [r], b);
    assert (a + [r])[..|a|] == a;
  }

  /** Replacing or inserting one record moves the sum by exactly that record. */
  lemma ReplaceBytes(run: Run, r: Record, i: nat)
    requires i <= |run|
    ensures RunBytes(run[..i] + [r] + run[i..]) == RunBytes(run) + RecordBytes(r)
    ensures i < |run| ==> RunBytes(run[..i] + [r] + run[i + 1..]) == RunBytes(run) - RecordBytes(run[i]) + RecordBytes(r)
    ensures i < |run| ==> RecordBytes(run[i]) <= RunBytes(run)
  {
    hide RecordBytes, RunBytes;
    MiddleBytes(run[..i], r, run[i..]);
    RunBytesConcat(run[..i], run[i..]);
    assert run == run[..i] + run[i..];
    if i < |run| {
      MiddleBytes(run[..i], r, run[i + 1..]);
      MiddleBytes(run[..i], run[i], run[i + 1..]);
      assert run == run[..i] + [run[i]] + run[i + 1..];
    }
  }
}
