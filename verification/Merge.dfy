/** The k-way merge of a compaction (src/compaction.cpp:19-203). */
module Merge {
  import opened Keys
  import opened Runs
  import opened MemTables

  /** A position in one of the sources. */
  datatype Cursor = Cursor(source: nat, record: nat)

  predicate CursorOk(sources: seq<Run>, c: Cursor) {
    c.source < |sources| && c.record < |sources[c.source]|
  }

  function At(sources: seq<Run>, c: Cursor): Record
    requires CursorOk(sources, c)
  {
    sources[c.source][c.record]
  }

  /** CursorLater: larger keys come later and, under one key, smaller sequence numbers do. */
  predicate Later(sources: seq<Run>, a: Cursor, b: Cursor)
    requires CursorOk(sources, a) && CursorOk(sources, b)
  {
    var r, s := At(sources, a), At(sources, b);
    if r.key != s.key then Less(s.key, r.key) else r.sequence < s.sequence
  }

  ghost predicate HeapOk(sources: seq<Run>, heap: set<Cursor>) {
    forall c :: c in heap ==> CursorOk(sources, c)
  }

  /** std::priority_queue::top: some cursor that is later than no other. */
  method Top(sources: seq<Run>, heap: set<Cursor>) returns (top: Cursor)
    requires HeapOk(sources, heap) && heap != {}
    ensures top in heap && forall c :: c in heap ==> !Later(sources, top, c)
  {
    top :| top in heap;
    var rest := heap - {top};
    while rest != {}
      invariant rest <= heap && top in heap
      invariant forall c :: c in heap && c !in rest ==> !Later(sources, top, c)
      decreases rest
    {
      var c :| c in rest;
      if Later(sources, top, c) {
        top := c;
      }
      rest := rest - {c};
    }
  }

  // ----- One key at a time ----------------------------------------------------------

  /** The cursors of `heap` that stand at the key. */
  ghost function AtKey(sources: seq<Run>, heap: set<Cursor>, key: Key): set<Cursor>
    requires HeapOk(sources, heap)
  {
    set c | c in heap && At(sources, c).key == key
  }

  ghost predicate LeastKey(sources: seq<Run>, heap: set<Cursor>, key: Key)
    requires HeapOk(sources, heap)
  {
    forall c :: c in heap ==> AtMost(key, At(sources, c).key)
  }

  /** `w` has the greatest sequence number of the cursors in `popped`, alone. */
  ghost predicate Wins(sources: seq<Run>, popped: set<Cursor>, w: Cursor)
    requires HeapOk(sources, popped)
  {
    w in popped && forall c :: c in popped && c != w ==> At(sources, c).sequence < At(sources, w).sequence
  }

  /** Two cursors share the greatest sequence number in `popped`. */
  ghost predicate Ties(sources: seq<Run>, popped: set<Cursor>, w: Cursor, d: Cursor)
    requires HeapOk(sources, popped)
  {
    && w in popped && d in popped && w != d && At(sources, w).sequence == At(sources, d).sequence
    && forall c :: c in popped ==> At(sources, c).sequence <= At(sources, w).sequence
  }

  /**
    The inner loop: pops every cursor at the smallest key, keeping the newest record, and
    stops at once when two records carry its sequence number.
   */
  method PopKey(sources: seq<Run>, heap: set<Cursor>)
    returns (tie: bool, key: Key, winner: Cursor, ghost rival: Cursor, sameKey: seq<Cursor>, rest: set<Cursor>)
    requires HeapOk(sources, heap) && heap != {}
    ensures LeastKey(sources, heap, key)
    ensures winner in heap && At(sources, winner).key == key
    ensures tie ==> Ties(sources, AtKey(sources, heap, key), winner, rival)
    ensures !tie ==> Wins(sources, AtKey(sources, heap, key), winner)
    ensures !tie ==> (forall c :: c in sameKey <==> c in AtKey(sources, heap, key))
    ensures !tie ==> |sameKey| == |AtKey(sources, heap, key)|
    ensures !tie ==> rest == heap - AtKey(sources, heap, key)
  {
    hide Less;
    var first := Top(sources, heap);
    key, winner, rival := At(sources, first).key, first, first;
    tie, sameKey, rest := false, [first], heap - {first};
    ghost var popped := {first};
    while rest != {}
      invariant rest == heap - popped && popped <= AtKey(sources, heap, key) && winner == first && first in popped
      invariant forall c :: c in sameKey <==> c in popped
      invariant |sameKey| == |popped|
      invariant forall c :: c in popped && c != first ==> At(sources, c).sequence < At(sources, first).sequence
      decreases rest
    {
      var cursor := Top(sources, rest);
      if At(sources, cursor).key != key {
        NoneLeft(sources, heap, rest, key, first, cursor);
        break;
      }
      assert !Later(sources, first, cursor);
      if At(sources, cursor).sequence == At(sources, winner).sequence {
        tie, rival := true, cursor;
        NewestFirst(sources, heap, first, key);
        return;
      }
      sameKey, popped, rest := sameKey + [cursor], popped + {cursor}, rest - {cursor};
    }
    assert AtKey(sources, heap, key) == popped;
  }

  /** When the top of the heap has another key, every cursor at the key has been popped. */
  lemma NoneLeft(sources: seq<Run>, heap: set<Cursor>, rest: set<Cursor>, key: Key, first: Cursor, top: Cursor)
    requires HeapOk(sources, heap) && rest <= heap && first in heap && top in rest
    requires forall c :: c in heap ==> !Later(sources, first, c)
    requires forall c :: c in rest ==> !Later(sources, top, c)
    requires At(sources, first).key == key && At(sources, top).key != key
    ensures forall c :: c in rest ==> At(sources, c).key != key
  {
    assert !Later(sources, first, top);
    forall c | c in rest ensures At(sources, c).key != key {
      assert !Later(sources, top, c);
    }
  }

  lemma NewestFirst(sources: seq<Run>, heap: set<Cursor>, first: Cursor, key: Key)
    requires HeapOk(sources, heap) && first in heap && At(sources, first).key == key
    requires forall c :: c in heap ==> !Later(sources, first, c)
    ensures forall c :: c in AtKey(sources, heap, key) ==> At(sources, c).sequence <= At(sources, first).sequence
  {
  }

  // ----- The whole merge ---------------------------------------------------------------

  /** The part of each source that lies before its cursor. */
  ghost function Prefixes(sources: seq<Run>, at: seq<nat>): (p: seq<Run>)
    requires |at| == |sources| && forall s :: 0 <= s < |at| ==> at[s] <= |sources[s]|
    ensures |p| == |sources| && forall s :: 0 <= s < |p| ==> p[s] == sources[s][..at[s]]
  {
    seq(|sources|, s requires 0 <= s < |sources| => sources[s][..at[s]])
  }

  ghost predicate Positions(sources: seq<Run>, at: seq<nat>) {
    |at| == |sources| && forall s :: 0 <= s < |at| ==> at[s] <= |sources[s]|
  }

  /** One cursor for every source that is not exhausted. */
  ghost function HeapAt(sources: seq<Run>, at: seq<nat>): (heap: set<Cursor>)
    requires Positions(sources, at)
    ensures HeapOk(sources, heap)
  {
    set s | 0 <= s < |sources| && at[s] < |sources[s]| :: Cursor(s, at[s])
  }

  ghost predicate AllSorted(sources: seq<Run>) {
    forall s :: 0 <= s < |sources| ==> Sorted(sources[s])
  }

  /** Everything merged so far comes before everything that is left. */
  ghost predicate Split(sources: seq<Run>, at: seq<nat>, merged: Run)
    requires Positions(sources, at)
  {
    forall m, s, i :: 0 <= m < |merged| && 0 <= s < |sources| && at[s] <= i < |sources[s]| ==>
      Less(merged[m].key, sources[s][i].key)
  }

  /** The merged records are the newest of the prefixes, key by key. */
  ghost predicate Agrees(sources: seq<Run>, at: seq<nat>, merged: Run)
    requires Positions(sources, at)
  {
    Sorted(merged) && forall k :: Lookup(merged, k) == Newest(Prefixes(sources, at), k)
  }

  /** The positions after every cursor at the key has moved on. */
  ghost function Advanced(sources: seq<Run>, at: seq<nat>, key: Key): (next: seq<nat>)
    requires Positions(sources, at)
    ensures Positions(sources, next)
  {
    seq(|sources|, s requires 0 <= s < |sources| =>
      if at[s] < |sources[s]| && sources[s][at[s]].key == key then at[s] + 1 else at[s])
  }

  /** The newest record of a key is the one strictly newer than all others. */
  lemma {:induction false} NewestIs(runs: seq<Run>, k: Key, i: nat, r: Record)
    requires i < |runs| && Lookup(runs[i], k) == Some(r)
    requires forall j :: 0 <= j < |runs| && j != i && Lookup(runs[j], k).Some? ==>
               Lookup(runs[j], k).value.sequence < r.sequence
    ensures Newest(runs, k) == Some(r)
  {
    hide Lookup;
    if i == 0 {
      var rest := runs[1..];
      var n := Newest(rest, k);
      if n.Some? {
        NewestHolder(rest, k);
        var j :| 0 <= j < |rest| && Lookup(rest[j], k) == n;
        assert rest[j] == runs[j + 1];
      }
    } else {
      assert forall j :: 0 <= j < |runs[1..]| ==> runs[1..][j] == runs[j + 1];
      NewestIs(runs[1..], k, i - 1, r);
    }
  }

  lemma {:induction false} NewestHolder(runs: seq<Run>, k: Key)
    ensures Newest(runs, k).Some? ==> exists j :: 0 <= j < |runs| && Lookup(runs[j], k) == Newest(runs, k)
    ensures Newest(runs, k).None? <==> forall j :: 0 <= j < |runs| ==> Lookup(runs[j], k).None?
  {
    hide Lookup;
    if runs != [] {
      NewestHolder(runs[1..], k);
      assert forall j :: 0 <= j < |runs[1..]| ==> runs[1..][j] == runs[j + 1];
      var rest := Newest(runs[1..], k);
      if rest.Some? {
        var j :| 0 <= j < |runs[1..]| && Lookup(runs[1..][j], k) == rest;
        assert Lookup(runs[j + 1], k) == rest;
      }
      assert Lookup(runs[0], k) == Lookup(runs[0], k);
    }
  }

  /** Runs that agree on a key have the same newest record for it. */
  lemma {:induction false} NewestSame(a: seq<Run>, b: seq<Run>, k: Key)
    requires |a| == |b| && forall s :: 0 <= s < |a| ==> Lookup(a[s], k) == Lookup(b[s], k)
    ensures Newest(a, k) == Newest(b, k)
  {
    hide Lookup;
    if a != [] {
      NewestSame(a[1..], b[1..], k);
    }
  }

  lemma LookupExtended(run: Run, r: Record, k: Key)
    requires Sorted(run + [r])
    ensures Sorted(run)
    ensures Lookup(run + [r], k) == if r.key == k then Some(r) else Lookup(run, k)
  {
    var longer := run + [r];
    assert forall i :: 0 <= i < |run| ==> longer[i] == run[i];
    assert longer[|run|] == r;
    var found := Lookup(run, k);
    if r.key == k {
      LookupMember(longer, r);
    } else if found.Some? {
      assert found.value in longer;
      LookupMember(longer, found.value);
    } else {
      assert Lookup(longer, k).None?;
    }
  }

  lemma SortedPrefix(run: Run, n: nat)
    requires Sorted(run) && n <= |run|
    ensures Sorted(run[..n])
  {
  }

  /** One source's prefix before and after the step. */
  lemma PrefixStep(sources: seq<Run>, at: seq<nat>, key: Key, s: nat, k: Key)
    requires Positions(sources, at) && AllSorted(sources) && s < |sources|
    ensures var before, after := Prefixes(sources, at)[s], Prefixes(sources, Advanced(sources, at, key))[s];
            if Advanced(sources, at, key)[s] == at[s] + 1 && k == key then Lookup(after, k) == Some(sources[s][at[s]])
            else Lookup(after, k) == Lookup(before, k)
  {
    var next := Advanced(sources, at, key);
    if next[s] == at[s] + 1 {
      var run := sources[s];
      assert run[..at[s] + 1] == run[..at[s]] + [run[at[s]]];
      SortedPrefix(run, at[s] + 1);
      LookupExtended(run[..at[s]], run[at[s]], k);
    }
  }

  /** No prefix holds a key that is still to come. */
  lemma KeyIsNew(sources: seq<Run>, at: seq<nat>, merged: Run, key: Key, w: Cursor)
    requires Positions(sources, at) && Agrees(sources, at, merged) && Split(sources, at, merged)
    requires w in HeapAt(sources, at) && At(sources, w).key == key
    ensures forall m :: 0 <= m < |merged| ==> Less(merged[m].key, key)
    ensures forall s :: 0 <= s < |sources| ==> Lookup(Prefixes(sources, at)[s], key).None?
  {
    forall m | 0 <= m < |merged| ensures Less(merged[m].key, key) {
      assert Less(merged[m].key, sources[w.source][w.record].key);
    }
    assert Lookup(merged, key).None?;
    NewestHolder(Prefixes(sources, at), key);
  }

  lemma StepSplit(sources: seq<Run>, at: seq<nat>, merged: Run, key: Key, r: Record)
    requires Positions(sources, at) && AllSorted(sources) && Split(sources, at, merged) && r.key == key
    requires LeastKey(sources, HeapAt(sources, at), key)
    requires forall m :: 0 <= m < |merged| ==> Less(merged[m].key, key)
    requires Sorted(merged)
    ensures Split(sources, Advanced(sources, at, key), merged + [r])
    ensures Sorted(merged + [r])
  {
    var next, longer := Advanced(sources, at, key), merged + [r];
    forall m, s, i | 0 <= m < |longer| && 0 <= s < |sources| && next[s] <= i < |sources[s]|
      ensures Less(longer[m].key, sources[s][i].key)
    {
      assert at[s] < |sources[s]|;
      assert Cursor(s, at[s]) in HeapAt(sources, at);
      assert AtMost(key, sources[s][at[s]].key);
      assert at[s] < i ==> Less(sources[s][at[s]].key, sources[s][i].key);
      if m < |merged| {
        assert longer[m] == merged[m];
      }
    }
  }

  lemma StepNewest(sources: seq<Run>, at: seq<nat>, merged: Run, key: Key, w: Cursor)
    requires Positions(sources, at) && AllSorted(sources) && Agrees(sources, at, merged) && Split(sources, at, merged)
    requires Wins(sources, AtKey(sources, HeapAt(sources, at), key), w)
    ensures Newest(Prefixes(sources, Advanced(sources, at, key)), key) == Some(At(sources, w))
  {
    hide Lookup, Less;
    var next := Advanced(sources, at, key);
    var after := Prefixes(sources, next);
    KeyIsNew(sources, at, merged, key, w);
    forall s | 0 <= s < |sources|
      ensures Lookup(after[s], key) ==
              if next[s] == at[s] + 1 then Some(sources[s][at[s]]) else None
    {
      PrefixStep(sources, at, key, s, key);
    }
    forall j | 0 <= j < |sources| && j != w.source && Lookup(after[j], key).Some?
      ensures Lookup(after[j], key).value.sequence < At(sources, w).sequence
    {
      assert Cursor(j, at[j]) in AtKey(sources, HeapAt(sources, at), key);
    }
    NewestIs(after, key, w.source, At(sources, w));
  }

  /** One round of the merge appends the newest record of the next key. */
  lemma StepAgrees(sources: seq<Run>, at: seq<nat>, merged: Run, key: Key, w: Cursor)
    requires Positions(sources, at) && AllSorted(sources) && Agrees(sources, at, merged) && Split(sources, at, merged)
    requires LeastKey(sources, HeapAt(sources, at), key)
    requires Wins(sources, AtKey(sources, HeapAt(sources, at), key), w)
    ensures Agrees(sources, Advanced(sources, at, key), merged + [At(sources, w)])
    ensures Split(sources, Advanced(sources, at, key), merged + [At(sources, w)])
  {
    hide Lookup, Less, Wins;
    assert w in HeapAt(sources, at) && At(sources, w).key == key by { WinnerAt(sources, at, key, w); }
    var next, r := Advanced(sources, at, key), At(sources, w);
    KeyIsNew(sources, at, merged, key, w);
    StepSplit(sources, at, merged, key, r);
    forall k ensures Lookup(merged + [r], k) == Newest(Prefixes(sources, next), k) {
      LookupExtended(merged, r, k);
      if k == key {
        StepNewest(sources, at, merged, key, w);
      } else {
        NewestElsewhere(sources, at, key, k);
      }
    }
  }

  lemma WinnerAt(sources: seq<Run>, at: seq<nat>, key: Key, w: Cursor)
    requires Positions(sources, at) && Wins(sources, AtKey(sources, HeapAt(sources, at), key), w)
    ensures w in HeapAt(sources, at) && At(sources, w).key == key
  {
  }

  // ----- Moving the cursors ----------------------------------------------------------------

  ghost function Moved(sources: seq<Run>, popped: set<Cursor>): set<Cursor>
    requires HeapOk(sources, popped)
  {
    set c | c in popped && c.record + 1 < |sources[c.source]| :: Cursor(c.source, c.record + 1)
  }

  method Push(sources: seq<Run>, sameKey: seq<Cursor>, rest: set<Cursor>, ghost popped: set<Cursor>)
    returns (heap: set<Cursor>)
    requires HeapOk(sources, popped) && forall c :: c in sameKey <==> c in popped
    ensures heap == rest + Moved(sources, popped)
  {
    heap := rest;
    for i := 0 to |sameKey|
      invariant heap == rest + set c | c in sameKey[..i] && CursorOk(sources, c) && c.record + 1 < |sources[c.source]| :: Cursor(c.source, c.record + 1)
    {
      assert sameKey[..i + 1] == sameKey[..i] + [sameKey[i]];
      var c := sameKey[i];
      assert c in sameKey;
      if c.record + 1 < |sources[c.source]| {
        heap := heap + {Cursor(c.source, c.record + 1)};
      }
    }
    assert sameKey[..|sameKey|] == sameKey;
  }

  lemma PushedHeap(sources: seq<Run>, at: seq<nat>, key: Key)
    requires Positions(sources, at)
    ensures var heap := HeapAt(sources, at);
            HeapAt(sources, Advanced(sources, at, key)) ==
              heap - AtKey(sources, heap, key) + Moved(sources, AtKey(sources, heap, key))
  {
    var heap := HeapAt(sources, at);
    var popped := AtKey(sources, heap, key);
    var next := Advanced(sources, at, key);
    forall c | c in HeapAt(sources, next) ensures c in heap - popped + Moved(sources, popped) {
      if next[c.source] == at[c.source] + 1 {
        assert Cursor(c.source, at[c.source]) in popped;
      }
    }
  }

  // ----- Counting ------------------------------------------------------------------------------

  ghost function Sum(counts: seq<nat>): nat {
    if counts == [] then 0 else Sum(counts[..|counts| - 1]) + counts[|counts| - 1]
  }

  ghost function Below(popped: set<Cursor>, n: nat): set<Cursor> {
    set c | c in popped && c.source < n
  }

  lemma PoppedCursors(sources: seq<Run>, at: seq<nat>, key: Key)
    requires Positions(sources, at)
    ensures var popped := AtKey(sources, HeapAt(sources, at), key);
            && (forall c :: c in popped ==> c.source < |sources| && c == Cursor(c.source, at[c.source]))
            && forall s :: 0 <= s < |sources| ==>
                 Advanced(sources, at, key)[s] == at[s] + if Cursor(s, at[s]) in popped then 1 else 0
  {
  }

  /** Each round consumes as many records as there were cursors at its key. */
  lemma {:induction false} RoundConsumes(at: seq<nat>, next: seq<nat>, popped: set<Cursor>, n: nat)
    requires n <= |at| == |next|
    requires forall c :: c in popped ==> c.source < |at| && c == Cursor(c.source, at[c.source])
    requires forall s :: 0 <= s < |at| ==> next[s] == at[s] + if Cursor(s, at[s]) in popped then 1 else 0
    ensures Sum(next[..n]) == Sum(at[..n]) + |Below(popped, n)|
  {
    if n > 0 {
      RoundConsumes(at, next, popped, n - 1);
      assert next[..n][..n - 1] == next[..n - 1] && at[..n][..n - 1] == at[..n - 1];
      var c := Cursor(n - 1, at[n - 1]);
      if c in popped {
        assert Below(popped, n) == Below(popped, n - 1) + {c};
      } else {
        assert Below(popped, n) == Below(popped, n - 1);
      }
    }
  }

  ghost function Lengths(sources: seq<Run>): seq<nat> {
    seq(|sources|, s requires 0 <= s < |sources| => |sources[s]|)
  }

  lemma {:induction false} SumZeros(n: nat)
    ensures Sum(seq(n, _ => 0)) == 0
  {
    if n > 0 {
      assert seq(n, _ => 0)[..n - 1] == seq(n - 1, _ => 0);
      SumZeros(n - 1);
    }
  }

  // ----- Splitting the output --------------------------------------------------------------------

  /** No empty output, and only single records may exceed the size limit. */
  ghost predicate OutputsOk(outputs: seq<Run>, limit: nat) {
    forall i :: 0 <= i < |outputs| ==> outputs[i] != [] && (|outputs[i]| > 1 ==> RunBytes(outputs[i]) <= limit)
  }

  lemma InsertLast(run: Run, r: Record)
    requires forall i :: 0 <= i < |run| ==> Less(run[i].key, r.key)
    ensures Insert(run, r) == run + [r]
  {
    if run != [] {
      assert Less(run[0].key, r.key);
      assert forall i :: 0 <= i < |run[1..]| ==> run[1..][i] == run[i + 1];
      InsertLast(run[1..], r);
    }
  }

  /** AddOutputRecord: into the last output, or into a new one once the last would grow too large. */
  method AddOutputRecord(r: Record, limit: nat, outputs: seq<Run>) returns (result: seq<Run>)
    requires OutputsOk(outputs, limit)
    requires forall x :: x in Flatten(outputs) ==> Less(x.key, r.key)
    ensures OutputsOk(result, limit) && Flatten(result) == Flatten(outputs) + [r]
  {
    hide Insert, RecordBytes;
    if outputs == [] {
      result := [[r]];
      assert result[..0] == [];
      return;
    }
    var last := |outputs| - 1;
    var current := outputs[last];
    var size := RecordBytes(r);
    if size > limit || RunBytes(current) > limit - size {
      result := outputs + [[r]];
      assert result[..|result| - 1] == outputs;
    } else {
      forall i | 0 <= i < |current| ensures Less(current[i].key, r.key) {
        assert current[i] in Flatten(outputs);
      }
      InsertLast(current, r);
      result := outputs[last := Insert(current, r)];
      assert result[..last] == outputs[..last];
      assert (current + [r])[..|current|] == current;
    }
  }

  // ----- Sequence numbers used twice ---------------------------------------------------------------

  /** Two runs hold the key with the same sequence number. */
  ghost predicate Shared(runs: seq<Run>, k: Key, i: nat, j: nat)
    requires i < |runs| && j < |runs|
  {
    && Lookup(runs[i], k).Some? && Lookup(runs[j], k).Some?
    && Lookup(runs[i], k).value.sequence == Lookup(runs[j], k).value.sequence
  }

  /** No key has its greatest sequence number in two runs. */
  ghost predicate Clear(runs: seq<Run>) {
    forall k, i, j :: 0 <= i < j < |runs| && Shared(runs, k, i, j) ==>
      Lookup(runs[i], k).value.sequence < Newest(runs, k).value.sequence
  }

  /** The greatest sequence number of the key is in two runs. */
  ghost predicate TiedAt(runs: seq<Run>, k: Key) {
    exists i, j :: 0 <= i < j < |runs| && Shared(runs, k, i, j) && Lookup(runs[i], k).value.sequence == Newest(runs, k).value.sequence
  }

  lemma StepClear(sources: seq<Run>, at: seq<nat>, merged: Run, key: Key, w: Cursor)
    requires Positions(sources, at) && AllSorted(sources) && Agrees(sources, at, merged) && Split(sources, at, merged)
    requires Wins(sources, AtKey(sources, HeapAt(sources, at), key), w) && Clear(Prefixes(sources, at))
    ensures Clear(Prefixes(sources, Advanced(sources, at, key)))
  {
    hide Lookup, Less, Wins, AtKey, Agrees, Split;
    var before, after := Prefixes(sources, at), Prefixes(sources, Advanced(sources, at, key));
    StepNewest(sources, at, merged, key, w);
    forall k, i, j | 0 <= i < j < |after| && Shared(after, k, i, j)
      ensures Lookup(after[i], k).value.sequence < Newest(after, k).value.sequence
    {
      if k == key {
        SharedAtKey(sources, at, merged, key, w, i, j);
      } else {
        PrefixStep(sources, at, key, i, k);
        PrefixStep(sources, at, key, j, k);
        NewestElsewhere(sources, at, key, k);
        assert Shared(before, k, i, j);
      }
    }
  }

  lemma SharedAtKey(sources: seq<Run>, at: seq<nat>, merged: Run, key: Key, w: Cursor, i: nat, j: nat)
    requires Positions(sources, at) && AllSorted(sources) && Agrees(sources, at, merged) && Split(sources, at, merged)
    requires Wins(sources, AtKey(sources, HeapAt(sources, at), key), w) && i < j < |sources|
    requires Shared(Prefixes(sources, Advanced(sources, at, key)), key, i, j)
    ensures Lookup(Prefixes(sources, Advanced(sources, at, key))[i], key).value.sequence < At(sources, w).sequence
  {
    hide Lookup, Less;
    KeyIsNew(sources, at, merged, key, w);
    PrefixStep(sources, at, key, i, key);
    PrefixStep(sources, at, key, j, key);
    assert Cursor(i, at[i]) in AtKey(sources, HeapAt(sources, at), key);
    assert Cursor(j, at[j]) in AtKey(sources, HeapAt(sources, at), key);
  }

  /** A round changes nothing under other keys. */
  lemma NewestElsewhere(sources: seq<Run>, at: seq<nat>, key: Key, k: Key)
    requires Positions(sources, at) && AllSorted(sources) && k != key
    ensures Newest(Prefixes(sources, Advanced(sources, at, key)), k) == Newest(Prefixes(sources, at), k)
  {
    hide Lookup;
    var before, after := Prefixes(sources, at), Prefixes(sources, Advanced(sources, at, key));
    forall s | 0 <= s < |sources| ensures Lookup(after[s], k) == Lookup(before[s], k) {
      PrefixStep(sources, at, key, s, k);
    }
    NewestSame(after, before, k);
  }

  /** At the smallest key left, a source holds the key exactly if its cursor stands at it. */
  lemma HeadOrNone(sources: seq<Run>, at: seq<nat>, merged: Run, key: Key, w: Cursor, s: nat)
    requires Positions(sources, at) && AllSorted(sources) && Agrees(sources, at, merged) && Split(sources, at, merged)
    requires w in HeapAt(sources, at) && At(sources, w).key == key && LeastKey(sources, HeapAt(sources, at), key)
    requires s < |sources| && Lookup(sources[s], key).Some?
    ensures at[s] < |sources[s]| && sources[s][at[s]] == Lookup(sources[s], key).value
  {
    var r := Lookup(sources[s], key).value;
    var i :| 0 <= i < |sources[s]| && sources[s][i] == r;
    KeyIsNew(sources, at, merged, key, w);
    forall n | 0 <= n < at[s] ensures sources[s][n].key != key {
      assert Prefixes(sources, at)[s][n] == sources[s][n];
    }
    assert Cursor(s, at[s]) in HeapAt(sources, at);
  }

  lemma TieIsUnclear(sources: seq<Run>, at: seq<nat>, merged: Run, key: Key, w: Cursor, d: Cursor)
    requires Positions(sources, at) && AllSorted(sources) && Agrees(sources, at, merged) && Split(sources, at, merged)
    requires LeastKey(sources, HeapAt(sources, at), key)
    requires Ties(sources, AtKey(sources, HeapAt(sources, at), key), w, d)
    ensures !Clear(sources) && TiedAt(sources, key)
  {
    hide Lookup, Less;
    var top := At(sources, w).sequence;
    LookupMember(sources[w.source], At(sources, w));
    LookupMember(sources[d.source], At(sources, d));
    NewestHolder(sources, key);
    var newest := Newest(sources, key);
    var s :| 0 <= s < |sources| && Lookup(sources[s], key) == newest;
    HeadOrNone(sources, at, merged, key, w, s);
    assert Cursor(s, at[s]) in AtKey(sources, HeapAt(sources, at), key);
    assert newest.value.sequence <= top;
    var i, j := if w.source < d.source then w.source else d.source, if w.source < d.source then d.source else w.source;
    assert Shared(sources, key, i, j) && Lookup(sources[i], key).value.sequence == top;
  }

  // ----- Dropping tombstones --------------------------------------------------------------------------

  function Surviving(found: Option<Record>, drop: bool): Option<Record> {
    if found.Some? && drop && found.value.kind == Deletion then None else found
  }

  function Kept(merged: Run, drop: bool): Run {
    if merged == [] then []
    else
      var rest, r := Kept(merged[..|merged| - 1], drop), merged[|merged| - 1];
      if drop && r.kind == Deletion then rest else rest + [r]
  }

  lemma {:induction false} KeptLookup(merged: Run, drop: bool, k: Key)
    requires Sorted(merged)
    ensures Sorted(Kept(merged, drop))
    ensures forall r :: r in Kept(merged, drop) ==> r in merged
    ensures Lookup(Kept(merged, drop), k) == Surviving(Lookup(merged, k), drop)
  {
    hide Lookup;
    if merged != [] {
      var rest, r := merged[..|merged| - 1], merged[|merged| - 1];
      assert merged == rest + [r];
      LookupExtended(rest, r, k);
      KeptLookup(rest, drop, k);
      KeptStep(rest, r, drop, k);
    } else {
      assert Lookup(merged, k).None?;
      assert Kept(merged, drop) == merged;
    }
  }

  lemma KeptStep(rest: Run, r: Record, drop: bool, k: Key)
    requires Sorted(rest + [r]) && Sorted(Kept(rest, drop)) && forall x :: x in Kept(rest, drop) ==> x in rest
    requires Lookup(Kept(rest, drop), k) == Surviving(Lookup(rest, k), drop)
    ensures Sorted(Kept(rest, drop) + [r])
    ensures Lookup(Kept(rest, drop) + [r], k) == if r.key == k then Some(r) else Surviving(Lookup(rest, k), drop)
    ensures r.key == k ==> Lookup(Kept(rest, drop), k).None?
  {
    hide Lookup;
    var kept, all := Kept(rest, drop), rest + [r];
    forall x | x in rest ensures Less(x.key, r.key) {
      var i :| 0 <= i < |rest| && rest[i] == x;
      assert all[i] == x && all[|rest|] == r;
    }
    assert forall i :: 0 <= i < |kept| ==> kept[i] in kept;
    LookupExtended(kept, r, k);
    assert Lookup(kept, k).Some? ==> Lookup(kept, k).value in kept;
  }

  // ----- BuildCompactionOutputs --------------------------------------------------------------------------

  datatype BuildStats = BuildStats(inputRecords: nat, outputRecords: nat, duplicates: nat, tombstones: nat)

  datatype BuildStatus = Built | Refused | SequenceReused

  /** What holds between two rounds of the merge. */
  ghost predicate Progress(
    sources: seq<Run>, at: seq<nat>, merged: Run, outputs: seq<Run>, limit: nat, drop: bool, stats: BuildStats)
  {
    && Positions(sources, at) && Agrees(sources, at, merged) && Split(sources, at, merged)
    && Clear(Prefixes(sources, at))
    && OutputsOk(outputs, limit) && Flatten(outputs) == Kept(merged, drop)
    && Sum(at) == |merged| + stats.duplicates
    && |merged| == stats.outputRecords + stats.tombstones && stats.outputRecords == |Flatten(outputs)|
  }

  lemma ProgressAtStart(sources: seq<Run>, limit: nat, drop: bool)
    ensures var at := seq(|sources|, _ => 0);
            Progress(sources, at, [], [], limit, drop, BuildStats(Sum(Lengths(sources)), 0, 0, 0))
  {
    var at: seq<nat> := seq(|sources|, _ => 0);
    SumZeros(|sources|);
    var empty := Prefixes(sources, at);
    forall k ensures Lookup([], k) == Newest(empty, k) {
      NewestHolder(empty, k);
    }
  }

  /** The record of a round goes to the outputs, unless it is a tombstone that may be dropped. */
  method Emit(r: Record, limit: nat, drop: bool, outputs: seq<Run>, stats: BuildStats, ghost merged: Run, popped: nat)
    returns (outputs': seq<Run>, stats': BuildStats)
    requires OutputsOk(outputs, limit) && Flatten(outputs) == Kept(merged, drop) && Sorted(merged + [r]) && popped > 0
    requires |merged| == stats.outputRecords + stats.tombstones && stats.outputRecords == |Flatten(outputs)|
    ensures OutputsOk(outputs', limit) && Flatten(outputs') == Kept(merged + [r], drop)
    ensures |merged| + 1 == stats'.outputRecords + stats'.tombstones && stats'.outputRecords == |Flatten(outputs')|
    ensures stats'.duplicates == stats.duplicates + popped - 1 && stats'.inputRecords == stats.inputRecords
  {
    hide OutputsOk, Flatten;
    var all := merged + [r];
    assert all[..|all| - 1] == merged && all[|all| - 1] == r;
    stats' := stats.(duplicates := stats.duplicates + popped - 1);
    if r.kind == Deletion && drop {
      outputs', stats' := outputs, stats'.(tombstones := stats.tombstones + 1);
    } else {
      LookupExtended(merged, r, r.key);
      KeptLookup(merged, drop, r.key);
      forall x | x in Flatten(outputs) ensures Less(x.key, r.key) {
        assert x in merged;
        var i :| 0 <= i < |merged| && merged[i] == x;
        assert all[i] == x && all[|merged|] == r;
      }
      outputs' := AddOutputRecord(r, limit, outputs);
      stats' := stats'.(outputRecords := stats.outputRecords + 1);
    }
  }

  /** After a round, everything that held before holds one key further. */
  lemma ProgressStep(
    sources: seq<Run>, at: seq<nat>, merged: Run, outputs: seq<Run>, limit: nat, drop: bool, stats: BuildStats,
    key: Key, w: Cursor, outputs': seq<Run>, stats': BuildStats)
    requires AllSorted(sources) && Progress(sources, at, merged, outputs, limit, drop, stats)
    requires LeastKey(sources, HeapAt(sources, at), key)
    requires Wins(sources, AtKey(sources, HeapAt(sources, at), key), w)
    requires OutputsOk(outputs', limit) && Flatten(outputs') == Kept(merged + [At(sources, w)], drop)
    requires |merged| + 1 == stats'.outputRecords + stats'.tombstones && stats'.outputRecords == |Flatten(outputs')|
    requires stats'.duplicates == stats.duplicates + |AtKey(sources, HeapAt(sources, at), key)| - 1
    ensures Progress(sources, Advanced(sources, at, key), merged + [At(sources, w)], outputs', limit, drop, stats')
    ensures Sum(Advanced(sources, at, key)) > Sum(at)
  {
    hide Agrees, Split, Clear, OutputsOk, Flatten, Kept, LeastKey, Wins, AtKey, HeapAt, Advanced, Sum;
    var next, popped := Advanced(sources, at, key), AtKey(sources, HeapAt(sources, at), key);
    StepAgrees(sources, at, merged, key, w);
    StepClear(sources, at, merged, key, w);
    PoppedCursors(sources, at, key);
    RoundConsumes(at, next, popped, |sources|);
    assert Below(popped, |sources|) == popped;
    assert next[..|sources|] == next && at[..|sources|] == at;
    assert |popped| > 0 by { WinnerPopped(sources, popped, w); }
  }

  lemma WinnerPopped(sources: seq<Run>, popped: set<Cursor>, w: Cursor)
    requires HeapOk(sources, popped) && Wins(sources, popped, w)
    ensures |popped| > 0
  {
    assert popped != {};
  }

  lemma {:induction false} SumAtMost(a: seq<nat>, b: seq<nat>)
    requires |a| == |b| && forall s :: 0 <= s < |a| ==> a[s] <= b[s]
    ensures Sum(a) <= Sum(b)
    ensures Sum(a) == Sum(b) ==> a == b
  {
    if a != [] {
      var n := |a| - 1;
      SumAtMost(a[..n], b[..n]);
      assert a == a[..n] + [a[n]] && b == b[..n] + [b[n]];
    }
  }

  /** An empty heap means every source has been read to its end. */
  lemma ProgressAtEnd(sources: seq<Run>, at: seq<nat>, merged: Run, outputs: seq<Run>, limit: nat, drop: bool, stats: BuildStats)
    requires Progress(sources, at, merged, outputs, limit, drop, stats) && HeapAt(sources, at) == {}
    ensures Clear(sources) && Sorted(Flatten(outputs))
    ensures forall k :: Lookup(Flatten(outputs), k) == Surviving(Newest(sources, k), drop)
    ensures Sum(at) == Sum(Lengths(sources))
  {
    hide Lookup, Clear, OutputsOk, Kept, Split, Newest;
    forall s | 0 <= s < |sources| ensures at[s] == |sources[s]| {
      assert Cursor(s, at[s]) !in HeapAt(sources, at);
    }
    assert at == Lengths(sources);
    assert forall s :: 0 <= s < |sources| ==> Prefixes(sources, at)[s] == sources[s];
    assert Prefixes(sources, at) == sources;
    forall k ensures Lookup(Flatten(outputs), k) == Surviving(Newest(sources, k), drop) {
      KeptLookup(merged, drop, k);
    }
    KeptLookup(merged, drop, []);
  }

  /** Counts the records and starts a cursor on every source that has one. */
  method Start(sources: seq<Run>) returns (heap: set<Cursor>, total: nat)
    ensures heap == HeapAt(sources, seq(|sources|, _ => 0))
    ensures total == Sum(Lengths(sources))
  {
    heap, total := {}, 0;
    ghost var lengths := Lengths(sources);
    for s := 0 to |sources|
      invariant heap == set i | 0 <= i < s && 0 < |sources[i]| :: Cursor(i, 0)
      invariant total == Sum(lengths[..s])
    {
      assert lengths[..s + 1][..s] == lengths[..s];
      total := total + |sources[s]|;
      if sources[s] != [] {
        heap := heap + {Cursor(s, 0)};
      }
    }
    assert lengths[..|sources|] == lengths;
  }

  lemma RoundParts(sources: seq<Run>, at: seq<nat>, merged: Run, key: Key, w: Cursor)
    requires Positions(sources, at) && AllSorted(sources) && Agrees(sources, at, merged) && Split(sources, at, merged)
    requires LeastKey(sources, HeapAt(sources, at), key)
    requires Wins(sources, AtKey(sources, HeapAt(sources, at), key), w)
    ensures CursorOk(sources, w) && Sorted(merged + [At(sources, w)])
    ensures |AtKey(sources, HeapAt(sources, at), key)| > 0
  {
    hide Split, LeastKey;
    WinnerPopped(sources, AtKey(sources, HeapAt(sources, at), key), w);
    StepAgrees(sources, at, merged, key, w);
  }

  /** The sources' records, newest of each key, in key order, split into tables of bounded size. */
  method BuildCompactionOutputs(sources: seq<Run>, limit: nat, drop: bool)
    returns (status: BuildStatus, outputs: seq<Run>, stats: BuildStats)
    requires AllSorted(sources)
    ensures status == Refused <==> sources == [] || limit == 0
    ensures status == SequenceReused <==> sources != [] && limit != 0 && !Clear(sources)
    ensures status == Built ==> OutputsOk(outputs, limit) && Sorted(Flatten(outputs))
    ensures status == Built ==> forall k :: Lookup(Flatten(outputs), k) == Surviving(Newest(sources, k), drop)
    ensures status == Built ==>
              && stats.inputRecords == Sum(Lengths(sources)) && stats.outputRecords == |Flatten(outputs)|
              && stats.inputRecords == stats.outputRecords + stats.duplicates + stats.tombstones
  {
    hide Lookup, Newest, Less, Sorted, AllSorted, Agrees, Split, Clear, OutputsOk, Flatten, Kept, LeastKey, Wins, Ties,
         Advanced, Sum, Moved, Surviving, Prefixes;
    outputs, stats := [], BuildStats(0, 0, 0, 0);
    if sources == [] || limit == 0 {
      return Refused, outputs, stats;
    }
    var heap, total := Start(sources);
    stats := stats.(inputRecords := total);
    ghost var at: seq<nat>, merged: Run := seq(|sources|, _ => 0), [];
    ProgressAtStart(sources, limit, drop);
    SumAtMost(at, Lengths(sources));
    while heap != {}
      invariant Progress(sources, at, merged, outputs, limit, drop, stats)
      invariant heap == HeapAt(sources, at) && stats.inputRecords == Sum(Lengths(sources))
      decreases Sum(Lengths(sources)) - Sum(at)
    {
      var tie, key, winner, rival, sameKey, rest := PopKey(sources, heap);
      if tie {
        TieIsUnclear(sources, at, merged, key, winner, rival);
        return SequenceReused, [], stats;
      }
      ghost var popped := AtKey(sources, heap, key);
      RoundParts(sources, at, merged, key, winner);
      var outputs', stats' := Emit(At(sources, winner), limit, drop, outputs, stats, merged, |sameKey|);
      ProgressStep(sources, at, merged, outputs, limit, drop, stats, key, winner, outputs', stats');
      PushedHeap(sources, at, key);
      heap := Push(sources, sameKey, rest, popped);
      at, merged, outputs, stats := Advanced(sources, at, key), merged + [At(sources, winner)], outputs', stats';
      SumAtMost(at, Lengths(sources));
    }
    ProgressAtEnd(sources, at, merged, outputs, limit, drop, stats);
    status := Built;
  }
}
