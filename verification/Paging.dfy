/** One page of a scan: the sources within its range, merged up to the limit (src/scan.cpp:216-463). */
module Paging {
  import opened Configuration
  import opened Keys
  import opened Runs
  import opened Summaries
  import opened Tables
  import opened TableReader
  import opened TableIterators
  import opened Merge
  import opened ScanTokens

  // ----- What a page covers -------------------------------------------------------------------------

  /** The keys of the range, or only those after the key at which the scan resumes. */
  predicate InPage(k: Key, bounds: Bounds, resume: Key) {
    InRange(k, bounds.begin, bounds.end) && (resume != [] ==> Less(resume, k))
  }

  predicate AfterStart(k: Key, bounds: Bounds, resume: Key) {
    AtMost(bounds.begin, k) && (resume != [] ==> Less(resume, k))
  }

  /** The records of a run that a page covers. */
  function Covered(run: Run, bounds: Bounds, resume: Key): Run {
    if run == [] then []
    else (if InPage(run[0].key, bounds, resume) then [run[0]] else []) + Covered(run[1..], bounds, resume)
  }

  lemma {:induction false} CoveredMembers(run: Run, bounds: Bounds, resume: Key)
    requires Sorted(run)
    ensures Sorted(Covered(run, bounds, resume))
    ensures forall r :: r in Covered(run, bounds, resume) <==> r in run && InPage(r.key, bounds, resume)
  {
    hide InPage, Less;
    if run != [] {
      var rest := Covered(run[1..], bounds, resume);
      RestMembers(run);
      CoveredMembers(run[1..], bounds, resume);
      if InPage(run[0].key, bounds, resume) {
        PrependSorted(run[0], rest) by {
          forall x | x in rest ensures Less(run[0].key, x.key) {
            var j :| 0 <= j < |run[1..]| && run[1..][j] == x;
          }
        }
      }
      assert run == [run[0]] + run[1..];
    }
  }

  lemma CoveredLookup(run: Run, bounds: Bounds, resume: Key, k: Key)
    requires Sorted(run)
    ensures Lookup(Covered(run, bounds, resume), k) == if InPage(k, bounds, resume) then Lookup(run, k) else None
  {
    hide InPage, Less, Lookup, Covered;
    CoveredMembers(run, bounds, resume);
    var found, part := Lookup(run, k), Lookup(Covered(run, bounds, resume), k);
    if found.Some? && InPage(k, bounds, resume) {
      LookupMember(Covered(run, bounds, resume), found.value);
    }
    assert part.Some? ==> part.value in run && InPage(k, bounds, resume);
  }

  /** Once some entries were delivered, the page after the last of them covers exactly the others. */
  lemma CoveredResumed(run: Run, bounds: Bounds, resume: Key, n: nat)
    requires Sorted(run) && 0 < n <= |Covered(run, bounds, resume)| && Covered(run, bounds, resume)[n - 1].key != []
    ensures var all := Covered(run, bounds, resume);
            Covered(run, bounds, all[n - 1].key) == all[n..] && InPage(all[n - 1].key, bounds, resume)
  {
    hide Covered;
    var all := Covered(run, bounds, resume);
    var last := all[n - 1].key;
    CoveredMembers(run, bounds, resume);
    CoveredMembers(run, bounds, last);
    assert all[n - 1] in all;
    assert all == all[..n] + all[n..];
    SortedParts(all[..n], all[n..]);
    assert all[..n][n - 1] == all[n - 1];
    forall r ensures r in Covered(run, bounds, last) <==> r in all[n..] {
      if r in all[..n] {
        NotAfterLast(all, n, r);
      }
    }
    SameMembers(Covered(run, bounds, last), all[n..]);
  }

  lemma NotAfterLast(all: Run, n: nat, r: Record)
    requires Sorted(all) && 0 < n <= |all| && r in all[..n]
    ensures AtMost(r.key, all[n - 1].key) && r !in all[n..]
  {
    var i :| 0 <= i < n && all[i] == r;
    forall j | n <= j < |all| ensures all[j] != r { assert Less(all[i].key, all[j].key); }
  }

  // ----- The sources of a page --------------------------------------------------------------------------

  lemma {:induction false} CoveredSlice(run: Run, bounds: Bounds, resume: Key, i: nat, j: nat)
    requires i <= j <= |run|
    requires forall n :: 0 <= n < |run| ==> (InPage(run[n].key, bounds, resume) <==> i <= n < j)
    ensures Covered(run, bounds, resume) == run[i..j]
  {
    hide InPage;
    if run != [] {
      var i', j' := if i == 0 then 0 else i - 1, if j == 0 then 0 else j - 1;
      assert forall n :: 0 <= n < |run[1..]| ==> run[1..][n] == run[n + 1];
      if i == 0 && j > 0 {
        CoveredSlice(run[1..], bounds, resume, 0, j - 1);
        assert run[0..j] == [run[0]] + run[1..][0..j - 1];
      } else {
        CoveredSlice(run[1..], bounds, resume, i', j');
        assert run[i..j] == run[1..][i'..j'];
      }
    }
  }

  /** AddMemorySource: the records of a MemTable from the page's start up to the range's end. */
  method MemorySource(entries: Run, bounds: Bounds, resume: Key) returns (source: Run)
    requires Sorted(entries) && (resume != [] ==> AtMost(bounds.begin, resume))
    ensures source == Covered(entries, bounds, resume)
  {
    hide Less, Covered, InPage, AfterStart;
    var lower := if resume == [] then bounds.begin else resume;
    var at := LowerBound(entries, lower);
    var position := if resume != [] && at < |entries| && entries[at].key == resume then at + 1 else at;
    PageStart(entries, bounds, resume, at);
    var stop := position;
    while stop < |entries| && (bounds.end.None? || Less(entries[stop].key, bounds.end.value))
      invariant position <= stop <= |entries|
      invariant bounds.end.Some? ==> forall n :: position <= n < stop ==> Less(entries[n].key, bounds.end.value)
    {
      stop := stop + 1;
    }
    PageEnd(entries, bounds, resume, position, stop);
    CoveredSlice(entries, bounds, resume, position, stop);
    source := entries[position..stop];
  }

  /** The page starts at the lower bound, past the key at which the scan resumes. */
  lemma PageStart(entries: Run, bounds: Bounds, resume: Key, at: nat)
    requires Sorted(entries) && at <= |entries| && (resume != [] ==> AtMost(bounds.begin, resume))
    requires var lower := if resume == [] then bounds.begin else resume;
             && (forall j :: 0 <= j < at ==> Less(entries[j].key, lower))
             && (forall j :: at <= j < |entries| ==> AtMost(lower, entries[j].key))
    ensures var position := if resume != [] && at < |entries| && entries[at].key == resume then at + 1 else at;
            forall n :: 0 <= n < |entries| ==> (AfterStart(entries[n].key, bounds, resume) <==> position <= n)
  {
    var position := if resume != [] && at < |entries| && entries[at].key == resume then at + 1 else at;
    forall n | 0 <= n < |entries| ensures AfterStart(entries[n].key, bounds, resume) <==> position <= n {
      assert at < n ==> Less(entries[at].key, entries[n].key);
    }
  }

  lemma PageEnd(entries: Run, bounds: Bounds, resume: Key, position: nat, stop: nat)
    requires Sorted(entries) && position <= stop <= |entries|
    requires forall n :: 0 <= n < |entries| ==> (AfterStart(entries[n].key, bounds, resume) <==> position <= n)
    requires bounds.end.Some? ==> forall n :: position <= n < stop ==> Less(entries[n].key, bounds.end.value)
    requires stop < |entries| ==> bounds.end.Some? && AtMost(bounds.end.value, entries[stop].key)
    ensures forall n :: 0 <= n < |entries| ==> (InPage(entries[n].key, bounds, resume) <==> position <= n < stop)
  {
    forall n | 0 <= n < |entries| ensures InPage(entries[n].key, bounds, resume) <==> position <= n < stop {
      assert AfterStart(entries[n].key, bounds, resume) <==> position <= n;
      assert stop < n ==> Less(entries[stop].key, entries[n].key);
    }
  }

  /** The records of a table that the page covers, read through an iterator; none if its key range misses the page. */
  method TableSource(rd: Reader, bounds: Bounds, resume: Key, o: Options) returns (source: Run)
    requires Opened(rd, o)
    requires |bounds.begin| <= o.maxKeySize && (bounds.end.Some? ==> |bounds.end.value| <= o.maxKeySize)
    requires bounds.end.Some? ==> AtMost(bounds.begin, bounds.end.value)
    requires resume != [] ==> |resume| <= o.maxKeySize && InRange(resume, bounds.begin, bounds.end)
    ensures source == Covered(Contents(rd, o), bounds, resume)
  {
    hide Opened, Contents, Less, Covered, Range, TableIterator.Rest, TableIterator.Valid;
    var begin := if resume == [] then bounds.begin else resume;
    TableRange(rd, bounds, resume, o);
    if Less(rd.summary.maximumKey, begin) || (bounds.end.Some? && AtMost(bounds.end.value, rd.summary.minimumKey)) {
      OutOfBounds(rd, begin, bounds.end, o);
      return [];
    }
    var it := NewIterator(rd, begin, bounds.end, o);
    var current := it.Current();
    if resume != [] && current.Some? && current.value.key == resume {
      it.Next();
    }
    source := Drain(it);
  }

  /** The iterator's range, without the key at which the scan resumes, is what the page covers. */
  lemma TableRange(rd: Reader, bounds: Bounds, resume: Key, o: Options)
    requires Opened(rd, o) && (resume != [] ==> InRange(resume, bounds.begin, bounds.end))
    ensures var all := Range(Contents(rd, o), if resume == [] then bounds.begin else resume, bounds.end);
            Covered(Contents(rd, o), bounds, resume) == if resume != [] && all != [] && all[0].key == resume then all[1..] else all
  {
    hide Opened, Contents, Range, Covered, Describes;
    OpenedDescribes(rd, o);
    DescribedSorted(rd.summary, Contents(rd, o));
    RangeIsPage(Contents(rd, o), bounds, resume);
  }

  lemma RangeIsPage(run: Run, bounds: Bounds, resume: Key)
    requires Sorted(run) && (resume != [] ==> InRange(resume, bounds.begin, bounds.end))
    ensures var all := Range(run, if resume == [] then bounds.begin else resume, bounds.end);
            Covered(run, bounds, resume) == if resume != [] && all != [] && all[0].key == resume then all[1..] else all
  {
    hide Range, Covered, Less;
    var begin := if resume == [] then bounds.begin else resume;
    var all := Range(run, begin, bounds.end);
    RangeMembers(run, begin, bounds.end);
    CoveredMembers(run, bounds, resume);
    if resume != [] && all != [] && all[0].key == resume {
      RestMembers(all);
      forall r ensures r in Covered(run, bounds, resume) <==> r in all[1..] {
        if r in all && r.key == resume {
          SameKey(all, r, all[0]);
        }
      }
      SameMembers(Covered(run, bounds, resume), all[1..]);
    } else {
      forall r ensures r in Covered(run, bounds, resume) <==> r in all {
        if r in all && resume != [] {
          FirstIsLeast(all, r);
          assert all[0] in all;
        }
      }
      SameMembers(Covered(run, bounds, resume), all);
    }
  }

  // ----- The merge -----------------------------------------------------------------------------------------

  /** The live entries of several sources: of every key the newest record, unless that is a tombstone. */
  ghost predicate Shows(sources: seq<Run>, all: Run) {
    Sorted(all) && forall k :: Lookup(all, k) == Surviving(Newest(sources, k), true)
  }

  /** The merge has read the sources up to some key, in order, without meeting a tie. */
  ghost predicate Merging(sources: seq<Run>, at: seq<nat>, merged: Run) {
    && AllSorted(sources) && Positions(sources, at) && Agrees(sources, at, merged) && Split(sources, at, merged)
    && Clear(Prefixes(sources, at))
  }

  lemma MergingStart(sources: seq<Run>)
    requires AllSorted(sources)
    ensures Merging(sources, seq(|sources|, _ => 0), [])
  {
    hide AllSorted;
    ProgressAtStart(sources, 0, true);
  }

  lemma MergingStep(sources: seq<Run>, at: seq<nat>, merged: Run, key: Key, w: Cursor)
    requires Merging(sources, at, merged) && LeastKey(sources, HeapAt(sources, at), key)
    requires Wins(sources, AtKey(sources, HeapAt(sources, at), key), w)
    ensures CursorOk(sources, w) && Merging(sources, Advanced(sources, at, key), merged + [At(sources, w)])
    ensures Sum(Advanced(sources, at, key)) > Sum(at)
  {
    hide Agrees, Split, Clear, LeastKey, Wins, AtKey, HeapAt, Advanced, Sum, AllSorted;
    var next, popped := Advanced(sources, at, key), AtKey(sources, HeapAt(sources, at), key);
    RoundParts(sources, at, merged, key, w);
    StepAgrees(sources, at, merged, key, w);
    StepClear(sources, at, merged, key, w);
    PoppedCursors(sources, at, key);
    RoundConsumes(at, next, popped, |sources|);
    assert Below(popped, |sources|) == popped;
    assert next[..|sources|] == next && at[..|sources|] == at;
  }

  lemma MergingParts(sources: seq<Run>, at: seq<nat>, merged: Run)
    requires Merging(sources, at, merged)
    ensures AllSorted(sources) && Positions(sources, at) && Agrees(sources, at, merged) && Split(sources, at, merged)
    ensures HeapOk(sources, HeapAt(sources, at)) && Sorted(merged)
  {
    hide Split, Clear, AllSorted;
  }

  /** Everything that is left to read comes after the key. */
  ghost predicate Past(sources: seq<Run>, at: seq<nat>, k: Key)
    requires Positions(sources, at)
  {
    forall s, i :: 0 <= s < |sources| && at[s] <= i < |sources[s]| ==> Less(k, sources[s][i].key)
  }

  lemma MergedPast(sources: seq<Run>, at: seq<nat>, merged: Run, r: Record, k: Key)
    requires Positions(sources, at) && Split(sources, at, merged) && r in merged && AtMost(k, r.key)
    ensures Past(sources, at, k)
  {
    var m :| 0 <= m < |merged| && merged[m] == r;
    forall s, i | 0 <= s < |sources| && at[s] <= i < |sources[s]| ensures Less(k, sources[s][i].key) {
      assert Less(merged[m].key, sources[s][i].key);
    }
  }

  lemma LeastPast(sources: seq<Run>, at: seq<nat>, key: Key, k: Key)
    requires Positions(sources, at) && AllSorted(sources) && LeastKey(sources, HeapAt(sources, at), key) && Less(k, key)
    ensures Past(sources, at, k)
  {
    forall s, i | 0 <= s < |sources| && at[s] <= i < |sources[s]| ensures Less(k, sources[s][i].key) {
      assert Cursor(s, at[s]) in HeapAt(sources, at);
      assert at[s] < i ==> Less(sources[s][at[s]].key, sources[s][i].key);
    }
  }

  /** Up to there a source and the part of it already read agree. */
  lemma ReadPart(sources: seq<Run>, at: seq<nat>, s: nat, k: Key)
    requires Positions(sources, at) && AllSorted(sources) && Past(sources, at, k) && s < |sources|
    ensures Lookup(Prefixes(sources, at)[s], k) == Lookup(sources[s], k)
  {
    hide Lookup;
    var run, part := sources[s], Prefixes(sources, at)[s];
    SortedPrefix(run, at[s]);
    var read := Lookup(part, k);
    forall r | r in run && r.key == k ensures r in part {
      var i :| 0 <= i < |run| && run[i] == r;
      assert i < at[s] && part[i] == r;
    }
    if read.Some? {
      LookupMember(run, read.value);
    }
  }

  lemma ReadNewest(sources: seq<Run>, at: seq<nat>, k: Key)
    requires Positions(sources, at) && AllSorted(sources) && Past(sources, at, k)
    ensures Newest(Prefixes(sources, at), k) == Newest(sources, k)
  {
    hide Lookup, Newest, Past, AllSorted;
    forall s | 0 <= s < |sources| ensures Lookup(Prefixes(sources, at)[s], k) == Lookup(sources[s], k) {
      ReadPart(sources, at, s, k);
    }
    NewestSame(Prefixes(sources, at), sources, k);
  }

  /** The keys read are settled: what was merged is what all sources show there. */
  lemma ReadShown(sources: seq<Run>, at: seq<nat>, merged: Run, all: Run, r: Record)
    requires Merging(sources, at, merged) && Shows(sources, all)
    ensures r in Kept(merged, true) <==> r in all && Past(sources, at, r.key)
  {
    hide Merging, Lookup, Newest, Less, Kept, Surviving, Split, Past;
    MergingParts(sources, at, merged);
    KeptLookup(merged, true, r.key);
    if r in Kept(merged, true) {
      MergedPast(sources, at, merged, r, r.key);
      LookupMember(Kept(merged, true), r);
    } else if r in all {
      LookupMember(all, r);
    }
    if Past(sources, at, r.key) {
      ReadNewest(sources, at, r.key);
      assert Lookup(Kept(merged, true), r.key) == Lookup(all, r.key);
    }
  }

  /** Two records of one sequence number cannot have been passed over. */
  lemma ReadUntied(sources: seq<Run>, at: seq<nat>, merged: Run, k: Key)
    requires Merging(sources, at, merged) && Past(sources, at, k)
    ensures !TiedAt(sources, k)
  {
    hide Lookup, Newest, Past, AllSorted, Agrees, Split;
    var parts := Prefixes(sources, at);
    ReadNewest(sources, at, k);
    forall i, j | 0 <= i < j < |sources| && Shared(sources, k, i, j)
      ensures Lookup(sources[i], k).value.sequence < Newest(sources, k).value.sequence
    {
      ReadPart(sources, at, i, k);
      ReadPart(sources, at, j, k);
      assert Shared(parts, k, i, j);
    }
  }

  /** A part of a run that leaves out nothing before its own members is a prefix of it. */
  lemma {:induction false} PrefixDown(part: Run, all: Run)
    requires Sorted(part) && Sorted(all) && forall r :: r in part ==> r in all
    requires forall r, q :: r in part && q in all && Less(q.key, r.key) ==> q in part
    ensures part <= all
  {
    hide Less;
    if part != [] {
      assert part[0] in part;
      FirstIsLeast(all, part[0]);
      var first := all[0];
      assert first in all && (Less(first.key, part[0].key) ==> first in part);
      if first in part { FirstIsLeast(part, first); }
      SameKey(all, part[0], first);
      RestMembers(part);
      RestMembers(all);
      PrefixDown(part[1..], all[1..]);
      assert part == [part[0]] + part[1..] && all == [all[0]] + all[1..];
    }
  }

  lemma ReadPrefix(sources: seq<Run>, at: seq<nat>, merged: Run, all: Run)
    requires Merging(sources, at, merged) && Shows(sources, all)
    ensures Kept(merged, true) <= all
  {
    hide Merging, Shows, Kept, Lookup, Newest, Less;
    MergingParts(sources, at, merged);
    ShowsSorted(sources, all);
    KeptLookup(merged, true, []);
    forall r | r in Kept(merged, true) ensures r in all { ReadShown(sources, at, merged, all, r); }
    forall r, q | r in Kept(merged, true) && q in all && Less(q.key, r.key) ensures q in Kept(merged, true) {
      MergedPast(sources, at, merged, r, q.key);
      ReadShown(sources, at, merged, all, q);
    }
    PrefixDown(Kept(merged, true), all);
  }

  /** At most one entry more than asked for, all there are if no more than asked for, and no tie up to there. */
  ghost predicate IsPage(sources: seq<Run>, page: Run, limit: nat) {
    && |page| <= limit + 1
    && (forall all :: Shows(sources, all) ==> page <= all && (|page| <= limit ==> page == all))
    && (forall k :: |page| <= limit || AtMost(k, page[limit].key) ==> !TiedAt(sources, k))
  }

  lemma PartialPage(sources: seq<Run>, at: seq<nat>, merged: Run, limit: nat)
    requires Merging(sources, at, merged) && |Kept(merged, true)| == limit + 1
    ensures IsPage(sources, Kept(merged, true), limit)
  {
    hide Merging, Shows, Kept, TiedAt, Split, Sorted, Less;
    var page := Kept(merged, true);
    MergingParts(sources, at, merged);
    KeptLookup(merged, true, []);
    forall all | Shows(sources, all) ensures page <= all { ReadPrefix(sources, at, merged, all); }
    forall k | AtMost(k, page[limit].key) ensures !TiedAt(sources, k) {
      assert page[limit] in page;
      MergedPast(sources, at, merged, page[limit], k);
      ReadUntied(sources, at, merged, k);
    }
  }

  /** A tie at a key before which the sources show no more entries than the limit. */
  ghost predicate EarlyTie(sources: seq<Run>, k: Key, limit: nat) {
    TiedAt(sources, k) && forall all: Run :: Shows(sources, all) && |all| > limit ==> AtMost(k, all[limit].key)
  }

  lemma TieIsEarly(sources: seq<Run>, at: seq<nat>, merged: Run, key: Key, limit: nat)
    requires Merging(sources, at, merged) && |Kept(merged, true)| <= limit && TiedAt(sources, key)
    requires LeastKey(sources, HeapAt(sources, at), key)
    ensures EarlyTie(sources, key, limit)
  {
    hide Merging, Shows, Kept, TiedAt, Split, Less, LeastKey, HeapAt;
    var page := Kept(merged, true);
    MergingParts(sources, at, merged);
    forall all: Run | Shows(sources, all) && |all| > limit ensures AtMost(key, all[limit].key) {
      ReadPrefix(sources, at, merged, all);
      ShowsSorted(sources, all);
      forall r | r in all && Less(r.key, key) ensures r in page {
        LeastPast(sources, at, key, r.key);
        ReadShown(sources, at, merged, all, r);
      }
      NotInPrefix(page, all, limit);
    }
  }

  lemma NotInPrefix(part: Run, all: Run, i: nat)
    requires Sorted(all) && part <= all && |part| <= i < |all|
    ensures all[i] !in part && all[i] in all
  {
    forall j | 0 <= j < |part| ensures part[j] != all[i] { assert Less(all[j].key, all[i].key); }
  }

  lemma NothingKept()
    ensures Kept([], true) == []
  {
  }

  lemma ShowsSorted(sources: seq<Run>, all: Run)
    requires Shows(sources, all)
    ensures Sorted(all)
  {
  }

  /** Two runs that show the same sources are the same. */
  lemma ShowsOnce(sources: seq<Run>, a: Run, b: Run)
    requires Shows(sources, a) && Shows(sources, b)
    ensures a == b
  {
    hide Lookup, Newest;
    forall r ensures r in a <==> r in b {
      if r in a {
        LookupMember(a, r);
      } else if r in b {
        LookupMember(b, r);
      }
    }
    SameMembers(a, b);
  }

  lemma WholePage(sources: seq<Run>, at: seq<nat>, merged: Run, limit: nat)
    requires Merging(sources, at, merged) && HeapAt(sources, at) == {} && |Kept(merged, true)| <= limit + 1
    ensures IsPage(sources, Kept(merged, true), limit) && Shows(sources, Kept(merged, true))
  {
    hide Lookup, Newest, Clear, Kept, Split, Surviving, TiedAt, Merging;
    MergingParts(sources, at, merged);
    forall s | 0 <= s < |sources| ensures at[s] == |sources[s]| {
      assert Cursor(s, at[s]) !in HeapAt(sources, at);
    }
    assert forall s :: 0 <= s < |sources| ==> Prefixes(sources, at)[s] == sources[s];
    assert Prefixes(sources, at) == sources;
    KeptLookup(merged, true, []);
    forall k ensures Lookup(Kept(merged, true), k) == Surviving(Newest(sources, k), true) {
      KeptLookup(merged, true, k);
    }
    forall all | Shows(sources, all) ensures all == Kept(merged, true) {
      ShowsOnce(sources, all, Kept(merged, true));
    }
    forall k ensures !TiedAt(sources, k) { ReadUntied(sources, at, merged, k); }
  }

  /** The heap merge of Database::Scan: stops one entry past the limit, or at two records with one sequence number. */
  method MergePage(sources: seq<Run>, limit: nat) returns (tie: bool, page: Run)
    requires AllSorted(sources)
    ensures tie ==> exists k :: EarlyTie(sources, k, limit)
    ensures !tie ==> IsPage(sources, page, limit)
  {
    hide Lookup, Newest, Less, Sorted, AllSorted, Clear, Kept, LeastKey, Wins, Ties, Advanced, Sum, Moved, Surviving, Prefixes,
         Merging, Shows, HeapAt, IsPage, TiedAt, EarlyTie;
    var heap, total := Start(sources);
    page := [];
    ghost var at: seq<nat>, merged: Run := seq(|sources|, _ => 0), [];
    MergingStart(sources);
    NothingKept();
    MergingParts(sources, at, merged);
    SumAtMost(at, Lengths(sources));
    while heap != {} && |page| <= limit
      invariant Merging(sources, at, merged) && Positions(sources, at) && heap == HeapAt(sources, at)
      invariant page == Kept(merged, true) && |page| <= limit + 1
      decreases Sum(Lengths(sources)) - Sum(at)
    {
      MergingParts(sources, at, merged);
      var tie', key, winner, rival, sameKey, rest := PopKey(sources, heap);
      if tie' {
        TieIsUnclear(sources, at, merged, key, winner, rival);
        TieIsEarly(sources, at, merged, key, limit);
        return true, [];
      }
      ghost var popped := AtKey(sources, heap, key);
      MergingStep(sources, at, merged, key, winner);
      KeptNext(merged, At(sources, winner));
      PushedHeap(sources, at, key);
      heap := Push(sources, sameKey, rest, popped);
      at, merged := Advanced(sources, at, key), merged + [At(sources, winner)];
      MergingParts(sources, at, merged);
      SumAtMost(at, Lengths(sources));
      if At(sources, winner).kind != Deletion {
        page := page + [At(sources, winner)];
      }
    }
    tie := false;
    if heap == {} {
      WholePage(sources, at, merged, limit);
    } else {
      PartialPage(sources, at, merged, limit);
    }
  }

  lemma KeptNext(merged: Run, r: Record)
    ensures Kept(merged + [r], true) == if r.kind == Deletion then Kept(merged, true) else Kept(merged, true) + [r]
  {
    assert (merged + [r])[..|merged|] == merged;
  }
}
