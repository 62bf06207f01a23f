/**
  What must be on disk so that a crash loses nothing.

  A history lists every record handed to a write-ahead log, confirmed when its
  append and sync succeeded.  A log explains a history if it is the history's
  records in order with some unconfirmed ones left out.  ViewHolds says that one
  view of the directory holds a database whose log explains the history, for every
  crash outcome of its files; Recoverable says so of every view.
 */
module Durability {
  import opened Coding
  import opened Configuration
  import opened Runs
  import opened Wal
  import opened WalLog
  import opened Versions
  import opened Compaction
  import opened Manifest
  import opened Tables
  import opened FileSystem

  // ----- Histories -----------------------------------------------------------------

  datatype Event = Event(record: Record, confirmed: bool)

  type History = seq<Event>

  /** The log keeps every confirmed record, in order, and any of the unconfirmed ones. */
  ghost predicate Explains(log: seq<Record>, h: History)
    decreases |h|
  {
    if h == [] then log == []
    else
      var e := h[|h| - 1];
      || (log != [] && log[|log| - 1] == e.record && Explains(log[..|log| - 1], h[..|h| - 1]))
      || (!e.confirmed && Explains(log, h[..|h| - 1]))
  }

  lemma ExplainsSkip(log: seq<Record>, h: History, r: Record)
    requires Explains(log, h)
    ensures Explains(log, h + [Event(r, false)])
  {
    var longer := h + [Event(r, false)];
    assert longer[..|longer| - 1] == h;
  }

  lemma ExplainsTake(log: seq<Record>, h: History, r: Record, confirmed: bool)
    requires Explains(log, h)
    ensures Explains(log + [r], h + [Event(r, confirmed)])
  {
    var longer := h + [Event(r, confirmed)];
    assert longer[..|longer| - 1] == h;
    assert (log + [r])[..|log + [r]| - 1] == log;
  }

  /** A confirmed record is in every explaining log. */
  lemma {:induction false} ConfirmedSurvives(log: seq<Record>, h: History, i: nat)
    requires Explains(log, h) && i < |h| && h[i].confirmed
    ensures h[i].record in log
  {
    var n := |h| - 1;
    if log != [] && log[|log| - 1] == h[n].record && Explains(log[..|log| - 1], h[..n]) {
      if i < n {
        ConfirmedSurvives(log[..|log| - 1], h[..n], i);
      }
    } else {
      ConfirmedSurvives(log, h[..n], i);
    }
  }

  // ----- Write-ahead logs on disk -------------------------------------------------------

  /** Recovering these bytes gives records above `floor` that, after `log`, explain the history. */
  ghost predicate WalContentOk(content: Bytes, floor: nat, log: seq<Record>, h: History, o: Options) {
    var r := Recover(content, o, 0);
    r.Recovered? && Rising(r.records, floor) && Explains(log + r.records, h)
  }

  ghost predicate WalOk(f: File, floor: nat, log: seq<Record>, h: History, o: Options) {
    f.Valid() && forall content :: f.MayBecome(content) ==> WalContentOk(content, floor, log, h, o)
  }

  /** A frozen log: synced to its end, whole records only, at least one. */
  ghost predicate FrozenOk(f: File, frozen: seq<Record>, floor: nat, o: Options) {
    && f.Stable() && f.current == LogBytes(frozen) && frozen != []
    && AllEncodable(frozen, o) && Rising(frozen, floor)
  }

  function LastSequence(log: seq<Record>): nat
    requires log != []
  {
    log[|log| - 1].sequence
  }

  // ----- One view --------------------------------------------------------------------

  /** A version, the contents of its tables, and a log whose visible meaning those tables have. */
  datatype Stored = Stored(version: Version, runs: seq<Run>, log: seq<Record>)

  /** Reading the runs newest-first shows, under every key, what the log's last write shows. */
  ghost predicate Means(runs: seq<Run>, log: seq<Record>) {
    forall k :: Visible(Newest(runs, k)) == Visible(Last(log, k))
  }

  /** No key has one sequence number in two runs. */
  ghost predicate Distinct(runs: seq<Run>) {
    forall i, j, r, t :: 0 <= i < |runs| && 0 <= j < |runs| && i != j && r in runs[i] && t in runs[j] && r.key == t.key ==>
      r.sequence != t.sequence
  }

  ghost predicate StoredOk(s: Stored, o: Options) {
    && ValidVersion(s.version, o.maxKeySize) && InWidth(s.version) && GenerationsAscend(s.version.tables)
    && Described(s.version.tables, s.runs)
    && (forall i, r :: 0 <= i < |s.runs| && r in s.runs[i] ==> Encodable(r, o) && r.sequence <= s.version.lastSequence)
    && Distinct(s.runs) && Means(s.runs, s.log)
  }

  ghost predicate ManifestOk(img: Image, v: Version, o: Options) {
    && FileName.Manifest in img && img[FileName.Manifest].Stable()
    && DecodeManifest(img[FileName.Manifest].current, o.maxKeySize) == Accepted(v)
  }

  ghost predicate TableOk(img: Image, s: TableSummary, run: Run, o: Options) {
    && Table(s.generation) in img && img[Table(s.generation)].Stable()
    && var rd := OpenTable(img[Table(s.generation)].current, o);
       rd.Some? && rd.value.summary == s && Contents(rd.value, o) == run
  }

  ghost predicate TablesOk(img: Image, s: Stored, o: Options) {
    && |s.runs| == |s.version.tables|
    && forall i :: 0 <= i < |s.runs| ==> TableOk(img, s.version.tables[i].summary, s.runs[i], o)
  }

  /** At most two logs are at or above the frontier: one that takes writes and, below it, a frozen one. */
  ghost predicate WalsOk(img: Image, s: Stored, h: History, o: Options) {
    var next, floor := s.version.nextFileNumber, s.version.lastSequence;
    && (forall n: nat :: WalName(n) in img ==> n <= next + 1)
    && if WalName(next + 1) in img then
         next < MAX64 && WalName(next) in img && exists frozen :: TwoWalsOk(img, s, frozen, h, o)
       else if WalName(next) in img then WalOk(img[WalName(next)], floor, s.log, h, o)
       else Explains(s.log, h)
  }

  ghost predicate TwoWalsOk(img: Image, s: Stored, frozen: seq<Record>, h: History, o: Options) {
    var next, floor := s.version.nextFileNumber, s.version.lastSequence;
    && WalName(next) in img && WalName(next + 1) in img
    && FrozenOk(img[WalName(next)], frozen, floor, o)
    && WalOk(img[WalName(next + 1)], LastSequence(frozen), s.log + frozen, h, o)
  }

  ghost predicate ViewHolds(img: Image, s: Stored, h: History, o: Options) {
    StoredOk(s, o) && ManifestOk(img, s.version, o) && TablesOk(img, s, o) && WalsOk(img, s, h, o)
  }

  /** A directory in which nothing was ever published. */
  ghost predicate Blank(img: Image) {
    forall n :: n in img ==> n.ManifestTemporary? || n.TableTemporary?
  }

  ghost predicate ViewOk(img: Image, h: History, o: Options) {
    || (Blank(img) && Explains([], h))
    || (exists s :: ViewHolds(img, s, h, o))
  }

  // ----- Crashing ------------------------------------------------------------------------

  /** Each file of the image turned into one of its crash outcomes. */
  ghost predicate Outcome(img: Image, after: Image) {
    && after.Keys == img.Keys
    && forall n :: n in img ==> after[n].Stable() && img[n].MayBecome(after[n].current)
  }

  lemma WalOutcome(f: File, g: File, floor: nat, log: seq<Record>, h: History, o: Options)
    requires WalOk(f, floor, log, h, o) && g.Stable() && f.MayBecome(g.current)
    ensures WalOk(g, floor, log, h, o)
  {
    hide WalContentOk;
    forall content | g.MayBecome(content) ensures WalContentOk(content, floor, log, h, o) {
      StableMayBecome(g, content);
    }
  }

  lemma StableOutcome(f: File, g: File)
    requires f.Stable() && g.Stable() && f.MayBecome(g.current)
    ensures f == g
  {
    StableMayBecome(f, g.current);
  }

  lemma OutcomeHolds(img: Image, after: Image, s: Stored, h: History, o: Options)
    requires ViewHolds(img, s, h, o) && Outcome(img, after)
    ensures ViewHolds(after, s, h, o)
  {
    hide WalOk, StoredOk;
    var m := FileName.Manifest;
    StableOutcome(img[m], after[m]);
    forall i | 0 <= i < |s.runs| ensures TableOk(after, s.version.tables[i].summary, s.runs[i], o) {
      assert TableOk(img, s.version.tables[i].summary, s.runs[i], o);
      var t := Table(s.version.tables[i].summary.generation);
      StableOutcome(img[t], after[t]);
    }
    OutcomeWals(img, after, s, h, o);
  }

  lemma OutcomeWals(img: Image, after: Image, s: Stored, h: History, o: Options)
    requires WalsOk(img, s, h, o) && Outcome(img, after)
    ensures WalsOk(after, s, h, o)
  {
    hide WalOk, Explains, FrozenOk;
    var next, floor := s.version.nextFileNumber, s.version.lastSequence;
    if WalName(next + 1) in img {
      var frozen :| TwoWalsOk(img, s, frozen, h, o);
      assert img[WalName(next)].Stable() && frozen != [] by { FrozenStable(img[WalName(next)], frozen, floor, o); }
      StableOutcome(img[WalName(next)], after[WalName(next)]);
      WalOutcome(img[WalName(next + 1)], after[WalName(next + 1)], LastSequence(frozen), s.log + frozen, h, o);
      assert TwoWalsOk(after, s, frozen, h, o);
    } else if WalName(next) in img {
      WalOutcome(img[WalName(next)], after[WalName(next)], floor, s.log, h, o);
    }
  }

  lemma FrozenStable(f: File, frozen: seq<Record>, floor: nat, o: Options)
    requires FrozenOk(f, frozen, floor, o)
    ensures f.Stable() && frozen != []
  {
  }

  // ----- Changes that do not matter -------------------------------------------------------

  /** The names a database at this version reads. */
  predicate Relevant(n: FileName, v: Version) {
    match n
    case Manifest => true
    case Table(number) => Live(v.tables, number)
    case WalName(number) => number >= v.nextFileNumber
    case _ => false
  }

  ghost predicate SameFor(a: Image, b: Image, v: Version) {
    forall n :: Relevant(n, v) ==> (n in a <==> n in b) && (n in a ==> a[n] == b[n])
  }

  lemma SameHolds(a: Image, b: Image, s: Stored, h: History, o: Options)
    requires ViewHolds(a, s, h, o) && SameFor(a, b, s.version)
    ensures ViewHolds(b, s, h, o)
  {
    hide WalsOk, StoredOk, SameFor;
    SameManifest(a, b, s.version, o);
    SameTables(a, b, s, o);
    SameWals(a, b, s, h, o);
  }

  lemma SameManifest(a: Image, b: Image, v: Version, o: Options)
    requires ManifestOk(a, v, o) && SameFor(a, b, v)
    ensures ManifestOk(b, v, o)
  {
    assert Relevant(FileName.Manifest, v);
  }

  lemma SameTables(a: Image, b: Image, s: Stored, o: Options)
    requires TablesOk(a, s, o) && SameFor(a, b, s.version)
    ensures TablesOk(b, s, o)
  {
    forall i | 0 <= i < |s.runs| ensures TableOk(b, s.version.tables[i].summary, s.runs[i], o) {
      assert TableOk(a, s.version.tables[i].summary, s.runs[i], o);
      assert Generation(s.version.tables[i]) == s.version.tables[i].summary.generation;
      assert Relevant(Table(s.version.tables[i].summary.generation), s.version);
    }
  }

  lemma SameWals(a: Image, b: Image, s: Stored, h: History, o: Options)
    requires WalsOk(a, s, h, o) && SameFor(a, b, s.version)
    ensures WalsOk(b, s, h, o)
  {
    hide WalOk, Explains, FrozenOk;
    var next := s.version.nextFileNumber;
    assert Relevant(WalName(next), s.version) && Relevant(WalName(next + 1), s.version);
    forall n: nat | WalName(n) in b ensures n <= next + 1 {
      assert n >= next ==> Relevant(WalName(n), s.version);
    }
    if WalName(next + 1) in a {
      var frozen :| TwoWalsOk(a, s, frozen, h, o);
      assert TwoWalsOk(b, s, frozen, h, o);
    }
  }
}
