/** Operations on the log that takes writes, seen from every view of the directory. */
module WalSteps {
  import opened Configuration
  import opened Keys
  import opened Runs
  import opened Wal
  import opened WalLog
  import opened FileSystem
  import opened Durability
  import opened WalFiles
  import opened Claims

  /** `frozen` is what the log below the active one holds, if there is one. */
  ghost predicate FrozenBelow(img: Image, s: Stored, g: nat, frozen: seq<Record>, o: Options) {
    var next := s.version.nextFileNumber;
    g == next + 1 ==>
      && WalName(next) in img && img[WalName(next)].current == LogBytes(frozen)
      && frozen != [] && AllEncodable(frozen, o) && Rising(frozen, 0)
  }

  ghost predicate Active(img: Image, s: Stored, g: nat, frozen: seq<Record>, o: Options) {
    && WalName(g) in img && WalsAtMost(img, g) && g >= s.version.nextFileNumber
    && FrozenBelow(img, s, g, frozen, o)
  }

  function ActiveFloor(s: Stored, g: nat, frozen: seq<Record>): nat {
    if g == s.version.nextFileNumber + 1 && frozen != [] then LastSequence(frozen) else s.version.lastSequence
  }

  function ActiveLog(s: Stored, g: nat, frozen: seq<Record>): seq<Record> {
    if g == s.version.nextFileNumber + 1 then s.log + frozen else s.log
  }

  /** A frozen log's records are determined by its bytes. */
  lemma FrozenUnique(f: File, a: seq<Record>, b: seq<Record>, floor: nat, o: Options)
    requires FrozenOk(f, a, floor, o) && f.current == LogBytes(b) && AllEncodable(b, o) && Rising(b, 0)
    ensures a == b
  {
    hide LogBytes, Recover;
    assert Rising(a, 0);
    RecoverExact(a, [], o, 0);
    RecoverExact(b, [], o, 0);
    assert LogBytes(a) + [] == LogBytes(b) + [];
  }

  lemma ActiveOk(img: Image, s: Stored, g: nat, frozen: seq<Record>, h: History, o: Options)
    requires WalsOk(img, s, h, o) && Active(img, s, g, frozen, o)
    ensures WalOk(img[WalName(g)], ActiveFloor(s, g, frozen), ActiveLog(s, g, frozen), h, o)
    ensures g == s.version.nextFileNumber + 1 ==> TwoWalsOk(img, s, frozen, h, o)
  {
    hide WalOk, LogBytes, Explains;
    var next, floor := s.version.nextFileNumber, s.version.lastSequence;
    if g == next + 1 {
      var other :| TwoWalsOk(img, s, other, h, o);
      FrozenUnique(img[WalName(next)], other, frozen, floor, o);
    }
  }

  lemma ReplaceActiveWals(img: Image, s: Stored, g: nat, frozen: seq<Record>, f: File, h: History, h': History, o: Options)
    requires WalsOk(img, s, h, o) && Active(img, s, g, frozen, o)
    requires WalOk(f, ActiveFloor(s, g, frozen), ActiveLog(s, g, frozen), h', o)
    ensures WalsOk(img[WalName(g) := f], s, h', o)
  {
    hide WalOk, LogBytes, Explains, FrozenOk;
    ActiveOk(img, s, g, frozen, h, o);
    var after := img[WalName(g) := f];
    var next := s.version.nextFileNumber;
    if g == next + 1 {
      assert TwoWalsOk(after, s, frozen, h', o);
    }
  }

  lemma ReplaceActive(img: Image, s: Stored, g: nat, frozen: seq<Record>, f: File, h: History, h': History, o: Options)
    requires ViewHolds(img, s, h, o) && Active(img, s, g, frozen, o)
    requires WalOk(f, ActiveFloor(s, g, frozen), ActiveLog(s, g, frozen), h', o)
    ensures ViewHolds(img[WalName(g) := f], s, h', o)
  {
    hide WalOk, WalsOk, StoredOk, Active;
    ReplaceActiveWals(img, s, g, frozen, f, h, h', o);
    var after := img[WalName(g) := f];
    assert ManifestOk(after, s.version, o);
    forall i | 0 <= i < |s.runs| ensures TableOk(after, s.version.tables[i].summary, s.runs[i], o) {
      assert TableOk(img, s.version.tables[i].summary, s.runs[i], o);
    }
  }

  /** The same name has the same file in every view. */
  ghost predicate Everywhere(fs: FileSystem, name: FileName, inode: Inode) {
    && inode < |fs.files|
    && forall kept :: 0 <= kept <= |fs.pending| ==> name in fs.View(kept) && fs.View(kept)[name] == inode
  }

  /** What lets the active log of a running database take one more record. */
  ghost predicate CanAppend(c: Claim, g: nat, frozen: seq<Record>, top: nat, o: Options) {
    && c.Running? && c.walLimit == g
    && ChoiceOk(c.stored, g, frozen, top)
    && (c.candidate.Some? ==> ChoiceOk(c.candidate.value, g, frozen, top))
    && (frozen != [] ==> g > 0 && WalName(g - 1) in c.pins && c.pins[WalName(g - 1)] == LogBytes(frozen))
    && AllEncodable(frozen, o) && Rising(frozen, 0)
    && WalName(g) !in c.pins
  }

  ghost predicate ChoiceOk(s: Stored, g: nat, frozen: seq<Record>, top: nat) {
    && s.version.nextFileNumber <= g && s.version.lastSequence <= top
    && (g == s.version.nextFileNumber + 1 ==> frozen != [])
    && (frozen != [] ==> LastSequence(frozen) <= top)
  }

  lemma ChoiceActive(img: Image, s: Stored, c: Claim, g: nat, frozen: seq<Record>, top: nat, h: History, o: Options)
    requires CanAppend(c, g, frozen, top, o) && (s == c.stored || c.candidate == Some(s))
    requires ViewClaim(img, c, h, o) && WalName(g) in img
    ensures Active(img, s, g, frozen, o)
    ensures ActiveFloor(s, g, frozen) <= top
  {
    hide ViewHolds, LogBytes;
  }

  /** The new file is as good as the old one for every claim a view may make about its records. */
  ghost predicate Advances(f: File, f': File, top: nat, h: History, h': History, o: Options) {
    forall floor: nat, log: seq<Record> :: floor <= top && WalOk(f, floor, log, h, o) ==> WalOk(f', floor, log, h', o)
  }

  /** Replaces the active log's file in one view. */
  lemma ReplaceInView(
    img: Image, c: Claim, g: nat, frozen: seq<Record>, top: nat, f: File, h: History, h': History, o: Options)
    requires CanAppend(c, g, frozen, top, o) && ViewClaim(img, c, h, o) && WalName(g) in img
    requires Advances(img[WalName(g)], f, top, h, h', o)
    ensures ViewClaim(img[WalName(g) := f], c, h', o)
  {
    hide ViewHolds, WalOk, CanAppend, Active, LogBytes;
    CanAppendParts(c, g, frozen, top, o);
    var s := if ViewHolds(img, c.stored, h, o) then c.stored else c.candidate.value;
    ChoiceActive(img, s, c, g, frozen, top, h, o);
    HoldsWals(img, s, h, o);
    ActiveOk(img, s, g, frozen, h, o);
    ReplaceActive(img, s, g, frozen, f, h, h', o);
  }

  lemma HoldsWals(img: Image, s: Stored, h: History, o: Options)
    requires ViewHolds(img, s, h, o)
    ensures WalsOk(img, s, h, o)
  {
  }

  lemma CanAppendParts(c: Claim, g: nat, frozen: seq<Record>, top: nat, o: Options)
    requires CanAppend(c, g, frozen, top, o)
    ensures c.Running? && c.walLimit == g && WalName(g) !in c.pins
  {
  }

  /** Changes the active log's file, and perhaps the history, in all views at once. */
  lemma ReplaceKeeps(
    fs: FileSystem, inode: Inode, c: Claim, g: nat, frozen: seq<Record>, top: nat, f: File, h: History, h': History, o: Options)
    requires Keeps(fs, c, h, o) && Everywhere(fs, WalName(g), inode) && CanAppend(c, g, frozen, top, o) && f.Valid()
    requires inode < |fs.files| && Advances(fs.files[inode], f, top, h, h', o)
    ensures Keeps(fs.SetFile(inode, f), c, h', o)
    ensures Everywhere(fs.SetFile(inode, f), WalName(g), inode)
  {
    hide ViewClaim, WalOk, CanAppend, PerformAll, Advances;
    var after := fs.SetFile(inode, f);
    forall kept | 0 <= kept <= |fs.pending|
      ensures DirectoryOk(after.View(kept), |after.files|)
      ensures ViewClaim(ImageOf(after.View(kept), after.files), c, h', o)
      ensures WalName(g) in after.View(kept) && after.View(kept)[WalName(g)] == inode
    {
      var dir := fs.View(kept);
      assert after.View(kept) == dir;
      ImageSetFile(dir, fs.files, WalName(g), f);
      ReplaceInView(ImageOf(dir, fs.files), c, g, frozen, top, f, h, h', o);
    }
  }

  /** Some bytes of a record have been appended: the history gains an unconfirmed record. */
  lemma AppendKeeps(
    fs: FileSystem, inode: Inode, c: Claim, g: nat, frozen: seq<Record>, top: nat,
    written: seq<Record>, r: Record, count: nat, h: History, o: Options)
    requires Keeps(fs, c, h, o) && Everywhere(fs, WalName(g), inode) && CanAppend(c, g, frozen, top, o)
    requires inode < |fs.files| && Holds(fs.files[inode], written, o) && MayFollow(r, written, top, o) && count <= |Encoding(r)|
    ensures Keeps(fs.SetFile(inode, fs.files[inode].Append(Encoding(r)[..count])), c, h + [Event(r, false)], o)
    ensures Everywhere(fs.SetFile(inode, fs.files[inode].Append(Encoding(r)[..count])), WalName(g), inode)
  {
    hide WalOk, Holds, CanAppend, Everywhere, Encoding;
    EverywhereValid(fs, WalName(g), inode, c, h, o);
    var f := fs.files[inode];
    var f', h' := f.Append(Encoding(r)[..count]), h + [Event(r, false)];
    forall floor: nat, log | floor <= top && WalOk(f, floor, log, h, o) ensures WalOk(f', floor, log, h', o) {
      AppendOk(f, written, r, count, floor, log, h, o);
    }
    AppendMayBecome(f, Encoding(r)[..count], f'.current);
    ReplaceKeeps(fs, inode, c, g, frozen, top, f', h, h', o);
  }

  lemma EverywhereValid(fs: FileSystem, name: FileName, inode: Inode, c: Claim, h: History, o: Options)
    requires Keeps(fs, c, h, o) && Everywhere(fs, name, inode)
    ensures inode < |fs.files| && fs.files[inode].Valid()
  {
  }

  /** The append was completed and synced: the history gains a confirmed record. */
  lemma ConfirmKeeps(
    fs: FileSystem, inode: Inode, c: Claim, g: nat, frozen: seq<Record>, top: nat,
    written: seq<Record>, r: Record, h: History, o: Options)
    requires Keeps(fs, c, h, o) && Everywhere(fs, WalName(g), inode) && CanAppend(c, g, frozen, top, o)
    requires inode < |fs.files| && Holds(fs.files[inode], written, o) && MayFollow(r, written, top, o)
    ensures var f := fs.files[inode].Append(Encoding(r)).Sync();
            && Keeps(fs.SetFile(inode, f), c, h + [Event(r, true)], o)
            && Everywhere(fs.SetFile(inode, f), WalName(g), inode)
            && Holds(f, written + [r], o)
  {
    hide WalOk, Holds, CanAppend, Everywhere, Encoding;
    EverywhereValid(fs, WalName(g), inode, c, h, o);
    var f := fs.files[inode];
    var f', h' := f.Append(Encoding(r)).Sync(), h + [Event(r, true)];
    forall floor: nat, log | floor <= top && WalOk(f, floor, log, h, o) ensures WalOk(f', floor, log, h', o) {
      ConfirmOk(f, written, r, floor, log, h, o);
    }
    ConfirmHolds(f, written, r, top, o);
    ReplaceKeeps(fs, inode, c, g, frozen, top, f', h, h', o);
  }

  lemma ConfirmHolds(f: File, written: seq<Record>, r: Record, top: nat, o: Options)
    requires Holds(f, written, o) && MayFollow(r, written, top, o)
    ensures Holds(f.Append(Encoding(r)).Sync(), written + [r], o)
  {
    hide LogBytes, Encoding, Encodable;
    LogBytesAppend(written, [r]);
    LogBytesOne(r);
  }
}
