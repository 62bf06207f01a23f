/**
  Claims about every crash outcome of a disk, and the disk operations that keep them.

  A claim says what each view of the directory must hold.  Anything is the bare
  promise of recoverability; Running adds what a live database relies on.
 */
module Claims {
  import opened Coding
  import opened Configuration
  import opened Keys
  import opened Versions
  import opened FileSystem
  import opened Durability

  datatype Claim =
    | Anything
    | Running(stored: Stored, candidate: Option<Stored>, pins: map<FileName, Bytes>, walLimit: nat)

  predicate Temporary(n: FileName) {
    n.ManifestTemporary? || n.TableTemporary?
  }

  /** Files that every view must have, synced, with this content. */
  ghost predicate PinsOk(img: Image, pins: map<FileName, Bytes>) {
    forall n :: n in pins ==> !Temporary(n) && n in img && img[n] == StableFile(pins[n])
  }

  ghost predicate WalsAtMost(img: Image, limit: nat) {
    forall n: nat :: WalName(n) in img ==> n <= limit
  }

  ghost predicate HoldsOne(img: Image, stored: Stored, candidate: Option<Stored>, h: History, o: Options) {
    ViewHolds(img, stored, h, o) || (candidate.Some? && ViewHolds(img, candidate.value, h, o))
  }

  ghost predicate ViewClaim(img: Image, c: Claim, h: History, o: Options) {
    match c
    case Anything => ViewOk(img, h, o)
    case Running(stored, candidate, pins, walLimit) =>
      HoldsOne(img, stored, candidate, h, o) && PinsOk(img, pins) && WalsAtMost(img, walLimit)
  }

  ghost predicate Keeps(fs: FileSystem, c: Claim, h: History, o: Options) {
    && fs.Ok()
    && forall kept :: 0 <= kept <= |fs.pending| ==> ViewClaim(ImageOf(fs.View(kept), fs.files), c, h, o)
  }

  /** After a crash now, whatever its outcome, the disk still holds a database that explains the history. */
  ghost predicate Recoverable(fs: FileSystem, h: History, o: Options) {
    Keeps(fs, Anything, h, o)
  }

  lemma ClaimWeakens(img: Image, c: Claim, h: History, o: Options)
    requires ViewClaim(img, c, h, o)
    ensures ViewOk(img, h, o)
  {
    hide ViewHolds, Explains;
  }

  lemma KeepsRecoverable(fs: FileSystem, c: Claim, h: History, o: Options)
    requires Keeps(fs, c, h, o)
    ensures Recoverable(fs, h, o)
  {
    hide ViewClaim, ViewOk;
    forall kept | 0 <= kept <= |fs.pending| ensures ViewClaim(ImageOf(fs.View(kept), fs.files), Anything, h, o) {
      ClaimWeakens(ImageOf(fs.View(kept), fs.files), c, h, o);
      AnythingIsViewOk(ImageOf(fs.View(kept), fs.files), h, o);
    }
  }

  lemma AnythingIsViewOk(img: Image, h: History, o: Options)
    ensures ViewClaim(img, Anything, h, o) == ViewOk(img, h, o)
  {
  }

  /** Whatever a crash leaves of a recoverable disk is recoverable. */
  lemma CrashRecoverable(fs: FileSystem, after: FileSystem, h: History, o: Options)
    requires Recoverable(fs, h, o) && CrashesTo(fs, after)
    ensures Recoverable(after, h, o)
  {
    hide ViewHolds, Explains;
    var kept :| 0 <= kept <= |fs.pending| && after.synced == fs.View(kept);
    var dir := fs.View(kept);
    var img, img' := ImageOf(dir, fs.files), ImageOf(dir, after.files);
    assert after.View(0) == dir;
    assert DirectoryOk(dir, |fs.files|);
    assert Outcome(img, img');
    assert ViewClaim(img, Anything, h, o);
    assert ViewOk(img', h, o) by {
      if !(Blank(img) && Explains([], h)) {
        var s :| ViewHolds(img, s, h, o);
        OutcomeHolds(img, img', s, h, o);
      }
    }
  }

  // ----- Directory operations ---------------------------------------------------------

  lemma IssueKeeps(fs: FileSystem, op: DirectoryOp, c: Claim, h: History, o: Options)
    requires Keeps(fs, c, h, o)
    requires DirectoryOk(Perform(fs.Current(), op), |fs.files|)
    requires ViewClaim(ImageOf(Perform(fs.Current(), op), fs.files), c, h, o)
    ensures Keeps(fs.Issue(op), c, h, o)
  {
    hide ViewClaim, DirectoryOk, Perform, PerformAll;
    var after := fs.Issue(op);
    forall kept | 0 <= kept <= |after.pending|
      ensures DirectoryOk(after.View(kept), |after.files|) && ViewClaim(ImageOf(after.View(kept), after.files), c, h, o)
    {
      ViewAfterIssue(fs, op, kept);
    }
  }

  lemma SyncKeeps(fs: FileSystem, c: Claim, h: History, o: Options)
    requires Keeps(fs, c, h, o)
    ensures Keeps(fs.SyncDirectory(), c, h, o)
  {
    hide ViewClaim, DirectoryOk, PerformAll;
    ViewAfterSync(fs);
  }

  /** After a sync there is one view, so a claim need only hold of the current one. */
  lemma SyncedKeeps(fs: FileSystem, c: Claim, h: History, o: Options)
    requires fs.Ok() && fs.pending == [] && ViewClaim(ImageOf(fs.Current(), fs.files), c, h, o)
    ensures Keeps(fs, c, h, o)
  {
    hide ViewClaim, DirectoryOk, PerformAll;
  }

  lemma CurrentClaim(fs: FileSystem, c: Claim, h: History, o: Options)
    requires Keeps(fs, c, h, o)
    ensures DirectoryOk(fs.Current(), |fs.files|)
    ensures ViewClaim(ImageOf(fs.Current(), fs.files), c, h, o)
  {
    hide ViewClaim, DirectoryOk, PerformAll;
  }

  /** A new file has no name in any earlier view. */
  lemma CreateKeeps(fs: FileSystem, name: FileName, c: Claim, h: History, o: Options)
    requires Keeps(fs, c, h, o)
    requires ViewClaim(ImageOf(fs.Current(), fs.files)[name := StableFile([])], c, h, o)
    ensures Keeps(fs.Create(name), c, h, o)
  {
    hide ViewClaim, PerformAll;
    var grown := fs.(files := fs.files + [StableFile([])]);
    assert Keeps(grown, c, h, o) by {
      forall kept | 0 <= kept <= |fs.pending|
        ensures DirectoryOk(grown.View(kept), |grown.files|)
        ensures ViewClaim(ImageOf(grown.View(kept), grown.files), c, h, o)
      {
        assert grown.View(kept) == fs.View(kept);
        ImageMoreFiles(fs.View(kept), fs.files, StableFile([]));
      }
    }
    var dir := grown.Current();
    assert dir == fs.Current();
    ImageMoreFiles(dir, fs.files, StableFile([]));
    ImageLink(dir, grown.files, name, |fs.files|);
    IssueKeeps(grown, Link(name, |fs.files|), c, h, o);
    assert fs.Create(name) == grown.Issue(Link(name, |fs.files|));
  }

  // ----- Temporary and stale names ------------------------------------------------------

  lemma TemporaryIsIrrelevant(n: FileName, v: Version)
    requires Temporary(n)
    ensures !Relevant(n, v)
  {
  }

  /** Nothing depends on what is under a temporary name. */
  lemma TemporaryClaim(img: Image, after: Image, n: FileName, c: Claim, h: History, o: Options)
    requires ViewClaim(img, c, h, o) && Temporary(n)
    requires forall m :: m != n ==> (m in img <==> m in after) && (m in img ==> img[m] == after[m])
    ensures ViewClaim(after, c, h, o)
  {
    hide ViewHolds, Explains, Relevant;
    assert forall v :: !Relevant(n, v) by {
      forall v ensures !Relevant(n, v) { TemporaryIsIrrelevant(n, v); }
    }
    forall s | ViewHolds(img, s, h, o) ensures ViewHolds(after, s, h, o) {
      assert SameFor(img, after, s.version);
      SameHolds(img, after, s, h, o);
    }
  }

  lemma CreateTemporaryKeeps(fs: FileSystem, n: FileName, c: Claim, h: History, o: Options)
    requires Keeps(fs, c, h, o) && Temporary(n)
    ensures Keeps(fs.Create(n), c, h, o)
    ensures OnlyTemporary(fs.Create(n), |fs.files|)
    ensures fs.Create(n).Current() == fs.Current()[n := |fs.files|]
  {
    hide ViewClaim, PerformAll;
    CurrentClaim(fs, c, h, o);
    var img := ImageOf(fs.Current(), fs.files);
    TemporaryClaim(img, img[n := StableFile([])], n, c, h, o);
    CreateKeeps(fs, n, c, h, o);
    var after := fs.Create(n);
    forall kept | 0 <= kept <= |after.pending| ensures OnlyTemporaryIn(after.View(kept), |fs.files|) {
      ViewAfterIssue(fs, Link(n, |fs.files|), kept);
      assert after.View(kept) == fs.Issue(Link(n, |fs.files|)).View(kept);
    }
    ViewAfterIssue(fs, Link(n, |fs.files|), |fs.pending| + 1);
  }

  ghost predicate OnlyTemporaryIn(dir: Directory, inode: Inode) {
    forall n :: n in dir && dir[n] == inode ==> Temporary(n)
  }

  /** In every view the file is unnamed or has a temporary name. */
  ghost predicate OnlyTemporary(fs: FileSystem, inode: Inode) {
    && inode < |fs.files|
    && forall kept :: 0 <= kept <= |fs.pending| ==> OnlyTemporaryIn(fs.View(kept), inode)
  }

  /** Writing to, or syncing, a file that only temporary names refer to. */
  lemma SetTemporaryKeeps(fs: FileSystem, inode: Inode, f: File, c: Claim, h: History, o: Options)
    requires Keeps(fs, c, h, o) && OnlyTemporary(fs, inode) && f.Valid()
    ensures Keeps(fs.SetFile(inode, f), c, h, o)
    ensures OnlyTemporary(fs.SetFile(inode, f), inode)
  {
    hide ViewClaim, PerformAll;
    var after := fs.SetFile(inode, f);
    forall kept | 0 <= kept <= |fs.pending|
      ensures DirectoryOk(after.View(kept), |after.files|)
      ensures ViewClaim(ImageOf(after.View(kept), after.files), c, h, o)
      ensures OnlyTemporaryIn(after.View(kept), inode)
    {
      var dir := fs.View(kept);
      assert after.View(kept) == dir;
      assert OnlyTemporaryIn(dir, inode);
      SetTemporaryView(dir, fs.files, inode, f, c, h, o);
    }
  }

  lemma SetTemporaryView(dir: Directory, files: seq<File>, inode: Inode, f: File, c: Claim, h: History, o: Options)
    requires DirectoryOk(dir, |files|) && inode < |files| && OnlyTemporaryIn(dir, inode)
    requires ViewClaim(ImageOf(dir, files), c, h, o)
    ensures ViewClaim(ImageOf(dir, files[inode := f]), c, h, o)
  {
    hide ViewClaim;
    if n :| n in dir && dir[n] == inode {
      ImageSetFile(dir, files, n, f);
      TemporaryClaim(ImageOf(dir, files), ImageOf(dir, files[inode := f]), n, c, h, o);
    } else {
      ImageSetOther(dir, files, inode, f);
    }
  }

  lemma UnlinkTemporaryKeeps(fs: FileSystem, n: FileName, c: Claim, h: History, o: Options)
    requires Keeps(fs, c, h, o) && Temporary(n)
    ensures Keeps(fs.Issue(Unlink(n)), c, h, o)
  {
    hide ViewClaim, PerformAll;
    CurrentClaim(fs, c, h, o);
    var dir := fs.Current();
    ImageUnlink(dir, fs.files, n);
    TemporaryClaim(ImageOf(dir, fs.files), ImageOf(dir - {n}, fs.files), n, c, h, o);
    IssueKeeps(fs, Unlink(n), c, h, o);
  }

  /** No database this claim allows reads the name. */
  ghost predicate Stale(n: FileName, img: Image, c: Claim, h: History, o: Options) {
    match c
    case Anything => exists s :: ViewHolds(img, s, h, o) && !Relevant(n, s.version)
    case Running(stored, candidate, pins, walLimit) =>
      n !in pins && ViewHolds(img, stored, h, o) && !Relevant(n, stored.version)
  }

  lemma UnlinkStaleClaim(img: Image, n: FileName, c: Claim, h: History, o: Options)
    requires ViewClaim(img, c, h, o) && Stale(n, img, c, h, o)
    ensures ViewClaim(img - {n}, c, h, o)
  {
    hide ViewHolds, Explains, Relevant;
    var s: Stored :| ViewHolds(img, s, h, o) && !Relevant(n, s.version) && (c.Running? ==> s == c.stored);
    assert SameFor(img, img - {n}, s.version);
    SameHolds(img, img - {n}, s, h, o);
  }

  /** Removing a name that the current database does not read. */
  lemma UnlinkStaleKeeps(fs: FileSystem, n: FileName, c: Claim, h: History, o: Options)
    requires Keeps(fs, c, h, o) && Stale(n, ImageOf(fs.Current(), fs.files), c, h, o)
    ensures Keeps(fs.Issue(Unlink(n)), c, h, o)
  {
    hide ViewClaim, PerformAll, Stale;
    CurrentClaim(fs, c, h, o);
    var dir := fs.Current();
    ImageUnlink(dir, fs.files, n);
    UnlinkStaleClaim(ImageOf(dir, fs.files), n, c, h, o);
    IssueKeeps(fs, Unlink(n), c, h, o);
  }

  /** Renaming a temporary file over a name that the current database does not read. */
  lemma MoveStaleClaim(img: Image, source: FileName, target: FileName, f: File, c: Claim, h: History, o: Options)
    requires ViewClaim(img, c, h, o) && Temporary(source) && target.Table? && Stale(target, img, c, h, o)
    ensures ViewClaim((img - {source})[target := f], c, h, o)
  {
    hide ViewHolds, Explains, Relevant;
    var after := (img - {source})[target := f];
    var s: Stored :| ViewHolds(img, s, h, o) && !Relevant(target, s.version) && (c.Running? ==> s == c.stored);
    TemporaryIsIrrelevant(source, s.version);
    assert SameFor(img, after, s.version);
    SameHolds(img, after, s, h, o);
  }

  /** The same rename as a step of the disk. */
  lemma MoveStaleKeeps(fs: FileSystem, source: FileName, target: FileName, c: Claim, h: History, o: Options)
    requires Keeps(fs, c, h, o) && Temporary(source) && target.Table? && source in fs.Current()
    requires Stale(target, ImageOf(fs.Current(), fs.files), c, h, o)
    ensures Keeps(fs.Issue(Move(source, target)), c, h, o)
  {
    hide ViewClaim, PerformAll, Stale;
    CurrentClaim(fs, c, h, o);
    var dir := fs.Current();
    ImageMove(dir, fs.files, source, target);
    MoveStaleClaim(ImageOf(dir, fs.files), source, target, fs.files[dir[source]], c, h, o);
    IssueKeeps(fs, Move(source, target), c, h, o);
  }

  /** Two images that agree outside one name. */
  ghost predicate SameExcept(a: Image, b: Image, name: FileName) {
    forall n :: n != name ==> (n in a <==> n in b) && (n in a ==> a[n] == b[n])
  }

  lemma SameExceptHolds(a: Image, b: Image, name: FileName, s: Stored, h: History, o: Options)
    requires ViewHolds(a, s, h, o) && SameExcept(a, b, name) && !Relevant(name, s.version)
    ensures ViewHolds(b, s, h, o)
  {
    hide ViewHolds, Relevant;
    assert SameFor(a, b, s.version);
    SameHolds(a, b, s, h, o);
  }
}
