/**
  The file system below the engine, as far as crashes can tell.

  A file has bytes that survive a crash and bytes that may not.  A directory has a
  durable state and a list of operations issued since the last successful
  SyncDirectory.  A crash keeps some prefix of that list, in issue order, and some
  prefix of every file's unsynced bytes.
 */
module FileSystem {
  import opened Coding

  /** The names the engine gives to files; FileNames relates them to strings. */
  datatype FileName = Manifest | ManifestTemporary | Table(number: nat) | TableTemporary(number: nat) | WalName(number: nat)

  // ----- Files -------------------------------------------------------------------

  /**
    `durable` is what the last sync (or crash) left, `current` what a reader sees now.
    They agree up to `base`: appending keeps it, truncating lowers it.
   */
  datatype File = File(durable: Bytes, current: Bytes, base: nat) {
    predicate Valid() {
      base <= |durable| && base <= |current| && durable[..base] == current[..base]
    }

    predicate Stable() {
      durable == current && base == |current|
    }

    /** What a crash may leave of the file. */
    predicate MayBecome(content: Bytes) {
      base <= |content| && (content <= durable || content <= current)
    }

    function Append(data: Bytes): File {
      this.(current := current + data)
    }

    function Truncate(size: nat): File
      requires size <= |current|
    {
      File(durable, current[..size], if size < base then size else base)
    }

    function Sync(): File {
      StableFile(current)
    }
  }

  function StableFile(content: Bytes): File {
    File(content, content, |content|)
  }

  lemma StableMayBecome(f: File, content: Bytes)
    requires f.Stable()
    ensures f.MayBecome(content) <==> content == f.current
  {
  }

  lemma CurrentMayBecome(f: File)
    requires f.Valid()
    ensures f.MayBecome(f.current)
  {
  }

  /** Appending adds only the outcomes in which some of the new bytes survive. */
  lemma AppendMayBecome(f: File, data: Bytes, content: Bytes)
    requires f.Valid() && f.Append(data).MayBecome(content)
    ensures f.Append(data).Valid()
    ensures f.MayBecome(content) || (exists k :: 0 <= k <= |data| && content == f.current + data[..k])
  {
    var g := f.Append(data);
    if content <= g.current && |content| >= |f.current| {
      var k := |content| - |f.current|;
      assert content == f.current + data[..k];
    } else if content <= g.current {
      assert content <= f.current;
    }
  }

  lemma TruncateMayBecome(f: File, size: nat, content: Bytes)
    requires f.Valid() && size <= |f.current| && f.Truncate(size).MayBecome(content)
    ensures f.Truncate(size).Valid()
    ensures f.MayBecome(content) || (size <= |content| && content <= f.current)
  {
    var g := f.Truncate(size);
    assert g.durable[..g.base] == g.current[..g.base] by {
      assert f.durable[..g.base] == f.durable[..f.base][..g.base];
      assert f.current[..g.base] == f.current[..f.base][..g.base];
    }
    if |content| < f.base && content <= f.durable {
      assert content <= f.durable[..f.base];
    } else if content <= g.current {
      assert content <= f.current;
    }
  }

  // ----- Directories -----------------------------------------------------------------

  type Inode = nat
  type Directory = map<FileName, Inode>

  datatype DirectoryOp = Link(name: FileName, inode: Inode) | Unlink(name: FileName) | Move(source: FileName, target: FileName)

  function Perform(dir: Directory, op: DirectoryOp): Directory {
    match op
    case Link(name, inode) => dir[name := inode]
    case Unlink(name) => dir - {name}
    case Move(source, target) => if source in dir then (dir - {source})[target := dir[source]] else dir
  }

  function PerformAll(dir: Directory, ops: seq<DirectoryOp>): Directory {
    if ops == [] then dir else Perform(PerformAll(dir, ops[..|ops| - 1]), ops[|ops| - 1])
  }

  /** Every name has a file of its own. */
  predicate DirectoryOk(dir: Directory, files: nat) {
    && (forall n :: n in dir ==> dir[n] < files)
    && (forall m, n :: m in dir && n in dir && m != n ==> dir[m] != dir[n])
  }

  datatype FileSystem = FileSystem(synced: Directory, pending: seq<DirectoryOp>, files: seq<File>) {
    /** The directory as it is if the first `kept` pending operations survive. */
    function View(kept: nat): Directory
      requires kept <= |pending|
    {
      PerformAll(synced, pending[..kept])
    }

    /** The directory a running process sees. */
    function Current(): Directory {
      View(|pending|)
    }

    ghost predicate Ok() {
      && (forall kept :: 0 <= kept <= |pending| ==> DirectoryOk(View(kept), |files|))
      && (forall i :: 0 <= i < |files| ==> files[i].Valid())
    }

    function Issue(op: DirectoryOp): FileSystem {
      this.(pending := pending + [op])
    }

    function SyncDirectory(): FileSystem {
      FileSystem(Current(), [], files)
    }

    /** A new, empty file under `name`; it takes the next inode. */
    function Create(name: FileName): FileSystem {
      this.(pending := pending + [Link(name, |files|)], files := files + [StableFile([])])
    }

    function SetFile(inode: Inode, f: File): FileSystem
      requires inode < |files|
    {
      this.(files := files[inode := f])
    }
  }

  const EMPTY: FileSystem := FileSystem(map[], [], [])

  lemma ViewAfterIssue(fs: FileSystem, op: DirectoryOp, kept: nat)
    requires kept <= |fs.pending| + 1
    ensures kept <= |fs.pending| ==> fs.Issue(op).View(kept) == fs.View(kept)
    ensures kept == |fs.pending| + 1 ==> fs.Issue(op).View(kept) == Perform(fs.Current(), op)
  {
    var pending := fs.pending + [op];
    if kept <= |fs.pending| {
      assert pending[..kept] == fs.pending[..kept];
    } else {
      assert pending[..kept][..kept - 1] == fs.pending[..|fs.pending|];
    }
  }

  lemma ViewAfterSync(fs: FileSystem)
    ensures fs.SyncDirectory().View(0) == fs.Current()
    ensures fs.SyncDirectory().Current() == fs.Current()
  {
  }

  /** What one crash leaves behind: a prefix of the directory operations, and an outcome for every file. */
  predicate CrashesTo(fs: FileSystem, after: FileSystem) {
    && after.pending == []
    && |after.files| == |fs.files|
    && (exists kept :: 0 <= kept <= |fs.pending| && after.synced == fs.View(kept))
    && forall i :: 0 <= i < |fs.files| ==> after.files[i].Stable() && fs.files[i].MayBecome(after.files[i].current)
  }

  // ----- Images: one view with its files -------------------------------------------------

  type Image = map<FileName, File>

  function ImageOf(dir: Directory, files: seq<File>): (img: Image) {
    map n | n in dir && dir[n] < |files| :: files[dir[n]]
  }

  lemma ImageKeys(dir: Directory, files: seq<File>)
    requires DirectoryOk(dir, |files|)
    ensures ImageOf(dir, files).Keys == dir.Keys
  {
  }

  /** Changing one file changes the image under that file's name only. */
  lemma ImageSetFile(dir: Directory, files: seq<File>, name: FileName, f: File)
    requires DirectoryOk(dir, |files|) && name in dir
    ensures ImageOf(dir, files[dir[name] := f]) == ImageOf(dir, files)[name := f]
  {
  }

  /** Changing a file that has no name in a view does not change that view's image. */
  lemma ImageSetOther(dir: Directory, files: seq<File>, inode: Inode, f: File)
    requires DirectoryOk(dir, |files|) && inode < |files|
    requires forall n :: n in dir ==> dir[n] != inode
    ensures ImageOf(dir, files[inode := f]) == ImageOf(dir, files)
  {
  }

  lemma ImageMoreFiles(dir: Directory, files: seq<File>, f: File)
    requires DirectoryOk(dir, |files|)
    ensures ImageOf(dir, files + [f]) == ImageOf(dir, files)
  {
  }

  lemma ImageLink(dir: Directory, files: seq<File>, name: FileName, inode: Inode)
    requires DirectoryOk(dir, |files|) && inode < |files| && forall n :: n in dir ==> dir[n] != inode
    ensures DirectoryOk(dir[name := inode], |files|)
    ensures ImageOf(dir[name := inode], files) == ImageOf(dir, files)[name := files[inode]]
  {
  }

  lemma ImageUnlink(dir: Directory, files: seq<File>, name: FileName)
    requires DirectoryOk(dir, |files|)
    ensures DirectoryOk(dir - {name}, |files|)
    ensures ImageOf(dir - {name}, files) == ImageOf(dir, files) - {name}
  {
  }

  lemma ImageMove(dir: Directory, files: seq<File>, source: FileName, target: FileName)
    requires DirectoryOk(dir, |files|) && source in dir && source != target
    ensures DirectoryOk(Perform(dir, Move(source, target)), |files|)
    ensures ImageOf(Perform(dir, Move(source, target)), files) ==
            (ImageOf(dir, files) - {source})[target := files[dir[source]]]
  {
    ImageUnlink(dir, files, source);
    ImageLink(dir - {source}, files, target, dir[source]);
  }

  // ----- Logs are never renamed --------------------------------------------------------------

  /** A log's file has the same name in every view that names it. */
  ghost predicate Settled(fs: FileSystem) {
    forall a: nat, b: nat :: a <= |fs.pending| && b <= |fs.pending| ==> NamesAgree(fs.View(a), fs.View(b))
  }

  ghost predicate NamesAgree(a: Directory, b: Directory) {
    forall m, n :: m in a && n in b && a[m] == b[n] && m.WalName? ==> m == n
  }

  lemma SettledIssue(fs: FileSystem, op: DirectoryOp)
    requires Settled(fs) && NamesAgree(Perform(fs.Current(), op), Perform(fs.Current(), op))
    requires forall a: nat :: a <= |fs.pending| ==>
               NamesAgree(fs.View(a), Perform(fs.Current(), op)) && NamesAgree(Perform(fs.Current(), op), fs.View(a))
    ensures Settled(fs.Issue(op))
  {
    hide PerformAll, Perform, NamesAgree;
    var after := fs.Issue(op);
    forall a: nat, b: nat | a <= |after.pending| && b <= |after.pending| ensures NamesAgree(after.View(a), after.View(b)) {
      ViewAfterIssue(fs, op, a);
      ViewAfterIssue(fs, op, b);
    }
  }

  lemma SettledUnlink(fs: FileSystem, name: FileName)
    requires Settled(fs)
    ensures Settled(fs.Issue(Unlink(name)))
  {
    hide PerformAll;
    forall a: nat | a <= |fs.pending|
      ensures NamesAgree(fs.View(a), Perform(fs.Current(), Unlink(name))) && NamesAgree(Perform(fs.Current(), Unlink(name)), fs.View(a))
    {
      assert NamesAgree(fs.View(a), fs.Current()) && NamesAgree(fs.Current(), fs.View(a));
    }
    assert NamesAgree(fs.Current(), fs.Current());
    SettledIssue(fs, Unlink(name));
  }

  lemma SettledMove(fs: FileSystem, source: FileName, target: FileName)
    requires Settled(fs) && !source.WalName? && !target.WalName?
    ensures Settled(fs.Issue(Move(source, target)))
  {
    hide PerformAll;
    var after := Perform(fs.Current(), Move(source, target));
    assert NamesAgree(fs.Current(), fs.Current());
    forall a: nat | a <= |fs.pending| ensures NamesAgree(fs.View(a), after) && NamesAgree(after, fs.View(a)) {
      assert NamesAgree(fs.View(a), fs.Current()) && NamesAgree(fs.Current(), fs.View(a));
    }
    SettledIssue(fs, Move(source, target));
  }

  lemma SettledCreate(fs: FileSystem, name: FileName)
    requires Settled(fs) && fs.Ok()
    ensures Settled(fs.Create(name))
  {
    hide PerformAll;
    var op := Link(name, |fs.files|);
    var after := Perform(fs.Current(), op);
    assert NamesAgree(fs.Current(), fs.Current()) && DirectoryOk(fs.Current(), |fs.files|);
    forall a: nat | a <= |fs.pending| ensures NamesAgree(fs.View(a), after) && NamesAgree(after, fs.View(a)) {
      assert NamesAgree(fs.View(a), fs.Current()) && NamesAgree(fs.Current(), fs.View(a));
      assert DirectoryOk(fs.View(a), |fs.files|);
    }
    SettledIssue(fs, op);
    SettledFiles(fs.Issue(op), fs.Create(name));
  }

  lemma SettledFiles(fs: FileSystem, after: FileSystem)
    requires Settled(fs) && after.synced == fs.synced && after.pending == fs.pending
    ensures Settled(after)
  {
    hide PerformAll, NamesAgree;
    forall a: nat, b: nat | a <= |after.pending| && b <= |after.pending| ensures NamesAgree(after.View(a), after.View(b)) {
      assert after.View(a) == fs.View(a) && after.View(b) == fs.View(b);
    }
  }

  /** One view of a settled disk: what a sync or a crash leaves. */
  lemma SettledView(fs: FileSystem, kept: nat, after: FileSystem)
    requires Settled(fs) && kept <= |fs.pending| && after.pending == [] && after.synced == fs.View(kept)
    ensures Settled(after)
  {
    hide PerformAll, NamesAgree;
    assert NamesAgree(fs.View(kept), fs.View(kept));
    forall a: nat, b: nat | a <= |after.pending| && b <= |after.pending| ensures NamesAgree(after.View(a), after.View(b)) {
      NothingPending(after);
    }
  }

  lemma NothingPending(fs: FileSystem)
    requires fs.pending == []
    ensures fs.View(0) == fs.synced
  {
  }
}
