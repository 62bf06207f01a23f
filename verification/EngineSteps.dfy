/** Each step of a running database keeps its invariant. */
module EngineSteps {
  import opened Coding
  import opened Configuration
  import opened Runs
  import opened Wal
  import opened WalLog
  import opened Versions
  import opened Compaction
  import opened Tables
  import opened FileSystem
  import opened Durability
  import opened WalFiles
  import opened Claims
  import opened WalSteps
  import opened Engine

  // ----- Disk steps that leave the logs alone ---------------------------------------------

  /** No log changed its name or its contents. */
  ghost predicate WalFrame(fs: FileSystem, after: FileSystem) {
    && |fs.files| <= |after.files| && after.files[..|fs.files|] == fs.files
    && (forall n: nat :: WalName(n) in after.Current() ==>
          WalName(n) in fs.Current() && after.Current()[WalName(n)] == fs.Current()[WalName(n)])
    && (forall n: nat, inode :: Everywhere(fs, WalName(n), inode) ==> Everywhere(after, WalName(n), inode))
  }

  lemma WalFrameTransitive(a: FileSystem, b: FileSystem, c: FileSystem)
    requires WalFrame(a, b) && WalFrame(b, c)
    ensures WalFrame(a, c)
  {
    hide Everywhere;
    assert c.files[..|a.files|] == c.files[..|b.files|][..|a.files|];
  }

  lemma WalFrameSelf(fs: FileSystem)
    ensures WalFrame(fs, fs)
  {
    hide Everywhere;
    assert fs.files[..|fs.files|] == fs.files;
  }

  predicate SparesWals(op: DirectoryOp) {
    match op
    case Link(name, inode) => !name.WalName?
    case Unlink(name) => !name.WalName?
    case Move(source, target) => !source.WalName? && !target.WalName?
  }

  lemma IssueFrame(fs: FileSystem, op: DirectoryOp)
    requires SparesWals(op)
    ensures WalFrame(fs, fs.Issue(op))
  {
    hide PerformAll;
    var after := fs.Issue(op);
    assert after.files[..|fs.files|] == fs.files;
    ViewAfterIssue(fs, op, |fs.pending| + 1);
    forall n: nat, inode | Everywhere(fs, WalName(n), inode) ensures Everywhere(after, WalName(n), inode) {
      forall kept | 0 <= kept <= |after.pending|
        ensures WalName(n) in after.View(kept) && after.View(kept)[WalName(n)] == inode
      {
        ViewAfterIssue(fs, op, kept);
        assert WalName(n) in fs.Current() && fs.Current()[WalName(n)] == inode;
      }
    }
  }

  lemma SyncFrame(fs: FileSystem)
    ensures WalFrame(fs, fs.SyncDirectory())
  {
    hide PerformAll;
    ViewAfterSync(fs);
    assert fs.SyncDirectory().files[..|fs.files|] == fs.files;
    forall n: nat, inode | Everywhere(fs, WalName(n), inode) ensures Everywhere(fs.SyncDirectory(), WalName(n), inode) {
      assert WalName(n) in fs.View(|fs.pending|) && fs.View(|fs.pending|)[WalName(n)] == inode;
    }
  }

  lemma CreateFrame(fs: FileSystem, name: FileName)
    requires !name.WalName?
    ensures WalFrame(fs, fs.Create(name))
  {
    hide PerformAll;
    var grown := fs.(files := fs.files + [StableFile([])]);
    assert forall kept :: 0 <= kept <= |fs.pending| ==> grown.View(kept) == fs.View(kept);
    assert WalFrame(fs, grown);
    IssueFrame(grown, Link(name, |fs.files|));
    WalFrameTransitive(fs, grown, fs.Create(name));
  }

  lemma SetNewFrame(fs: FileSystem, after: FileSystem, inode: Inode, f: File)
    requires WalFrame(fs, after) && |fs.files| <= inode < |after.files|
    ensures WalFrame(fs, after.SetFile(inode, f))
  {
    hide PerformAll;
    var changed := after.SetFile(inode, f);
    assert changed.files[..|fs.files|] == after.files[..|fs.files|];
    assert forall kept :: 0 <= kept <= |after.pending| ==> changed.View(kept) == after.View(kept);
  }

  /** A step that keeps the claim and spares the logs keeps the invariant. */
  lemma FrameInv(fs: FileSystem, after: FileSystem, h: History, m: Memory, l: Logs, o: Options)
    requires Inv(fs, h, m, l, o) && WalFrame(fs, after) && Keeps(after, ClaimOf(m, l, o), h, o)
    ensures Inv(after, h, m, l, o)
  {
    hide Keeps, MemoryOk, Explains, ClaimOf, LogOf;
    if m.wal.Some? {
      assert after.files[m.wal.value] == after.files[..|fs.files|][m.wal.value];
    } else if WalName(m.generation) in after.Current() {
      var inode := fs.Current()[WalName(m.generation)];
      assert after.files[inode] == after.files[..|fs.files|][inode];
    }
  }

  lemma InvRecoverable(fs: FileSystem, h: History, m: Memory, l: Logs, o: Options)
    requires Inv(fs, h, m, l, o)
    ensures Recoverable(fs, h, o) && fs.Ok()
  {
    hide ViewClaim;
    KeepsRecoverable(fs, ClaimOf(m, l, o), h, o);
  }

  // ----- Writing -----------------------------------------------------------------------------

  /** The frozen log that lies directly below the active one in some view. */
  function BelowActive(m: Memory, l: Logs): seq<Record> {
    if m.Flushing() then l.frozen else []
  }

  /** A healthy database with an open log can take the next record. */
  lemma InvCanAppend(fs: FileSystem, h: History, m: Memory, l: Logs, o: Options)
    requires Inv(fs, h, m, l, o) && m.wal.Some? && m.compaction.None?
    ensures CanAppend(ClaimOf(m, l, o), m.generation, BelowActive(m, l), m.lastSequence, o)
  {
    hide Keeps, Explains, LogBytes, StoredOk, TableBytes, Encodable, Fold, BuiltTable, TopTable, CompactionOk, ReadersOk, WalFileOk,
         RunsOf, Select, OutputPins;
    if m.Flushing() {
      var i := m.immutable.value;
      assert l.twoWals;
      assert Rising(l.frozen, 0);
      var pins := PinsOf(m, l, o);
      assert WalName(i.generation) in pins && pins[WalName(i.generation)] == LogBytes(l.frozen);
      if i.pending.Some? {
        FlushCandidateFrontier(m, o);
      }
    }
  }

  lemma FlushCandidateFrontier(m: Memory, o: Options)
    requires m.immutable.Some? && m.immutable.value.pending.Some?
    ensures var v := Apply(m.version, FlushEdit(m), o.maxKeySize);
            v.Some? ==> v.value.nextFileNumber == m.generation && v.value.lastSequence == m.immutable.value.maximumSequence
  {
    hide ValidVersion, DeletionsOk, AdditionsOk, SortByGeneration, Remaining;
  }

  lemma NextMayFollow(m: Memory, l: Logs, r: Record, o: Options)
    requires ActiveLogOk(m, l, o) && Encodable(r, o) && r.sequence == m.lastSequence + 1
    ensures MayFollow(r, l.active, m.lastSequence, o)
  {
    hide Encodable, Fold;
  }

  /** An append that did not complete: nothing in memory but the sequence counter changes, and writing stops. */
  lemma AppendFailed(fs: FileSystem, h: History, m: Memory, l: Logs, r: Record, count: nat, o: Options)
    requires Inv(fs, h, m, l, o) && m.wal.Some? && !m.poisoned && m.compaction.None?
    requires Encodable(r, o) && r.sequence == m.lastSequence + 1 && count <= |Encoding(r)|
    ensures m.wal.value < |fs.files|
    ensures var after := fs.SetFile(m.wal.value, fs.files[m.wal.value].Append(Encoding(r)[..count]));
            Inv(after, h + [Event(r, false)], m.(lastSequence := r.sequence, poisoned := true), l, o)
    ensures LogOf(m.(lastSequence := r.sequence, poisoned := true), l) == LogOf(m, l)
  {
    hide Keeps, Explains, LogBytes, StoredOk, Encodable, Fold, BuiltTable, CanAppend, Everywhere, Holds, Encoding, ClaimOf,
         CompactionOk, ReadersOk;
    InvCanAppend(fs, h, m, l, o);
    NextMayFollow(m, l, r, o);
    assert m.wal.value < |fs.files| by { EverywhereValid(fs, WalName(m.generation), m.wal.value, ClaimOf(m, l, o), h, o); }
    AppendKeeps(fs, m.wal.value, ClaimOf(m, l, o), m.generation, BelowActive(m, l), m.lastSequence, l.active, r, count, h, o);
    ExplainsSkip(LogOf(m, l), h, r);
    var m' := m.(lastSequence := r.sequence, poisoned := true);
    SameClaim(m, m', l, o);
    assert r.sequence <= MAX64 by { EncodableSequence(r, o); }
    SameMemory(m, m', l, o);
  }

  lemma EncodableSequence(r: Record, o: Options)
    requires Encodable(r, o)
    ensures 0 < r.sequence <= MAX64
  {
  }

  /** The claim does not depend on the mutable records, the open log, the counter or the health flag. */
  lemma SameClaim(m: Memory, m': Memory, l: Logs, o: Options)
    requires m' == m.(mutable := m'.mutable, wal := m'.wal, lastSequence := m'.lastSequence, poisoned := m'.poisoned)
    ensures ClaimOf(m', l, o) == ClaimOf(m, l, o)
  {
    hide TableBytes, LogBytes, Apply, RunsOf, OutputPins, Select;
  }

  /** A compaction in progress depends on the version, the readers and the absence of unflushed records. */
  lemma SameCompaction(m: Memory, m': Memory, l: Logs, l': Logs, o: Options)
    requires CompactionOk(m, l, o) && m'.compaction == m.compaction
    requires m.compaction.Some? ==>
               m'.version == m.version && m'.readers == m.readers && m'.immutable == m.immutable && l'.active == l.active &&
               (m.wal.None? ==> m'.wal.None? || m.compaction.value.cleanupSynced)
    ensures CompactionOk(m', l', o)
  {
    hide MergedOutputs, LevelZeroRange, BuiltTable, Apply, Select, Picks;
    if m.compaction.Some? {
      var c := m.compaction.value;
      assert CleanupOk(m', c) by { assert CleanupOk(m, c); }
      if !c.versionPublished {
        assert PlanOk(m', l', c, o) by { assert PlanOk(m, l, c, o); }
        assert CandidateOk(m', c, o) by { assert CandidateOk(m, c, o); }
      }
    }
  }

  lemma SameMemory(m: Memory, m': Memory, l: Logs, o: Options)
    requires MemoryOk(m, l, o) && m' == m.(lastSequence := m'.lastSequence, poisoned := m'.poisoned)
    requires m.lastSequence <= m'.lastSequence <= MAX64
    ensures MemoryOk(m', l, o)
  {
    hide StoredOk, Encodable, Fold, BuiltTable, CompactionOk, Rising, TopTable, Opened, RunsOf;
    SameCompaction(m, m', l, l, o);
  }

  /** A completed and synced append: the record is in the log, in the MemTable and in the history. */
  lemma AppendDone(fs: FileSystem, h: History, m: Memory, l: Logs, r: Record, o: Options)
    requires Inv(fs, h, m, l, o) && m.wal.Some? && !m.poisoned && m.compaction.None?
    requires Encodable(r, o) && r.sequence == m.lastSequence + 1
    ensures m.wal.value < |fs.files|
    ensures var after := fs.SetFile(m.wal.value, fs.files[m.wal.value].Append(Encoding(r)).Sync());
            Inv(after, h + [Event(r, true)], m.(lastSequence := r.sequence, mutable := Insert(m.mutable, r)),
                l.(active := l.active + [r]), o)
    ensures LogOf(m.(lastSequence := r.sequence, mutable := Insert(m.mutable, r)), l.(active := l.active + [r])) == LogOf(m, l) + [r]
  {
    hide Keeps, Explains, LogBytes, StoredOk, Encodable, Fold, BuiltTable, CanAppend, Everywhere, Holds, Encoding, ClaimOf,
         CompactionOk, ReadersOk, FrozenLogOk, PendingOk, ActiveLogOk;
    InvCanAppend(fs, h, m, l, o);
    NextMayFollow(m, l, r, o);
    assert m.wal.value < |fs.files| by { EverywhereValid(fs, WalName(m.generation), m.wal.value, ClaimOf(m, l, o), h, o); }
    ConfirmKeeps(fs, m.wal.value, ClaimOf(m, l, o), m.generation, BelowActive(m, l), m.lastSequence, l.active, r, h, o);
    ExplainsTake(LogOf(m, l), h, r, true);
    var m', l' := m.(lastSequence := r.sequence, mutable := Insert(m.mutable, r)), l.(active := l.active + [r]);
    assert LogOf(m', l') == LogOf(m, l) + [r];
    SameClaim(m, m', l, o);
    SameLogsClaim(m', l, l', o);
    EncodableSequence(r, o);
    GrownActive(m, l, r, o);
    GrownFrozen(m, l, r, o);
    SameReaders(m, m', l, l', o);
    SameCompaction(m, m', l, l', o);
  }

  lemma SameReaders(m: Memory, m': Memory, l: Logs, l': Logs, o: Options)
    requires m'.version == m.version && m'.readers == m.readers && l'.tables == l.tables
    ensures ReadersOk(m', l', o) <==> ReadersOk(m, l, o)
  {
    hide StoredOk;
  }

  lemma SameLogsClaim(m: Memory, l: Logs, l': Logs, o: Options)
    requires l' == l.(active := l'.active)
    ensures ClaimOf(m, l', o) == ClaimOf(m, l, o)
  {
    hide TableBytes, LogBytes, Apply, RunsOf, OutputPins, Select;
  }

  lemma GrownActive(m: Memory, l: Logs, r: Record, o: Options)
    requires ActiveLogOk(m, l, o) && m.wal.Some? && Encodable(r, o) && r.sequence == m.lastSequence + 1 <= MAX64
    ensures ActiveLogOk(m.(lastSequence := r.sequence, mutable := Insert(m.mutable, r)), l.(active := l.active + [r]), o)
  {
    hide Encodable;
    var longer := l.active + [r];
    assert longer[..|longer| - 1] == l.active;
  }

  lemma GrownFrozen(m: Memory, l: Logs, r: Record, o: Options)
    requires FrozenLogOk(m, l, o) && PendingOk(m, o) && GenerationsOk(m)
    ensures var m', l' := m.(lastSequence := r.sequence, mutable := Insert(m.mutable, r)), l.(active := l.active + [r]);
            FrozenLogOk(m', l', o) && PendingOk(m', o) && GenerationsOk(m')
  {
    hide Encodable, Fold, BuiltTable, Rising;
  }
}
