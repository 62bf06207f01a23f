/**
  How files and sequence numbers are ordered in every reachable state, whatever a background
  flush and concurrent writes have done (src/database.cpp:322-357, 509-565, 663-727).
 */
module Frontiers {
  import opened Runs
  import opened FileSystem
  import opened Engine
  import opened FlushSteps
  import opened Databases
  import opened ScanSteps

  /** Every log on disk is below the file frontier, at it, or one above it, and none is above the active one. */
  lemma LogNumbers(db: Database)
    requires db.Valid() && db.closed.None?
    ensures db.version.nextFileNumber <= db.generation <= db.version.nextFileNumber + 1
    ensures forall n: nat :: WalName(n) in db.disk.fs.Current() ==> n <= db.generation
  {
    hide *;
    db.ValidParts();
    db.Fields();
    InvParts(db.disk.fs, db.disk.history, db.Mem(), db.logs, db.options);
    MemoryParts(db.Mem(), db.logs, db.options);
    GenerationNear(db.Mem());
    LimitBelow(db.Mem(), db.logs, db.options);
    forall n: nat | WalName(n) in db.disk.fs.Current() ensures n <= db.generation {
      if n > LimitOf(db.Mem(), db.logs) {
        NoWalAbove(db.disk.fs, db.disk.history, db.Mem(), db.logs, db.options, n);
      }
    }
  }

  lemma GenerationNear(m: Memory)
    requires GenerationsOk(m)
    ensures m.version.nextFileNumber <= m.generation <= m.version.nextFileNumber + 1
  {
  }

  /**
    The MemTable's records are newer than the frozen ones, those newer than the sequence frontier
    until they are published, and no table has a record above it.
   */
  lemma SequenceOrder(db: Database)
    requires db.Valid() && db.closed.None?
    ensures Above(db.mutable.entries, db.version.lastSequence)
    ensures UpTo(RunsOf(db.readers, db.options), db.version.lastSequence)
    ensures db.immutable.Some? ==>
              forall r, s :: r in db.immutable.value.records && s in db.mutable.entries ==> r.sequence < s.sequence
    ensures db.immutable.Some? && !db.immutable.value.published ==> Above(db.immutable.value.records, db.version.lastSequence)
    ensures db.immutable.Some? && db.immutable.value.published ==> Top(RunsOf(db.readers, db.options), db.immutable.value.records)
  {
    hide *;
    db.ValidParts();
    db.Fields();
    InvParts(db.disk.fs, db.disk.history, db.Mem(), db.logs, db.options);
    var m, l, o := db.Mem(), db.logs, db.options;
    MemoryParts(m, l, o);
    MutableAbove(m, l, o);
    TablesUpTo(m, l, o);
    FrozenUpTo(m, l, o);
    FrozenIs(m);
    Layered(m.mutable, FrozenLayer(m), RunsOf(m.readers, o), Floor(m, l), m.version.lastSequence);
  }

  lemma Layered(mutable: Run, frozen: seq<Run>, tables: seq<Run>, floor: nat, low: nat)
    requires Above(mutable, floor) && UpTo(frozen + tables, floor) && low <= floor
    ensures Above(mutable, low)
    ensures frozen != [] ==> forall r, s :: r in frozen[0] && s in mutable ==> r.sequence < s.sequence
  {
    assert frozen != [] ==> (frozen + tables)[0] == frozen[0];
  }
}
