/** A client's view: a `DbImpl` together with the history it stands for. Whatever calls
    are made in whatever order, with crashes between them, every state is one that a run
    of the engine reaches, so reads return what the history says. */
module Stores {
  import opened Bytes
  import opened Entries
  import opened Versions
  import opened Compaction
  import opened CompactionProof
  import Wal
  import opened BatchCodec
  import opened History
  import opened Manifests
  import opened SkipLists
  import opened Snapshots
  import opened Engine
  import opened World
  import opened WorldWal
  import opened WorldTheorems
  import opened WorldRuns
  import opened DbImpls
  import opened Directories
  import opened VersionFiles
  import TableLayout
  import opened WorldManifests
  import opened Iterators
  import opened DbIterators
  import opened IteratorHistories
  import IteratorViews

  // ---------- reachable states ----------

  ghost predicate LeadsTo(cfg: Config, acts: seq<Action>, run: seq<World>, w: World) {
    IsRun(cfg, acts, run) && run[|acts|] == w
  }

  ghost predicate Reachable(cfg: Config, w: World) { exists acts, run :: LeadsTo(cfg, acts, run, w) }

  lemma InitReachable(cfg: Config)
    ensures Reachable(cfg, InitWorld())
  {
    assert LeadsTo(cfg, [], [InitWorld()], InitWorld());
  }

  lemma ReachableInv(cfg: Config, w: World)
    requires Reachable(cfg, w)
    ensures Inv(cfg, w) && HistOk(w.hist)
  {
    hide Inv;
    hide HistOk;
    hide Next;
    hide Enabled;
    var acts, run :| LeadsTo(cfg, acts, run, w);
    RunKeepsInv(cfg, acts, run, |acts|);
    InvHistOk(cfg, w);
  }

  lemma ReachableStep(cfg: Config, w: World, a: Action)
    requires Reachable(cfg, w) && HistOk(w.hist) && Enabled(cfg, w, a) && SequenceLeft(w, a)
    ensures Reachable(cfg, Next(cfg, w, a))
  {
    hide Next;
    hide Enabled;
    hide HistOk;
    hide SequenceLeft;
    var acts, run :| LeadsTo(cfg, acts, run, w);
    var acts', run' := acts + [a], run + [Next(cfg, w, a)];
    forall i | 0 <= i < |acts'|
      ensures HistOk(run'[i].hist) && Enabled(cfg, run'[i], acts'[i]) && SequenceLeft(run'[i], acts'[i])
      ensures run'[i + 1] == Next(cfg, run'[i], acts'[i])
    {
      if i < |acts| { assert run'[i] == run[i] && run'[i + 1] == run[i + 1] && acts'[i] == acts[i]; }
    }
    assert LeadsTo(cfg, acts', run', Next(cfg, w, a));
  }

  // ---------- what each call of `DbImpl` is, as steps ----------

  lemma RotateReaches(cfg: Config, db: Db, disk: Disk, h: Hist)
    requires Reachable(cfg, Up(db, disk, h)) && CanRotate(cfg, db)
    ensures Reachable(cfg, Up(RotateDb(db), RotateDisk(db, disk), AddSpan(db, h)))
  {
    hide Inv;
    hide HistOk;
    hide Reachable;
    ReachableInv(cfg, Up(db, disk, h));
    ReachableStep(cfg, Up(db, disk, h), Rotate);
  }

  lemma WriteReaches(cfg: Config, db: Db, disk: Disk, h: Hist, batch: seq<Op>, db': Db, disk': Disk)
    requires Reachable(cfg, Up(db, disk, h)) && CanWrite(cfg, db, disk, batch) && Wrote(db, disk, batch, db', disk')
    ensures Reachable(cfg, Up(db', disk', h.(batches := h.batches + [batch])))
    ensures Ops(h.(batches := h.batches + [batch])) == Ops(h) + batch
  {
    hide Inv;
    hide HistOk;
    hide Reachable;
    hide Encode;
    hide Flatten;
    ReachableInv(cfg, Up(db, disk, h));
    ReachableStep(cfg, Up(db, disk, h), Write(batch));
    FlattenAppend(h.batches, batch);
  }

  lemma BrokenWriteReaches(cfg: Config, db: Db, disk: Disk, h: Hist, batch: seq<Op>, n: nat, db': Db, disk': Disk)
    requires Reachable(cfg, Up(db, disk, h)) && CanWrite(cfg, db, disk, batch) && BrokeAt(db, disk, batch, n, db', disk')
    ensures Reachable(cfg, Up(db', disk', h.(torn := Some(Torn(batch, n)))))
  {
    hide Inv;
    hide HistOk;
    hide Reachable;
    hide Encode;
    ReachableInv(cfg, Up(db, disk, h));
    ReachableStep(cfg, Up(db, disk, h), WriteFails(batch, n));
  }

  /** What a reachable state answers, and what its version looks like. */
  lemma ReachableReads(cfg: Config, db: Db, disk: Disk, h: Hist, k: Bytes, s: nat)
    requires Reachable(cfg, Up(db, disk, h)) && (s == db.last || s in db.snapshots)
    ensures VersionOk(db.version) && db.last == |Ops(h)|
    ensures Observed(DbGet(db, k, s)) == Read(Ops(h), k, s)
  {
    hide UpInv;
    hide HistOk;
    hide IsRun;
    hide VersionOk;
    var acts, run :| LeadsTo(cfg, acts, run, Up(db, disk, h));
    ReachableInv(cfg, Up(db, disk, h));
    LastCommitted(cfg, Up(db, disk, h));
    LayoutHolds(cfg, db, disk, h);
    LastOfRun(cfg, acts, run, Up(db, disk, h));
    ReadsReturnHistory(cfg, acts, run, |acts|, k, s);
  }

  lemma LastOfRun(cfg: Config, acts: seq<Action>, run: seq<World>, w: World)
    requires LeadsTo(cfg, acts, run, w)
    ensures IsRun(cfg, acts, run) && |acts| < |run| && run[|acts|] == w
  {
    hide Next;
    hide Enabled;
    hide HistOk;
  }

  lemma LayoutHolds(cfg: Config, db: Db, disk: Disk, h: Hist)
    requires UpInv(cfg, db, disk, h)
    ensures VersionOk(db.version) && |db.version.levels| == NUM_LEVELS
  {
    hide MemInv;
    hide LogInv;
    hide BackgroundInv;
    hide VersionOk;
    hide Answers;
    hide Backed;
    hide AllStamped;
    hide EntriesOf;
  }

  /** Every table of the current version is in the directory, as bytes. */
  lemma VersionIsStored(db: DbImpl, h: Hist)
    requires db.Valid() && Reachable(db.cfg, Up(db.View(), db.Directory(), h))
    ensures LevelsOk(db.version) && forall l :: 0 <= l < NUM_LEVELS ==> TablesStored(db.tables, db.version.levels[l])
  {
    hide Reachable;
    hide SkipList.Valid;
    hide SkipList.Contents;
    hide StoredAs;
    hide UpTo;
    hide FilesHold;
    hide TablesStored;
    hide LevelsOk;
    VersionIsBacked(db.cfg, db.View(), db.Directory(), h);
    forall l | 0 <= l < NUM_LEVELS ensures TablesStored(db.tables, db.version.levels[l]) {
      assert BackedTables(db.ssts, db.version.levels[l]);
      BackedIsStored(db.tables, db.ssts, db.version.levels[l]);
    }
  }

  lemma VersionIsBacked(cfg: Config, db: Db, disk: Disk, h: Hist)
    requires Reachable(cfg, Up(db, disk, h))
    ensures LevelsOk(db.version) && |db.version.levels| == NUM_LEVELS
    ensures forall l :: 0 <= l < NUM_LEVELS ==> BackedTables(disk.ssts, db.version.levels[l])
  {
    hide Reachable;
    hide LogInv;
    hide MemInv;
    hide BackgroundInv;
    hide Answers;
    hide LevelsOk;
    hide Layered;
    hide UniqueVersions;
    hide BackedTables;
    hide AllStamped;
    hide EntriesOf;
    hide HistOk;
    ReachableInv(cfg, Up(db, disk, h));
    LevelCount(db.version);
  }

  lemma SnapshotBound(cfg: Config, db: Db, disk: Disk, h: Hist, s: nat)
    requires Reachable(cfg, Up(db, disk, h)) && s in db.snapshots
    ensures s <= db.last
  {
    hide Reachable;
    hide LogInv;
    hide MemInv;
    hide BackgroundInv;
    hide Good;
    hide HistOk;
    ReachableInv(cfg, Up(db, disk, h));
  }

  // ---------- the background thread is never stuck ----------

  /** Whatever the thread finds when it looks, its next critical section may run. */
  lemma BackgroundEnabled(cfg: Config, db: Db, disk: Disk, h: Hist)
    requires UpInv(cfg, db, disk, h)
    ensures db.bg.Idle? && db.imm.Some? ==> FlushReady(db)
    ensures db.bg.Compacting? && db.bg.open.None? && |db.bg.done| < |db.bg.files| && db.nextFile < MAX_FILE_NUMBER ==> CanOpenOutput(db)
    ensures db.bg.Compacting? && db.bg.open.Some? ==> OutputReady(db)
    ensures db.bg.Compacting? && db.bg.open.None? && |db.bg.done| >= |db.bg.files| ==> CanPrepare(db)
  {
    hide LogInv;
    hide Answers;
    hide VersionOk;
    hide Backed;
    hide AllStamped;
    hide EntriesOf;
    hide Sorted;
    hide NumbersOf;
    hide Split;
    hide Retained;
    hide IsMerge;
    hide BackedTables;
    hide Stamped;
    hide TablesFor;
    hide InputSet;
    hide Separated;
    if db.bg.Compacting? {
      var m :| CompactInv(cfg, db, disk, m);
      FilesNotEmpty(db.version, db.bg.plan, m, cfg.atTarget);
    }
  }

  /** The output file being written holds sorted entries with legal sequence numbers. */
  lemma NextFileInOrder(cfg: Config, db: Db, disk: Disk, h: Hist)
    requires Reachable(cfg, Up(db, disk, h)) && db.bg.Compacting? && |db.bg.done| < |db.bg.files|
    ensures Sorted(db.bg.files[|db.bg.done|]) && TableLayout.InRange(db.bg.files[|db.bg.done|])
  {
    hide Reachable;
    hide LogInv;
    hide MemInv;
    hide Answers;
    hide VersionOk;
    hide Backed;
    hide AllStamped;
    hide Sorted;
    hide NumbersOf;
    hide Split;
    hide Retained;
    hide BackedTables;
    hide Stamped;
    hide TablesFor;
    hide PlanOk;
    ReachableInv(cfg, Up(db, disk, h));
    var m :| CompactInv(cfg, db, disk, m);
    CommittedOpsFit(h.batches);
    PlanFits(db.version, db.bg.plan);
    FileInOrder(db.version, db.bg.plan, m, cfg.atTarget, |db.bg.done|, Ops(h), db.manifest.flushed);
  }

  lemma PlanFits(v: Version, p: Plan)
    requires PlanOk(v, p)
    ensures PlanInBounds(v, p)
  {}

  lemma FileInOrder(v: Version, p: Plan, m: seq<Entry>, atTarget: seq<Entry> -> bool, i: nat, ops: seq<Op>, flushed: nat)
    requires PlanInBounds(v, p) && IsMerge(v, p, m) && i < |Split(Retained(v, p, m), atTarget)|
    requires flushed <= |ops| <= MAX_SEQUENCE && Contents(v) <= EntriesOf(ops, 0, flushed)
    ensures Sorted(Split(Retained(v, p, m), atTarget)[i]) && TableLayout.InRange(Split(Retained(v, p, m), atTarget)[i])
  {
    hide Split;
    hide Retained;
    hide Sorted;
    hide LevelSet;
    hide EntriesOf;
    RetainedIsSorted(v, p, m);
    RetainedWithin(v, p, m);
    SplitMakesFiles(Retained(v, p, m), atTarget);
    ContentsBefore(v, p);
    var files := Split(Retained(v, p, m), atTarget);
    FileInUnion(files, i);
    forall j | 0 <= j < |files[i]| ensures files[i][j].sn <= MAX_SEQUENCE { assert files[i][j] in SetOf(files[i]); }
  }

  lemma {:induction false} FileInUnion(files: seq<seq<Entry>>, i: nat)
    requires i < |files|
    ensures SetOf(files[i]) <= UnionOf(files)
  {
    var n := |files| - 1;
    if i < n { FileInUnion(files[..n], i); }
  }

  lemma FilesNotEmpty(v: Version, p: Plan, m: seq<Entry>, atTarget: seq<Entry> -> bool)
    requires PlanInBounds(v, p) && IsMerge(v, p, m)
    ensures forall i :: 0 <= i < |Split(Retained(v, p, m), atTarget)| ==> Split(Retained(v, p, m), atTarget)[i] != []
  {
    RetainedIsSorted(v, p, m);
    SplitMakesFiles(Retained(v, p, m), atTarget);
  }

  lemma PickReaches(cfg: Config, db: Db, disk: Disk, h: Hist, oldest: nat, m: seq<Entry>)
    requires Reachable(cfg, Up(db, disk, h)) && |db.version.levels| == NUM_LEVELS && CanPick(db, oldest, m) && oldest < MAX_SEQUENCE
    ensures Reachable(cfg, Up(PickDb(cfg, db, oldest, m), disk, h))
  {
    hide Reachable;
    hide PickDb;
    hide CanPick;
    Reaches(cfg, db, disk, h, PickCompaction(oldest, m));
  }

  lemma FailReaches(cfg: Config, db: Db, disk: Disk, h: Hist)
    requires Reachable(cfg, Up(db, disk, h)) && !db.bg.Committed?
    ensures Reachable(cfg, Up(db.(bg := Stopped), disk, h))
  {
    hide Reachable;
    Reaches(cfg, db, disk, h, BackgroundFails);
  }

  lemma FlushReaches(cfg: Config, db: Db, disk: Disk, h: Hist, size: nat)
    requires Reachable(cfg, Up(db, disk, h)) && CanFlush(db, size)
    ensures Reachable(cfg, Up(FlushDb(db, size), FlushDisk(db, disk, size), h))
  {
    hide Reachable;
    hide FlushDb;
    hide FlushDisk;
    hide CanFlush;
    Reaches(cfg, db, disk, h, Flush(size));
  }

  lemma OpenOutputReaches(cfg: Config, db: Db, disk: Disk, h: Hist)
    requires Reachable(cfg, Up(db, disk, h)) && CanOpenOutput(db)
    ensures Reachable(cfg, Up(OpenOutputDb(db), disk, h))
  {
    hide Reachable;
    hide OpenOutputDb;
    hide CanOpenOutput;
    Reaches(cfg, db, disk, h, OpenOutput);
  }

  lemma FinishOutputReaches(cfg: Config, db: Db, disk: Disk, h: Hist, size: nat)
    requires Reachable(cfg, Up(db, disk, h)) && CanFinishOutput(db, size)
    ensures Reachable(cfg, Up(FinishOutputDb(db, size), FinishOutputDisk(db, disk, size), h))
  {
    hide Reachable;
    hide FinishOutputDb;
    hide FinishOutputDisk;
    hide CanFinishOutput;
    Reaches(cfg, db, disk, h, FinishOutput(size));
  }

  lemma PublishReaches(cfg: Config, db: Db, disk: Disk, h: Hist)
    requires Reachable(cfg, Up(db, disk, h)) && db.bg.Committed?
    ensures Reachable(cfg, Up(PublishDb(db), disk, h))
  {
    hide Reachable;
    hide PublishDb;
    Reaches(cfg, db, disk, h, Publish);
  }

  lemma CrashReaches(cfg: Config, db: Db, disk: Disk, h: Hist)
    requires Reachable(cfg, Up(db, disk, h))
    ensures Reachable(cfg, Down(disk, h))
  {
    hide Reachable;
    Reaches(cfg, db, disk, h, Crash);
  }

  ghost function RaisedFloor(db: Db, h: Hist): nat
    requires db.bg.Compacting?
  {
    if h.floor < db.bg.plan.oldest then db.bg.plan.oldest else h.floor
  }

  lemma PrepareReaches(cfg: Config, db: Db, disk: Disk, h: Hist)
    requires Reachable(cfg, Up(db, disk, h)) && CanPrepare(db)
    ensures Reachable(cfg, Up(PrepareDb(db), disk, h.(floor := RaisedFloor(db, h))))
  {
    hide Reachable;
    hide PrepareDb;
    Reaches(cfg, db, disk, h, PrepareCompaction);
  }

  ghost function KeptSpans(db: Db, h: Hist): seq<WalSpan>
    requires db.bg.Ready?
  {
    if db.bg.isFlush && h.spans != [] then [h.spans[|h.spans| - 1]] else h.spans
  }

  lemma CommitReaches(cfg: Config, db: Db, disk: Disk, h: Hist)
    requires Reachable(cfg, Up(db, disk, h)) && db.bg.Ready? && Published(db.bg.candidate)
    ensures Reachable(cfg, Up(CommitDb(db), CommitDisk(db, disk), h.(spans := KeptSpans(db, h))))
  {
    hide Reachable;
    hide Published;
    Reaches(cfg, db, disk, h, Commit);
  }

  lemma WriteNeeds(cfg: Config, db: Db, disk: Disk, batch: seq<Op>)
    requires db.wal in disk.wals && HasRoom(cfg, db)
    ensures CanWrite(cfg, db, disk, batch) <==> !db.bg.Stopped? && !db.walFailed && Encode(batch, db.last + 1).Some?
  {
    hide Encode;
  }

  lemma PickedWhenDue(v: Version, oldest: nat)
    requires LevelsOk(v) && |v.levels| == NUM_LEVELS
    ensures Pick(v, oldest, LEVEL1_BYTES).Some? <==> Due(v, LEVEL1_BYTES)
  {
    hide Pick;
    hide Due;
    hide LevelsOk;
    PickedExactly(v, oldest, LEVEL1_BYTES);
  }

  lemma PickDbCompacts(cfg: Config, db: Db, oldest: nat, m: seq<Entry>)
    requires |db.version.levels| == NUM_LEVELS
    ensures CanPick(db, oldest, m) ==>
      var bg := PickDb(cfg, db, oldest, m).bg;
      bg.Compacting? && bg.plan.oldest == oldest && Pick(db.version, oldest, LEVEL1_BYTES).Some?
  {
    hide Split;
    hide Retained;
    hide UserRange;
    hide OverlapEnd;
    hide Candidate;
  }

  lemma VersionLevels(v: Version)
    requires VersionOk(v)
    ensures LevelsOk(v)
  {}

  lemma FlushMakesReady(db: Db, size: nat)
    requires CanFlush(db, size)
    ensures FlushDb(db, size).bg.Ready?
  {}

  lemma OutputIsDone(db: Db, size: nat)
    requires CanFinishOutput(db, size)
    ensures var bg := FinishOutputDb(db, size).bg; bg.Compacting? && |bg.done| == |db.bg.done| + 1 && bg.open.None?
  {}

  lemma OpensWithNumbersLeft(db: Db)
    requires db.bg.Compacting? && db.bg.open.None? && |db.bg.done| < |db.bg.files|
    ensures CanOpenOutput(db) <==> db.nextFile < MAX_FILE_NUMBER
  {}

  lemma OutputIsOpen(db: Db)
    requires CanOpenOutput(db)
    ensures OpenOutputDb(db).bg == db.bg.(open := Some(db.nextFile))
  {}

  lemma PreparedIsReady(db: Db)
    requires CanPrepare(db)
    ensures PrepareDb(db).bg.Ready? && !PrepareDb(db).bg.isFlush
  {}

  lemma NoRoomNoWrite(cfg: Config, db: Db, disk: Disk, batch: seq<Op>)
    requires !HasRoom(cfg, db)
    ensures !CanWrite(cfg, db, disk, batch)
  {}

  lemma RotationMakesRoom(cfg: Config, db: Db, disk: Disk, batch: seq<Op>)
    requires CanRotate(cfg, db)
    ensures CanWrite(cfg, RotateDb(db), RotateDisk(db, disk), batch) <==> Encode(batch, db.last + 1).Some?
  {
    hide Encode;
  }

  /** Some live snapshot, or the latest sequence number, is below the largest one. */
  ghost predicate ReadsBelowMax(db: Db) {
    if db.snapshots == multiset{} then db.last < MAX_SEQUENCE else exists s :: s in db.snapshots && s < MAX_SEQUENCE
  }

  // ---------- the session ----------

  class Session {
    var db: DbImpl
    ghost var hist: Hist

    ghost predicate Valid()
      reads this, db, db.memtable, db.frozen, db.wal, db.snapshots
    {
      db.Valid() && Reachable(db.cfg, Up(db.View(), db.Directory(), hist))
    }

    constructor (config: Config)
      ensures Valid() && fresh(db) && db.cfg == config && Ops(hist) == []
    {
      hide StoredAs;
      hide FilesHold;
      hide UpTo;
      hide Reachable;
      hide DbImpl.Valid;
      hide SkipList.Valid;
      hide SkipList.Contents;
      hide Live;
      hide EncodeManifest;
      InitReachable(config);
      db := new DbImpl.Initialize(config);
      hist := Hist([], None, 0, [WalSpan(1, 0)]);
      new;
      assert Up(db.View(), db.Directory(), hist) == InitWorld();
    }

    /** A write that returns success is in the history at once; any other is not. It fails
        only for a stopped background thread, a full memtable that cannot be rotated, a
        broken WAL that is still in use, a batch that cannot be encoded, or a file system
        that does not take or sync the record; and it waits only for a flush. */
    method Write(batch: seq<Op>, usage: nat, opens: bool, budget: nat, synced: bool) returns (status: WriteStatus)
      requires Valid() && usage == db.cfg.usage(db.memtable.Contents())
      modifies this`hist, db, db.memtable, db.wal
      ensures Valid() && db.cfg == old(db.cfg)
      ensures Ops(hist) == if status.Written? then old(Ops(hist)) + batch else old(Ops(hist))
      ensures batch == [] ==> status.Written?
      ensures batch != [] ==>
        var full := old(db.memtable.Contents()) != [] && usage >= db.cfg.bufferSize;
        && (status.MustWait? <==> !old(db.background).Stopped? && full && old(db.frozen) != null)
        && (status.Written? || status.WalBroken? <==>
              && !old(db.background).Stopped? && Encode(batch, |old(Ops(hist))| + 1).Some?
              && if full then old(db.frozen) == null && opens && old(db.nextFile) <= MAX_FILE_NUMBER - 2 else !old(db.wal.failed))
        && (status.Written? || status.WalBroken? ==>
              (status.Written? <==> synced && Wal.HEADER_SIZE + |Encode(batch, |old(Ops(hist))| + 1).value| <= budget))
    {
      hide SkipList.Valid;
      hide SkipList.Contents;
      hide DbImpl.Valid;
      hide Reachable;
      hide CanWrite;
      hide Wrote;
      hide BrokeAt;
      hide Flatten;
      hide RotateDb;
      hide RotateDisk;
      ghost var before, directory, h := db.View(), db.Directory(), hist;
      ghost var rotated, room, files, n;
      LastIsCommitted(db.cfg, before, directory, h);
      status, rotated, room, files, n := db.Write(batch, usage, opens, budget, synced);
      if rotated {
        RotationMakesRoom(db.cfg, before, directory, batch);
      } else if HasRoom(db.cfg, before) {
        WriteNeeds(db.cfg, before, directory, batch);
      } else {
        NoRoomNoWrite(db.cfg, before, directory, batch);
      }
      if rotated {
        RotateReaches(db.cfg, before, directory, h);
        h := AddSpan(before, h);
      }
      if status.Written? && batch != [] {
        WriteReaches(db.cfg, room, files, h, batch, db.View(), db.Directory());
        h := h.(batches := h.batches + [batch]);
      } else if status.WalBroken? {
        BrokenWriteReaches(db.cfg, room, files, h, batch, n, db.View(), db.Directory());
        h := h.(torn := Some(Torn(batch, n)));
      }
      hist := h;
    }

    method Get(k: Bytes, verify: bool) returns (r: Option<Bytes>)
      requires Valid()
      ensures r == Read(Ops(hist), k, |Ops(hist)|)
    {
      hide SkipList.Valid;
      hide SkipList.Contents;
      hide DbImpl.Valid;
      hide Reachable;
      hide DbGet;
      ReachableReads(db.cfg, db.View(), db.Directory(), hist, k, db.View().last);
      VersionIsStored(db, hist);
      r := db.Get(k, None, verify);
    }

    method GetAt(k: Bytes, s: nat, verify: bool) returns (r: Option<Bytes>)
      requires Valid() && s in db.View().snapshots
      ensures r == Read(Ops(hist), k, s)
    {
      hide SkipList.Valid;
      hide SkipList.Contents;
      hide DbImpl.Valid;
      hide Reachable;
      hide DbGet;
      ReachableReads(db.cfg, db.View(), db.Directory(), hist, k, s);
      VersionIsStored(db, hist);
      SnapshotBound(db.cfg, db.View(), db.Directory(), hist, s);
      ValidFields(db);
      r := db.Get(k, Some(s), verify);
    }

    /** Scanning from `target` on, at the latest sequence number or at a live snapshot, while
        `writes` bounds the writes that happen meanwhile: every key with a value, once, in
        order, with the value a read finds. */
    method Scan(target: Bytes, snapshot: Option<nat>, writes: nat) returns (out: seq<(Bytes, Bytes)>, ghost s: nat)
      requires Valid() && (snapshot.Some? ==> snapshot.value in db.View().snapshots)
      ensures s == if snapshot.Some? then snapshot.value else |Ops(hist)|
      ensures forall i, j :: 0 <= i < j < |out| ==> Less(out[i].0, out[j].0)
      ensures forall i :: 0 <= i < |out| ==> !Less(out[i].0, target) && Read(Ops(hist), out[i].0, s) == Some(out[i].1)
      ensures forall k :: !Less(k, target) && Read(Ops(hist), k, s).Some? ==> exists i :: 0 <= i < |out| && out[i].0 == k
    {
      hide SkipList.Valid;
      hide SkipList.Contents;
      hide DbImpl.Valid;
      hide Reachable;
      hide Shown;
      hide Gives;
      hide Newest;
      hide Live;
      hide Flatten;
      hide Children;
      hide VersionOk;
      ghost var view, h, c, d := db.View(), hist, db.cfg, db.Directory();
      var at := if snapshot.Some? then snapshot.value else db.last;
      s := at;
      LastIsCommitted(c, view, d, h);
      ReachableIterator(c, view, d, h, at);
      var it := NewIterator(db, at);
      IteratorIsUsable(it, view, at);
      out := ScanFrom(it, target, writes);
      forall i | 0 <= i < |out| ensures Read(Ops(h), out[i].0, at) == Some(out[i].1) {
        ReachableShows(c, view, d, h, out[i].0, at, out[i].1);
      }
      forall k | !Less(k, target) && Read(Ops(h), k, at).Some? ensures exists i :: 0 <= i < |out| && out[i].0 == k {
        ReachableShows(c, view, d, h, k, at, []);
      }
    }

    method TakeSnapshot() returns (s: nat)
      requires Valid()
      modifies db.snapshots
      ensures Valid() && s == |Ops(hist)| && db.View().snapshots == old(db.View().snapshots) + multiset{s}
    {
      hide SkipList.Valid;
      hide SkipList.Contents;
      hide DbImpl.Valid;
      hide Reachable;
      hide Live;
      hide Flatten;
      ghost var before, directory := db.View(), db.Directory();
      LastIsCommitted(db.cfg, before, directory, hist);
      Reaches(db.cfg, before, directory, hist, Action.TakeSnapshot);
      s := db.NewSnapshot();
    }

    method ReleaseSnapshot(s: nat)
      requires Valid() && s in db.View().snapshots
      modifies db.snapshots
      ensures Valid() && db.View().snapshots == old(db.View().snapshots) - multiset{s}
    {
      hide SkipList.Valid;
      hide SkipList.Contents;
      hide DbImpl.Valid;
      hide Reachable;
      hide Live;
      Reaches(db.cfg, db.View(), db.Directory(), hist, Action.ReleaseSnapshot(s));
      db.ReleaseSnapshot(s);
    }

    /** Idle: compact when a level is full, else flush what is waiting. The thread stays idle
        only if there is neither to do. */
    method StartWork()
      requires Valid() && db.background.Idle? && ReadsBelowMax(db.View())
      requires db.frozen != null && db.frozen.Valid() ==> TableFits(db.frozen.Contents())
      modifies db
      ensures Valid() && db.cfg == old(db.cfg) && |old(db.version).levels| == NUM_LEVELS
      ensures Due(old(db.version), LEVEL1_BYTES) <==> db.background.Compacting? || db.background.Stopped?
      ensures !Due(old(db.version), LEVEL1_BYTES) ==> db.background.Ready? == (old(db.frozen) != null)
      ensures db.background.Idle? ==> old(db.frozen) == null && db.View() == old(db.View())
      ensures db.background.Compacting? ==>
        var live, oldest := db.View().snapshots, db.background.plan.oldest;
        if live == multiset{} then oldest == |Ops(hist)| else oldest in live && forall s :: s in live ==> oldest <= s
    {
      hide SkipList.Valid;
      hide SkipList.Contents;
      hide DbImpl.Valid;
      hide Reachable;
      hide Live;
      hide Flatten;
      hide PickDb;
      hide CanPick;
      hide CanFlush;
      hide FlushDb;
      hide FlushDisk;
      hide VersionOk;
      ghost var before, directory, c := db.View(), db.Directory(), db.cfg;
      WorkEnabled(c, before, directory, hist);
      ValidFields(db);
      var picked, oldest, m := db.StartCompaction();
      VersionLevels(before.version);
      PickedWhenDue(before.version, oldest);
      PickDbCompacts(c, before, oldest, m);
      LastIsCommitted(c, before, directory, hist);
      if picked {
        PickReaches(c, before, directory, hist, oldest, m);
      } else if db.background.Stopped? {
        FailReaches(c, before, directory, hist);
      } else if db.frozen != null {
        ghost var size := db.BuildLevel0Table();
        FlushReaches(c, before, directory, hist, size);
        FlushMakesReady(before, size);
      }
    }

    /** One more output file begun or finished, or all of them installed in a candidate. */
    method ContinueCompaction()
      requires Valid() && db.background.Compacting?
      requires forall i :: 0 <= i < |db.background.files| ==> TableFits(db.background.files[i])
      modifies this`hist, db
      ensures Valid() && db.cfg == old(db.cfg) && Ops(hist) == old(Ops(hist))
      ensures var was := old(db.background);
        if was.open.Some? then db.background.Compacting? && |db.background.done| == |was.done| + 1 && db.background.open.None?
        else if |was.done| < |was.files| then
          if old(db.nextFile) < MAX_FILE_NUMBER then db.background == was.(open := Some(old(db.nextFile))) else db.background.Stopped?
        else db.background.Ready? && !db.background.isFlush
    {
      hide SkipList.Valid;
      hide SkipList.Contents;
      hide DbImpl.Valid;
      hide Reachable;
      hide Live;
      hide Flatten;
      hide CanOpenOutput;
      hide CanFinishOutput;
      hide OpenOutputDb;
      hide FinishOutputDb;
      hide PrepareDb;
      hide CanPrepare;
      hide FinishOutputDisk;
      ghost var before, directory, c := db.View(), db.Directory(), db.cfg;
      WorkEnabled(c, before, directory, hist);
      if db.background.open.Some? {
        NextFileInOrder(c, before, directory, hist);
        ghost var size := db.FinishOutput();
        FinishOutputReaches(c, before, directory, hist, size);
        OutputIsDone(before, size);
      } else if |db.background.done| < |db.background.files| {
        OpensWithNumbersLeft(before);
        var ok := db.AllocateOutput();
        if ok {
          OpenOutputReaches(c, before, directory, hist);
          OutputIsOpen(before);
        } else {
          FailReaches(c, before, directory, hist);
        }
      } else {
        db.PrepareCompaction();
        PrepareReaches(c, before, directory, hist);
        PreparedIsReady(before);
        hist := hist.(floor := RaisedFloor(before, hist));
      }
    }

    /** Rename the manifest, or stop; then switch memory over. */
    method FinishWork(writes: bool)
      requires Valid() && (db.background.Ready? || db.background.Committed?)
      modifies this`hist, db
      ensures Valid() && db.cfg == old(db.cfg) && Ops(hist) == old(Ops(hist))
      ensures var was := old(db.background);
        if was.Ready? then
          if writes && Published(was.candidate) then db.background == Committed(was.isFlush, was.candidate, was.next)
          else db.background.Stopped?
        else
          && db.background.Idle? && db.manifest == was.candidate && db.version == was.next
          && (db.frozen == null <==> was.isFlush || old(db.frozen) == null)
    {
      hide SkipList.Valid;
      hide SkipList.Contents;
      hide DbImpl.Valid;
      hide Reachable;
      hide Live;
      hide Flatten;
      hide Published;
      hide CommitDisk;
      ghost var before, directory, c := db.View(), db.Directory(), db.cfg;
      if db.background.Ready? {
        CandidateLevels(c, before, directory, hist);
        var ok := db.Commit(writes);
        if ok {
          CommitReaches(c, before, directory, hist);
          hist := hist.(spans := KeptSpans(before, hist));
        } else {
          FailReaches(c, before, directory, hist);
        }
      } else {
        db.Publish();
        PublishReaches(c, before, directory, hist);
      }
    }

    /** The process dies and the directory is opened again: `numbers` and `top` are what the
        scan finds. Opening succeeds; every acknowledged batch is back, in order, with at
        most the one batch whose write was not acknowledged. */
    method CrashAndReopen(numbers: seq<nat>, top: nat)
      requires Valid() && Scanned(db.Directory(), numbers, top)
      modifies this
      ensures Valid() && fresh(db) && db.cfg == old(db.cfg)
      ensures || Ops(hist) == old(Ops(hist))
              || (old(hist).torn.Some? && Ops(hist) == old(Ops(hist)) + old(hist).torn.value.ops)
    {
      hide SkipList.Valid;
      hide SkipList.Contents;
      hide DbImpl.Valid;
      hide Reachable;
      hide Live;
      hide Flatten;
      hide StoredAs;
      hide FilesHold;
      hide UpTo;
      hide DecodeManifest;
      hide Scanned;
      hide Recovered;
      hide TruncateWals;
      hide LiveWals;
      hide Listing;
      hide CanRecover;
      hide HistOk;
      hide RecoveredHist;
      ghost var c, h := db.cfg, hist;
      var files := Files(db.manifestFile, db.closed[db.walNumber := db.wal.file], db.tables);
      ghost var disk := db.Directory();
      DirectoryFiles(db);
      CrashReaches(c, db.View(), disk, h);
      ScannedParts(disk, numbers, top, c, h);
      var reopened, ns := OpenDatabase(db.cfg, files, numbers, top, disk);
      ScanSuffices(disk, numbers, top, ns);
      ReopenReaches(c, disk, h, ns, top);
      db := reopened;
      hist := RecoveredHist(h);
    }
  }

  lemma ValidFields(db: DbImpl)
    requires db.Valid()
    ensures db.last <= MAX_SEQUENCE && (db.frozen != null ==> db.frozen.Valid())
  {
    hide SkipList.Valid;
    hide SkipList.Contents;
    hide StoredAs;
    hide UpTo;
    hide FilesHold;
  }

  lemma DirectoryFiles(db: DbImpl)
    requires db.Valid()
    ensures StoredAs(db.manifestFile, db.Directory().manifest) && FilesHold(db.tables, db.Directory().ssts)
  {
    hide SkipList.Valid;
    hide SkipList.Contents;
    hide StoredAs;
    hide UpTo;
    hide FilesHold;
  }

  /** What scanning the directory tells recovery. */
  ghost predicate Scanned(disk: Disk, numbers: seq<nat>, top: nat) {
    && Listing(disk.wals, numbers)
    && (forall n :: n in disk.wals || n in disk.ssts ==> n <= top)
    && (top in disk.wals || top in disk.ssts || top == 0)
  }

  lemma ScannedParts(disk: Disk, numbers: seq<nat>, top: nat, cfg: Config, h: Hist)
    requires Scanned(disk, numbers, top) && Reachable(cfg, Down(disk, h))
    ensures |disk.manifest.levels| == NUM_LEVELS && Listing(disk.wals, numbers) && forall n :: n in disk.wals ==> n <= top
    ensures HistOk(h)
  {
    hide Reachable;
    hide WalInv;
    hide HistOk;
    hide Listing;
    ReachableInv(cfg, Down(disk, h));
    var v :| Good(disk.manifest, v, disk.ssts, Ops(h), h.floor);
  }

  lemma ScanSuffices(disk: Disk, numbers: seq<nat>, top: nat, ns: seq<nat>)
    requires Scanned(disk, numbers, top) && |disk.manifest.levels| == NUM_LEVELS && LiveWals(disk.wals, disk.manifest.oldestWal, ns)
    ensures CanRecover(disk, ns, top)
  {
    hide Listing;
    hide LiveWals;
  }

  lemma RecoveredOps(h: Hist)
    requires HistOk(h)
    ensures || Ops(RecoveredHist(h)) == Ops(h)
            || (h.torn.Some? && Ops(RecoveredHist(h)) == Ops(h) + h.torn.value.ops)
  {
    hide HistOk;
    hide Encode;
    hide Flatten;
    if h.torn.Some? { FlattenAppend(h.batches, h.torn.value.ops); }
  }

  lemma ReopenReaches(cfg: Config, disk: Disk, h: Hist, ns: seq<nat>, top: nat)
    requires Reachable(cfg, Down(disk, h)) && CanRecover(disk, ns, top)
    ensures HistOk(h) && Recovered(disk, ns, top).Some?
    ensures Reachable(cfg, Up(Recovered(disk, ns, top).value, TruncateWals(disk, ns), RecoveredHist(h)))
    ensures || Ops(RecoveredHist(h)) == Ops(h)
            || (h.torn.Some? && Ops(RecoveredHist(h)) == Ops(h) + h.torn.value.ops)
  {
    hide Reachable;
    hide DownInv;
    hide HistOk;
    hide CanRecover;
    hide Recovered;
    hide TruncateWals;
    hide RecoveredHist;
    hide Flatten;
    hide UpInv;
    ReachableInv(cfg, Down(disk, h));
    RecoverySucceeds(cfg, disk, h, ns, top);
    ReachableStep(cfg, Down(disk, h), Recover(ns, top));
    RecoveredOps(h);
  }

  lemma CandidateLevels(cfg: Config, db: Db, disk: Disk, h: Hist)
    requires Reachable(cfg, Up(db, disk, h)) && db.bg.Ready?
    ensures |db.bg.candidate.levels| == NUM_LEVELS
  {
    hide Reachable;
    hide LogInv;
    hide MemInv;
    hide Answers;
    hide VersionOk;
    hide Backed;
    hide AllStamped;
    hide EntriesOf;
    ReachableInv(cfg, Up(db, disk, h));
  }

  lemma WorkEnabled(cfg: Config, db: Db, disk: Disk, h: Hist)
    requires Reachable(cfg, Up(db, disk, h))
    ensures VersionOk(db.version) && |db.version.levels| == NUM_LEVELS
    ensures db.bg.Idle? && db.imm.Some? ==> FlushReady(db)
    ensures db.bg.Compacting? && db.bg.open.Some? ==> OutputReady(db)
    ensures db.bg.Compacting? && db.bg.open.None? && |db.bg.done| >= |db.bg.files| ==> CanPrepare(db)
  {
    hide Reachable;
    hide UpInv;
    ReachableInv(cfg, Up(db, disk, h));
    BackgroundEnabled(cfg, db, disk, h);
    LayoutHolds(cfg, db, disk, h);
  }

  lemma Reaches(cfg: Config, db: Db, disk: Disk, h: Hist, a: Action)
    requires Reachable(cfg, Up(db, disk, h)) && EnabledUp(cfg, db, disk, a) && SequenceLeft(Up(db, disk, h), a)
    ensures h.spans != [] && Reachable(cfg, NextUp(cfg, db, disk, h, a))
  {
    hide Inv;
    hide Reachable;
    hide EnabledUp;
    hide NextUp;
    ReachableInv(cfg, Up(db, disk, h));
    ReachableStep(cfg, Up(db, disk, h), a);
  }

  lemma LastIsCommitted(cfg: Config, db: Db, disk: Disk, h: Hist)
    requires Reachable(cfg, Up(db, disk, h))
    ensures db.last == |Ops(h)|
  {
    hide UpInv;
    hide Reachable;
    ReachableInv(cfg, Up(db, disk, h));
    LastCommitted(cfg, Up(db, disk, h));
  }

  // ---------- iterators over a reachable state ----------

  ghost predicate CanIterate(cs: seq<Cursor>, s: nat) {
    CursorsOk(cs) && IteratorViews.Distinct(cs, s) && UniqueVersions(IteratorViews.AllVis(cs, s))
  }

  /** `newIterator`: the mutable memtable, the immutable one, then every table by level. */
  method NewIterator(db: DbImpl, s: nat) returns (it: DbIterator)
    requires db.Valid() && |db.version.levels| == NUM_LEVELS && CanIterate(Children(db.View()), s)
    ensures fresh(it) && fresh(it.input) && it.visible == s && it.input.children == Children(db.View())
  {
    hide SkipList.Valid;
    hide SkipList.Contents;
    hide StoredAs;
    hide FilesHold;
    hide UpTo;
    hide Live;
    hide CursorOk;
    var es := db.memtable.Scan();
    var children := [Start(es)];
    if db.frozen != null {
      es := db.frozen.Scan();
      children := children + [Start(es)];
    }
    ghost var memory := children;
    for level := 0 to NUM_LEVELS
      invariant children == memory + LevelCursors(db.version, level)
    {
      var tables := db.version.levels[level];
      ghost var below := children;
      for i := 0 to |tables|
        invariant children == below + TableCursors(tables[..i])
      {
        assert TableCursors(tables[..i + 1]) == TableCursors(tables[..i]) + [Start(tables[i].entries)];
        children := children + [Start(tables[i].entries)];
      }
      assert tables[..|tables|] == tables;
    }
    AllLevels(db.version);
    assert children == memory + VersionCursors(db.version);
    var merged := new MergingIterator(children);
    it := new DbIterator(merged, s);
  }

  ghost function LevelCursors(v: Version, n: nat): seq<Cursor>
    requires n <= |v.levels|
  {
    if n == 0 then [] else LevelCursors(v, n - 1) + TableCursors(v.levels[n - 1])
  }

  lemma AllLevels(v: Version)
    requires |v.levels| == NUM_LEVELS
    ensures LevelCursors(v, NUM_LEVELS) == VersionCursors(v)
  {
    assert LevelCursors(v, 1) == TableCursors(v.levels[0]);
    assert LevelCursors(v, 2) == TableCursors(v.levels[0]) + TableCursors(v.levels[1]);
  }

  lemma IteratorIsUsable(it: DbIterator, db: Db, s: nat)
    requires |db.version.levels| == NUM_LEVELS && CanIterate(Children(db), s)
    requires it.visible == s && it.input.children == Children(db)
    ensures it.Usable() && it.Seen() == IteratorViews.AllVis(Children(db), s)
  {}

  lemma ReachableIterator(cfg: Config, db: Db, disk: Disk, h: Hist, s: nat)
    requires Reachable(cfg, Up(db, disk, h))
    ensures VersionOk(db.version) && |db.version.levels| == NUM_LEVELS && CanIterate(Children(db), s)
  {
    hide Reachable;
    hide LogInv;
    hide BackgroundInv;
    hide VersionOk;
    hide Answers;
    hide Backed;
    hide AllStamped;
    hide MemInv;
    hide Children;
    ReachableInv(cfg, Up(db, disk, h));
    ChildrenShowEverything(db, Ops(h), s);
  }

  lemma ReachableShows(cfg: Config, db: Db, disk: Disk, h: Hist, k: Bytes, s: nat, value: Bytes)
    requires Reachable(cfg, Up(db, disk, h)) && |db.version.levels| == NUM_LEVELS && (s == db.last || s in db.snapshots)
    ensures Shown(IteratorViews.AllVis(Children(db), s), k, s) <==> Read(Ops(h), k, s).Some?
    ensures Gives(IteratorViews.AllVis(Children(db), s), k, s, value) <==> Read(Ops(h), k, s) == Some(value)
  {
    hide Reachable;
    hide LogInv;
    hide BackgroundInv;
    hide VersionOk;
    hide Answers;
    hide Backed;
    hide AllStamped;
    hide MemInv;
    hide Children;
    hide Shown;
    hide Gives;
    hide DbGet;
    hide Newest;
    ReachableInv(cfg, Up(db, disk, h));
    ReachableReads(cfg, db, disk, h, k, s);
    IteratorAgreesWithReads(db, Ops(h), k, s, value);
  }
}
