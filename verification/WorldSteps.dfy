/** Every action keeps the invariant. */
module WorldSteps {
  import opened Bytes
  import opened Entries
  import opened Versions
  import opened Compaction
  import opened CompactionProof
  import opened Wal
  import opened BatchCodec
  import opened History
  import opened Engine
  import opened Manifests
  import opened World
  import opened WorldWal
  import opened WorldStore
  import opened WorldCompact

  lemma GoodParts(m: Manifest, v: Version, ssts: map<nat, SstFile>, ops: seq<Op>, floor: nat)
    requires Good(m, v, ssts, ops, floor)
    ensures |v.levels| == NUM_LEVELS && VersionOk(v)
  {}

  /** The WAL invariant only looks at the WAL files and the manifest. */
  lemma WalFrame(disk: Disk, h: Hist, disk': Disk, h': Hist)
    requires WalInv(disk, h) && disk'.wals == disk.wals && disk'.manifest == disk.manifest
    requires h' == h.(floor := h'.floor)
    ensures WalInv(disk', h')
  {
    hide Published;
    hide Flatten;
    hide Encode;
    hide Frame;
    hide Log;
    hide Payloads;
    SpansAtOtherFloor(h, h'.floor);
    hide SpanBytes;
  }

  lemma SpansAtOtherFloor(h: Hist, floor: nat)
    requires HistOk(h)
    ensures var h' := h.(floor := floor);
      HistOk(h') && forall i :: 0 <= i < |h.spans| ==> SpanBytes(h', i) == SpanBytes(h, i)
  {
    hide Flatten;
    hide Encode;
    hide Frame;
    hide Log;
    hide Payloads;
  }

  // ---------- foreground ----------

  /** What the background thread relies on survives writes and snapshots. */
  lemma BackgroundFrame(cfg: Config, db: Db, disk: Disk, ops: seq<Op>, floor: nat, db': Db, disk': Disk, more: seq<Op>)
    requires |db.version.levels| == NUM_LEVELS && BackgroundInv(cfg, db, disk, ops, floor)
    requires db' == db.(mem := db'.mem, walFailed := db'.walFailed, last := db'.last, snapshots := db'.snapshots)
    requires db.last <= db'.last && forall s :: s in db'.snapshots ==> s in db.snapshots || s == db'.last
    requires disk'.manifest == disk.manifest && disk'.ssts == disk.ssts
    ensures BackgroundInv(cfg, db', disk', ops + more, floor)
  {
    hide Good;
    hide PlanOk;
    hide IsMerge;
    hide Numbers;
    hide TablesFor;
    hide Split;
    hide Retained;
    match db.bg {
      case Idle =>
      case Stopped =>
      case Compacting(_, _, _, _) =>
        var m :| CompactInv(cfg, db, disk, m);
        assert CompactInv(cfg, db', disk', m);
      case Ready(_, c, next) => GoodWithMoreOps(c, next, disk.ssts, ops, more, floor);
      case Committed(_, c, next) => GoodWithMoreOps(c, next, disk.ssts, ops, more, floor);
    }
  }

  lemma WriteKeepsMem(db: Db, ops: seq<Op>, batch: seq<Op>)
    requires MemInv(db, ops)
    ensures MemInv(WriteDb(db, batch), ops + batch)
  {
    hide Sorted;
    hide EntriesOf;
    hide ApplyBatch;
    var lo := if db.imm.Some? then db.imm.value.last else db.manifest.flushed;
    ApplyBatchHolds(db.mem, batch, ops, lo);
    if db.imm.Some? { EntriesOfExtension(ops, batch, db.manifest.flushed, lo); }
  }

  lemma WriteKeepsLog(cfg: Config, db: Db, disk: Disk, h: Hist, batch: seq<Op>)
    requires LogInv(cfg, db, disk, h) && CanWrite(cfg, db, disk, batch) && db.last == |Ops(h)|
    ensures LogInv(cfg, WriteDb(db, batch), AppendToWal(db, disk, WalRecord(db, batch)), h.(batches := h.batches + [batch]))
  {
    hide Encode;
    hide Frame;
    hide SpanBytes;
    hide Flatten;
    WriteKeepsWal(disk, h, batch, AppendToWal(db, disk, WalRecord(db, batch)));
    PrefixOfAppend(h.batches, batch, h.spans[|h.spans| - 1].start);
  }

  lemma StepWrite(cfg: Config, db: Db, disk: Disk, h: Hist, batch: seq<Op>, db': Db, disk': Disk)
    requires CanWrite(cfg, db, disk, batch)
    requires db' == WriteDb(db, batch) && disk' == AppendToWal(db, disk, WalRecord(db, batch))
    requires UpInv(cfg, db, disk, h)
    ensures UpInv(cfg, db', disk', h.(batches := h.batches + [batch]))
  {
    hide Good;
    hide LogInv;
    hide MemInv;
    hide BackgroundInv;
    hide Encode;
    hide Frame;
    hide Flatten;
    hide ApplyBatch;
    LastIsLength(db, h);
    FlattenAppend(h.batches, batch);
    WriteKeepsMem(db, Ops(h), batch);
    WriteKeepsLog(cfg, db, disk, h, batch);
    GoodWithMoreOps(db.manifest, db.version, disk.ssts, Ops(h), batch, h.floor);
    BackgroundFrame(cfg, db, disk, Ops(h), h.floor, db', disk', batch);
  }

  lemma LastIsLength(db: Db, h: Hist)
    requires MemInv(db, Ops(h))
    ensures db.last == |Ops(h)|
  {}

  lemma StepWriteFails(cfg: Config, db: Db, disk: Disk, h: Hist, batch: seq<Op>, n: nat)
    requires CanWrite(cfg, db, disk, batch) && n <= |WalRecord(db, batch)|
    requires UpInv(cfg, db, disk, h)
    ensures UpInv(cfg, db.(walFailed := true), AppendToWal(db, disk, FirstBytes(WalRecord(db, batch), n)),
                  h.(torn := Some(Torn(batch, n))))
  {
    hide Good;
    hide WalInv;
    hide BackgroundInv;
    hide Encode;
    hide Frame;
    hide Flatten;
    hide EntriesOf;
    hide Sorted;
    var db', disk' := db.(walFailed := true), AppendToWal(db, disk, FirstBytes(WalRecord(db, batch), n));
    WriteFailsKeepsWal(disk, h, batch, n, disk');
    BackgroundFrame(cfg, db, disk, Ops(h), h.floor, db', disk', []);
    assert Ops(h) + [] == Ops(h);
  }

  lemma StepSnapshots(cfg: Config, db: Db, disk: Disk, h: Hist, snapshots: multiset<nat>)
    requires UpInv(cfg, db, disk, h)
    requires forall s :: s in snapshots ==> s in db.snapshots || s == db.last
    ensures UpInv(cfg, db.(snapshots := snapshots), disk, h)
  {
    hide Good;
    hide WalInv;
    hide BackgroundInv;
    hide EntriesOf;
    hide Flatten;
    BackgroundFrame(cfg, db, disk, Ops(h), h.floor, db.(snapshots := snapshots), disk, []);
    assert Ops(h) + [] == Ops(h);
  }

  // ---------- rotation ----------

  lemma RotateKeepsBackground(cfg: Config, db: Db, disk: Disk, ops: seq<Op>, floor: nat)
    requires FileInv(db, disk) && db.imm.None? && BackgroundInv(cfg, db, disk, ops, floor)
    ensures BackgroundInv(cfg, RotateDb(db), RotateDisk(db, disk), ops, floor)
  {
    hide PlanOk;
    hide IsMerge;
    hide Numbers;
    hide TablesFor;
    hide Split;
    hide Retained;
    hide VersionOk;
    hide Answers;
    hide Backed;
    hide EntriesOf;
    var db', disk' := RotateDb(db), RotateDisk(db, disk);
    match db.bg {
      case Idle =>
      case Stopped =>
      case Compacting(_, _, _, _) =>
        var m :| CompactInv(cfg, db, disk, m);
        assert CompactInv(cfg, db', disk', m);
      case Ready(f, c, next) =>
        if db.nextFile in NumbersOf(next) { BackedNumbersExist(disk.ssts, next, db.nextFile); }
      case Committed(f, c, next) =>
        if db.nextFile in NumbersOf(next) { BackedNumbersExist(disk.ssts, next, db.nextFile); }
    }
  }

  lemma RotateKeepsMem(db: Db, ops: seq<Op>)
    requires MemInv(db, ops) && db.imm.None? && db.mem != []
    ensures MemInv(RotateDb(db), ops)
  {
    hide Sorted;
    assert EntriesOf(ops, db.last, db.last) == {};
    assert Sorted([]) && SetOf([]) == {} by { EmptyRun(); }
  }

  lemma EmptyRun()
    ensures Sorted([]) && SetOf([]) == {}
  {}

  lemma AllBatches(h: Hist)
    ensures h.batches[..|h.batches|] == h.batches
  {}

  lemma StepRotate(cfg: Config, db: Db, disk: Disk, h: Hist)
    requires UpInv(cfg, db, disk, h) && CanRotate(cfg, db)
    ensures UpInv(cfg, RotateDb(db), RotateDisk(db, disk), AddSpan(db, h))
    ensures !db.walFailed
  {
    hide Good;
    hide WalInv;
    hide BackgroundInv;
    hide EntriesOf;
    hide Flatten;
    hide Sorted;
    hide Numbers;
    NewSpanKeepsWal(disk, h, db.nextFile + 1);
    RotateKeepsBackground(cfg, db, disk, Ops(h), h.floor);
    RotateKeepsMem(db, Ops(h));
    AllBatches(h);
    assert db.nextFile !in NumbersOf(db.version) by { FreshNumber(db, disk, h); }
  }

  lemma FreshNumber(db: Db, disk: Disk, h: Hist)
    requires FileInv(db, disk) && Good(db.manifest, db.version, disk.ssts, Ops(h), h.floor)
    ensures forall n :: db.nextFile <= n ==> n !in NumbersOf(db.version)
  {
    hide VersionOk;
    hide Answers;
    hide Numbers;
    hide EntriesOf;
    forall n | n in NumbersOf(db.version) ensures n < db.nextFile {
      BackedNumbersExist(disk.ssts, db.version, n);
    }
  }

  // ---------- flush ----------

  lemma StepFlush(cfg: Config, db: Db, disk: Disk, h: Hist, size: nat)
    requires UpInv(cfg, db, disk, h) && CanFlush(db, size)
    ensures UpInv(cfg, FlushDb(db, size), FlushDisk(db, disk, size), h)
  {
    hide Good;
    hide WalInv;
    hide EntriesOf;
    hide Flatten;
    hide Sorted;
    hide Numbers;
    hide TableOk;
    var t := FlushedTable(db, size);
    MadeTableIsOk(t.meta.number, size, t.entries);
    FlushIsGood(db.manifest, db.version, disk.ssts, Ops(h), h.floor, t, db.imm.value.last, db.wal);
    GoodWithOtherFiles(db.manifest, db.version, disk.ssts, FlushDisk(db, disk, size).ssts, Ops(h), h.floor);
    WalFrame(disk, h, FlushDisk(db, disk, size), h);
  }

  // ---------- compaction ----------

  lemma OldestBounds(snapshots: multiset<nat>, last: nat, oldest: nat, floor: nat)
    requires IsOldest(snapshots, last, oldest) && floor <= last && forall s :: s in snapshots ==> floor <= s <= last
    ensures oldest <= last && forall s :: s in snapshots ==> oldest <= s
  {
    if snapshots != multiset{} { assert oldest in snapshots; }
  }

  lemma StepPick(cfg: Config, db: Db, disk: Disk, h: Hist, oldest: nat, m: seq<Entry>)
    requires UpInv(cfg, db, disk, h) && CanPick(db, oldest, m) && oldest < MAX_SEQUENCE
    ensures UpInv(cfg, PickDb(cfg, db, oldest, m), disk, h)
  {
    hide CompactInv;
    hide Good;
    hide WalInv;
    hide EntriesOf;
    hide Flatten;
    hide Sorted;
    hide VersionOk;
    hide Pick;
    hide PlanOk;
    hide IsMerge;
    hide Split;
    hide Retained;
    GoodParts(db.manifest, db.version, disk.ssts, Ops(h), h.floor);
    PickedPlanIsOk(db.version, oldest, LEVEL1_BYTES);
    OldestBounds(db.snapshots, db.last, oldest, h.floor);
    PickStartsEmpty(cfg, db, disk, oldest, m);
  }

  lemma PickStartsEmpty(cfg: Config, db: Db, disk: Disk, oldest: nat, m: seq<Entry>)
    requires |db.version.levels| == NUM_LEVELS && Pick(db.version, oldest, LEVEL1_BYTES).Some?
    requires var p := Pick(db.version, oldest, LEVEL1_BYTES).value;
      PlanOk(db.version, p) && IsMerge(db.version, p, m) && p.oldest == oldest
    requires oldest <= db.last && oldest < MAX_SEQUENCE && forall s :: s in db.snapshots ==> oldest <= s
    ensures CompactInv(cfg, PickDb(cfg, db, oldest, m), disk, m)
  {
    hide Pick;
    hide PlanOk;
    hide IsMerge;
    hide Split;
    hide Retained;
  }

  lemma StepOpenOutput(cfg: Config, db: Db, disk: Disk, h: Hist)
    requires UpInv(cfg, db, disk, h) && CanOpenOutput(db)
    ensures UpInv(cfg, OpenOutputDb(db), disk, h)
  {
    hide Good;
    hide WalInv;
    hide EntriesOf;
    hide Flatten;
    hide Sorted;
    hide Numbers;
    hide PlanOk;
    hide IsMerge;
    hide Split;
    hide Retained;
    FreshNumber(db, disk, h);
    var m :| CompactInv(cfg, db, disk, m);
    assert CompactInv(cfg, OpenOutputDb(db), disk, m);
  }

  lemma AppendTable(files: seq<seq<Entry>>, done: seq<Table>, t: Table)
    requires |done| < |files| && TablesFor(files[..|done|], done)
    requires t.entries == files[|done|] && TableOk(t)
    ensures TablesFor(files[..|done| + 1], done + [t])
  {
    hide TableOk;
    var fs, ts := files[..|done| + 1], done + [t];
    forall i | 0 <= i < |ts| ensures ts[i].entries == fs[i] && TableOk(ts[i]) {
      if i < |done| { assert ts[i] == done[i] && fs[i] == files[..|done|][i]; }
    }
  }

  lemma AppendNumber(done: seq<Table>, t: Table)
    ensures Numbers(done + [t]) == Numbers(done) + multiset{t.meta.number}
  {
    NumbersConcat(done, [t]);
    assert [t][1..] == [];
  }

  lemma FileIsTable(cfg: Config, v: Version, p: Plan, m: seq<Entry>, i: nat, number: nat, size: nat)
    requires |v.levels| == NUM_LEVELS && Sorted(m) && i < |Split(Retained(v, p, m), cfg.atTarget)|
    requires 0 < number && 0 < size
    ensures var f := Split(Retained(v, p, m), cfg.atTarget)[i]; f != [] && TableOk(MakeTable(number, size, f))
  {
    RetainedIsSorted(v, p, m);
    SplitMakesFiles(Retained(v, p, m), cfg.atTarget);
  }

  lemma FinishKeepsCompact(cfg: Config, db: Db, disk: Disk, m: seq<Entry>, size: nat)
    requires FileInv(db, disk) && db.bg.Compacting? && CompactInv(cfg, db, disk, m) && CanFinishOutput(db, size)
    ensures CompactInv(cfg, FinishOutputDb(db, size), FinishOutputDisk(db, disk, size), m)
  {
    hide Sorted;
    hide Numbers;
    hide PlanOk;
    hide Split;
    hide Retained;
    hide TableOk;
    hide BackedTables;
    var files, done, n := db.bg.files, db.bg.done, db.bg.open.value;
    FileIsTable(cfg, db.version, db.bg.plan, m, |done|, n, size);
    var t := MakeTable(n, size, files[|done|]);
    AppendTable(files, done, t);
    AppendNumber(done, t);
    var disk' := FinishOutputDisk(db, disk, size);
    BackedSurvives(disk.ssts, disk'.ssts, done);
    BackedAppend(disk'.ssts, done, t);
  }

  lemma BackedAppend(ssts: map<nat, SstFile>, done: seq<Table>, t: Table)
    requires BackedTables(ssts, done) && t.meta.number in ssts && ssts[t.meta.number] == SstFile(t.meta.size, t.entries)
    ensures BackedTables(ssts, done + [t])
  {}

  lemma StepFinishOutput(cfg: Config, db: Db, disk: Disk, h: Hist, size: nat)
    requires UpInv(cfg, db, disk, h) && CanFinishOutput(db, size)
    ensures UpInv(cfg, FinishOutputDb(db, size), FinishOutputDisk(db, disk, size), h)
  {
    hide Good;
    hide WalInv;
    hide EntriesOf;
    hide Flatten;
    hide Sorted;
    hide Numbers;
    hide CompactInv;
    var m :| CompactInv(cfg, db, disk, m);
    FinishKeepsCompact(cfg, db, disk, m, size);
    OpenIsUnused(cfg, db, disk, m);
    GoodWithOtherFiles(db.manifest, db.version, disk.ssts, FinishOutputDisk(db, disk, size).ssts, Ops(h), h.floor);
    WalFrame(disk, h, FinishOutputDisk(db, disk, size), h);
  }

  lemma OpenIsUnused(cfg: Config, db: Db, disk: Disk, m: seq<Entry>)
    requires db.bg.Compacting? && |db.version.levels| == NUM_LEVELS && CompactInv(cfg, db, disk, m) && db.bg.open.Some?
    ensures Unused(db.bg.open.value, db.version, db.nextFile)
  {}

  lemma OutputsComplete(cfg: Config, db: Db, disk: Disk, m: seq<Entry>)
    requires |db.version.levels| == NUM_LEVELS && db.bg.Compacting? && CompactInv(cfg, db, disk, m)
    requires |db.bg.done| == |db.bg.files|
    ensures IsOutput(db.version, db.bg.plan, m, db.bg.done)
  {
    hide Sorted;
    hide Numbers;
    hide PlanOk;
    hide Split;
    hide Retained;
    hide TableOk;
    assert db.bg.files[..|db.bg.done|] == db.bg.files;
    CutFilesAreOutput(db.version, db.bg.plan, m, cfg.atTarget, db.bg.done);
  }

  lemma StepPrepare(cfg: Config, db: Db, disk: Disk, h: Hist, h': Hist)
    requires UpInv(cfg, db, disk, h) && CanPrepare(db)
    requires h' == h.(floor := if h.floor < db.bg.plan.oldest then db.bg.plan.oldest else h.floor)
    ensures UpInv(cfg, PrepareDb(db), disk, h')
  {
    hide Good;
    hide WalInv;
    hide EntriesOf;
    hide Flatten;
    hide Sorted;
    hide Numbers;
    hide PlanOk;
    hide IsMerge;
    hide IsOutput;
    hide Split;
    hide Retained;
    hide TablesFor;
    hide BackedTables;
    var m :| CompactInv(cfg, db, disk, m);
    OutputsComplete(cfg, db, disk, m);
    CompactIsGood(db.manifest, db.version, disk.ssts, Ops(h), h.floor, db.bg.plan, m, db.bg.done, h'.floor);
    GoodAtHigherFloor(db.manifest, db.version, disk.ssts, Ops(h), h.floor, h'.floor);
    WalFrame(disk, h, disk, h');
  }

  // ---------- publishing, failing, deleting ----------

  lemma StepCommit(cfg: Config, db: Db, disk: Disk, h: Hist)
    requires UpInv(cfg, db, disk, h) && db.bg.Ready? && Published(db.bg.candidate)
    ensures UpInv(cfg, CommitDb(db), CommitDisk(db, disk), if db.bg.isFlush then h.(spans := [h.spans[|h.spans| - 1]]) else h)
  {
    hide Published;
    hide Good;
    hide EntriesOf;
    hide Flatten;
    hide Sorted;
    hide Numbers;
    hide SpanBytes;
    hide Encode;
    hide Frame;
    if db.bg.isFlush {
      hide WalInv;
      FlushCommitKeepsWal(disk, h, db.bg.candidate);
    }
  }

  lemma StepPublish(cfg: Config, db: Db, disk: Disk, h: Hist)
    requires UpInv(cfg, db, disk, h) && db.bg.Committed?
    ensures UpInv(cfg, PublishDb(db), disk, h)
  {
    hide Good;
    hide WalInv;
    hide EntriesOf;
    hide Flatten;
    hide Sorted;
    hide Numbers;
    hide VersionOk;
    GoodParts(db.bg.candidate, db.bg.next, disk.ssts, Ops(h), h.floor);
  }

  lemma StepRemoveWal(cfg: Config, db: Db, disk: Disk, h: Hist, n: nat)
    requires UpInv(cfg, db, disk, h) && (db.bg.Idle? || db.bg.Stopped?) && n < disk.manifest.oldestWal
    ensures UpInv(cfg, db, DeleteWal(disk, n), h)
  {
    hide Good;
    hide WalInv;
    hide EntriesOf;
    hide Flatten;
    hide Sorted;
    hide Numbers;
    RemoveWalKeepsWal(disk, h, n);
  }

  lemma DeadFile(m: Manifest, v: Version, ssts: map<nat, SstFile>, ops: seq<Op>, floor: nat, n: nat)
    requires Good(m, v, ssts, ops, floor) && !IsLive(m, n)
    ensures Good(m, v, ssts - {n}, ops, floor)
  {
    if n in NumbersOf(v) { LiveNumbers(m, v, n); }
    GoodWithOtherFiles(m, v, ssts, ssts - {n}, ops, floor);
  }

  lemma StepRemoveSst(cfg: Config, db: Db, disk: Disk, h: Hist, n: nat)
    requires UpInv(cfg, db, disk, h) && (db.bg.Idle? || db.bg.Stopped?) && !IsLive(disk.manifest, n)
    ensures UpInv(cfg, db, DeleteSst(disk, n), h)
  {
    hide Published;
    hide Good;
    hide SpanBytes;
    hide EntriesOf;
    hide Flatten;
    hide Sorted;
    hide Numbers;
    hide HistOk;
    DeadFile(db.manifest, db.version, disk.ssts, Ops(h), h.floor, n);
  }

  // ---------- crash and recovery ----------

  lemma StepCrash(cfg: Config, db: Db, disk: Disk, h: Hist)
    requires UpInv(cfg, db, disk, h)
    ensures DownInv(disk, h)
  {
    hide Good;
    hide WalInv;
    hide CompactInv;
    hide EntriesOf;
    hide Sorted;
    hide Flatten;
    if db.bg.Committed? {
      assert Good(disk.manifest, db.bg.next, disk.ssts, Ops(h), h.floor);
    } else {
      assert Good(disk.manifest, db.version, disk.ssts, Ops(h), h.floor);
    }
  }
}
