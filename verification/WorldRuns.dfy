/** Runs: the invariant in every reachable state, and what follows for readers and
    for recovery. */
module WorldRuns {
  import opened Bytes
  import opened Entries
  import opened Versions
  import opened Wal
  import opened BatchCodec
  import opened History
  import opened Engine
  import opened Manifests
  import opened World
  import opened WorldStore
  import opened WorldSteps
  import opened WorldTheorems

  // ---------- one step ----------

  /** A compaction is only sound while someone may still read below the largest sequence
      number: at it, live values are dropped (`AtMaxSequenceReadsSurviveIff`). */
  ghost predicate SequenceLeft(w: World, a: Action) {
    w.Up? && a.PickCompaction? ==> a.oldest < MAX_SEQUENCE
  }

  lemma InvHistOk(cfg: Config, w: World)
    requires Inv(cfg, w)
    ensures HistOk(w.hist)
  {
    hide Good;
    hide MemInv;
    hide FileInv;
    hide BackgroundInv;
    hide AllEncodable;
    hide SpanBytes;
  }

  lemma UpStepKeepsInv(cfg: Config, db: Db, disk: Disk, h: Hist, a: Action)
    requires HistOk(h) && EnabledUp(cfg, db, disk, a) && SequenceLeft(Up(db, disk, h), a)
    requires UpInv(cfg, db, disk, h)
    ensures Inv(cfg, NextUp(cfg, db, disk, h, a))
  {
    hide UpInv;
    hide DownInv;
    hide HistOk;
    hide Encode;
    hide CanRotate;
    hide CanPick;
    match a {
      case Write(ops) => StepWrite(cfg, db, disk, h, ops, WriteDb(db, ops), AppendToWal(db, disk, WalRecord(db, ops)));
      case WriteFails(ops, n) => StepWriteFails(cfg, db, disk, h, ops, n);
      case Rotate => StepRotate(cfg, db, disk, h);
      case TakeSnapshot => StepSnapshots(cfg, db, disk, h, db.snapshots + multiset{db.last});
      case ReleaseSnapshot(s) => StepSnapshots(cfg, db, disk, h, db.snapshots - multiset{s});
      case Flush(size) => StepFlush(cfg, db, disk, h, size);
      case PickCompaction(oldest, m) => StepPick(cfg, db, disk, h, oldest, m);
      case OpenOutput => StepOpenOutput(cfg, db, disk, h);
      case FinishOutput(size) => StepFinishOutput(cfg, db, disk, h, size);
      case PrepareCompaction =>
        StepPrepare(cfg, db, disk, h, h.(floor := if h.floor < db.bg.plan.oldest then db.bg.plan.oldest else h.floor));
      case Commit => StepCommit(cfg, db, disk, h);
      case Publish => StepPublish(cfg, db, disk, h);
      case BackgroundFails => StepBackgroundFails(cfg, db, disk, h);
      case RemoveWal(n) => StepRemoveWal(cfg, db, disk, h, n);
      case RemoveSst(n) => StepRemoveSst(cfg, db, disk, h, n);
      case Crash => StepCrash(cfg, db, disk, h);
      case CrashInRotate => CrashInRotateIsDown(cfg, db, disk, h);
    }
  }

  lemma StepBackgroundFails(cfg: Config, db: Db, disk: Disk, h: Hist)
    requires UpInv(cfg, db, disk, h) && !db.bg.Committed?
    ensures UpInv(cfg, db.(bg := Stopped), disk, h)
  {
    hide Good;
    hide WalInv;
    hide CompactInv;
    hide EntriesOf;
    hide Flatten;
    hide Sorted;
    hide Numbers;
  }

  lemma DownStepKeepsInv(cfg: Config, disk: Disk, h: Hist, a: Action)
    requires HistOk(h) && EnabledDown(disk, a) && DownInv(disk, h)
    ensures Inv(cfg, NextDown(disk, h, a))
  {
    hide UpInv;
    hide DownInv;
    hide CanRecover;
    hide Recovered;
    hide AllEncodable;
    hide Truncated;
    hide TornIsWhole;
    match a {
      case RemoveWal(n) => DownRemoveWal(disk, h, n);
      case RemoveSst(n) => DownRemoveSst(disk, h, n);
      case CutTail(n) => DownCutTail(disk, h, n, NextDown(disk, h, a).hist);
      case Recover(ns, top) => RecoverySucceeds(cfg, disk, h, ns, top);
      case _ =>
    }
  }

  /** Every action, enabled or not foreseen by the others, keeps the invariant. */
  lemma StepKeepsInv(cfg: Config, w: World, a: Action)
    requires HistOk(w.hist) && Enabled(cfg, w, a) && SequenceLeft(w, a)
    requires Inv(cfg, w)
    ensures Inv(cfg, Next(cfg, w, a))
  {
    hide UpInv;
    hide DownInv;
    hide HistOk;
    hide EnabledUp;
    hide EnabledDown;
    hide NextUp;
    hide NextDown;
    match w {
      case Up(db, disk, h) => UpStepKeepsInv(cfg, db, disk, h, a);
      case Down(disk, h) => DownStepKeepsInv(cfg, disk, h, a);
    }
  }

  // ---------- runs ----------

  /** `initializeNewDatabase`: one empty WAL, a manifest that names it, no tables. */
  function InitDisk(): Disk {
    Disk(Manifest(0, 1, [[], [], []]), map[1 := []], map[])
  }

  function InitWorld(): World {
    Up(Db([], None, 1, false, 2, InitDisk().manifest, Version([[], [], []]), 0, multiset{}, Idle),
       InitDisk(), Hist([], None, 0, [WalSpan(1, 0)]))
  }

  /** `run` is what the actions `acts` lead to from a fresh database. */
  ghost predicate IsRun(cfg: Config, acts: seq<Action>, run: seq<World>) {
    && |run| == |acts| + 1 && run[0] == InitWorld()
    && forall i :: 0 <= i < |acts| ==>
         && HistOk(run[i].hist) && Enabled(cfg, run[i], acts[i]) && SequenceLeft(run[i], acts[i])
         && run[i + 1] == Next(cfg, run[i], acts[i])
  }

  lemma InitGood()
    ensures Good(InitDisk().manifest, Version([[], [], []]), map[], [], 0)
  {
    var v := Version([[], [], []]);
    assert Contents(v) == {} && NumbersOf(v) == multiset{};
    assert MetasOf(v) == [[], [], []];
    forall k: Bytes, s: nat ensures Observed(Get(v, k, s)) == Read([][..0], k, s) {
      assert Level0Lookup([], k, s) == None && LevelLookup([], k, s) == None;
    }
    assert LevelSet([]) == {};
  }

  lemma InitPublished()
    ensures Published(InitDisk().manifest)
  {
    hide EncodeManifest;
    FirstManifest();
  }

  lemma InitWal()
    ensures WalInv(InitDisk(), InitWorld().hist)
  {
    hide Encode;
    hide Frame;
    hide Published;
    InitPublished();
    var h := InitWorld().hist;
    assert h.batches[..0] == [];
    assert Payloads(h.batches, 0, 0) == [];
    assert SpanBytes(h, 0) == [];
    assert h.spans[0].number == 1;
  }

  lemma InitMem()
    ensures MemInv(InitWorld().db, [])
  {
    EmptyRun();
    assert EntriesOf([], 0, 0) == {};
  }

  lemma InitInv(cfg: Config)
    ensures Inv(cfg, InitWorld())
  {
    hide Good;
    hide WalInv;
    hide MemInv;
    InitGood();
    InitWal();
    InitMem();
    assert Ops(InitWorld().hist) == [];
  }

  /** The invariant holds in every state of every run. */
  lemma {:induction false} RunKeepsInv(cfg: Config, acts: seq<Action>, run: seq<World>, i: nat)
    requires IsRun(cfg, acts, run) && i < |run|
    ensures Inv(cfg, run[i])
  {
    hide Inv;
    hide Next;
    hide Enabled;
    hide HistOk;
    if i == 0 {
      InitInv(cfg);
    } else {
      RunKeepsInv(cfg, acts, run, i - 1);
      assert run[(i - 1) + 1] == Next(cfg, run[i - 1], acts[i - 1]);
      StepKeepsInv(cfg, run[i - 1], acts[i - 1]);
    }
  }

  // ---------- what readers see ----------

  /** Engine refinement: at every moment of every run, a read at the latest sequence
      number, or at any live snapshot, returns exactly what the newest operation on the
      key with a sequence number not above it says. */
  lemma ReadsReturnHistory(cfg: Config, acts: seq<Action>, run: seq<World>, i: nat, k: Bytes, s: nat)
    requires IsRun(cfg, acts, run) && i < |run| && run[i].Up?
    requires s == run[i].db.last || s in run[i].db.snapshots
    ensures |run[i].db.version.levels| == NUM_LEVELS
    ensures Observed(DbGet(run[i].db, k, s)) == Read(Ops(run[i].hist), k, s)
  {
    hide IsRun;
    hide Good;
    hide MemInv;
    hide LogInv;
    hide BackgroundInv;
    RunKeepsInv(cfg, acts, run, i);
    LayersAnswerLikeHistory(run[i].db, run[i].disk.ssts, Ops(run[i].hist), run[i].hist.floor, k, s);
  }

  /** Committed batches are never lost, reordered or split by any action. */
  lemma StepExtendsHistory(cfg: Config, w: World, a: Action)
    requires HistOk(w.hist) && Enabled(cfg, w, a)
    ensures w.hist.batches <= Next(cfg, w, a).hist.batches
  {
    hide AllEncodable;
    hide Encode;
    hide Frame;
    hide CanWrite;
    hide CanPick;
    hide CanPrepare;
    hide CanRecover;
    hide Recovered;
    hide Truncated;
  }

  lemma {:induction false} HistoryOnlyGrows(cfg: Config, acts: seq<Action>, run: seq<World>, i: nat, j: nat)
    requires IsRun(cfg, acts, run) && i <= j < |run|
    ensures run[i].hist.batches <= run[j].hist.batches
    decreases j
  {
    hide Next;
    hide Enabled;
    hide HistOk;
    if i < j {
      HistoryOnlyGrows(cfg, acts, run, i, j - 1);
      assert run[(j - 1) + 1] == Next(cfg, run[j - 1], acts[j - 1]);
      StepExtendsHistory(cfg, run[j - 1], acts[j - 1]);
    }
  }

  lemma {:induction false} FlattenOfPrefix(a: seq<seq<Op>>, b: seq<seq<Op>>)
    requires a <= b
    ensures Flatten(a) <= Flatten(b)
    decreases |b|
  {
    if |a| == |b| {
      assert a == b;
    } else {
      var front := b[..|b| - 1];
      FlattenOfPrefix(a, front);
    }
  }

  /** Live snapshots read repeatably: whatever was written, flushed, compacted or
      recovered in between, a snapshot taken at `s` answers the same. */
  lemma SnapshotReadsRepeat(cfg: Config, acts: seq<Action>, run: seq<World>, i: nat, j: nat, k: Bytes, s: nat)
    requires IsRun(cfg, acts, run) && i <= j < |run| && run[i].Up? && run[j].Up?
    requires s in run[i].db.snapshots && s in run[j].db.snapshots
    ensures |run[i].db.version.levels| == |run[j].db.version.levels| == NUM_LEVELS
    ensures Observed(DbGet(run[i].db, k, s)) == Observed(DbGet(run[j].db, k, s))
  {
    hide IsRun;
    hide DbGet;
    hide Newest;
    hide Flatten;
    ReadsReturnHistory(cfg, acts, run, i, k, s);
    ReadsReturnHistory(cfg, acts, run, j, k, s);
    HistoryOnlyGrows(cfg, acts, run, i, j);
    var a, b := Ops(run[i].hist), Ops(run[j].hist);
    FlattenOfPrefix(run[i].hist.batches, run[j].hist.batches);
    assert b == a + b[|a|..];
    assert s <= |a| by { SnapshotsAreCommitted(cfg, acts, run, i, s); }
    ReadIsStable(a, b[|a|..], k, s);
  }

  lemma SnapshotsAreCommitted(cfg: Config, acts: seq<Action>, run: seq<World>, i: nat, s: nat)
    requires IsRun(cfg, acts, run) && i < |run| && run[i].Up? && s in run[i].db.snapshots
    ensures s <= |Ops(run[i].hist)|
  {
    hide IsRun;
    hide Good;
    hide LogInv;
    hide BackgroundInv;
    hide EntriesOf;
    RunKeepsInv(cfg, acts, run, i);
  }

  // ---------- what recovery brings back ----------

  lemma DownStepKeepsBatches(cfg: Config, w: World, a: Action)
    requires w.Down? && HistOk(w.hist) && Enabled(cfg, w, a) && Next(cfg, w, a).Down?
    ensures var w' := Next(cfg, w, a);
      w'.hist.batches == w.hist.batches && (w'.hist.torn == w.hist.torn || w'.hist.torn.None?)
  {
    hide AllEncodable;
    hide Encode;
    hide Frame;
    hide CanRecover;
    hide Recovered;
    hide Truncated;
  }

  lemma {:induction false} DownRunKeepsBatches(cfg: Config, acts: seq<Action>, run: seq<World>, i: nat, j: nat)
    requires IsRun(cfg, acts, run) && i <= j < |run| && forall m :: i <= m <= j ==> run[m].Down?
    ensures run[j].hist.batches == run[i].hist.batches
    ensures run[j].hist.torn == run[i].hist.torn || run[j].hist.torn.None?
    decreases j
  {
    hide Next;
    hide Enabled;
    hide HistOk;
    if i < j {
      DownRunKeepsBatches(cfg, acts, run, i, j - 1);
      assert run[(j - 1) + 1] == Next(cfg, run[j - 1], acts[j - 1]);
      DownStepKeepsBatches(cfg, run[j - 1], acts[j - 1]);
    }
  }

  lemma CrashStepKeepsBatches(cfg: Config, w: World, a: Action)
    requires w.Up? && HistOk(w.hist) && Enabled(cfg, w, a) && Next(cfg, w, a).Down?
    ensures Next(cfg, w, a).hist.batches == w.hist.batches && Next(cfg, w, a).hist.torn == w.hist.torn
  {
    hide AllEncodable;
    hide CanWrite;
    hide CanPick;
    hide CanPrepare;
  }

  /** Crash recovery: from the last moment before a crash to the first moment after the
      reopening, however often recovery was itself interrupted, the database keeps all
      acknowledged batches in order, and gains at most the one batch whose write had not
      been acknowledged, whole or not at all. */
  lemma CrashKeepsAcknowledged(cfg: Config, acts: seq<Action>, run: seq<World>, i: nat, j: nat)
    requires IsRun(cfg, acts, run) && i + 1 < j < |run| && run[i].Up? && run[j].Up?
    requires forall m :: i < m < j ==> run[m].Down?
    ensures || run[j].hist.batches == run[i].hist.batches
            || (run[i].hist.torn.Some? && run[j].hist.batches == run[i].hist.batches + [run[i].hist.torn.value.ops])
    ensures run[j].db.last == |Ops(run[j].hist)| && run[j].hist.torn.None?
  {
    hide HistOk;
    hide Enabled;
    hide Next;
    hide Inv;
    hide Flatten;
    assert run[i + 1] == Next(cfg, run[i], acts[i]);
    CrashStepKeepsBatches(cfg, run[i], acts[i]);
    DownRunKeepsBatches(cfg, acts, run, i + 1, j - 1);
    assert run[(j - 1) + 1] == Next(cfg, run[j - 1], acts[j - 1]);
    RecoverStep(cfg, run[j - 1], acts[j - 1]);
    RunKeepsInv(cfg, acts, run, j);
    LastCommitted(cfg, run[j]);
  }

  lemma RecoverStep(cfg: Config, w: World, a: Action)
    requires w.Down? && HistOk(w.hist) && Enabled(cfg, w, a) && Next(cfg, w, a).Up?
    ensures var h, h' := w.hist, Next(cfg, w, a).hist;
      h'.torn.None? && (h'.batches == h.batches || (h.torn.Some? && h'.batches == h.batches + [h.torn.value.ops]))
  {
    hide AllEncodable;
    hide Encode;
    hide Frame;
    hide CanRecover;
    hide Recovered;
    hide Truncated;
  }

  lemma LastCommitted(cfg: Config, w: World)
    requires w.Up? && Inv(cfg, w)
    ensures w.db.last == |Ops(w.hist)|
  {
    hide Good;
    hide LogInv;
    hide BackgroundInv;
    hide EntriesOf;
    hide Flatten;
  }

  /** In every state after a crash, scanning the directory and opening it succeeds. */
  lemma ReopeningAlwaysSucceeds(cfg: Config, acts: seq<Action>, run: seq<World>, i: nat, ns: seq<nat>, top: nat)
    requires IsRun(cfg, acts, run) && i < |run| && run[i].Down? && CanRecover(run[i].disk, ns, top)
    ensures Recovered(run[i].disk, ns, top).Some?
  {
    hide IsRun;
    hide DownInv;
    hide CanRecover;
    hide Recovered;
    RunKeepsInv(cfg, acts, run, i);
    RecoverySucceeds(cfg, run[i].disk, run[i].hist, ns, top);
  }
}
