/** The main results about the engine, over every run of every length. */
module WorldTheorems {
  import opened Bytes
  import opened Entries
  import opened Versions
  import opened Wal
  import opened BatchCodec
  import opened History
  import opened Engine
  import opened World
  import opened WorldWal
  import opened WorldReplay
  import opened WorldStore
  import opened WorldCompact
  import opened WorldSteps

  // ---------- after a crash ----------

  lemma CrashInRotateIsDown(cfg: Config, db: Db, disk: Disk, h: Hist)
    requires CanRotate(cfg, db)
    requires UpInv(cfg, db, disk, h)
    ensures DownInv(RotateDisk(db, disk), AddSpan(db, h))
  {
    hide UpInv;
    StepRotate(cfg, db, disk, h);
    StepCrash(cfg, RotateDb(db), RotateDisk(db, disk), AddSpan(db, h));
  }

  lemma DownRemoveWal(disk: Disk, h: Hist, n: nat)
    requires DownInv(disk, h) && n < disk.manifest.oldestWal
    ensures DownInv(DeleteWal(disk, n), h)
  {
    hide WalInv;
    hide Good;
    hide Flatten;
    RemoveWalKeepsWal(disk, h, n);
    var v :| Good(disk.manifest, v, disk.ssts, Ops(h), h.floor);
    assert Good(DeleteWal(disk, n).manifest, v, DeleteWal(disk, n).ssts, Ops(h), h.floor);
  }

  lemma DownRemoveSst(disk: Disk, h: Hist, n: nat)
    requires DownInv(disk, h) && !IsLive(disk.manifest, n)
    ensures DownInv(DeleteSst(disk, n), h)
  {
    hide WalInv;
    hide Good;
    hide Flatten;
    WalFrame(disk, h, DeleteSst(disk, n), h);
    var v :| Good(disk.manifest, v, disk.ssts, Ops(h), h.floor);
    DeadFile(disk.manifest, v, disk.ssts, Ops(h), h.floor, n);
    assert Good(disk.manifest, v, DeleteSst(disk, n).ssts, Ops(h), h.floor);
  }

  lemma DownCutTail(disk: Disk, h: Hist, n: nat, h': Hist)
    requires HistOk(h) && n in disk.wals && disk.manifest.oldestWal <= n
    requires h' == if n == h.spans[|h.spans| - 1].number && !TornIsWhole(h) then h.(torn := None) else h
    requires DownInv(disk, h)
    ensures DownInv(disk.(wals := disk.wals[n := Truncated(disk.wals[n])]), h')
  {
    hide WalInv;
    hide Good;
    hide Flatten;
    hide Truncated;
    hide TornIsWhole;
    hide AllEncodable;
    hide Encode;
    CutTailKeepsWal(disk, h, n, h');
    var disk' := disk.(wals := disk.wals[n := Truncated(disk.wals[n])]);
    var v :| Good(disk.manifest, v, disk.ssts, Ops(h), h.floor);
    assert Good(disk'.manifest, v, disk'.ssts, Ops(h'), h'.floor);
  }

  /** The parts of recovery, each on a directory a crash can leave. */
  lemma RecoveryParts(disk: Disk, h: Hist, ns: seq<nat>, top: nat, v: Version)
    returns (mem: seq<Entry>)
    requires DownInv(disk, h) && CanRecover(disk, ns, top)
    requires Good(disk.manifest, v, disk.ssts, Ops(h), h.floor)
    ensures ns == SpanNumbers(h) && top < MAX_FILE_NUMBER
    ensures Holds(mem, Ops(RecoveredHist(h)), disk.manifest.flushed)
    ensures Recovered(disk, ns, top) ==
      Some(Db(mem, None, ns[|ns| - 1], false, top + 1, disk.manifest, v, |Ops(RecoveredHist(h))|, multiset{}, Idle))
  {
    hide SpanBytes;
    hide Flatten;
    hide Answers;
    hide VersionOk;
    hide Holds;
    hide ReplayFiles;
    hide OpenVersion;
    hide AllEncodable;
    hide Encode;
    hide Frame;
    hide RecoveredHist;
    LiveWalsAreSpans(disk, h, ns);
    OpenBackedVersion(disk.ssts, v);
    HoldsNothing(Flatten(h.batches[..h.spans[0].start]));
    mem := ReplaySpans(disk.wals, h, 0, disk.manifest.flushed, []);
    assert SpanNumbers(h)[0..] == SpanNumbers(h);
  }

  lemma HoldsNothing(ops: seq<Op>)
    ensures Holds([], ops, |ops|)
  {
    EmptyRun();
    assert EntriesOf(ops, |ops|, |ops|) == {};
  }

  lemma RecoveredGood(disk: Disk, h: Hist, v: Version)
    requires HistOk(h) && h.floor <= |Ops(h)| && Good(disk.manifest, v, disk.ssts, Ops(h), h.floor)
    ensures Good(disk.manifest, v, disk.ssts, Ops(RecoveredHist(h)), RecoveredHist(h).floor)
    ensures h.floor <= |Ops(RecoveredHist(h))|
  {
    hide Good;
    hide Flatten;
    hide Encode;
    hide Frame;
    if TornIsWhole(h) {
      FlattenAppend(h.batches, h.torn.value.ops);
      GoodWithMoreOps(disk.manifest, v, disk.ssts, Ops(h), h.torn.value.ops, h.floor);
    }
  }

  /** Recovery never reports corruption: whatever a crash left, opening succeeds, and
      the recovered state again satisfies the whole invariant. */
  lemma RecoverySucceeds(cfg: Config, disk: Disk, h: Hist, ns: seq<nat>, top: nat)
    requires DownInv(disk, h) && CanRecover(disk, ns, top)
    ensures Recovered(disk, ns, top).Some?
    ensures UpInv(cfg, Recovered(disk, ns, top).value, TruncateWals(disk, ns), RecoveredHist(h))
  {
    hide Good;
    hide Flatten;
    hide Recovered;
    hide SpanBytes;
    hide EntriesOf;
    hide Sorted;
    hide Truncated;
    hide TornIsWhole;
    hide AllEncodable;
    hide Encode;
    hide Frame;
    var v :| Good(disk.manifest, v, disk.ssts, Ops(h), h.floor);
    var mem := RecoveryParts(disk, h, ns, top, v);
    RecoveredGood(disk, h, v);
    TruncateKeepsWal(disk, h, ns);
    hide RecoveredHist;
    hide WalInv;
    RecoveredUp(cfg, disk, h, ns, top, mem, v);
  }

  lemma RecoveredUp(cfg: Config, disk: Disk, h: Hist, ns: seq<nat>, top: nat, mem: seq<Entry>, v: Version)
    requires HistOk(h) && ns == SpanNumbers(h) && top < MAX_FILE_NUMBER && CanRecover(disk, ns, top)
    requires Holds(mem, Ops(RecoveredHist(h)), disk.manifest.flushed)
    requires Good(disk.manifest, v, disk.ssts, Ops(RecoveredHist(h)), RecoveredHist(h).floor)
    requires h.floor <= |Ops(RecoveredHist(h))|
    requires WalInv(TruncateWals(disk, ns), RecoveredHist(h))
    ensures UpInv(cfg, Db(mem, None, ns[|ns| - 1], false, top + 1, disk.manifest, v, |Ops(RecoveredHist(h))|, multiset{}, Idle),
                  TruncateWals(disk, ns), RecoveredHist(h))
  {
    hide Good;
    hide Flatten;
    hide WalInv;
    hide EntriesOf;
    hide Sorted;
    hide Truncated;
    hide TornIsWhole;
    hide VersionOk;
    hide AllEncodable;
    GoodParts(disk.manifest, v, disk.ssts, Ops(RecoveredHist(h)), RecoveredHist(h).floor);
  }
}
