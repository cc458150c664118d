/** Runs of the engine, with crashes, and the invariant that ties memory, version,
    manifest, tables and WAL bytes to the abstract history. */
module World {
  import opened Bytes
  import opened Entries
  import opened Versions
  import opened Compaction
  import opened CompactionProof
  import opened Wal
  import opened BatchCodec
  import opened History
  import opened Engine
  import opened Manifests

  // ---------- the abstract history and how the WAL files carry it ----------

  function Flatten(bs: seq<seq<Op>>): seq<Op> {
    if bs == [] then [] else Flatten(bs[..|bs| - 1]) + bs[|bs| - 1]
  }

  /** WAL file `number` starts with batch index `start`. */
  datatype WalSpan = WalSpan(number: nat, start: nat)

  /** An unacknowledged batch of which `bytes` bytes reached the last WAL file. */
  datatype Torn = Torn(ops: seq<Op>, bytes: nat)

  /** `batches` are the committed batches; no read below `floor` is owed an answer. */
  datatype Hist = Hist(batches: seq<seq<Op>>, torn: Option<Torn>, floor: nat, spans: seq<WalSpan>)

  datatype World = Up(db: Db, disk: Disk, hist: Hist) | Down(disk: Disk, hist: Hist)

  function Ops(h: Hist): seq<Op> { Flatten(h.batches) }

  predicate AllEncodable(bs: seq<seq<Op>>) {
    forall i :: 0 <= i < |bs| ==> Encode(bs[i], |Flatten(bs[..i])| + 1).Some?
  }

  /** The WAL payloads of batches a .. b-1. */
  function Payloads(bs: seq<seq<Op>>, a: nat, b: nat): (ps: seq<Bytes>)
    requires AllEncodable(bs) && a <= b <= |bs|
    ensures |ps| == b - a && AllWritable(ps)
  {
    seq(b - a, i requires 0 <= i < b - a => Encode(bs[a + i], |Flatten(bs[..a + i])| + 1).value)
  }

  predicate HistOk(h: Hist) {
    && AllEncodable(h.batches)
    && (h.torn.Some? ==>
          && Encode(h.torn.value.ops, |Ops(h)| + 1).Some?
          && h.torn.value.bytes <= |Frame(Encode(h.torn.value.ops, |Ops(h)| + 1).value)|)
    && h.spans != []
    && (forall i, j :: 0 <= i < j < |h.spans| ==>
          h.spans[i].number < h.spans[j].number && h.spans[i].start <= h.spans[j].start)
    && (forall i :: 0 <= i < |h.spans| ==> h.spans[i].start <= |h.batches|)
  }

  function SpanEnd(h: Hist, i: nat): nat {
    if i + 1 < |h.spans| then h.spans[i + 1].start else |h.batches|
  }

  function TornBytes(h: Hist): Bytes
    requires HistOk(h)
  {
    if h.torn.None? then []
    else Frame(Encode(h.torn.value.ops, |Ops(h)| + 1).value)[..h.torn.value.bytes]
  }

  /** The exact contents of the `i`-th live WAL file. */
  function SpanBytes(h: Hist, i: nat): Bytes
    requires HistOk(h) && i < |h.spans|
  {
    Log(Payloads(h.batches, h.spans[i].start, SpanEnd(h, i)))
    + (if i + 1 == |h.spans| then TornBytes(h) else [])
  }

  ghost predicate SpansStored(wals: map<nat, Bytes>, h: Hist)
    requires HistOk(h)
  {
    forall i :: 0 <= i < |h.spans| ==> h.spans[i].number in wals && wals[h.spans[i].number] == SpanBytes(h, i)
  }

  ghost predicate IsSpan(spans: seq<WalSpan>, n: nat) { exists i :: 0 <= i < |spans| && spans[i].number == n }

  ghost predicate OnlySpans(wals: map<nat, Bytes>, oldest: nat, spans: seq<WalSpan>) {
    forall n :: n in wals && oldest <= n ==> IsSpan(spans, n)
  }

  /** The live WALs continue `flushed` without a gap. */
  ghost predicate WalInv(disk: Disk, h: Hist) {
    && HistOk(h)
    && Published(disk.manifest) && 0 < disk.manifest.oldestWal == h.spans[0].number
    && |Flatten(h.batches[..h.spans[0].start])| == disk.manifest.flushed
    && SpansStored(disk.wals, h) && OnlySpans(disk.wals, disk.manifest.oldestWal, h.spans)
  }

  // ---------- tables on disk ----------

  /** The file numbers of a run of tables, with multiplicity. */
  ghost function Numbers(ts: seq<Table>): multiset<nat> {
    if ts == [] then multiset{} else multiset{ts[0].meta.number} + Numbers(ts[1..])
  }

  ghost function NumbersOf(v: Version): multiset<nat>
    requires |v.levels| == NUM_LEVELS
  {
    Numbers(v.levels[0]) + Numbers(v.levels[1]) + Numbers(v.levels[2])
  }

  ghost predicate NoRepeats(b: multiset<nat>) { forall n :: n in b ==> b[n] == 1 }

  ghost predicate BackedTables(ssts: map<nat, SstFile>, ts: seq<Table>) {
    forall i :: 0 <= i < |ts| ==>
      ts[i].meta.number in ssts && ssts[ts[i].meta.number] == SstFile(ts[i].meta.size, ts[i].entries)
  }

  ghost predicate Backed(ssts: map<nat, SstFile>, v: Version) {
    forall l :: 0 <= l < |v.levels| ==> BackedTables(ssts, v.levels[l])
  }

  /** Published tables have a number and a size. */
  predicate Stamped(ts: seq<Table>) {
    forall i :: 0 <= i < |ts| ==> 0 < ts[i].meta.number < TWO_64 && 0 < ts[i].meta.size < TWO_64
  }

  predicate AllStamped(v: Version) { forall l :: 0 <= l < |v.levels| ==> Stamped(v.levels[l]) }

  /** The version answers every read from `floor` on like the first `flushed` operations. */
  ghost predicate Answers(v: Version, ops: seq<Op>, flushed: nat, floor: nat)
    requires |v.levels| == NUM_LEVELS && flushed <= |ops|
  {
    forall k, s :: floor <= s ==> Observed(Get(v, k, s)) == Read(ops[..flushed], k, s)
  }

  /** A manifest, the version it describes and the files behind it, as one store. */
  ghost predicate Good(m: Manifest, v: Version, ssts: map<nat, SstFile>, ops: seq<Op>, floor: nat) {
    && |v.levels| == NUM_LEVELS && VersionOk(v) && m.levels == MetasOf(v) && Backed(ssts, v) && NoRepeats(NumbersOf(v)) && AllStamped(v)
    && m.flushed <= |ops| && Contents(v) <= EntriesOf(ops, 0, m.flushed)
    && Answers(v, ops, m.flushed, floor)
  }

  // ---------- the invariant of a running database ----------

  ghost predicate MemInv(db: Db, ops: seq<Op>) {
    var lo := if db.imm.Some? then db.imm.value.last else db.manifest.flushed;
    && db.manifest.flushed <= lo <= db.last == |ops|
    && Sorted(db.mem) && SetOf(db.mem) == EntriesOf(ops, lo, db.last)
    && (db.imm.Some? ==>
          && db.imm.value.entries != [] && Sorted(db.imm.value.entries)
          && SetOf(db.imm.value.entries) == EntriesOf(ops, db.manifest.flushed, lo))
  }

  ghost predicate SnapshotInv(db: Db, floor: nat) {
    floor <= db.last && forall s :: s in db.snapshots ==> floor <= s <= db.last
  }

  /** Numbers that belong to nothing published yet. */
  ghost predicate Unused(n: nat, v: Version, nextFile: nat)
    requires |v.levels| == NUM_LEVELS
  {
    0 < n < nextFile && n !in NumbersOf(v)
  }

  ghost predicate FileInv(db: Db, disk: Disk) {
    && |db.version.levels| == NUM_LEVELS
    && 0 < db.nextFile <= MAX_FILE_NUMBER
    && (forall n :: n in disk.wals ==> n < db.nextFile)
    && (forall n :: n in disk.ssts ==> n < db.nextFile)
    && (db.imm.Some? ==> 0 < db.imm.value.tableNumber < db.nextFile)
  }

  ghost predicate LogInv(cfg: Config, db: Db, disk: Disk, h: Hist) {
    && WalInv(disk, h)
    && h.spans[|h.spans| - 1].number == db.wal
    && db.walFailed == h.torn.Some?
    && (db.walFailed ==> HasRoom(cfg, db))
    && (db.imm.Some? ==> |Flatten(h.batches[..h.spans[|h.spans| - 1].start])| == db.imm.value.last)
  }

  /** A compaction in progress: its inputs, and the outputs finished so far. */
  ghost predicate CompactInv(cfg: Config, db: Db, disk: Disk, m: seq<Entry>)
    requires db.bg.Compacting? && |db.version.levels| == NUM_LEVELS
  {
    var p, files, done := db.bg.plan, db.bg.files, db.bg.done;
    && PlanOk(db.version, p) && IsMerge(db.version, p, m)
    && files == Split(Retained(db.version, p, m), cfg.atTarget)
    && |done| <= |files| && TablesFor(files[..|done|], done) && BackedTables(disk.ssts, done) && Stamped(done)
    && NoRepeats(Numbers(done))
    && (forall n :: n in Numbers(done) ==> Unused(n, db.version, db.nextFile))
    && (db.bg.open.Some? ==> |done| < |files| && Unused(db.bg.open.value, db.version, db.nextFile)
                             && db.bg.open.value !in Numbers(done))
    && (db.imm.Some? ==> db.imm.value.tableNumber !in Numbers(done)
                         && (db.bg.open.Some? ==> db.bg.open.value != db.imm.value.tableNumber))
    && p.oldest <= db.last && p.oldest < MAX_SEQUENCE && forall s :: s in db.snapshots ==> p.oldest <= s
  }

  /** A candidate about to be, or just, published. */
  ghost predicate CandidateInv(db: Db, disk: Disk, isFlush: bool, c: Manifest, next: Version, ops: seq<Op>, floor: nat) {
    && Good(c, next, disk.ssts, ops, floor)
    && (if isFlush then db.imm.Some? && c.flushed == db.imm.value.last && c.oldestWal == db.wal
        else c.flushed == db.manifest.flushed && c.oldestWal == db.manifest.oldestWal
             && (db.imm.Some? ==> db.imm.value.tableNumber !in NumbersOf(next)))
  }

  ghost predicate BackgroundInv(cfg: Config, db: Db, disk: Disk, ops: seq<Op>, floor: nat)
    requires |db.version.levels| == NUM_LEVELS
  {
    match db.bg
    case Idle => disk.manifest == db.manifest
    case Stopped => disk.manifest == db.manifest
    case Compacting(_, _, _, _) => disk.manifest == db.manifest && exists m :: CompactInv(cfg, db, disk, m)
    case Ready(f, c, next) => disk.manifest == db.manifest && CandidateInv(db, disk, f, c, next, ops, floor)
    case Committed(f, c, next) => disk.manifest == c && CandidateInv(db, disk, f, c, next, ops, floor)
  }

  ghost predicate UpInv(cfg: Config, db: Db, disk: Disk, h: Hist) {
    && FileInv(db, disk)
    && MemInv(db, Ops(h))
    && SnapshotInv(db, h.floor)
    && LogInv(cfg, db, disk, h)
    && Good(db.manifest, db.version, disk.ssts, Ops(h), h.floor)
    && (db.imm.Some? ==> db.imm.value.tableNumber !in NumbersOf(db.version))
    && BackgroundInv(cfg, db, disk, Ops(h), h.floor)
  }

  /** After a crash: some version is described by the manifest and backed by files. */
  ghost predicate DownInv(disk: Disk, h: Hist) {
    && WalInv(disk, h)
    && h.floor <= |Ops(h)|
    && (forall n :: n in disk.wals ==> n < MAX_FILE_NUMBER)
    && (forall n :: n in disk.ssts ==> n < MAX_FILE_NUMBER)
    && exists v :: Good(disk.manifest, v, disk.ssts, Ops(h), h.floor)
  }

  ghost predicate Inv(cfg: Config, w: World) {
    match w
    case Up(db, disk, h) => UpInv(cfg, db, disk, h)
    case Down(disk, h) => DownInv(disk, h)
  }

  // ---------- actions ----------

  datatype Action =
    | Write(ops: seq<Op>)
    | WriteFails(ops: seq<Op>, bytes: nat)
    | Rotate
    | TakeSnapshot
    | ReleaseSnapshot(s: nat)
    | Flush(size: nat)
    | PickCompaction(oldest: nat, m: seq<Entry>)
    | OpenOutput
    | FinishOutput(size: nat)
    | PrepareCompaction
    | Commit
    | Publish
    | BackgroundFails
    | RemoveWal(n: nat)
    | RemoveSst(n: nat)
    | Crash
    | CrashInRotate
    | CutTail(n: nat)
    | Recover(ns: seq<nat>, top: nat)

  ghost predicate Enabled(cfg: Config, w: World, a: Action) {
    match w
    case Up(db, disk, _) => EnabledUp(cfg, db, disk, a)
    case Down(disk, _) => EnabledDown(disk, a)
  }

  ghost predicate EnabledUp(cfg: Config, db: Db, disk: Disk, a: Action) {
    match a
    case Write(ops) => CanWrite(cfg, db, disk, ops)
    case WriteFails(ops, n) => CanWrite(cfg, db, disk, ops) && n <= |WalRecord(db, ops)|
    case Rotate => CanRotate(cfg, db)
    case TakeSnapshot => true
    case ReleaseSnapshot(s) => s in db.snapshots
    case Flush(size) => CanFlush(db, size)
    case PickCompaction(oldest, m) => CanPick(db, oldest, m)
    case OpenOutput => CanOpenOutput(db)
    case FinishOutput(size) => CanFinishOutput(db, size)
    case PrepareCompaction => CanPrepare(db)
    case Commit => db.bg.Ready? && Published(db.bg.candidate)
    case Publish => db.bg.Committed?
    case BackgroundFails => !db.bg.Committed?
    case RemoveWal(n) => (db.bg.Idle? || db.bg.Stopped?) && n < disk.manifest.oldestWal
    case RemoveSst(n) => (db.bg.Idle? || db.bg.Stopped?) && !IsLive(disk.manifest, n)
    case Crash => true
    case CrashInRotate => CanRotate(cfg, db)
    case CutTail(_) => false
    case Recover(_, _) => false
  }

  ghost predicate EnabledDown(disk: Disk, a: Action) {
    match a
    case RemoveWal(n) => n < disk.manifest.oldestWal
    case RemoveSst(n) => !IsLive(disk.manifest, n)
    case CutTail(n) => n in disk.wals && disk.manifest.oldestWal <= n
    case Recover(ns, top) => CanRecover(disk, ns, top) && Recovered(disk, ns, top).Some?
    case _ => false
  }

  /** `ns` and `top` are what scanning the directory finds. */
  ghost predicate CanRecover(disk: Disk, ns: seq<nat>, top: nat) {
    && |disk.manifest.levels| == NUM_LEVELS
    && LiveWals(disk.wals, disk.manifest.oldestWal, ns)
    && (forall n :: n in disk.wals || n in disk.ssts ==> n <= top)
    && (top in disk.wals || top in disk.ssts || top == 0)
  }

  /** Did the whole unacknowledged record reach the file? */
  predicate TornIsWhole(h: Hist)
    requires HistOk(h)
  {
    h.torn.Some? && h.torn.value.bytes == |Frame(Encode(h.torn.value.ops, |Ops(h)| + 1).value)|
  }

  /** What recovery finds: the committed batches, and the unacknowledged one when all of
      its record is there. */
  function RecoveredHist(h: Hist): Hist
    requires HistOk(h)
  {
    h.(torn := None, batches := if TornIsWhole(h) then h.batches + [h.torn.value.ops] else h.batches)
  }

  function AddSpan(db: Db, h: Hist): Hist {
    h.(spans := h.spans + [WalSpan(db.nextFile + 1, |h.batches|)])
  }

  ghost function NextUp(cfg: Config, db: Db, disk: Disk, h: Hist, a: Action): World
    requires h.spans != [] && EnabledUp(cfg, db, disk, a)
  {
    match a
    case Write(ops) =>
      Up(WriteDb(db, ops), AppendToWal(db, disk, WalRecord(db, ops)), h.(batches := h.batches + [ops]))
    case WriteFails(ops, n) =>
      Up(db.(walFailed := true), AppendToWal(db, disk, FirstBytes(WalRecord(db, ops), n)), h.(torn := Some(Torn(ops, n))))
    case Rotate => Up(RotateDb(db), RotateDisk(db, disk), AddSpan(db, h))
    case TakeSnapshot => Up(db.(snapshots := db.snapshots + multiset{db.last}), disk, h)
    case ReleaseSnapshot(s) => Up(db.(snapshots := db.snapshots - multiset{s}), disk, h)
    case Flush(size) => Up(FlushDb(db, size), FlushDisk(db, disk, size), h)
    case PickCompaction(oldest, m) => Up(PickDb(cfg, db, oldest, m), disk, h)
    case OpenOutput => Up(OpenOutputDb(db), disk, h)
    case FinishOutput(size) => Up(FinishOutputDb(db, size), FinishOutputDisk(db, disk, size), h)
    case PrepareCompaction =>
      Up(PrepareDb(db), disk, h.(floor := if h.floor < db.bg.plan.oldest then db.bg.plan.oldest else h.floor))
    case Commit =>
      Up(CommitDb(db), CommitDisk(db, disk),
         if db.bg.isFlush then h.(spans := [h.spans[|h.spans| - 1]]) else h)
    case Publish => Up(PublishDb(db), disk, h)
    case BackgroundFails => Up(db.(bg := Stopped), disk, h)
    case RemoveWal(n) => Up(db, DeleteWal(disk, n), h)
    case RemoveSst(n) => Up(db, DeleteSst(disk, n), h)
    case CrashInRotate => Down(RotateDisk(db, disk), AddSpan(db, h))
    case _ => Down(disk, h)
  }

  ghost function NextDown(disk: Disk, h: Hist, a: Action): World
    requires HistOk(h) && EnabledDown(disk, a)
  {
    match a
    case RemoveWal(n) => Down(DeleteWal(disk, n), h)
    case RemoveSst(n) => Down(DeleteSst(disk, n), h)
    case CutTail(n) =>
      Down(disk.(wals := disk.wals[n := Truncated(disk.wals[n])]),
           if n == h.spans[|h.spans| - 1].number && !TornIsWhole(h) then h.(torn := None) else h)
    case Recover(ns, top) => Up(Recovered(disk, ns, top).value, TruncateWals(disk, ns), RecoveredHist(h))
    case _ => Down(disk, h)
  }

  ghost function Next(cfg: Config, w: World, a: Action): World
    requires HistOk(w.hist) && Enabled(cfg, w, a)
  {
    match w
    case Up(db, disk, h) => NextUp(cfg, db, disk, h, a)
    case Down(disk, h) => NextDown(disk, h, a)
  }
}
