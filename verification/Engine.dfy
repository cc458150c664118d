/** `DBImpl` and its directory as a transition system. Each action is one critical
    section of the code, or one visible effect on the directory between two of them,
    so that writers, the background thread and a crash can interleave freely. */
module Engine {
  import opened Bytes
  import opened Entries
  import opened Versions
  import opened Compaction
  import opened CompactionProof
  import opened Wal
  import opened BatchCodec
  import opened History
  import opened Manifests

  const MAX_FILE_NUMBER: nat := TWO_64 - 1

  datatype SstFile = SstFile(size: nat, entries: seq<Entry>)

  /** What survives the process: the published manifest, the WAL bytes, the tables. The
      manifest and the tables are held decoded; `Directories` ties them to their bytes. */
  datatype Disk = Disk(manifest: Manifest, wals: map<nat, Bytes>, ssts: map<nat, SstFile>)

  datatype Immutable = Immutable(entries: seq<Entry>, tableNumber: nat, last: nat)

  /** Where the background thread is. `Ready`: candidate state built, manifest not yet
      renamed. `Committed`: manifest renamed, memory not yet switched. */
  datatype Background =
    | Idle
    | Compacting(plan: Plan, files: seq<seq<Entry>>, done: seq<Table>, open: Option<nat>)
    | Ready(isFlush: bool, candidate: Manifest, next: Version)
    | Committed(isFlush: bool, candidate: Manifest, next: Version)
    | Stopped

  datatype Db = Db(
    mem: seq<Entry>, imm: Option<Immutable>,
    wal: nat, walFailed: bool, nextFile: nat,
    manifest: Manifest, version: Version,
    last: nat, snapshots: multiset<nat>, bg: Background)

  /** `usage` is what the arena of a MemTable with these entries occupies. */
  datatype Config = Config(usage: seq<Entry> -> nat, bufferSize: nat, atTarget: seq<Entry> -> bool)

  predicate HasRoom(cfg: Config, db: Db) {
    db.mem == [] || cfg.usage(db.mem) < cfg.bufferSize
  }

  // ---------- reads ----------

  /** `DBImpl::get`: mutable, immutable, then the version; first answer wins. */
  function DbGet(db: Db, k: Bytes, s: nat): Option<Entry>
    requires |db.version.levels| == NUM_LEVELS
  {
    var r := Lookup(db.mem, k, s);
    if r.Some? then r
    else
      var r' := if db.imm.Some? then Lookup(db.imm.value.entries, k, s) else None;
      if r'.Some? then r' else Get(db.version, k, s)
  }

  // ---------- writes ----------

  predicate CanWrite(cfg: Config, db: Db, disk: Disk, ops: seq<Op>) {
    && !db.bg.Stopped? && !db.walFailed && HasRoom(cfg, db)
    && Encode(ops, db.last + 1).Some? && db.wal in disk.wals
  }

  function WalRecord(db: Db, ops: seq<Op>): Bytes
    requires Encode(ops, db.last + 1).Some?
  {
    Frame(Encode(ops, db.last + 1).value)
  }

  /** The part of a record that reached the file before the write stopped. */
  function FirstBytes(record: Bytes, n: nat): Bytes { if n <= |record| then record[..n] else record }

  function AppendToWal(db: Db, disk: Disk, bytes: Bytes): Disk
    requires db.wal in disk.wals
  {
    disk.(wals := disk.wals[db.wal := disk.wals[db.wal] + bytes])
  }

  function WriteDb(db: Db, ops: seq<Op>): Db {
    db.(mem := ApplyBatch(db.mem, ops, db.last + 1), last := db.last + |ops|)
  }

  // ---------- rotation ----------

  predicate CanRotate(cfg: Config, db: Db) {
    !db.bg.Stopped? && !HasRoom(cfg, db) && db.imm.None? && db.nextFile <= MAX_FILE_NUMBER - 2
  }

  function RotateDb(db: Db): Db {
    db.(mem := [], imm := Some(Immutable(db.mem, db.nextFile, db.last)),
        wal := db.nextFile + 1, walFailed := false, nextFile := db.nextFile + 2)
  }

  function RotateDisk(db: Db, disk: Disk): Disk {
    disk.(wals := disk.wals[db.nextFile + 1 := []])
  }

  // ---------- snapshots ----------

  /** `SnapshotTracker::oldest`: the smallest live snapshot, or the fallback. */
  ghost predicate IsOldest(snapshots: multiset<nat>, fallback: nat, r: nat) {
    if snapshots == multiset{} then r == fallback
    else r in snapshots && forall s :: s in snapshots ==> r <= s
  }

  // ---------- flush ----------

  function Metas(ts: seq<Table>): seq<TableMeta> { seq(|ts|, i requires 0 <= i < |ts| => ts[i].meta) }

  function MetasOf(v: Version): seq<seq<TableMeta>> {
    seq(|v.levels|, i requires 0 <= i < |v.levels| => Metas(v.levels[i]))
  }

  function MakeTable(number: nat, size: nat, entries: seq<Entry>): Table
    requires entries != []
  {
    Table(TableMeta(number, size, KeyOf(entries[0]), KeyOf(entries[|entries| - 1])), entries)
  }

  /** `Version::withLevel0Table`. */
  function WithLevel0Table(v: Version, t: Table): Version
    requires |v.levels| == NUM_LEVELS
  {
    Version(v.levels[0 := [t] + v.levels[0]])
  }

  /** There is something to flush. */
  predicate FlushReady(db: Db) {
    && db.bg.Idle? && db.imm.Some? && db.imm.value.entries != []
    && |db.version.levels| == |db.manifest.levels| == NUM_LEVELS
  }

  /** ... and it made a file of `size` bytes. */
  predicate CanFlush(db: Db, size: nat) { FlushReady(db) && 0 < size < TWO_64 }

  function FlushedTable(db: Db, size: nat): Table
    requires CanFlush(db, size)
  {
    MakeTable(db.imm.value.tableNumber, size, db.imm.value.entries)
  }

  function FlushDisk(db: Db, disk: Disk, size: nat): Disk
    requires CanFlush(db, size)
  {
    disk.(ssts := disk.ssts[db.imm.value.tableNumber := SstFile(size, db.imm.value.entries)])
  }

  /** The manifest is spliced on its own copy of the metadata, not derived from the
      new version. */
  function FlushDb(db: Db, size: nat): Db
    requires CanFlush(db, size)
  {
    var t := FlushedTable(db, size);
    var levels := db.manifest.levels;
    db.(bg := Ready(true,
                    Manifest(db.imm.value.last, db.wal, levels[0 := [t.meta] + levels[0]]),
                    WithLevel0Table(db.version, t)))
  }

  // ---------- compaction ----------

  ghost predicate CanPick(db: Db, oldest: nat, m: seq<Entry>) {
    && db.bg.Idle? && |db.version.levels| == NUM_LEVELS && IsOldest(db.snapshots, db.last, oldest)
    && Pick(db.version, oldest, LEVEL1_BYTES).Some?
    && var p := Pick(db.version, oldest, LEVEL1_BYTES).value;
       PlanInBounds(db.version, p) && IsMerge(db.version, p, m)
  }

  function PickDb(cfg: Config, db: Db, oldest: nat, m: seq<Entry>): Db
    requires |db.version.levels| == NUM_LEVELS && Pick(db.version, oldest, LEVEL1_BYTES).Some?
  {
    var p := Pick(db.version, oldest, LEVEL1_BYTES).value;
    db.(bg := Compacting(p, Split(Retained(db.version, p, m), cfg.atTarget), [], None))
  }

  predicate CanOpenOutput(db: Db) {
    && db.bg.Compacting? && db.bg.open.None? && |db.bg.done| < |db.bg.files|
    && db.nextFile < MAX_FILE_NUMBER
  }

  function OpenOutputDb(db: Db): Db
    requires CanOpenOutput(db)
  {
    db.(bg := db.bg.(open := Some(db.nextFile)), nextFile := db.nextFile + 1)
  }

  predicate OutputReady(db: Db) {
    && db.bg.Compacting? && db.bg.open.Some?
    && |db.bg.done| < |db.bg.files| && db.bg.files[|db.bg.done|] != []
  }

  predicate CanFinishOutput(db: Db, size: nat) { OutputReady(db) && 0 < size < TWO_64 }

  function FinishOutputDb(db: Db, size: nat): Db
    requires CanFinishOutput(db, size)
  {
    var t := MakeTable(db.bg.open.value, size, db.bg.files[|db.bg.done|]);
    db.(bg := db.bg.(open := None, done := db.bg.done + [t]))
  }

  function FinishOutputDisk(db: Db, disk: Disk, size: nat): Disk
    requires CanFinishOutput(db, size)
  {
    disk.(ssts := disk.ssts[db.bg.open.value := SstFile(size, db.bg.files[|db.bg.done|])])
  }

  predicate CanPrepare(db: Db) {
    && db.bg.Compacting? && db.bg.open.None? && |db.bg.done| == |db.bg.files|
    && PlanInBounds(db.version, db.bg.plan)
    && |db.manifest.levels| == NUM_LEVELS
    && db.bg.plan.inEnd <= |db.manifest.levels[db.bg.plan.level]|
    && db.bg.plan.ovEnd <= |db.manifest.levels[db.bg.plan.level + 1]|
  }

  /** The manifest copy is spliced by the same ranges as the version. */
  function SpliceManifest(levels: seq<seq<TableMeta>>, p: Plan, outs: seq<TableMeta>): seq<seq<TableMeta>>
    requires |levels| == NUM_LEVELS && p.level < 2
    requires p.inBegin <= p.inEnd <= |levels[p.level]| && p.ovBegin <= p.ovEnd <= |levels[p.level + 1]|
  {
    var source, target := levels[p.level], levels[p.level + 1];
    levels[p.level := source[..p.inBegin] + source[p.inEnd..]]
          [p.level + 1 := target[..p.ovBegin] + outs + target[p.ovEnd..]]
  }

  function PrepareDb(db: Db): Db
    requires CanPrepare(db)
  {
    var p, outs := db.bg.plan, db.bg.done;
    db.(bg := Ready(false,
                    db.manifest.(levels := SpliceManifest(db.manifest.levels, p, Metas(outs))),
                    WithCompaction(db.version, p, outs)))
  }

  // ---------- publishing ----------

  function CommitDb(db: Db): Db
    requires db.bg.Ready?
  {
    db.(bg := Committed(db.bg.isFlush, db.bg.candidate, db.bg.next))
  }

  function CommitDisk(db: Db, disk: Disk): Disk
    requires db.bg.Ready?
  {
    disk.(manifest := db.bg.candidate)
  }

  function PublishDb(db: Db): Db
    requires db.bg.Committed?
  {
    db.(manifest := db.bg.candidate, version := db.bg.next,
        imm := if db.bg.isFlush then None else db.imm, bg := Idle)
  }

  // ---------- deletions ----------

  predicate IsLive(m: Manifest, n: nat) {
    exists l, i :: 0 <= l < |m.levels| && 0 <= i < |m.levels[l]| && m.levels[l][i].number == n
  }

  function DeleteWal(disk: Disk, n: nat): Disk { disk.(wals := disk.wals - {n}) }

  function DeleteSst(disk: Disk, n: nat): Disk { disk.(ssts := disk.ssts - {n}) }

  // ---------- recovery ----------

  /** Replay decoded records on top of (`last`, `mem`); `None` is reported corruption. */
  function ReplayRecords(records: seq<Bytes>, last: nat, mem: seq<Entry>): Option<(nat, seq<Entry>)>
    decreases |records|
  {
    if records == [] then Some((last, mem))
    else
      match Decode(records[0])
      case None => None
      case Some((first, ops)) =>
        if first != last + 1 then None
        else ReplayRecords(records[1..], last + |ops|, ApplyBatch(mem, ops, first))
  }

  function ReplayFile(file: Bytes, last: nat, mem: seq<Entry>): Option<(nat, seq<Entry>)> {
    var r := ReadAll(file);
    match ReplayRecords(r.records, last, mem)
    case None => None
    case Some(s) => if r.corrupt then None else Some(s)
  }

  /** The WAL files `numbers`, in order. */
  function ReplayFiles(wals: map<nat, Bytes>, numbers: seq<nat>, last: nat, mem: seq<Entry>): Option<(nat, seq<Entry>)>
    requires forall i :: 0 <= i < |numbers| ==> numbers[i] in wals
    decreases |numbers|
  {
    if numbers == [] then Some((last, mem))
    else
      match ReplayFile(wals[numbers[0]], last, mem)
      case None => None
      case Some((last', mem')) => ReplayFiles(wals, numbers[1..], last', mem')
  }

  /** A WAL file with one damaged record never replays, however sound the rest of it is. */
  lemma DamagedFileFails(ps: seq<Bytes>, p: Bytes, bad: Bytes, tail: Bytes, last: nat, mem: seq<Entry>)
    requires AllWritable(ps) && Writable(p) && Damaged(p, bad)
    ensures ReplayFile(Log(ps) + bad + tail, last, mem) == None
  {
    hide ReplayRecords;
    hide ReadAll;
    hide Damaged;
    DamagedLogReplays(ps, p, bad, tail);
  }

  /** One file that cannot be replayed in any state makes the whole replay fail. */
  lemma {:induction false} OneBadFileFails(wals: map<nat, Bytes>, ns: seq<nat>, k: nat, last: nat, mem: seq<Entry>)
    requires k < |ns| && forall i :: 0 <= i < |ns| ==> ns[i] in wals
    requires forall l: nat, m: seq<Entry> :: ReplayFile(wals[ns[k]], l, m) == None
    ensures ReplayFiles(wals, ns, last, mem) == None
  {
    hide ReplayFile;
    if k > 0 {
      match ReplayFile(wals[ns[0]], last, mem)
      case None =>
      case Some((last', mem')) => OneBadFileFails(wals, ns[1..], k - 1, last', mem');
    }
  }

  predicate Ascending(ns: seq<nat>) { forall i, j :: 0 <= i < j < |ns| ==> ns[i] < ns[j] }

  /** `ns` are the directory's WAL numbers from `oldest` on, sorted. */
  ghost predicate LiveWals(wals: map<nat, Bytes>, oldest: nat, ns: seq<nat>) {
    && Ascending(ns)
    && (forall i :: 0 <= i < |ns| ==> ns[i] in wals && oldest <= ns[i])
    && (forall n :: n in wals && oldest <= n ==> n in ns)
  }

  /** Opening one table checks that the file exists and has the recorded size. */
  function OpenTables(ssts: map<nat, SstFile>, metas: seq<TableMeta>): Option<seq<Table>> {
    if metas == [] then Some([])
    else if metas[0].number !in ssts || ssts[metas[0].number].size != metas[0].size then None
    else
      match OpenTables(ssts, metas[1..])
      case None => None
      case Some(ts) => Some([Table(metas[0], ssts[metas[0].number].entries)] + ts)
  }

  function OpenVersion(ssts: map<nat, SstFile>, levels: seq<seq<TableMeta>>): Option<Version>
    requires |levels| == NUM_LEVELS
  {
    var l0, l1, l2 := OpenTables(ssts, levels[0]), OpenTables(ssts, levels[1]), OpenTables(ssts, levels[2]);
    if l0.None? || l1.None? || l2.None? then None
    else Some(Version([l0.value, l1.value, l2.value]))
  }

  /** What `encodeManifest` accepts. */
  predicate Published(m: Manifest) { EncodeManifest(m).Some? }

  /** Everything `recoverDatabase` needs to succeed, with what it then holds. `top` is
      the largest file number in the directory, `ns` its live WAL numbers. */
  function Recovered(disk: Disk, ns: seq<nat>, top: nat): Option<Db>
    requires |disk.manifest.levels| == NUM_LEVELS
    requires forall i :: 0 <= i < |ns| ==> ns[i] in disk.wals
  {
    if top == MAX_FILE_NUMBER then None
    else
      match OpenVersion(disk.ssts, disk.manifest.levels)
      case None => None
      case Some(version) =>
        if ns == [] || ns[0] != disk.manifest.oldestWal then None
        else
          match ReplayFiles(disk.wals, ns, disk.manifest.flushed, [])
          case None => None
          case Some((last, mem)) =>
            Some(Db(mem, None, ns[|ns| - 1], false, top + 1, disk.manifest, version, last, multiset{}, Idle))
  }

  /** Recovery refuses a directory in which any live WAL holds a damaged record. */
  lemma DamagedWalStopsRecovery(disk: Disk, ns: seq<nat>, top: nat, k: nat, ps: seq<Bytes>, p: Bytes, bad: Bytes, tail: Bytes)
    requires |disk.manifest.levels| == NUM_LEVELS && k < |ns| && forall i :: 0 <= i < |ns| ==> ns[i] in disk.wals
    requires AllWritable(ps) && Writable(p) && Damaged(p, bad)
    requires disk.wals[ns[k]] == Log(ps) + bad + tail
    ensures Recovered(disk, ns, top) == None
  {
    hide ReplayFile;
    hide ReplayFiles;
    hide OpenVersion;
    hide Damaged;
    forall l: nat, m: seq<Entry> ensures ReplayFile(disk.wals[ns[k]], l, m) == None {
      DamagedFileFails(ps, p, bad, tail, l, m);
    }
    OneBadFileFails(disk.wals, ns, k, disk.manifest.flushed, []);
  }

  /** Recovery cuts a file back to the end of its last whole record. */
  function Truncated(file: Bytes): Bytes {
    var r := ReadAll(file);
    if r.validBytes <= |file| then file[..r.validBytes] else file
  }

  function TruncateWals(disk: Disk, ns: seq<nat>): Disk {
    disk.(wals := map n | n in disk.wals :: if n in ns then Truncated(disk.wals[n]) else disk.wals[n])
  }
}
