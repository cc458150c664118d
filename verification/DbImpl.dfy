/** `DBImpl` as an object. Each method is one critical section of the code or one effect
    on the directory between two of them, and does what the action of the same name in
    `Engine` says. `background` holds the locals of the background thread, because other
    threads run between its critical sections. */
module DbImpls {
  import opened Bytes
  import opened Entries
  import opened Versions
  import opened Compaction
  import opened CompactionProof
  import opened CompactionRun
  import opened Wal
  import opened BatchCodec
  import opened History
  import opened Manifests
  import opened SkipLists
  import opened Snapshots
  import opened Engine
  import opened TableReaders
  import TableLayout
  import TableRefinements
  import opened VersionFiles
  import opened Directories

  datatype WriteStatus = Written | Refused | MustWait | WalBroken

  /** The write was logged and applied. */
  ghost predicate Wrote(db: Db, disk: Disk, batch: seq<Op>, db': Db, disk': Disk) {
    && Encode(batch, db.last + 1).Some? && !db.walFailed && db.wal in disk.wals
    && db' == WriteDb(db, batch) && disk' == AppendToWal(db, disk, WalRecord(db, batch))
  }

  /** The first `n` bytes of the record were logged, nothing was applied, and the error is latched. */
  ghost predicate BrokeAt(db: Db, disk: Disk, batch: seq<Op>, n: nat, db': Db, disk': Disk) {
    && Encode(batch, db.last + 1).Some? && !db.walFailed && db.wal in disk.wals
    && n <= |WalRecord(db, batch)| && db' == db.(walFailed := true)
    && disk' == AppendToWal(db, disk, FirstBytes(WalRecord(db, batch), n))
  }

  ghost predicate UpTo(es: seq<Entry>, sn: nat) { forall e :: e in es ==> e.sn <= sn }

  class DbImpl {
    const cfg: Config
    const snapshots: SnapshotTracker
    var memtable: SkipList
    var frozen: SkipList?
    var frozenNumber: nat
    var frozenLast: nat
    var wal: WalWriter
    var walNumber: nat
    var nextFile: nat
    var manifest: Manifest
    var version: Version
    var last: nat
    var background: Background

    // The directory. The file `wal` appends to is kept in the writer. The ghost fields are
    // what the manifest file and the table files stand for.
    var manifestFile: Bytes
    var closed: map<nat, Bytes>
    var tables: map<nat, Bytes>
    ghost var published: Manifest
    ghost var ssts: map<nat, SstFile>

    ghost predicate Valid()
      reads this, memtable, frozen, snapshots
    {
      && memtable.Settled() && last <= MAX_SEQUENCE && UpTo(memtable.Contents(), last)
      && (frozen != null ==> frozen.Valid() && frozen != memtable && UpTo(frozen.Contents(), MAX_SEQUENCE))
      && snapshots.Valid() && StoredAs(manifestFile, published) && FilesHold(tables, ssts)
      && walNumber < nextFile && (forall n :: n in closed ==> n < nextFile)
    }

    ghost function Imm(): Option<Immutable>
      requires frozen != null ==> frozen.Valid()
      reads this, frozen
    {
      if frozen == null then None else Some(Immutable(frozen.Contents(), frozenNumber, frozenLast))
    }

    ghost function View(): Db
      requires Valid()
      reads this, memtable, frozen, wal, snapshots
    {
      Db(memtable.Contents(), Imm(), walNumber, wal.failed, nextFile, manifest, version, last,
         Live(snapshots.counts), background)
    }

    ghost function Directory(): Disk
      reads this, wal
    {
      Disk(published, closed[walNumber := wal.file], ssts)
    }

    /** The object before recovery has read more than the manifest: `top` is the largest file
        number, `m` what the manifest file says. */
    constructor (config: Config, files: Files, m: Manifest, top: nat, ghost stored: map<nat, SstFile>)
      requires StoredAs(files.manifest, m) && FilesHold(files.tables, stored) && forall n :: n in files.wals ==> n <= top
      ensures Valid() && fresh(memtable) && fresh(wal) && fresh(snapshots) && frozen == null && cfg == config
      ensures memtable.Contents() == [] && Live(snapshots.counts) == multiset{} && nextFile == top + 1 && last == 0
      ensures manifest == published == m && closed == files.wals && ssts == stored && background == Idle
    {
      hide StoredAs;
      hide FilesHold;
      cfg := config;
      snapshots := new SnapshotTracker();
      memtable := new SkipList();
      frozen, frozenNumber, frozenLast := null, 0, 0;
      wal := new WalWriter([]);
      walNumber, nextFile, last, background := 0, top + 1, 0, Idle;
      manifest, version := m, Version([[], [], []]);
      manifestFile, closed, tables, published, ssts := files.manifest, files.wals, files.tables, m, stored;
    }

    /** `initializeNewDatabase` in an empty directory: the first WAL, then a manifest naming it. */
    constructor Initialize(config: Config)
      ensures Valid() && cfg == config && fresh(memtable) && fresh(wal) && fresh(snapshots) && frozen == null
      ensures var m := Manifest(0, 1, [[], [], []]);
        && View() == Db([], None, 1, false, 2, m, Version([[], [], []]), 0, multiset{}, Idle)
        && Directory() == Disk(m, map[1 := []], map[])
    {
      hide StoredAs;
      hide FilesHold;
      hide EncodeManifest;
      cfg := config;
      snapshots := new SnapshotTracker();
      memtable := new SkipList();
      frozen, frozenNumber, frozenLast := null, 0, 0;
      wal := new WalWriter([]);
      walNumber, nextFile, last, background := 1, 2, 0, Idle;
      var m := Manifest(0, 1, [[], [], []]);
      manifest, version := m, Version([[], [], []]);
      closed, tables, published, ssts := map[], map[], m, map[];
      FirstManifest();
      StoredManifest(m, EncodeManifest(m).value);
      NoFiles();
      manifestFile := EncodeManifest(m).value;
    }

    // ---------- writing ----------

    /** `applyBatch`: one memtable insert per operation. */
    method Apply(ops: seq<Op>, first: nat)
      requires Valid() && first == last + 1
      modifies memtable
      ensures memtable.Settled() && memtable.Contents() == ApplyBatch(old(memtable.Contents()), ops, first)
      ensures UpTo(memtable.Contents(), last + |ops|)
    {
      hide StoredAs;
      hide FilesHold;
      hide Insert;
      hide SkipList.Valid;
      hide SkipList.Contents;
      for i := 0 to |ops|
        invariant memtable.Settled()
        invariant UpTo(memtable.Contents(), last + i)
        invariant ApplyBatch(old(memtable.Contents()), ops, first) == ApplyBatch(memtable.Contents(), ops[i..], first + i)
      {
        var height :| 1 <= height <= MAX_HEIGHT;
        assert ops[i..][1..] == ops[i + 1..];
        InsertedMembers(memtable.Contents(), EntryAt(ops[i], first + i));
        memtable.InsertEntry(EntryAt(ops[i], first + i), height);
      }
    }

    /** The full memtable becomes the immutable one, under the next file number. */
    method Freeze()
      requires Valid() && frozen == null
      modifies this`memtable, this`frozen, this`frozenNumber, this`frozenLast
      ensures Valid() && fresh(memtable) && memtable.Contents() == [] && Directory() == old(Directory())
      ensures View() == old(View()).(mem := [], imm := Some(Immutable(old(View()).mem, nextFile, last)))
    {
      hide StoredAs;
      hide FilesHold;
      hide SkipList.Valid;
      hide SkipList.Contents;
      hide UpTo;
      hide Live;
      UpToLarger(memtable.Contents(), last, MAX_SEQUENCE);
      UpToNothing(last);
      var table := new SkipList();
      frozen, frozenNumber, frozenLast, memtable := memtable, nextFile, last, table;
    }

    /** Go on with a new, empty WAL file. */
    method SwitchWal()
      requires Valid()
      modifies this`closed, this`wal, this`walNumber, this`nextFile
      ensures Valid() && fresh(wal) && Directory() == RotateDisk(old(View()), old(Directory()))
      ensures View() == old(View()).(wal := old(nextFile) + 1, walFailed := false, nextFile := old(nextFile) + 2)
    {
      hide StoredAs;
      hide FilesHold;
      hide SkipList.Valid;
      hide SkipList.Contents;
      hide UpTo;
      hide Live;
      var log := new WalWriter([]);
      closed := closed[walNumber := wal.file];
      wal, walNumber, nextFile := log, nextFile + 1, nextFile + 2;
    }

    /** `rotateMemTable`. `opens` tells whether the new WAL file could be opened. */
    method Rotate(opens: bool) returns (ok: bool)
      requires Valid() && frozen == null
      modifies this
      ensures Valid() && ok == (opens && old(nextFile) <= MAX_FILE_NUMBER - 2)
      ensures ok ==> View() == RotateDb(old(View())) && Directory() == RotateDisk(old(View()), old(Directory()))
      ensures ok ==> fresh(memtable) && fresh(wal) && memtable.Contents() == []
      ensures !ok ==> unchanged(this)
    {
      hide StoredAs;
      hide FilesHold;
      hide SkipList.Valid;
      hide SkipList.Contents;
      hide UpTo;
      hide Live;
      if nextFile > MAX_FILE_NUMBER - 2 || !opens { return false; }
      Freeze();
      SwitchWal();
      ok := true;
    }

    /** `makeRoomForWrite`, up to the point where it would wait for a flush. `usage` is the
        memtable's memory usage. */
    method MakeRoom(usage: nat, opens: bool) returns (status: WriteStatus, ghost rotated: bool)
      requires Valid() && usage == cfg.usage(memtable.Contents())
      modifies this
      ensures Valid()
      ensures rotated ==> CanRotate(cfg, old(View())) && View() == RotateDb(old(View()))
      ensures rotated ==> Directory() == RotateDisk(old(View()), old(Directory()))
      ensures rotated ==> fresh(memtable) && fresh(wal)
      ensures !rotated ==> unchanged(this)
      ensures status.Written? == (!View().bg.Stopped? && HasRoom(cfg, View())) && !status.WalBroken?
      ensures (rotated <==> CanRotate(cfg, old(View())) && opens) && last == old(last)
      ensures status.MustWait? <==> !old(background).Stopped? && !HasRoom(cfg, old(View())) && old(frozen) != null
    {
      hide StoredAs;
      hide FilesHold;
      hide SkipList.Valid;
      hide SkipList.Contents;
      rotated := false;
      if background.Stopped? { return Refused, false; }
      var empty := memtable.IsEmpty();
      if empty || usage < cfg.bufferSize { return Written, false; }
      if frozen != null { return MustWait, false; }
      var ok := Rotate(opens);
      return if ok then Written else Refused, ok;
    }

    /** The part of a write after room was made: encode, log, sync, apply. `budget` is how
        many bytes the file takes, `synced` whether a requested sync succeeds. */
    method LogAndApply(batch: seq<Op>, budget: nat, synced: bool) returns (status: WriteStatus, ghost n: nat)
      requires Valid() && batch != []
      modifies this`last, memtable, wal
      ensures Valid() && !status.MustWait?
      ensures status.Refused? ==> View() == old(View()) && Directory() == old(Directory())
      ensures status.Refused? <==> old(wal.failed) || Encode(batch, old(last) + 1).None?
      ensures status.Written? <==> !status.Refused? && synced && HEADER_SIZE + |Encode(batch, old(last) + 1).value| <= budget
      ensures status.Written? ==> Wrote(old(View()), old(Directory()), batch, View(), Directory())
      ensures status.WalBroken? ==> BrokeAt(old(View()), old(Directory()), batch, n, View(), Directory())
    {
      hide StoredAs;
      hide FilesHold;
      hide SkipList.Valid;
      hide SkipList.Contents;
      hide Encode;
      hide Frame;
      hide ApplyBatch;
      n := 0;
      var payload := EncodeBatch(batch, last + 1);
      if payload.None? || wal.failed { return Refused, 0; }
      ghost var record := Frame(payload.value);
      var ok := wal.Append(payload.value, budget);
      if !ok { return WalBroken, budget; }
      if !synced {
        wal.failed := true;
        assert record == record[..|record|];
        return WalBroken, |record|;
      }
      EncodedRange(batch, last + 1);
      Apply(batch, last + 1);
      last := last + |batch|;
      return Written, 0;
    }

    /** `write`: the empty batch is accepted at once; any other is logged, then applied, in
        the state `db`, `disk` that making room left. */
    method Write(batch: seq<Op>, usage: nat, opens: bool, budget: nat, synced: bool)
      returns (status: WriteStatus, ghost rotated: bool, ghost db: Db, ghost disk: Disk, ghost n: nat)
      requires Valid() && usage == cfg.usage(memtable.Contents())
      modifies this, memtable, wal
      ensures Valid()
      ensures rotated <==> batch != [] && CanRotate(cfg, old(View())) && opens
      ensures rotated ==> db == RotateDb(old(View())) && disk == RotateDisk(old(View()), old(Directory()))
      ensures status.MustWait? <==> batch != [] && !old(background).Stopped? && !HasRoom(cfg, old(View())) && old(frozen) != null
      ensures batch != [] && CanWrite(cfg, db, disk, batch) ==>
        (status.Written? <==> synced && HEADER_SIZE + |Encode(batch, db.last + 1).value| <= budget)
      ensures !rotated ==> db == old(View()) && disk == old(Directory())
      ensures db.wal in disk.wals && db.last == old(last)
      ensures batch == [] ==> status.Written? && !rotated && View() == db && Directory() == disk
      ensures batch != [] ==> (CanWrite(cfg, db, disk, batch) <==> status.Written? || status.WalBroken?)
      ensures batch != [] && status.Written? ==> Wrote(db, disk, batch, View(), Directory())
      ensures status.WalBroken? ==> BrokeAt(db, disk, batch, n, View(), Directory())
      ensures status.Refused? || status.MustWait? ==> View() == db && Directory() == disk
    {
      hide StoredAs;
      hide FilesHold;
      hide SkipList.Valid;
      hide SkipList.Contents;
      hide Encode;
      hide Wrote;
      hide BrokeAt;
      hide RotateDb;
      hide RotateDisk;
      db, disk, n := View(), Directory(), 0;
      if batch == [] { return Written, false, db, disk, 0; }
      status, rotated := MakeRoom(usage, opens);
      db, disk := View(), Directory();
      if status.Written? {
        status, n := LogAndApply(batch, budget, synced);
      }
    }

    // ---------- reading ----------

    /** `get`: the memtables under the lock, then the files of the pinned version. */
    method Get(k: Bytes, snapshot: Option<nat>, verify: bool) returns (r: Option<Bytes>)
      requires Valid() && LevelsOk(version) && (forall l :: 0 <= l < NUM_LEVELS ==> TablesStored(tables, version.levels[l]))
      requires snapshot.Some? ==> snapshot.value <= MAX_SEQUENCE
      ensures r == Observed(DbGet(View(), k, if snapshot.Some? then snapshot.value else last))
    {
      hide SkipList.Valid;
      hide SkipList.Contents;
      hide Lookup;
      hide StoredAs;
      hide FilesHold;
      hide TablesStored;
      hide LevelsOk;
      hide Versions.Get;
      var s := if snapshot.Some? then snapshot.value else last;
      var found := memtable.Get(k, s);
      if found.Some? { return Observed(found); }
      if frozen != null {
        found := frozen.Get(k, s);
        if found.Some? { return Observed(found); }
      }
      var below := GetFromVersion(version, tables, k, s, verify);
      r := if below.Found? then Some(below.value) else None;
    }

    method NewSnapshot() returns (s: nat)
      requires Valid()
      modifies snapshots
      ensures Valid() && s == last && View() == old(View()).(snapshots := old(View()).snapshots + multiset{s})
      ensures Directory() == old(Directory())
    {
      hide StoredAs;
      hide FilesHold;
      hide SkipList.Valid;
      hide SkipList.Contents;
      s := last;
      snapshots.Add(s);
    }

    method ReleaseSnapshot(s: nat)
      requires Valid() && s in View().snapshots
      modifies snapshots
      ensures Valid() && View() == old(View()).(snapshots := old(View()).snapshots - multiset{s})
      ensures Directory() == old(Directory())
    {
      hide StoredAs;
      hide FilesHold;
      hide SkipList.Valid;
      hide SkipList.Contents;
      snapshots.Remove(s);
    }

    // ---------- the background thread ----------

    /** One more table file in the directory. */
    method AddTable(number: nat, es: seq<Entry>) returns (size: nat)
      requires Valid() && Sorted(es) && TableLayout.InRange(es) && TableFits(es)
      modifies this`tables, this`ssts
      ensures Valid() && 0 < size < TWO_64 && View() == old(View())
      ensures Directory() == old(Directory()).(ssts := old(Directory()).ssts[number := SstFile(size, es)])
    {
      hide SkipList.Valid;
      hide SkipList.Contents;
      hide StoredAs;
      hide FilesHold;
      hide TableFits;
      hide TableLayout.InRange;
      hide TableRefinements.Holds;
      hide Sorted;
      hide UpTo;
      hide Live;
      var file := WriteTable(es);
      size := |file|;
      FileAdded(tables, ssts, number, file, es);
      tables := tables[number := file];
      ssts := ssts[number := SstFile(size, es)];
    }

    /** The immutable memtable written out as a level-0 table file, and the state that will
        publish it. */
    method BuildLevel0Table() returns (ghost size: nat)
      requires Valid() && FlushReady(View()) && TableFits(frozen.Contents())
      modifies this`background, this`tables, this`ssts
      ensures Valid() && CanFlush(old(View()), size)
      ensures View() == FlushDb(old(View()), size) && Directory() == FlushDisk(old(View()), old(Directory()), size)
    {
      hide SkipList.Valid;
      hide SkipList.Contents;
      hide StoredAs;
      hide FilesHold;
      hide TableFits;
      hide TableLayout.InRange;
      hide Sorted;
      hide Live;
      var es := frozen.Scan();
      UpToMaxIsInRange(es);
      hide UpTo;
      var bytes := AddTable(frozenNumber, es);
      size := bytes;
      var t := MakeTable(frozenNumber, bytes, es);
      var candidate := Manifest(frozenLast, walNumber, manifest.levels[0 := [t.meta] + manifest.levels[0]]);
      background := Ready(true, candidate, WithLevel0Table(version, t));
    }

    /** Pick a compaction at the oldest sequence number anyone may still read, and build the
        contents of its output files. */
    method StartCompaction() returns (picked: bool, ghost oldest: nat, ghost m: seq<Entry>)
      requires Valid() && VersionOk(version) && background.Idle?
      modifies this`background
      ensures Valid() && Directory() == old(Directory()) && IsOldest(View().snapshots, last, oldest)
      ensures picked ==> CanPick(old(View()), oldest, m) && View() == PickDb(cfg, old(View()), oldest, m)
      ensures !picked && Pick(version, oldest, LEVEL1_BYTES).None? ==> View() == old(View())
      ensures !picked && Pick(version, oldest, LEVEL1_BYTES).Some? ==> View() == old(View()).(bg := Stopped)
    {
      hide StoredAs;
      hide FilesHold;
      hide SkipList.Valid;
      hide SkipList.Contents;
      hide Layered;
      hide UniqueVersions;
      hide Split;
      hide Retained;
      hide PlanOk;
      hide Pick;
      hide TablesOk;
      hide NewestFirst;
      hide Disjoint;
      hide InputBag;
      hide HasDuplicate;
      hide IsMerge;
      hide Live;
      hide IsOldest;
      m := [];
      var from := snapshots.Oldest(last);
      oldest := from;
      var plan := PickCompaction(version, from, LEVEL1_BYTES);
      if plan.None? { return false, oldest, m; }
      assert PlanInBounds(version, plan.value) by { PickedInBounds(version, from); }
      var files;
      files, m := BuildCompactionTables(version, plan.value, cfg.atTarget);
      if files.None? {
        background := Stopped;
        return false, oldest, m;
      }
      background := Compacting(plan.value, files.value, [], None);
      picked := true;
    }

    /** The file number allocator of a compaction, which fails when the numbers run out. */
    method AllocateOutput() returns (ok: bool)
      requires Valid() && background.Compacting? && background.open.None? && |background.done| < |background.files|
      modifies this`background, this`nextFile
      ensures Valid() && Directory() == old(Directory()) && ok == CanOpenOutput(old(View()))
      ensures View() == if ok then OpenOutputDb(old(View())) else old(View()).(bg := Stopped)
    {
      hide StoredAs;
      hide FilesHold;
      hide SkipList.Valid;
      hide SkipList.Contents;
      if nextFile >= MAX_FILE_NUMBER {
        background := Stopped;
        return false;
      }
      background := background.(open := Some(nextFile));
      nextFile := nextFile + 1;
      ok := true;
    }

    /** The open output file of a compaction, written out and closed. */
    method FinishOutput() returns (ghost size: nat)
      requires Valid() && OutputReady(View())
      requires var es := background.files[|background.done|]; Sorted(es) && TableLayout.InRange(es) && TableFits(es)
      modifies this`background, this`tables, this`ssts
      ensures Valid() && CanFinishOutput(old(View()), size)
      ensures View() == FinishOutputDb(old(View()), size) && Directory() == FinishOutputDisk(old(View()), old(Directory()), size)
    {
      hide SkipList.Valid;
      hide SkipList.Contents;
      hide StoredAs;
      hide FilesHold;
      hide TableFits;
      hide TableLayout.InRange;
      hide Sorted;
      hide UpTo;
      hide Live;
      var number, es := background.open.value, background.files[|background.done|];
      var bytes := AddTable(number, es);
      size := bytes;
      background := background.(open := None, done := background.done + [MakeTable(number, bytes, es)]);
    }

    /** Splice the outputs into copies of the manifest's and the version's levels. */
    method PrepareCompaction()
      requires Valid() && CanPrepare(View())
      modifies this`background
      ensures Valid() && View() == PrepareDb(old(View())) && Directory() == old(Directory())
    {
      hide StoredAs;
      hide FilesHold;
      hide SkipList.Valid;
      hide SkipList.Contents;
      var outs := background.done;
      var metas := [];
      for i := 0 to |outs|
        invariant metas == Metas(outs[..i])
      {
        metas := metas + [outs[i].meta];
      }
      assert outs[..|outs|] == outs;
      var candidate := manifest.(levels := SpliceManifest(manifest.levels, background.plan, metas));
      background := Ready(false, candidate, WithCompaction(version, background.plan, outs));
    }

    /** `writeManifest`: validate, encode, rename. `writes` tells whether the file system
        took it. A failure stops the background thread. */
    method Commit(writes: bool) returns (ok: bool)
      requires Valid() && background.Ready? && |background.candidate.levels| == NUM_LEVELS
      modifies this`background, this`manifestFile, this`published
      ensures Valid() && ok == (writes && Published(old(background.candidate)))
      ensures ok ==> View() == CommitDb(old(View())) && Directory() == CommitDisk(old(View()), old(Directory()))
      ensures !ok ==> View() == old(View()).(bg := Stopped) && Directory() == old(Directory())
    {
      hide StoredAs;
      hide FilesHold;
      hide SkipList.Valid;
      hide SkipList.Contents;
      hide EncodeManifest;
      var bytes := EncodeState(background.candidate);
      if bytes.None? || !writes {
        background := Stopped;
        return false;
      }
      StoredManifest(background.candidate, bytes.value);
      manifestFile, published := bytes.value, background.candidate;
      background := Committed(background.isFlush, background.candidate, background.next);
      ok := true;
    }

    method Publish()
      requires Valid() && background.Committed?
      modifies this`background, this`version, this`manifest, this`frozen
      ensures Valid() && View() == PublishDb(old(View())) && Directory() == old(Directory())
    {
      hide StoredAs;
      hide FilesHold;
      hide SkipList.Valid;
      hide SkipList.Contents;
      version, manifest := background.next, background.candidate;
      if background.isFlush { frozen := null; }
      background := Idle;
    }

    // ---------- recovery ----------

    /** `recoverWalFile`: replay whole records until the end or the first fault. */
    method RecoverWalFile(file: Bytes) returns (ok: bool, valid: nat)
      requires Valid()
      modifies this`last, memtable
      ensures ok == ReplayFile(file, old(last), old(memtable.Contents())).Some?
      ensures ok ==> Valid() && ReplayFile(file, old(last), old(memtable.Contents())) == Some((last, memtable.Contents()))
      ensures ok ==> valid == ReadAll(file).validBytes
    {
      hide StoredAs;
      hide FilesHold;
      hide SkipList.Valid;
      hide SkipList.Contents;
      hide ReplayFile;
      hide ReadAll;
      hide Decode;
      hide ApplyBatch;
      hide NextRecord;
      ghost var last0, mem0 := last, memtable.Contents();
      var reader := new WalReader(file);
      assert file[0..] == file;
      while true
        invariant Valid() && reader.Valid() && fresh(reader) && reader.file == file
        invariant ReplayFile(file, last0, mem0) == ReplayFile(file[reader.position..], last, memtable.Contents())
        invariant ReadAll(file).validBytes == reader.validBytes + ReadAll(file[reader.position..]).validBytes
        decreases |file| - reader.position
      {
        ghost var rest := file[reader.position..];
        ReplayNext(rest, last, memtable.Contents());
        var r := reader.ReadNext();
        match r {
          case Corrupt => return false, 0;
          case End => return true, reader.validBytes;
          case Record(payload) =>
            var decoded := DecodeBatch(payload);
            if decoded.None? { return false, 0; }
            var (first, ops) := decoded.value;
            if first != last + 1 { return false, 0; }
            assert rest[HEADER_SIZE + |payload|..] == file[reader.position..];
            DecodedRange(payload);
            Apply(ops, first);
            last := last + |ops|;
        }
      }
    }

    /** Replay one file, cut its torn tail, and make it the current WAL. */
    method RecoverAndCut(n: nat) returns (ok: bool)
      requires Valid() && n in closed
      modifies this`last, this`closed, this`walNumber, memtable
      ensures ok == ReplayFile(old(closed)[n], old(last), old(memtable.Contents())).Some?
      ensures ok ==> Valid() && ReplayFile(old(closed)[n], old(last), old(memtable.Contents())) == Some((last, memtable.Contents()))
      ensures ok ==> closed == old(closed)[n := Truncated(old(closed)[n])] && walNumber == n
    {
      hide StoredAs;
      hide FilesHold;
      hide SkipList.Valid;
      hide SkipList.Contents;
      hide ReplayFile;
      hide ReadAll;
      var file := closed[n];
      var valid;
      ok, valid := RecoverWalFile(file);
      if !ok { return; }
      if |file| > valid {
        closed := closed[n := file[..valid]];
      } else {
        assert file[..|file|] == file;
      }
      walNumber := n;
    }

    /** `recoverWalFiles`: replay the live WALs in order, cut their torn tails, and go on
        with the last one. */
    method RecoverWalFiles(ns: seq<nat>) returns (ok: bool)
      requires Valid() && memtable.Contents() == [] && Ascending(ns) && AllIn(ns, closed) && manifest.flushed <= MAX_SEQUENCE
      modifies this`last, this`closed, this`walNumber, this`wal, memtable
      ensures ok == (ns != [] && ns[0] == manifest.oldestWal && ReplayFiles(old(closed), ns, manifest.flushed, []).Some?)
      ensures ok ==> Valid() && fresh(wal) && !wal.failed && walNumber == ns[|ns| - 1]
      ensures ok ==> ReplayFiles(old(closed), ns, manifest.flushed, []) == Some((last, memtable.Contents()))
      ensures ok ==> Cut(old(closed), ns, |ns|, closed[walNumber := wal.file])
    {
      hide StoredAs;
      hide FilesHold;
      hide SkipList.Valid;
      hide SkipList.Contents;
      hide ReplayFile;
      hide Truncated;
      hide Cut;
      hide Ascending;
      if |ns| == 0 || ns[0] != manifest.oldestWal { return false; }
      ghost var files := closed;
      last := manifest.flushed;
      NothingCut(files, ns);
      assert ns[0..] == ns;
      for i := 0 to |ns|
        invariant Valid() && Cut(files, ns, i, closed) && AllIn(ns[i..], files)
        invariant ReplayFiles(files, ns, manifest.flushed, []) == ReplayFiles(files, ns[i..], last, memtable.Contents())
        invariant i == 0 || walNumber == ns[i - 1]
      {
        assert ns[i..][1..] == ns[i + 1..];
        CutOneMore(files, ns, i, closed);
        ok := RecoverAndCut(ns[i]);
        if !ok { return; }
      }
      CutAll(files, ns, closed);
      wal := new WalWriter(closed[walNumber]);
      assert closed[walNumber := wal.file] == closed;
      ok := true;
    }

    /** `loadVersion`. */
    method LoadVersion() returns (ok: bool)
      requires |manifest.levels| == NUM_LEVELS && FilesHold(tables, ssts)
      modifies this`version
      ensures ok == OpenVersion(ssts, manifest.levels).Some?
      ensures ok ==> version == OpenVersion(ssts, manifest.levels).value
    {
      hide StoredAs;
      hide OpenTables;
      hide FilesHold;
      var levels := [];
      for l := 0 to NUM_LEVELS
        invariant |levels| == l && forall j :: 0 <= j < l ==> OpenTables(ssts, manifest.levels[j]) == Some(levels[j])
      {
        var ts := LoadTables(tables, manifest.levels[l], ssts);
        if ts.None? { return false; }
        levels := levels + [ts.value];
      }
      version := Version(levels);
      assert levels == [levels[0], levels[1], levels[2]];
      ok := true;
    }
  }

  /** `numbers` lists the directory's WAL files in ascending order. */
  ghost predicate Listing(files: map<nat, Bytes>, numbers: seq<nat>) {
    Ascending(numbers) && AllIn(numbers, files) && forall n :: n in files ==> n in numbers
  }

  /** The first WAL recovery still needs: `std::lower_bound`. */
  method FirstLive(numbers: seq<nat>, oldest: nat) returns (i: nat)
    requires Ascending(numbers)
    ensures i <= |numbers| && (forall j :: 0 <= j < i ==> numbers[j] < oldest) && forall j :: i <= j < |numbers| ==> oldest <= numbers[j]
  {
    var first, count := 0, |numbers|;
    while count > 0
      invariant 0 <= first && 0 <= count && first + count <= |numbers|
      invariant forall j :: 0 <= j < first ==> numbers[j] < oldest
      invariant forall j :: first + count <= j < |numbers| ==> oldest <= numbers[j]
    {
      var step := count / 2;
      if numbers[first + step] < oldest {
        first, count := first + step + 1, count - step - 1;
      } else {
        count := step;
      }
    }
    i := first;
  }

  lemma ListedInOrder(files: map<nat, Bytes>, numbers: seq<nat>)
    requires Listing(files, numbers)
    ensures Ascending(numbers)
  {}

  lemma LiveInOrder(files: map<nat, Bytes>, oldest: nat, ns: seq<nat>)
    requires LiveWals(files, oldest, ns)
    ensures Ascending(ns) && AllIn(ns, files)
  {}

  lemma LiveSuffix(files: map<nat, Bytes>, numbers: seq<nat>, oldest: nat, i: nat)
    requires Listing(files, numbers) && i <= |numbers|
    requires (forall j :: 0 <= j < i ==> numbers[j] < oldest) && forall j :: i <= j < |numbers| ==> oldest <= numbers[j]
    ensures LiveWals(files, oldest, numbers[i..])
  {
    forall n | n in files && oldest <= n ensures n in numbers[i..] {
      var j :| 0 <= j < |numbers| && numbers[j] == n;
      assert numbers[i..][j - i] == n;
    }
  }

  /** `DBImpl::open` on a directory with a manifest: `disk` is what its files stand for. */
  method OpenDatabase(config: Config, files: Files, numbers: seq<nat>, top: nat, ghost disk: Disk)
    returns (db: DbImpl?, ghost ns: seq<nat>)
    requires files.wals == disk.wals && FilesHold(files.tables, disk.ssts)
    requires Listing(files.wals, numbers) && forall n :: n in files.wals ==> n <= top
    ensures DecodeManifest(files.manifest).None? ==> db == null
    ensures StoredAs(files.manifest, disk.manifest) ==>
      && |disk.manifest.levels| == NUM_LEVELS && LiveWals(disk.wals, disk.manifest.oldestWal, ns)
      && (db != null <==> Recovered(disk, ns, top).Some?)
      && (db != null ==> Opened(db, config, disk, ns, top))
    ensures db != null ==> fresh(db)
  {
    hide SkipList.Valid;
    hide SkipList.Contents;
    hide DecodeManifest;
    hide FilesHold;
    hide Recovered;
    hide Opened;
    hide LiveWals;
    hide ValidManifest;
    hide Listing;
    ns := [];
    var decoded := DecodeManifest(files.manifest);
    if decoded.None? { return null, ns; }
    var m := decoded.value;
    StoredIsValid(files.manifest, m);
    ValidParts(m);
    ListedInOrder(files.wals, numbers);
    var first := FirstLive(numbers, m.oldestWal);
    LiveSuffix(files.wals, numbers, m.oldestWal, first);
    var live := numbers[first..];
    ns := live;
    db := RecoverDatabase(config, files, m, live, top, disk.(manifest := m));
  }

  /** `recoverDatabase` once the manifest is read and the live WALs are known. */
  method RecoverDatabase(config: Config, files: Files, m: Manifest, live: seq<nat>, top: nat, ghost disk: Disk)
    returns (db: DbImpl?)
    requires StoredAs(files.manifest, m) && FilesHold(files.tables, disk.ssts) && files.wals == disk.wals && disk.manifest == m
    requires |m.levels| == NUM_LEVELS && m.flushed <= MAX_SEQUENCE && LiveWals(disk.wals, m.oldestWal, live)
    requires forall n :: n in files.wals ==> n <= top
    ensures db != null <==> Recovered(disk, live, top).Some?
    ensures db != null ==> fresh(db) && Opened(db, config, disk, live, top)
  {
    hide SkipList.Valid;
    hide SkipList.Contents;
    hide StoredAs;
    hide FilesHold;
    hide OpenVersion;
    hide ReplayFiles;
    hide Truncated;
    hide Cut;
    hide LiveWals;
    hide TruncateWals;
    hide UpTo;
    hide Live;
    LiveInOrder(files.wals, m.oldestWal, live);
    if top == MAX_FILE_NUMBER { return null; }
    var impl := new DbImpl(config, files, m, top, disk.ssts);
    var ok := impl.LoadVersion();
    if !ok { return null; }
    ok := impl.RecoverWalFiles(live);
    if !ok { return null; }
    db := impl;
    CutIsTruncated(disk, live, db.closed[db.walNumber := db.wal.file]);
  }

  /** The object recovery leaves. */
  ghost predicate Opened(db: DbImpl, config: Config, disk: Disk, ns: seq<nat>, top: nat)
    requires |disk.manifest.levels| == NUM_LEVELS && LiveWals(disk.wals, disk.manifest.oldestWal, ns)
    reads db, db.memtable, db.frozen, db.wal, db.snapshots
  {
    && db.cfg == config && db.Valid() && Recovered(disk, ns, top) == Some(db.View())
    && db.Directory() == TruncateWals(disk, ns)
  }

  lemma ValidParts(m: Manifest)
    requires ValidManifest(m)
    ensures |m.levels| == NUM_LEVELS && m.flushed <= MAX_SEQUENCE
  {}

  lemma CutIsTruncated(disk: Disk, ns: seq<nat>, files: map<nat, Bytes>)
    requires Cut(disk.wals, ns, |ns|, files)
    ensures TruncateWals(disk, ns) == disk.(wals := files)
  {
    hide Truncated;
    assert ns[..|ns|] == ns;
  }

  predicate AllIn(ns: seq<nat>, files: map<nat, Bytes>) { forall i :: 0 <= i < |ns| ==> ns[i] in files }

  /** The first `k` of the live WALs cut back to their whole records, the other files as they were. */
  ghost predicate Cut(files: map<nat, Bytes>, ns: seq<nat>, k: nat, files': map<nat, Bytes>) {
    && k <= |ns| && files'.Keys == files.Keys
    && forall n :: n in files ==> files'[n] == if n in ns[..k] then Truncated(files[n]) else files[n]
  }

  lemma NothingCut(files: map<nat, Bytes>, ns: seq<nat>)
    ensures Cut(files, ns, 0, files)
  {}

  lemma CutOneMore(files: map<nat, Bytes>, ns: seq<nat>, k: nat, files': map<nat, Bytes>)
    requires Ascending(ns) && AllIn(ns, files) && k < |ns| && Cut(files, ns, k, files')
    ensures ns[k] in files' && files'[ns[k]] == files[ns[k]]
    ensures Cut(files, ns, k + 1, files'[ns[k] := Truncated(files[ns[k]])])
  {
    hide Truncated;
    assert ns[..k + 1] == ns[..k] + [ns[k]];
    assert ns[k] !in ns[..k];
  }

  lemma CutAll(files: map<nat, Bytes>, ns: seq<nat>, files': map<nat, Bytes>)
    requires AllIn(ns, files) && ns != [] && Cut(files, ns, |ns|, files')
    ensures ns[|ns| - 1] in files'
  {}

  lemma EncodedRange(ops: seq<Op>, first: nat)
    requires Encode(ops, first).Some?
    ensures first + |ops| - 1 <= MAX_SEQUENCE
  {
    hide OpsSize;
  }

  lemma UpToLarger(es: seq<Entry>, sn: nat, bound: nat)
    requires UpTo(es, sn) && sn <= bound
    ensures UpTo(es, bound)
  {}

  lemma UpToNothing(sn: nat)
    ensures UpTo([], sn)
  {}

  lemma UpToMaxIsInRange(es: seq<Entry>)
    requires UpTo(es, MAX_SEQUENCE)
    ensures TableLayout.InRange(es)
  {}

  lemma DecodedRange(b: Bytes)
    requires Decode(b).Some?
    ensures Decode(b).value.0 + |Decode(b).value.1| - 1 <= MAX_SEQUENCE
  {
    hide Decode;
    hide OpsSize;
    EncodeOfDecode(b);
  }

  /** What one record, or the end, contributes to the replay of a file. */
  lemma ReplayNext(rest: Bytes, last: nat, mem: seq<Entry>)
    ensures NextRecord(rest).End? ==> ReplayFile(rest, last, mem) == Some((last, mem)) && ReadAll(rest).validBytes == 0
    ensures NextRecord(rest).Corrupt? ==> ReplayFile(rest, last, mem).None?
    ensures NextRecord(rest).Record? ==>
              var p := NextRecord(rest).payload;
              var tail := rest[HEADER_SIZE + |p|..];
              && ReadAll(rest).validBytes == HEADER_SIZE + |p| + ReadAll(tail).validBytes
              && ReplayFile(rest, last, mem) ==
                 match Decode(p)
                 case None => None
                 case Some((first, ops)) =>
                   if first != last + 1 then None else ReplayFile(tail, last + |ops|, ApplyBatch(mem, ops, first))
  {
    hide Decode;
    hide ApplyBatch;
    hide NextRecord;
    if NextRecord(rest).Record? {
      var p := NextRecord(rest).payload;
      var r := ReadAll(rest[HEADER_SIZE + |p|..]);
      assert ReadAll(rest).records == [p] + r.records && ReadAll(rest).records[1..] == r.records;
    }
  }

  lemma PickedInBounds(v: Version, oldest: nat)
    requires VersionOk(v) && Pick(v, oldest, LEVEL1_BYTES).Some?
    ensures PlanInBounds(v, Pick(v, oldest, LEVEL1_BYTES).value)
  {
    PickedPlanIsOk(v, oldest, LEVEL1_BYTES);
  }

  lemma {:induction false} InsertedMembers(es: seq<Entry>, e: Entry)
    ensures forall f :: f in Insert(es, e) ==> f == e || f in es
  {
    if es != [] && !Before(e, es[0]) { InsertedMembers(es[1..], e); }
  }
}
