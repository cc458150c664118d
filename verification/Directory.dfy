/** The directory as bytes: the manifest file, the WAL files and the table files, and what
    they stand for. */
module Directories {
  import opened Bytes
  import opened Entries
  import opened Versions
  import opened Manifests
  import opened Engine
  import opened TableRefinements
  import Crc32c
  import TableLayout
  import TableReaders
  import opened VersionFiles

  datatype Files = Files(manifest: Bytes, wals: map<nat, Bytes>, tables: map<nat, Bytes>)

  /** Reading the manifest file gives this state. */
  ghost predicate StoredAs(file: Bytes, m: Manifest) { DecodeManifest(file) == Some(m) }

  ghost predicate FileHolds(file: Bytes, t: SstFile) { |file| == t.size && Holds(file, t.entries) }

  /** Every table file is a finished table of the entries listed for it. */
  ghost predicate FilesHold(tables: map<nat, Bytes>, ssts: map<nat, SstFile>) {
    tables.Keys == ssts.Keys && forall n :: n in ssts ==> FileHolds(tables[n], ssts[n])
  }

  lemma NoFiles()
    ensures FilesHold(map[], map[])
  {}

  lemma FileAdded(tables: map<nat, Bytes>, ssts: map<nat, SstFile>, n: nat, file: Bytes, es: seq<Entry>)
    requires FilesHold(tables, ssts) && Holds(file, es)
    ensures FilesHold(tables[n := file], ssts[n := SstFile(|file|, es)])
  {
    hide Holds;
  }

  lemma StoredManifest(m: Manifest, bytes: Bytes)
    requires EncodeManifest(m) == Some(bytes)
    ensures StoredAs(bytes, m)
  {
    hide DecodeManifest;
    hide EncodeManifest;
    ManifestRoundTrip(m);
  }

  lemma StoredIsValid(file: Bytes, m: Manifest)
    requires StoredAs(file, m)
    ensures ValidManifest(m)
  {
    hide ValidManifest;
    hide TakeLevels;
    hide Crc32c.Sealed;
  }

  // ---------- tables ----------

  /** The block size and restart interval the engine builds its tables with. */
  const BLOCK_SIZE: nat := 4096
  const RESTART_INTERVAL: nat := 16

  /** What the builder's 32-bit offsets admit. */
  predicate TableFits(es: seq<Entry>) { TableLayout.InRange(es) ==> Fitting(TableLayout.KVs(es), BLOCK_SIZE) }

  method WriteTable(es: seq<Entry>) returns (file: Bytes)
    requires Sorted(es) && TableLayout.InRange(es) && TableFits(es)
    ensures Holds(file, es) && 0 < |file| < TWO_64
  {
    hide TableReaders.TableFor;
    hide Fitting;
    ghost var l, hashes;
    file, l, hashes := BuildTable(es, BLOCK_SIZE, RESTART_INTERVAL);
  }

  /** Open the tables of one level, each checked against its descriptor, and read them. */
  method LoadTables(tables: map<nat, Bytes>, metas: seq<TableMeta>, ghost ssts: map<nat, SstFile>) returns (r: Option<seq<Table>>)
    requires FilesHold(tables, ssts)
    ensures r == OpenTables(ssts, metas)
  {
    hide Holds;
    var ts: seq<Table> := [];
    assert forall more: seq<Table> :: [] + more == more;
    for i := 0 to |metas|
      invariant OpenTables(ssts, metas) ==
        match OpenTables(ssts, metas[i..]) case None => None case Some(more) => Some(ts + more)
    {
      var m := metas[i];
      assert metas[i..][0] == m && metas[i..][1..] == metas[i + 1..];
      if m.number !in tables { return None; }
      var file := tables[m.number];
      assert FileHolds(file, ssts[m.number]);
      if |file| != m.size { return None; }
      var es, ok := ReadFile(file, true, ssts[m.number].entries);
      if !ok { return None; }
      var t := Table(m, es);
      assert forall more :: ts + ([t] + more) == (ts + [t]) + more;
      ts := ts + [t];
    }
    assert ts + [] == ts;
    return Some(ts);
  }

  /** Tables backed by the directory are stored in its files. */
  lemma BackedIsStored(tables: map<nat, Bytes>, ssts: map<nat, SstFile>, ts: seq<Table>)
    requires FilesHold(tables, ssts)
    requires forall i :: 0 <= i < |ts| ==>
               ts[i].meta.number in ssts && ssts[ts[i].meta.number] == SstFile(ts[i].meta.size, ts[i].entries)
    ensures TablesStored(tables, ts)
  {
    hide Holds;
    forall i | 0 <= i < |ts| ensures ts[i].meta.number in tables && Holds(tables[ts[i].meta.number], ts[i].entries) {
      assert FileHolds(tables[ts[i].meta.number], ssts[ts[i].meta.number]);
    }
  }
}
