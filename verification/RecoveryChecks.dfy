/** What recovery insists on: every table of the manifest present with its recorded size,
    the oldest live WAL first, and in the WALs intact batches with consecutive sequence
    numbers. Each part is stated as an if-and-only-if. */
module RecoveryChecks {
  import opened Bytes
  import opened Entries
  import opened Versions
  import opened Wal
  import opened BatchCodec
  import opened History
  import opened Engine
  import opened World

  // ---------- tables ----------

  /** The directory holds the table's file, with the size the manifest records. */
  predicate Present(ssts: map<nat, SstFile>, t: TableMeta) { t.number in ssts && ssts[t.number].size == t.size }

  lemma {:induction false} TablesOpenIff(ssts: map<nat, SstFile>, metas: seq<TableMeta>)
    ensures OpenTables(ssts, metas).Some? <==> forall i :: 0 <= i < |metas| ==> Present(ssts, metas[i])
    ensures OpenTables(ssts, metas).Some? ==>
      var ts := OpenTables(ssts, metas).value;
      |ts| == |metas| && forall i :: 0 <= i < |ts| ==> ts[i] == Table(metas[i], ssts[metas[i].number].entries)
  {
    if metas != [] {
      TablesOpenIff(ssts, metas[1..]);
      if forall i :: 0 <= i < |metas| ==> Present(ssts, metas[i]) {
        forall i | 0 <= i < |metas[1..]| ensures Present(ssts, metas[1..][i]) { assert metas[1..][i] == metas[i + 1]; }
      }
      if OpenTables(ssts, metas).Some? {
        assert Present(ssts, metas[0]);
        forall i | 0 < i < |metas| ensures Present(ssts, metas[i]) { assert metas[i] == metas[1..][i - 1]; }
      }
    }
  }

  // ---------- records ----------

  /** Record `i` is batch `i`, numbered on from the batches before it. */
  ghost predicate BatchAt(records: seq<Bytes>, last: nat, bs: seq<seq<Op>>, i: nat)
    requires i < |bs| == |records|
  {
    Decode(records[i]) == Some((last + 1 + |Flatten(bs[..i])|, bs[i]))
  }

  /** The records are batches whose sequence numbers run on from `last` without a gap. */
  ghost predicate Consecutive(records: seq<Bytes>, last: nat, bs: seq<seq<Op>>) {
    |bs| == |records| && forall i :: 0 <= i < |bs| ==> BatchAt(records, last, bs, i)
  }

  lemma {:induction false} FlattenFirst(bs: seq<seq<Op>>)
    requires bs != []
    ensures Flatten(bs) == bs[0] + Flatten(bs[1..])
  {
    var n := |bs| - 1;
    if n > 0 {
      FlattenFirst(bs[..n]);
      assert bs[..n][1..] == bs[1..][..n - 1];
    } else {
      assert bs[..0] == [] && bs[1..] == [];
    }
  }

  lemma FirstBatch(records: seq<Bytes>, last: nat, bs: seq<seq<Op>>)
    requires |bs| == |records| && bs != []
    ensures BatchAt(records, last, bs, 0) <==> Decode(records[0]) == Some((last + 1, bs[0]))
  {
    hide Decode;
    assert bs[..0] == [] && |Flatten([])| == 0;
  }

  lemma NextBatch(records: seq<Bytes>, last: nat, bs: seq<seq<Op>>, i: nat)
    requires i + 1 < |bs| == |records|
    ensures BatchAt(records, last, bs, i + 1) <==> BatchAt(records[1..], last + |bs[0]|, bs[1..], i)
  {
    hide Decode;
    FlattenFirst(bs[..i + 1]);
    assert bs[..i + 1][1..] == bs[1..][..i];
  }

  lemma ConsecutiveRest(records: seq<Bytes>, last: nat, bs: seq<seq<Op>>)
    requires |bs| == |records| && bs != []
    ensures Consecutive(records, last, bs) <==>
      Decode(records[0]) == Some((last + 1, bs[0])) && Consecutive(records[1..], last + |bs[0]|, bs[1..])
  {
    hide Decode;
    FirstBatch(records, last, bs);
    var rs, from, cs := records[1..], last + |bs[0]|, bs[1..];
    hide BatchAt;
    if Decode(records[0]) == Some((last + 1, bs[0])) && Consecutive(rs, from, cs) {
      forall i | 0 <= i < |bs| ensures BatchAt(records, last, bs, i) {
        if i > 0 {
          NextBatch(records, last, bs, i - 1);
          assert BatchAt(rs, from, cs, i - 1);
        }
      }
    }
    if Consecutive(records, last, bs) {
      forall i | 0 <= i < |cs| ensures BatchAt(rs, from, cs, i) {
        NextBatch(records, last, bs, i);
        assert BatchAt(records, last, bs, i + 1);
      }
    }
  }

  lemma {:induction false} ReplayedAreConsecutive(records: seq<Bytes>, last: nat, mem: seq<Entry>) returns (bs: seq<seq<Op>>)
    requires ReplayRecords(records, last, mem).Some?
    ensures Consecutive(records, last, bs) && ReplayRecords(records, last, mem).value.0 == last + |Flatten(bs)|
    decreases |records|
  {
    hide Decode;
    hide ApplyBatch;
    if records == [] {
      bs := [];
    } else {
      var (first, ops) := Decode(records[0]).value;
      var rest := ReplayedAreConsecutive(records[1..], last + |ops|, ApplyBatch(mem, ops, first));
      bs := [ops] + rest;
      assert bs[1..] == rest;
      assert |bs| == |records|;
      ConsecutiveRest(records, last, bs);
      FlattenFirst(bs);
    }
  }

  lemma {:induction false} ConsecutiveReplay(records: seq<Bytes>, last: nat, mem: seq<Entry>, bs: seq<seq<Op>>)
    requires Consecutive(records, last, bs)
    ensures ReplayRecords(records, last, mem).Some?
    decreases |records|
  {
    hide Decode;
    hide ApplyBatch;
    if records != [] {
      ConsecutiveRest(records, last, bs);
      ConsecutiveReplay(records[1..], last + |bs[0]|, ApplyBatch(mem, bs[0], last + 1), bs[1..]);
    }
  }

  /** The records of a file replay exactly if they are batches with consecutive sequence
      numbers starting just above `last`. */
  lemma RecordsReplayIff(records: seq<Bytes>, last: nat, mem: seq<Entry>)
    ensures ReplayRecords(records, last, mem).Some? <==> exists bs :: Consecutive(records, last, bs)
  {
    hide ReplayRecords;
    hide Consecutive;
    if ReplayRecords(records, last, mem).Some? { var bs := ReplayedAreConsecutive(records, last, mem); }
    if bs :| Consecutive(records, last, bs) { ConsecutiveReplay(records, last, mem, bs); }
  }

  /** A WAL file replays exactly if nothing in it is damaged and its records do. */
  lemma FileReplaysIff(file: Bytes, last: nat, mem: seq<Entry>)
    ensures ReplayFile(file, last, mem).Some? <==>
      !ReadAll(file).corrupt && exists bs :: Consecutive(ReadAll(file).records, last, bs)
  {
    hide ReplayRecords;
    hide ReadAll;
    RecordsReplayIff(ReadAll(file).records, last, mem);
  }

  // ---------- recovery ----------

  lemma VersionOpensIff(ssts: map<nat, SstFile>, levels: seq<seq<TableMeta>>)
    requires |levels| == NUM_LEVELS
    ensures OpenVersion(ssts, levels).Some? <==>
      forall l, i :: 0 <= l < NUM_LEVELS && 0 <= i < |levels[l]| ==> Present(ssts, levels[l][i])
  {
    TablesOpenIff(ssts, levels[0]);
    TablesOpenIff(ssts, levels[1]);
    TablesOpenIff(ssts, levels[2]);
    hide Present;
    hide OpenTables;
  }

  /** Recovery succeeds exactly if a file number is left, every table of the manifest is
      present with its size, the oldest WAL the manifest names is the first one there, and
      the live WALs replay one after the other. */
  lemma RecoversIff(disk: Disk, ns: seq<nat>, top: nat)
    requires |disk.manifest.levels| == NUM_LEVELS && forall i :: 0 <= i < |ns| ==> ns[i] in disk.wals
    ensures Recovered(disk, ns, top).Some? <==>
      && top != MAX_FILE_NUMBER
      && (forall l, i :: 0 <= l < NUM_LEVELS && 0 <= i < |disk.manifest.levels[l]| ==> Present(disk.ssts, disk.manifest.levels[l][i]))
      && ns != [] && ns[0] == disk.manifest.oldestWal
      && ReplayFiles(disk.wals, ns, disk.manifest.flushed, []).Some?
  {
    hide ReplayFiles;
    hide OpenVersion;
    hide Present;
    VersionOpensIff(disk.ssts, disk.manifest.levels);
  }
}
