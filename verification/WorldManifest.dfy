/** Every manifest the engine is about to publish passes its own validation. */
module WorldManifests {
  import opened Bytes
  import opened Entries
  import opened Versions
  import opened Wal
  import opened BatchCodec
  import opened History
  import opened Engine
  import opened Manifests
  import opened World
  import opened WorldStore
  import opened WorldCompact
  import opened WorldRuns

  // ---------- the sizes the batch codec lets in ----------

  predicate OpsFit(ops: seq<Op>) { forall i :: 0 <= i < |ops| ==> |ops[i].key| <= MAX_PAYLOAD }

  lemma {:induction false} EncodedOpsFit(ops: seq<Op>)
    requires OpsSize(ops) <= MAX_PAYLOAD
    ensures OpsFit(ops)
  {
    if ops != [] {
      EncodedOpsFit(ops[1..]);
      assert forall i :: 0 <= i < |ops| ==> ops[i] == (if i == 0 then ops[0] else ops[1..][i - 1]);
    }
  }

  lemma {:induction false} CommittedOpsFit(bs: seq<seq<Op>>)
    requires AllEncodable(bs)
    ensures OpsFit(Flatten(bs)) && |Flatten(bs)| <= MAX_SEQUENCE
  {
    hide Encode;
    if bs != [] {
      var n := |bs| - 1;
      assert Encode(bs[n], |Flatten(bs[..n])| + 1).Some?;
      LastBatchFits(bs[n], |Flatten(bs[..n])| + 1);
      assert AllEncodable(bs[..n]) by { PrefixEncodable(bs, n); }
      CommittedOpsFit(bs[..n]);
    }
  }

  lemma LastBatchFits(ops: seq<Op>, first: nat)
    requires Encode(ops, first).Some?
    ensures OpsFit(ops) && first + |ops| - 1 <= MAX_SEQUENCE
  {
    EncodedOpsFit(ops);
  }

  lemma PrefixEncodable(bs: seq<seq<Op>>, n: nat)
    requires AllEncodable(bs) && n <= |bs|
    ensures AllEncodable(bs[..n])
  {
    hide Encode;
    hide Flatten;
    forall i | 0 <= i < n ensures Encode(bs[..n][i], |Flatten(bs[..n][..i])| + 1).Some? {
      assert bs[..n][..i] == bs[..i] && bs[..n][i] == bs[i];
    }
  }

  // ---------- one table, one level ----------

  lemma TableIsValid(t: Table, ops: seq<Op>, hi: nat)
    requires TableOk(t) && t.meta.number < TWO_64 && t.meta.size < TWO_64
    requires hi <= |ops| <= MAX_SEQUENCE && OpsFit(ops) && SetOf(t.entries) <= EntriesOf(ops, 0, hi)
    ensures ValidTable(t.meta)
  {
    var first, last := t.entries[0], t.entries[|t.entries| - 1];
    assert first in SetOf(t.entries) && last in SetOf(t.entries);
    assert !Before(last, first) by { BeforeIsStrictOrder(); }
    assert Before(Bare(t.meta.largest), Bare(t.meta.smallest)) == Before(last, first);
  }

  lemma LevelIsValid(ts: seq<Table>, ops: seq<Op>, hi: nat)
    requires TablesOk(ts) && Stamped(ts)
    requires hi <= |ops| <= MAX_SEQUENCE && OpsFit(ops) && LevelSet(ts) <= EntriesOf(ops, 0, hi)
    ensures ValidTables(Metas(ts))
  {
    hide TableOk;
    hide ValidTable;
    forall i | 0 <= i < |ts| ensures ValidTable(Metas(ts)[i]) {
      TableInLevel(ts, i);
      TableIsValid(ts[i], ops, hi);
    }
  }

  lemma LevelIsOrdered(ts: seq<Table>)
    requires Disjoint(ts)
    ensures InOrder(Metas(ts))
  {
    hide Less;
    forall i | 0 < i < |ts| ensures Less(Metas(ts)[i - 1].largest.key, Metas(ts)[i].smallest.key) {
      assert Less(Largest(ts[i - 1]), Smallest(ts[i]));
    }
  }

  lemma {:induction false} NumbersAreDistinct(ts: seq<Table>)
    requires NoRepeats(Numbers(ts))
    ensures Distinct(Metas(ts))
  {
    if ts != [] {
      var rest := ts[1..];
      assert Numbers(ts) == multiset{ts[0].meta.number} + Numbers(rest);
      forall n | n in Numbers(rest) ensures Numbers(rest)[n] == 1 && n != ts[0].meta.number {
        assert n in Numbers(ts) && Numbers(ts)[n] == 1;
      }
      NumbersAreDistinct(rest);
      forall i, j | 0 <= i < j < |ts| ensures Metas(ts)[i].number != Metas(ts)[j].number {
        if i == 0 {
          NumberOfTable(rest, j - 1);
        } else {
          assert Metas(rest)[i - 1].number != Metas(rest)[j - 1].number;
        }
      }
    }
  }

  lemma VersionIsDistinct(v: Version)
    requires |v.levels| == NUM_LEVELS && NoRepeats(NumbersOf(v))
    ensures Distinct(AllTables(MetasOf(v)))
  {
    hide Numbers;
    hide Distinct;
    hide AllTables;
    var all := v.levels[0] + v.levels[1] + v.levels[2];
    NumbersConcat(v.levels[0] + v.levels[1], v.levels[2]);
    NumbersConcat(v.levels[0], v.levels[1]);
    NumbersAreDistinct(all);
    ThreeLevels(MetasOf(v));
    assert Metas(all) == Metas(v.levels[0]) + Metas(v.levels[1]) + Metas(v.levels[2]);
  }

  // ---------- a whole manifest ----------

  ghost predicate CountsFit(m: Manifest) { forall l :: 0 <= l < |m.levels| ==> |m.levels[l]| < TWO_32 }

  lemma GoodIsValid(m: Manifest, v: Version, ssts: map<nat, SstFile>, ops: seq<Op>, floor: nat)
    requires Good(m, v, ssts, ops, floor) && OpsFit(ops) && |ops| <= MAX_SEQUENCE
    requires 0 < m.oldestWal < TWO_64 && CountsFit(m)
    ensures ValidManifest(m)
  {
    hide Answers;
    hide Backed;
    hide Stamped;
    hide TableOk;
    hide Layered;
    hide UniqueVersions;
    hide NewestFirst;
    hide Disjoint;
    hide InOrder;
    hide ValidTables;
    hide OpsFit;
    hide NoRepeats;
    hide NumbersOf;
    hide Distinct;
    hide AllTables;
    hide Metas;
    hide TablesOk;
    hide LevelSet;
    VersionIsDistinct(v);
    forall l | 0 <= l < NUM_LEVELS ensures ValidTables(m.levels[l]) {
      assert LevelSet(v.levels[l]) <= Contents(v);
      LevelIsValid(v.levels[l], ops, m.flushed);
      assert m.levels[l] == Metas(v.levels[l]);
    }
    forall l | 1 <= l < NUM_LEVELS ensures InOrder(m.levels[l]) {
      LevelIsOrdered(v.levels[l]);
      assert m.levels[l] == Metas(v.levels[l]);
    }
  }

  /** The WAL number a candidate names is one the engine has handed out. */
  lemma CandidateWal(cfg: Config, db: Db, disk: Disk, h: Hist)
    requires UpInv(cfg, db, disk, h) && db.bg.Ready?
    ensures 0 < db.bg.candidate.oldestWal < TWO_64
  {
    hide Good;
    hide SpanBytes;
    hide Flatten;
    hide Published;
    hide MemInv;
    var k := |h.spans| - 1;
    assert h.spans[0].number <= h.spans[k].number;
    assert h.spans[0].number in disk.wals && h.spans[k].number in disk.wals;
  }

  /** In every state of every run, a manifest ready to be committed can fail its own
      validation only by a level of 2^32 or more tables, and is then written exactly
      when it fits the size limit. */
  lemma CandidateIsPublishable(cfg: Config, acts: seq<Action>, run: seq<World>, i: nat)
    requires IsRun(cfg, acts, run) && i < |run| && run[i].Up? && run[i].db.bg.Ready?
    ensures var c := run[i].db.bg.candidate;
      && (ValidManifest(c) <==> CountsFit(c))
      && (Published(c) <==> CountsFit(c) && |ContentBytes(c)| + 4 <= MAX_MANIFEST)
  {
    hide IsRun;
    hide Good;
    hide MemInv;
    hide ContentBytes;
    RunKeepsInv(cfg, acts, run, i);
    var db, disk, h := run[i].db, run[i].disk, run[i].hist;
    CandidateWal(cfg, db, disk, h);
    CommittedOpsFit(h.batches);
    if CountsFit(db.bg.candidate) {
      hide ValidManifest;
      GoodIsValid(db.bg.candidate, db.bg.next, disk.ssts, Ops(h), h.floor);
    }
  }
}
