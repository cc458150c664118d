/** Installing a compaction, and reopening the version after a restart. */
module WorldCompact {
  import opened Bytes
  import opened Entries
  import opened Versions
  import opened Compaction
  import opened CompactionProof
  import opened BatchCodec
  import opened History
  import opened Engine
  import opened Manifests
  import opened World
  import opened WorldStore

  lemma {:induction false} NumbersConcat(a: seq<Table>, b: seq<Table>)
    ensures Numbers(a + b) == Numbers(a) + Numbers(b)
  {
    if a == [] {
      assert a + b == b;
    } else {
      assert (a + b)[1..] == a[1..] + b;
      NumbersConcat(a[1..], b);
    }
  }

  lemma NumbersSplit(ts: seq<Table>, b: nat, e: nat)
    requires b <= e <= |ts|
    ensures Numbers(ts) == Numbers(ts[..b]) + Numbers(ts[b..e]) + Numbers(ts[e..])
  {
    hide Numbers;
    assert ts == ts[..b] + ts[b..e] + ts[e..];
    NumbersConcat(ts[..b] + ts[b..e], ts[e..]);
    NumbersConcat(ts[..b], ts[b..e]);
  }

  /** What is left of the old numbers, plus those of the outputs. */
  lemma CompactNumbers(v: Version, p: Plan, outs: seq<Table>)
    requires PlanInBounds(v, p)
    ensures NumbersOf(WithCompaction(v, p, outs)) + Numbers(Inputs(v, p)) + Numbers(Overlaps(v, p))
            == NumbersOf(v) + Numbers(outs)
  {
    hide Numbers;
    var source, target := v.levels[p.level], v.levels[p.level + 1];
    NumbersSplit(source, p.inBegin, p.inEnd);
    NumbersSplit(target, p.ovBegin, p.ovEnd);
    NumbersConcat(source[..p.inBegin], source[p.inEnd..]);
    NumbersConcat(target[..p.ovBegin] + outs, target[p.ovEnd..]);
    NumbersConcat(target[..p.ovBegin], outs);
    var v' := WithCompaction(v, p, outs);
    if p.level == 0 {
      assert v'.levels[2] == v.levels[2];
    } else {
      assert v'.levels[0] == v.levels[0];
    }
  }

  lemma CompactNoRepeats(before: multiset<nat>, taken: multiset<nat>, added: multiset<nat>, after: multiset<nat>)
    requires NoRepeats(before) && NoRepeats(added) && after + taken == before + added
    requires forall n :: n in added ==> n !in before
    ensures NoRepeats(after)
    ensures forall n :: n in after ==> n in before || n in added
  {
    forall n | n in after ensures after[n] == 1 && (n in before || n in added) {
      assert (after + taken)[n] == (before + added)[n];
    }
  }

  lemma MetasSplice(ts: seq<Table>, b: nat, e: nat, outs: seq<Table>)
    requires b <= e <= |ts|
    ensures Metas(ts[..b] + outs + ts[e..]) == Metas(ts)[..b] + Metas(outs) + Metas(ts)[e..]
  {}

  /** The manifest copy, spliced by index ranges, still describes the new version. */
  lemma CompactMetas(v: Version, p: Plan, outs: seq<Table>)
    requires PlanInBounds(v, p)
    ensures MetasOf(WithCompaction(v, p, outs)) == SpliceManifest(MetasOf(v), p, Metas(outs))
  {
    var source, target := v.levels[p.level], v.levels[p.level + 1];
    MetasSplice(source, p.inBegin, p.inEnd, []);
    assert source[..p.inBegin] + [] + source[p.inEnd..] == source[..p.inBegin] + source[p.inEnd..];
    MetasSplice(target, p.ovBegin, p.ovEnd, outs);
    var l, r := MetasOf(WithCompaction(v, p, outs)), SpliceManifest(MetasOf(v), p, Metas(outs));
    forall i | 0 <= i < NUM_LEVELS ensures l[i] == r[i] {
      assert i == p.level || i == p.level + 1 || WithCompaction(v, p, outs).levels[i] == v.levels[i];
    }
  }

  lemma CompactBacked(v: Version, p: Plan, outs: seq<Table>, ssts: map<nat, SstFile>)
    requires PlanInBounds(v, p) && Backed(ssts, v) && BackedTables(ssts, outs)
    ensures Backed(ssts, WithCompaction(v, p, outs))
  {
    var source, target := v.levels[p.level], v.levels[p.level + 1];
    var v' := WithCompaction(v, p, outs);
    assert BackedTables(ssts, source) && BackedTables(ssts, target);
    assert BackedTables(ssts, v'.levels[p.level]);
    assert BackedTables(ssts, v'.levels[p.level + 1]);
    forall l | 0 <= l < NUM_LEVELS ensures BackedTables(ssts, v'.levels[l]) {
      assert BackedTables(ssts, v.levels[l]);
      assert l == p.level || l == p.level + 1 || v'.levels[l] == v.levels[l];
    }
  }

  lemma CompactContents(v: Version, p: Plan, outs: seq<Table>)
    requires PlanInBounds(v, p) && LevelSet(outs) <= InputSet(v, p)
    ensures Contents(WithCompaction(v, p, outs)) <= Contents(v)
  {
    hide LevelSet;
    ContentsBefore(v, p);
    ContentsAfter(v, p, outs);
  }

  lemma CompactAnswers(v: Version, p: Plan, m: seq<Entry>, outs: seq<Table>, ops: seq<Op>, flushed: nat, floor: nat)
    requires VersionOk(v) && PlanOk(v, p) && IsMerge(v, p, m) && IsOutput(v, p, m, outs)
    requires p.oldest < MAX_SEQUENCE
    requires flushed <= |ops| && Answers(v, ops, flushed, floor) && p.oldest <= floor
    ensures Answers(WithCompaction(v, p, outs), ops, flushed, floor)
  {
    hide LevelsOk;
    hide Layered;
    hide Get;
    hide Newest;
    hide IsMerge;
    hide IsOutput;
    hide LevelSet;
    forall k, s | floor <= s
      ensures Observed(Get(WithCompaction(v, p, outs), k, s)) == Read(ops[..flushed], k, s)
    {
      CompactionPreservesReads(v, p, m, outs, k, s);
    }
  }

  /** The compacted candidate is a good store from the plan's oldest snapshot up. */
  lemma CompactIsGood(m: Manifest, v: Version, ssts: map<nat, SstFile>, ops: seq<Op>, floor: nat,
                      p: Plan, merged: seq<Entry>, outs: seq<Table>, floor': nat)
    requires Good(m, v, ssts, ops, floor) && floor <= floor' && p.oldest <= floor' && p.oldest < MAX_SEQUENCE
    requires PlanOk(v, p) && IsMerge(v, p, merged) && IsOutput(v, p, merged, outs)
    requires BackedTables(ssts, outs) && NoRepeats(Numbers(outs)) && Stamped(outs)
    requires forall n :: n in Numbers(outs) ==> n !in NumbersOf(v)
    requires p.inEnd <= |m.levels[p.level]| && p.ovEnd <= |m.levels[p.level + 1]|
    ensures Good(m.(levels := SpliceManifest(m.levels, p, Metas(outs))), WithCompaction(v, p, outs), ssts, ops, floor')
    ensures forall n :: n in NumbersOf(WithCompaction(v, p, outs)) ==> n in NumbersOf(v) || n in Numbers(outs)
  {
    hide AllStamped;
    hide Published;
    hide LevelsOk;
    hide Layered;
    hide Get;
    hide Newest;
    hide IsMerge;
    hide LevelSet;
    hide Numbers;
    hide Separated;
    hide Retained;
    hide EntriesOf;
    hide BackedTables;
    RetainedWithin(v, p, merged);
    CompactionKeepsVersionOk(v, p, outs);
    CompactMetas(v, p, outs);
    CompactBacked(v, p, outs, ssts);
    CompactNumbers(v, p, outs);
    CompactNoRepeats(NumbersOf(v), Numbers(Inputs(v, p)) + Numbers(Overlaps(v, p)), Numbers(outs),
                     NumbersOf(WithCompaction(v, p, outs)));
    CompactContents(v, p, outs);
    GoodAtHigherFloor(m, v, ssts, ops, floor, floor');
    CompactAnswers(v, p, merged, outs, ops, m.flushed, floor');
    CompactStamped(v, p, outs);
  }

  lemma CompactStamped(v: Version, p: Plan, outs: seq<Table>)
    requires PlanInBounds(v, p) && AllStamped(v) && Stamped(outs)
    ensures AllStamped(WithCompaction(v, p, outs))
  {
    var v' := WithCompaction(v, p, outs);
    forall l | 0 <= l < NUM_LEVELS ensures Stamped(v'.levels[l]) {
      assert Stamped(v.levels[l]) && Stamped(v.levels[p.level]) && Stamped(v.levels[p.level + 1]);
    }
  }

  // ---------- reopening ----------

  lemma {:induction false} OpenBackedTables(ssts: map<nat, SstFile>, ts: seq<Table>)
    requires BackedTables(ssts, ts)
    ensures OpenTables(ssts, Metas(ts)) == Some(ts)
  {
    if ts != [] {
      assert Metas(ts)[1..] == Metas(ts[1..]);
      OpenBackedTables(ssts, ts[1..]);
      assert ts == [ts[0]] + ts[1..];
    }
  }

  /** Opening what the manifest lists rebuilds the version it was written for. */
  lemma OpenBackedVersion(ssts: map<nat, SstFile>, v: Version)
    requires |v.levels| == NUM_LEVELS && Backed(ssts, v)
    ensures OpenVersion(ssts, MetasOf(v)) == Some(v)
  {
    hide OpenTables;
    assert BackedTables(ssts, v.levels[0]) && BackedTables(ssts, v.levels[1]) && BackedTables(ssts, v.levels[2]);
    OpenBackedTables(ssts, v.levels[0]);
    OpenBackedTables(ssts, v.levels[1]);
    OpenBackedTables(ssts, v.levels[2]);
    assert v.levels == [v.levels[0], v.levels[1], v.levels[2]];
  }
}
