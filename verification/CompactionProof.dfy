/** Installing a compaction keeps the layout invariants and changes no answer a
    live snapshot can ask for. */
module CompactionProof {
  import opened Bytes
  import opened Entries
  import opened Versions
  import opened Compaction

  /** `Version::withCompaction`: splice both levels. */
  function WithCompaction(v: Version, p: Plan, outs: seq<Table>): (r: Version)
    requires PlanInBounds(v, p)
    ensures |r.levels| == NUM_LEVELS
  {
    var source, target := v.levels[p.level], v.levels[p.level + 1];
    Version(v.levels[p.level := source[..p.inBegin] + source[p.inEnd..]]
                    [p.level + 1 := target[..p.ovBegin] + outs + target[p.ovEnd..]])
  }

  /** `m` is the merge of all input tables. */
  ghost predicate IsMerge(v: Version, p: Plan, m: seq<Entry>)
    requires PlanInBounds(v, p)
  {
    Sorted(m) && SetOf(m) == InputSet(v, p)
  }

  /** `outs` are the finished output tables of the plan. */
  ghost predicate IsOutput(v: Version, p: Plan, m: seq<Entry>, outs: seq<Table>)
    requires |v.levels| == NUM_LEVELS
  {
    TablesOk(outs) && Disjoint(outs) && LevelSet(outs) == SetOf(Retained(v, p, m))
  }

  /** What the compaction does not touch. */
  ghost function Rest(v: Version, p: Plan): set<Entry>
    requires PlanInBounds(v, p)
  {
    var source, target := v.levels[p.level], v.levels[p.level + 1];
    LevelSet(source[..p.inBegin]) + LevelSet(source[p.inEnd..])
    + LevelSet(target[..p.ovBegin]) + LevelSet(target[p.ovEnd..])
    + LevelSet(v.levels[if p.level == 0 then 2 else 0])
  }

  lemma LevelSetSplit(ts: seq<Table>, b: nat, e: nat)
    requires b <= e <= |ts|
    ensures LevelSet(ts) == LevelSet(ts[..b]) + LevelSet(ts[b..e]) + LevelSet(ts[e..])
  {
    hide LevelSet;
    assert ts == ts[..b] + ts[b..e] + ts[e..];
    LevelSetConcat(ts[..b] + ts[b..e], ts[e..]);
    LevelSetConcat(ts[..b], ts[b..e]);
  }

  lemma ContentsBefore(v: Version, p: Plan)
    requires PlanInBounds(v, p)
    ensures Contents(v) == Rest(v, p) + InputSet(v, p)
  {
    hide LevelSet;
    LevelSetSplit(v.levels[p.level], p.inBegin, p.inEnd);
    LevelSetSplit(v.levels[p.level + 1], p.ovBegin, p.ovEnd);
    assert p.level == 0 || p.level == 1;
  }

  lemma ContentsAfter(v: Version, p: Plan, outs: seq<Table>)
    requires PlanInBounds(v, p)
    ensures Contents(WithCompaction(v, p, outs)) == Rest(v, p) + LevelSet(outs)
  {
    hide LevelSet;
    var source, target := v.levels[p.level], v.levels[p.level + 1];
    LevelSetConcat(source[..p.inBegin], source[p.inEnd..]);
    LevelSetConcat(target[..p.ovBegin] + outs, target[p.ovEnd..]);
    LevelSetConcat(target[..p.ovBegin], outs);
    var v' := WithCompaction(v, p, outs);
    if p.level == 0 {
      assert v'.levels[2] == v.levels[2];
    } else {
      assert v'.levels[0] == v.levels[0];
    }
  }

  // ---------- the view is preserved ----------

  /** An untouched table of the output level holds no key of the inputs. */
  lemma UntouchedTargetHasNoKey(v: Version, p: Plan, k: Bytes, f: Entry)
    requires PlanInBounds(v, p) && TablesOk(v.levels[p.level + 1]) && Separated(v, p, k)
    requires var target := v.levels[p.level + 1];
             f in LevelSet(target[..p.ovBegin]) || f in LevelSet(target[p.ovEnd..])
    ensures f.key != k
  {
    var target := v.levels[p.level + 1];
    LessIrreflexive(k);
    if f in LevelSet(target[..p.ovBegin]) {
      var i := FindTable(target[..p.ovBegin], f);
      EntryInRange(target[i], f);
    } else {
      var i := FindTable(target[p.ovEnd..], f);
      EntryInRange(target[p.ovEnd + i], f);
    }
  }

  /** In a disjoint level the tables outside [b, e) share no user key with those inside. */
  lemma UntouchedSourceHasNoInputKey(source: seq<Table>, b: nat, e: nat, n: Entry, f: Entry)
    requires TablesOk(source) && Disjoint(source) && b <= e <= |source|
    requires n in LevelSet(source[b..e]) && (f in LevelSet(source[..b]) || f in LevelSet(source[e..]))
    ensures f.key != n.key
  {
    hide Less;
    hide LevelSet;
    LessIrreflexive(n.key);
    var i := FindTable(source[b..e], n);
    assert source[b..e][i] == source[b + i];
    if f in LevelSet(source[..b]) {
      var j := FindTable(source[..b], f);
      DisjointTablesOrderKeys(source, j, b + i, f, n);
    } else {
      var j := FindTable(source[e..], f);
      DisjointTablesOrderKeys(source, b + i, e + j, n, f);
    }
  }

  lemma BaseLevelHoldsNoKey(v: Version, p: Plan, n: Entry, f: Entry)
    requires |v.levels| == NUM_LEVELS && TablesOk(v.levels[2])
    requires p.level == 0 && IsBaseLevel(v, p, n.key) && f in LevelSet(v.levels[2])
    ensures f.key != n.key
  {
    var i := FindTable(v.levels[2], f);
    EntryInRange(v.levels[2][i], f);
    assert !InRange(v.levels[2][i], n.key);
  }

  /** Dropping a base-level tombstone cannot uncover an older version: whatever
      the compaction leaves alone is newer, or is about another key. */
  lemma NothingOlderIsLeft(v: Version, p: Plan, n: Entry, f: Entry)
    requires VersionOk(v) && PlanInBounds(v, p) && Separated(v, p, n.key)
    requires p.level == 0 ==> p.inBegin == 0 && p.inEnd == |v.levels[0]|
    requires n in InputSet(v, p) && f in Rest(v, p) && f.key == n.key
    requires IsBaseLevel(v, p, n.key)
    ensures f.sn > n.sn
  {
    hide LevelSet;
    hide Less;
    var target := v.levels[p.level + 1];
    if f in LevelSet(target[..p.ovBegin]) || f in LevelSet(target[p.ovEnd..]) {
      UntouchedTargetHasNoKey(v, p, n.key, f);
    } else if p.level == 0 {
      assert f in LevelSet(v.levels[2]) by { RestOfLevel0(v, p); }
      BaseLevelHoldsNoKey(v, p, n, f);
    } else {
      RestOfLevel1(v, p, n, f);
      NothingOlderInUpperLevels(v, p, n, f);
    }
  }

  lemma RestOfLevel0(v: Version, p: Plan)
    requires PlanInBounds(v, p) && p.level == 0 && p.inBegin == 0 && p.inEnd == |v.levels[0]|
    ensures Rest(v, p) == LevelSet(v.levels[1][..p.ovBegin]) + LevelSet(v.levels[1][p.ovEnd..]) + LevelSet(v.levels[2])
  {
    assert v.levels[0][..0] == [] && v.levels[0][|v.levels[0]|..] == [];
    assert LevelSet([]) == {};
  }

  lemma RestOfLevel1(v: Version, p: Plan, n: Entry, f: Entry)
    requires PlanInBounds(v, p) && p.level == 1 && n in InputSet(v, p) && f in Rest(v, p)
    requires f !in LevelSet(v.levels[2][..p.ovBegin]) && f !in LevelSet(v.levels[2][p.ovEnd..])
    ensures || (n in LevelSet(Inputs(v, p)) && n in LevelSet(v.levels[1]))
            || n in LevelSet(v.levels[2])
    ensures || f in LevelSet(v.levels[0])
            || (f in LevelSet(v.levels[1]) && (f in LevelSet(v.levels[1][..p.inBegin]) || f in LevelSet(v.levels[1][p.inEnd..])))
  {
    LevelSetSplit(v.levels[1], p.inBegin, p.inEnd);
    LevelSetSplit(v.levels[2], p.ovBegin, p.ovEnd);
  }

  lemma NothingOlderInUpperLevels(v: Version, p: Plan, n: Entry, f: Entry)
    requires VersionOk(v) && PlanInBounds(v, p) && p.level == 1 && f.key == n.key
    requires || (n in LevelSet(Inputs(v, p)) && n in LevelSet(v.levels[1]))
             || n in LevelSet(v.levels[2])
    requires || f in LevelSet(v.levels[0])
             || (f in LevelSet(v.levels[1]) && (f in LevelSet(v.levels[1][..p.inBegin]) || f in LevelSet(v.levels[1][p.inEnd..])))
    ensures f.sn > n.sn
  {
    if f !in LevelSet(v.levels[0]) && n !in LevelSet(v.levels[2]) {
      UntouchedSourceHasNoInputKey(v.levels[1], p.inBegin, p.inEnd, n, f);
    }
  }

  /** The argument on sets: `rest` stays, `ins` becomes `kept`. */
  lemma ViewOfRewrite(rest: set<Entry>, ins: set<Entry>, kept: set<Entry>, oldest: nat, k: Bytes, s: nat,
                      before: Option<Entry>, after: Option<Entry>)
    requires kept <= ins && oldest <= s && UniqueVersions(rest + ins)
    requires forall e :: e in kept ==> !ShadowedIn(ins, e, oldest)
    requires forall n :: n in ins && n !in kept ==>
      || ShadowedIn(ins, n, oldest)
      || (n.kind.Deletion? && n.sn <= oldest && forall f :: f in rest && f.key == n.key ==> f.sn > n.sn)
    requires IsNewest(rest + ins, k, s, before) && IsNewest(rest + kept, k, s, after)
    ensures Observed(before) == Observed(after)
  {
    if before.Some? && before.value in rest + kept {
      NewestIsUnique(rest + ins, k, s, before, after);
    } else if before.Some? && after.Some? {
      assert after.value in rest + ins;
      assert after.value in kept ==> ShadowedIn(ins, after.value, oldest);
    }
  }

  lemma RetainedMeetsRewrite(v: Version, p: Plan, m: seq<Entry>)
    requires VersionOk(v) && PlanOk(v, p) && IsMerge(v, p, m) && p.oldest < MAX_SEQUENCE
    ensures var ins, kept := InputSet(v, p), SetOf(Retained(v, p, m));
      && kept <= ins
      && (forall e :: e in kept ==> !ShadowedIn(ins, e, p.oldest))
      && forall n :: n in ins && n !in kept ==>
          || ShadowedIn(ins, n, p.oldest)
          || (n.kind.Deletion? && n.sn <= p.oldest && forall f :: f in Rest(v, p) && f.key == n.key ==> f.sn > n.sn)
  {
    var ins, kept := InputSet(v, p), SetOf(Retained(v, p, m));
    RetainedIsSorted(v, p, m);
    forall e | e in kept ensures e in ins && !ShadowedIn(ins, e, p.oldest) {
      var i := RetainedIsUndropped(v, p, m, e);
      if ShadowedIn(SetOf(m), e, p.oldest) { ShadowedIsDropped(v, p, m, i); }
    }
    ContentsBefore(v, p);
    forall n | n in ins && n !in kept && !ShadowedIn(ins, n, p.oldest)
      ensures n.kind.Deletion? && n.sn <= p.oldest
      ensures forall f :: f in Rest(v, p) && f.key == n.key ==> f.sn > n.sn
    {
      assert n in SetOf(m);
      var i :| 0 <= i < |m| && m[i] == n;
      if !Drops(v, p, m, i) { UndroppedIsRetained(v, p, m, i); }
      DroppedForAReason(v, p, m, i);
      forall f | f in Rest(v, p) && f.key == n.key ensures f.sn > n.sn {
        NothingOlderIsLeft(v, p, n, f);
      }
    }
  }

  // ---------- the layout is preserved ----------

  lemma SpliceTables(target: seq<Table>, b: nat, e: nat, outs: seq<Table>)
    requires b <= e <= |target| && TablesOk(target) && TablesOk(outs)
    ensures TablesOk(target[..b] + outs + target[e..])
  {}

  lemma SpliceDisjoint(target: seq<Table>, b: nat, e: nat, outs: seq<Table>)
    requires b <= e <= |target| && Disjoint(target) && Disjoint(outs)
    requires forall i, j :: 0 <= i < |outs| && 0 <= j < b ==> Less(Largest(target[j]), Smallest(outs[i]))
    requires forall i, j :: 0 <= i < |outs| && e <= j < |target| ==> Less(Largest(outs[i]), Smallest(target[j]))
    ensures Disjoint(target[..b] + outs + target[e..])
  {
    var r := target[..b] + outs + target[e..];
    forall x, y | 0 <= x < y < |r| ensures Less(Largest(r[x]), Smallest(r[y])) {
      if b + |outs| <= y {
        assert r[y] == target[e + (y - b - |outs|)];
      }
    }
  }

  lemma OutputsFitTheGap(v: Version, p: Plan, outs: seq<Table>, i: nat)
    requires PlanOk(v, p) && TablesOk(outs) && LevelSet(outs) <= InputSet(v, p) && i < |outs|
    ensures Separated(v, p, Smallest(outs[i])) && Separated(v, p, Largest(outs[i]))
  {
    var t := outs[i];
    TableInLevel(outs, i);
    assert t.entries[0] in SetOf(t.entries) && t.entries[|t.entries| - 1] in SetOf(t.entries);
  }

  lemma LayersAfterLevel0(l1: set<Entry>, l2: set<Entry>, ins: set<Entry>, target: set<Entry>)
    requires Newer(ins, l2) && Newer(l1, l2) && target <= l1 + ins
    ensures Newer(target, l2)
  {}

  lemma TargetAfter(v: Version, p: Plan, outs: seq<Table>)
    requires PlanOk(v, p) && TablesOk(v.levels[p.level + 1]) && Disjoint(v.levels[p.level + 1])
    requires TablesOk(outs) && Disjoint(outs) && LevelSet(outs) <= InputSet(v, p)
    ensures TablesOk(WithCompaction(v, p, outs).levels[p.level + 1])
    ensures Disjoint(WithCompaction(v, p, outs).levels[p.level + 1])
  {
    var target := v.levels[p.level + 1];
    forall i | 0 <= i < |outs|
      ensures Separated(v, p, Smallest(outs[i])) && Separated(v, p, Largest(outs[i]))
    {
      OutputsFitTheGap(v, p, outs, i);
    }
    SpliceTables(target, p.ovBegin, p.ovEnd, outs);
    SpliceDisjoint(target, p.ovBegin, p.ovEnd, outs);
  }

  lemma SourceAfter(v: Version, p: Plan, outs: seq<Table>)
    requires PlanInBounds(v, p) && TablesOk(v.levels[p.level])
    ensures TablesOk(WithCompaction(v, p, outs).levels[p.level])
    ensures Disjoint(v.levels[p.level]) ==> Disjoint(WithCompaction(v, p, outs).levels[p.level])
  {
    var source := v.levels[p.level];
    assert source[..p.inBegin] + [] + source[p.inEnd..] == source[..p.inBegin] + source[p.inEnd..];
    SpliceTables(source, p.inBegin, p.inEnd, []);
    if Disjoint(source) { SpliceDisjoint(source, p.inBegin, p.inEnd, []); }
  }

  lemma UniqueAfter(v: Version, p: Plan, outs: seq<Table>)
    requires PlanInBounds(v, p) && UniqueVersions(Contents(v)) && LevelSet(outs) <= InputSet(v, p)
    ensures UniqueVersions(Contents(WithCompaction(v, p, outs)))
  {
    hide LevelSet;
    ContentsBefore(v, p);
    ContentsAfter(v, p, outs);
    assert Contents(WithCompaction(v, p, outs)) <= Contents(v);
  }

  lemma LevelsOkAfter(v: Version, p: Plan, outs: seq<Table>)
    requires LevelsOk(v) && PlanOk(v, p)
    requires TablesOk(outs) && Disjoint(outs) && LevelSet(outs) <= InputSet(v, p)
    ensures LevelsOk(WithCompaction(v, p, outs))
  {
    hide LevelSet;
    hide TablesOk;
    hide Disjoint;
    hide Separated;
    var v' := WithCompaction(v, p, outs);
    TargetAfter(v, p, outs);
    SourceAfter(v, p, outs);
    var other := if p.level == 0 then 2 else 0;
    assert v'.levels[other] == v.levels[other];
    forall level | 0 <= level < NUM_LEVELS ensures TablesOk(v'.levels[level]) {
      assert level == p.level || level == p.level + 1 || level == other;
    }
    if p.level == 0 { assert v'.levels[0] == []; }
  }

  /** Installing the outputs keeps every layout and ordering invariant. */
  lemma CompactionKeepsVersionOk(v: Version, p: Plan, outs: seq<Table>)
    requires VersionOk(v) && PlanOk(v, p)
    requires TablesOk(outs) && Disjoint(outs) && LevelSet(outs) <= InputSet(v, p)
    ensures VersionOk(WithCompaction(v, p, outs))
  {
    LevelsOkAfter(v, p, outs);
    UniqueAfter(v, p, outs);
    if p.level == 0 {
      LayeredAfterLevel0(v, p, outs);
    } else {
      LayeredAfterLevel1(v, p, outs);
    }
  }

  lemma LevelsAfter(v: Version, p: Plan, outs: seq<Table>)
    requires PlanInBounds(v, p)
    ensures var source, target, v' := v.levels[p.level], v.levels[p.level + 1], WithCompaction(v, p, outs);
      && LevelSet(v'.levels[p.level]) == LevelSet(source[..p.inBegin]) + LevelSet(source[p.inEnd..])
      && LevelSet(v'.levels[p.level + 1]) ==
           LevelSet(target[..p.ovBegin]) + LevelSet(outs) + LevelSet(target[p.ovEnd..])
      && LevelSet(v'.levels[p.level]) <= LevelSet(source)
      && LevelSet(v'.levels[p.level + 1]) <= LevelSet(target) + LevelSet(outs)
      && LevelSet(Inputs(v, p)) <= LevelSet(source) && LevelSet(Overlaps(v, p)) <= LevelSet(target)
  {
    hide LevelSet;
    var source, target := v.levels[p.level], v.levels[p.level + 1];
    LevelSetConcat(source[..p.inBegin], source[p.inEnd..]);
    LevelSetConcat(target[..p.ovBegin] + outs, target[p.ovEnd..]);
    LevelSetConcat(target[..p.ovBegin], outs);
    LevelSetSplit(source, p.inBegin, p.inEnd);
    LevelSetSplit(target, p.ovBegin, p.ovEnd);
  }

  lemma LayeredAfterLevel0(v: Version, p: Plan, outs: seq<Table>)
    requires |v.levels| == NUM_LEVELS && Layered(v)
    requires PlanInBounds(v, p) && p.level == 0 && p.inBegin == 0 && p.inEnd == |v.levels[0]|
    requires LevelSet(outs) <= InputSet(v, p)
    ensures Layered(WithCompaction(v, p, outs))
  {
    hide LevelSet;
    hide Newer;
    var v' := WithCompaction(v, p, outs);
    LevelsAfter(v, p, outs);
    assert v'.levels[0] == [];
    NoTables(v'.levels[0]);
    var l0, l1, l2 := LevelSet(v.levels[0]), LevelSet(v.levels[1]), LevelSet(v.levels[2]);
    assert Newer(l0, l2) && Newer(l1, l2);
    LayersAfterLevel0(l1, l2, l0, LevelSet(v'.levels[1]));
    NothingIsNewer(LevelSet(v'.levels[1]));
    NothingIsNewer(l2);
  }

  lemma NoTables(ts: seq<Table>)
    requires ts == []
    ensures LevelSet(ts) == {}
  {}

  lemma NothingIsNewer(b: set<Entry>)
    ensures Newer({}, b)
  {}

  lemma LayeredAfterLevel1(v: Version, p: Plan, outs: seq<Table>)
    requires VersionOk(v) && PlanInBounds(v, p) && p.level == 1
    requires LevelSet(outs) <= InputSet(v, p)
    ensures Layered(WithCompaction(v, p, outs))
  {
    hide LevelSet;
    hide TablesOk;
    hide Disjoint;
    var v' := WithCompaction(v, p, outs);
    LevelsAfter(v, p, outs);
    var l0, l1, l2 := LevelSet(v.levels[0]), LevelSet(v.levels[1]), LevelSet(v.levels[2]);
    var l1', l2' := LevelSet(v'.levels[1]), LevelSet(v'.levels[2]);
    forall e, f | e in l1' && f in LevelSet(Inputs(v, p)) ensures e.key != f.key {
      UntouchedSourceHasNoInputKey(v.levels[1], p.inBegin, p.inEnd, f, e);
    }
    LayersAfterLevel1(l0, l1, l2, LevelSet(Inputs(v, p)), l1', l2');
  }

  lemma LayersAfterLevel1(l0: set<Entry>, l1: set<Entry>, l2: set<Entry>, ins: set<Entry>, l1': set<Entry>, l2': set<Entry>)
    requires Newer(l0, l1) && Newer(l0, l2) && Newer(l1, l2)
    requires ins <= l1 && l1' <= l1 && l2' <= l2 + ins
    requires forall e, f :: e in l1' && f in ins ==> e.key != f.key
    ensures Newer(l0, l1') && Newer(l0, l2') && Newer(l1', l2')
  {}

  // ---------- what installing the outputs does to reads ----------

  lemma RetainedWithin(v: Version, p: Plan, m: seq<Entry>)
    requires PlanInBounds(v, p) && IsMerge(v, p, m)
    ensures SetOf(Retained(v, p, m)) <= InputSet(v, p)
  {
    hide LevelSet;
    RetainedIsSorted(v, p, m);
    forall e | e in SetOf(Retained(v, p, m)) ensures e in InputSet(v, p) {
      assert e in SetOf(m);
    }
  }

  lemma OutputKeepsVersionOk(v: Version, p: Plan, m: seq<Entry>, outs: seq<Table>)
    requires VersionOk(v) && PlanOk(v, p) && IsMerge(v, p, m) && IsOutput(v, p, m, outs)
    ensures VersionOk(WithCompaction(v, p, outs))
  {
    hide VersionOk;
    RetainedWithin(v, p, m);
    CompactionKeepsVersionOk(v, p, outs);
  }

  /** Compaction preserves meaning: for every key and every sequence from the
      oldest snapshot up, the lookup answers the same before and after. */
  lemma CompactionPreservesReads(v: Version, p: Plan, m: seq<Entry>, outs: seq<Table>, k: Bytes, s: nat)
    requires VersionOk(v) && PlanOk(v, p) && IsMerge(v, p, m) && IsOutput(v, p, m, outs)
    requires p.oldest < MAX_SEQUENCE && p.oldest <= s
    ensures Observed(Get(WithCompaction(v, p, outs), k, s)) == Observed(Get(v, k, s))
  {
    hide LevelsOk;
    hide Layered;
    hide Get;
    hide LevelSet;
    var v' := WithCompaction(v, p, outs);
    OutputKeepsVersionOk(v, p, m, outs);
    GetIsNewest(v, k, s);
    GetIsNewest(v', k, s);
    ContentsBefore(v, p);
    ContentsAfter(v, p, outs);
    RetainedMeetsRewrite(v, p, m);
    ViewOfRewrite(Rest(v, p), InputSet(v, p), LevelSet(outs), p.oldest, k, s, Get(v, k, s), Get(v', k, s));
  }

  // ---------- from cut files to tables ----------

  ghost predicate TablesFor(files: seq<seq<Entry>>, ts: seq<Table>) {
    && |ts| == |files|
    && forall i :: 0 <= i < |ts| ==> ts[i].entries == files[i] && TableOk(ts[i])
  }

  lemma {:induction false} UnionOfIsLevelSet(files: seq<seq<Entry>>, ts: seq<Table>)
    requires TablesFor(files, ts)
    ensures UnionOf(files) == LevelSet(ts)
  {
    if files != [] {
      var n := |files| - 1;
      UnionOfIsLevelSet(files[..n], ts[..n]);
      assert ts == ts[..n] + [ts[n]];
      LevelSetConcat(ts[..n], [ts[n]]);
    }
  }

  /** The tables made from the cut retained stream are valid compaction output. */
  lemma CutFilesAreOutput(v: Version, p: Plan, m: seq<Entry>, atTarget: seq<Entry> -> bool, ts: seq<Table>)
    requires |v.levels| == NUM_LEVELS && Sorted(m)
    requires TablesFor(Split(Retained(v, p, m), atTarget), ts)
    ensures IsOutput(v, p, m, ts)
  {
    RetainedIsSorted(v, p, m);
    SplitMakesFiles(Retained(v, p, m), atTarget);
    UnionOfIsLevelSet(Split(Retained(v, p, m), atTarget), ts);
  }

  /** When the oldest snapshot has reached the largest sequence number, the rule
      drops every version, live values included. */
  lemma {:induction false} AtMaxSequenceEverythingIsDropped(v: Version, p: Plan, m: seq<Entry>)
    requires |v.levels| == NUM_LEVELS && p.oldest >= MAX_SEQUENCE
    requires forall e :: e in m ==> e.sn <= MAX_SEQUENCE
    ensures Retained(v, p, m) == []
  {
    if m != [] { AtMaxSequenceEverythingIsDropped(v, p, m[..|m| - 1]); }
  }

  lemma TablesHoldEntries(outs: seq<Table>)
    requires TablesOk(outs)
    ensures outs == [] <==> LevelSet(outs) == {}
  {
    if outs != [] { assert outs[0].entries[0] in SetOf(outs[0].entries); }
  }

  /** With nothing retained there are no output tables. */
  lemma NoOutput(v: Version, p: Plan, m: seq<Entry>, outs: seq<Table>)
    requires |v.levels| == NUM_LEVELS && IsOutput(v, p, m, outs) && Retained(v, p, m) == []
    ensures outs == [] && LevelSet(outs) == {}
  {
    hide LevelSet;
    TablesHoldEntries(outs);
  }

  /** What is left for a reader of `k` once all inputs are gone and the newest version was
      among them: for an L0 compaction whatever L2 holds, for an L1 compaction nothing. */
  function Underneath(v: Version, p: Plan, k: Bytes, s: nat): Option<Entry>
    requires |v.levels| == NUM_LEVELS
  {
    if p.level == 0 then LevelLookup(v.levels[2], k, s) else None
  }

  lemma UnderneathIsNewest(v: Version, p: Plan, k: Bytes, s: nat, e: Entry)
    requires VersionOk(v) && PlanOk(v, p) && IsNewest(Contents(v), k, s, Some(e)) && e in InputSet(v, p)
    ensures e !in Rest(v, p) ==> IsNewest(Rest(v, p), k, s, Underneath(v, p, k, s))
  {
    hide LevelSet;
    hide Less;
    hide TablesOk;
    hide Disjoint;
    hide NewestFirst;
    hide Separated;
    assert Separated(v, p, e.key);
    ContentsBefore(v, p);
    if p.level == 0 {
      RestOfLevel0(v, p);
      LevelLookupIsNewest(v.levels[2], k, s);
      forall f | f in Rest(v, p) && f.key == k ensures f in LevelSet(v.levels[2]) {
        if f !in LevelSet(v.levels[2]) { UntouchedTargetHasNoKey(v, p, k, f); }
      }
    } else if e !in Rest(v, p) {
      forall f | f in Rest(v, p) && f.key == k ensures f.sn > e.sn { NothingOlderIsLeft(v, p, e, f); }
    }
  }

  /** The reads that a compaction at the largest sequence number does not change. Each part
      can be looked up before the compaction runs. */
  ghost predicate SurvivesDrop(v: Version, p: Plan, k: Bytes, s: nat)
    requires PlanInBounds(v, p)
  {
    match Get(v, k, s)
    case None => true
    case Some(e) => e in Rest(v, p) || Observed(Some(e)) == Observed(Underneath(v, p, k, s))
  }

  /** At the largest sequence number compaction preserves exactly the reads whose newest
      version lies outside the inputs, or says the same as what lies underneath. */
  lemma AtMaxSequenceReadsSurviveIff(v: Version, p: Plan, m: seq<Entry>, outs: seq<Table>, k: Bytes, s: nat)
    requires VersionOk(v) && PlanOk(v, p) && IsMerge(v, p, m) && IsOutput(v, p, m, outs)
    requires p.oldest >= MAX_SEQUENCE && forall e :: e in m ==> e.sn <= MAX_SEQUENCE
    ensures Observed(Get(WithCompaction(v, p, outs), k, s)) == Observed(Get(v, k, s)) <==> SurvivesDrop(v, p, k, s)
  {
    hide LevelsOk;
    hide Layered;
    hide LevelSet;
    hide Get;
    hide IsOutput;
    hide Rest;
    hide Contents;
    hide Underneath;
    var v' := WithCompaction(v, p, outs);
    OutputKeepsVersionOk(v, p, m, outs);
    AtMaxSequenceEverythingIsDropped(v, p, m);
    NoOutput(v, p, m, outs);
    GetIsNewest(v, k, s);
    GetIsNewest(v', k, s);
    ContentsBefore(v, p);
    ContentsAfter(v, p, outs);
    assert Contents(v') == Rest(v, p);
    var before := Get(v, k, s);
    if before.Some? {
      if before.value in Rest(v, p) {
        NewestIsUnique(Rest(v, p), k, s, before, Get(v', k, s));
      } else {
        UnderneathIsNewest(v, p, k, s, before.value);
        NewestIsUnique(Rest(v, p), k, s, Underneath(v, p, k, s), Get(v', k, s));
      }
    }
  }

  /** A read that does not survive: one live value in L1, compacted into an empty L2. */
  lemma AtMaxSequenceALiveValueIsLost()
    ensures var e := Entry([1], 1, Value, [7]);
      var t := Table(TableMeta(1, 1, KeyOf(e), KeyOf(e)), [e]);
      var v, p := Version([[], [t], []]), Plan(1, 0, 1, 0, 0, MAX_SEQUENCE);
      && VersionOk(v) && PlanOk(v, p) && IsMerge(v, p, [e]) && IsOutput(v, p, [e], [])
      && Observed(Get(v, [1], MAX_SEQUENCE)) == Some([7])
      && Observed(Get(WithCompaction(v, p, []), [1], MAX_SEQUENCE)) == None
  {
    var e := Entry([1], 1, Value, [7]);
    var t := Table(TableMeta(1, 1, KeyOf(e), KeyOf(e)), [e]);
    var v, p := Version([[], [t], []]), Plan(1, 0, 1, 0, 0, MAX_SEQUENCE);
    hide VersionOk;
    hide PlanOk;
    hide IsMerge;
    hide Get;
    OneValueVersion(e, t, v, p);
    AtMaxSequenceEverythingIsDropped(v, p, [e]);
    assert LevelSet([]) == {};
    var v' := WithCompaction(v, p, []);
    assert v'.levels[0] == [] && v'.levels[1] == [] && v'.levels[2] == [];
    EmptyVersionGet(v', [1], MAX_SEQUENCE);
    OneValueGet(e, t, v);
  }

  lemma EmptyVersionGet(v: Version, k: Bytes, s: nat)
    requires |v.levels| == NUM_LEVELS && v.levels[0] == [] && v.levels[1] == [] && v.levels[2] == []
    ensures Get(v, k, s) == None
  {}

  lemma OneValueGet(e: Entry, t: Table, v: Version)
    requires e.kind.Value? && e.sn <= MAX_SEQUENCE && t == Table(TableMeta(1, 1, KeyOf(e), KeyOf(e)), [e])
    requires v == Version([[], [t], []])
    ensures Get(v, e.key, MAX_SEQUENCE) == Some(e)
  {
    LessIrreflexive(e.key);
    assert Lookup([e], e.key, MAX_SEQUENCE) == Some(e);
  }

  lemma OneValueVersion(e: Entry, t: Table, v: Version, p: Plan)
    requires e.kind.Value? && t == Table(TableMeta(1, 1, KeyOf(e), KeyOf(e)), [e])
    requires v == Version([[], [t], []]) && p == Plan(1, 0, 1, 0, 0, MAX_SEQUENCE)
    ensures VersionOk(v) && PlanOk(v, p) && IsMerge(v, p, [e])
  {
    assert LevelSet([]) == {};
    assert LevelSet([t]) == {e} by { assert [t][1..] == []; }
    assert Inputs(v, p) == [t] && Overlaps(v, p) == [];
  }
}
