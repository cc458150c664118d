/** What a flush and a compaction do to the store: layout, metadata, files and the
    answers it gives. */
module WorldStore {
  import opened Bytes
  import opened Entries
  import opened Versions
  import opened BatchCodec
  import opened History
  import opened Engine
  import opened Manifests
  import opened World

  // ---------- a sorted run over an older prefix ----------

  /** Reading a prefix of the history: first the run holding its newest part, then the
      shorter prefix. */
  lemma RunOverPrefix(run: seq<Entry>, ops: seq<Op>, lo: nat, hi: nat, k: Bytes, s: nat)
    requires lo <= hi <= |ops| && Sorted(run) && SetOf(run) == EntriesOf(ops, lo, hi)
    ensures Newest(ops[..hi], k, s) ==
              if Lookup(run, k, s).Some? then Lookup(run, k, s) else Newest(ops[..lo], k, s)
  {
    hide Sorted;
    hide Newest;
    hide Lookup;
    LookupIsNewest(run, k, s);
    NewestIsNewest(ops[..lo], k, s);
    NewestIsNewest(ops[..hi], k, s);
    PrefixEntries(ops, lo);
    PrefixEntries(ops, hi);
    EntriesSplit(ops, 0, lo, hi);
    EntriesUnique(ops, 0, hi);
    var newer, older := EntriesOf(ops, lo, hi), EntriesOf(ops, 0, lo);
    FirstAnswerIsNewest(newer, older, k, s, Lookup(run, k, s), Newest(ops[..lo], k, s));
    assert newer + older == EntriesOf(ops, 0, hi);
    NewestIsUnique(EntriesOf(ops, 0, hi), k, s, Newest(ops[..hi], k, s),
                   if Lookup(run, k, s).Some? then Lookup(run, k, s) else Newest(ops[..lo], k, s));
  }

  lemma PrefixEntries(ops: seq<Op>, n: nat)
    requires n <= |ops|
    ensures EntriesOf(ops[..n], 0, |ops[..n]|) == EntriesOf(ops, 0, n)
  {
    assert ops == ops[..n] + ops[n..];
    EntriesOfExtension(ops[..n], ops[n..], 0, n);
  }

  /** The database answers every read from `floor` on exactly like the history. */
  lemma LayersAnswerLikeHistory(db: Db, ssts: map<nat, SstFile>, ops: seq<Op>, floor: nat, k: Bytes, s: nat)
    requires MemInv(db, ops) && Good(db.manifest, db.version, ssts, ops, floor) && floor <= s
    ensures Observed(DbGet(db, k, s)) == Read(ops, k, s)
  {
    hide Sorted;
    hide Newest;
    hide Lookup;
    hide Get;
    hide VersionOk;
    hide EntriesOf;
    var lo := if db.imm.Some? then db.imm.value.last else db.manifest.flushed;
    RunOverPrefix(db.mem, ops, lo, |ops|, k, s);
    assert ops[..|ops|] == ops;
    if db.imm.Some? { RunOverPrefix(db.imm.value.entries, ops, db.manifest.flushed, lo, k, s); }
    assert Answers(db.version, ops, db.manifest.flushed, floor);
  }

  // ---------- a good store stays good ----------

  lemma GoodAtHigherFloor(m: Manifest, v: Version, ssts: map<nat, SstFile>, ops: seq<Op>, floor: nat, floor': nat)
    requires Good(m, v, ssts, ops, floor) && floor <= floor'
    ensures Good(m, v, ssts, ops, floor')
  {
    hide VersionOk;
    hide Get;
    hide Newest;
  }

  lemma GoodWithMoreOps(m: Manifest, v: Version, ssts: map<nat, SstFile>, ops: seq<Op>, more: seq<Op>, floor: nat)
    requires Good(m, v, ssts, ops, floor)
    ensures Good(m, v, ssts, ops + more, floor)
  {
    hide VersionOk;
    hide Get;
    hide Newest;
    assert (ops + more)[..m.flushed] == ops[..m.flushed];
    EntriesOfExtension(ops, more, 0, m.flushed);
  }

  lemma {:induction false} NumberOfTable(ts: seq<Table>, i: nat)
    requires i < |ts|
    ensures ts[i].meta.number in Numbers(ts)
  {
    if 0 < i { NumberOfTable(ts[1..], i - 1); }
  }

  lemma {:induction false} TableOfNumber(ts: seq<Table>, n: nat) returns (i: nat)
    requires n in Numbers(ts)
    ensures i < |ts| && ts[i].meta.number == n
  {
    if ts[0].meta.number == n {
      i := 0;
    } else {
      var j := TableOfNumber(ts[1..], n);
      i := j + 1;
    }
  }

  lemma BackedSurvives(ssts: map<nat, SstFile>, ssts': map<nat, SstFile>, ts: seq<Table>)
    requires BackedTables(ssts, ts)
    requires forall n :: n in Numbers(ts) && n in ssts ==> n in ssts' && ssts'[n] == ssts[n]
    ensures BackedTables(ssts', ts)
  {
    forall i | 0 <= i < |ts|
      ensures ts[i].meta.number in ssts' && ssts'[ts[i].meta.number] == SstFile(ts[i].meta.size, ts[i].entries)
    {
      NumberOfTable(ts, i);
    }
  }

  /** Files the version does not use may come and go. */
  lemma GoodWithOtherFiles(m: Manifest, v: Version, ssts: map<nat, SstFile>, ssts': map<nat, SstFile>, ops: seq<Op>, floor: nat)
    requires Good(m, v, ssts, ops, floor)
    requires forall n :: n in NumbersOf(v) && n in ssts ==> n in ssts' && ssts'[n] == ssts[n]
    ensures Good(m, v, ssts', ops, floor)
  {
    hide VersionOk;
    hide Get;
    hide Newest;
    hide Numbers;
    hide EntriesOf;
    hide BackedTables;
    assert |v.levels| == NUM_LEVELS;
    forall l | 0 <= l < |v.levels| ensures BackedTables(ssts', v.levels[l]) {
      assert BackedTables(ssts, v.levels[l]);
      assert l == 0 || l == 1 || l == 2;
      BackedSurvives(ssts, ssts', v.levels[l]);
    }
  }

  lemma BackedNumbersExist(ssts: map<nat, SstFile>, v: Version, n: nat)
    requires |v.levels| == NUM_LEVELS && Backed(ssts, v) && n in NumbersOf(v)
    ensures n in ssts
  {
    var l := if n in Numbers(v.levels[0]) then 0 else if n in Numbers(v.levels[1]) then 1 else 2;
    assert BackedTables(ssts, v.levels[l]);
    var i := TableOfNumber(v.levels[l], n);
  }

  lemma LiveNumbers(m: Manifest, v: Version, n: nat)
    requires |v.levels| == NUM_LEVELS && m.levels == MetasOf(v) && n in NumbersOf(v)
    ensures IsLive(m, n)
  {
    var l := if n in Numbers(v.levels[0]) then 0 else if n in Numbers(v.levels[1]) then 1 else 2;
    var i := TableOfNumber(v.levels[l], n);
    assert m.levels[l][i].number == n;
  }

  // ---------- flush ----------

  lemma MadeTableIsOk(number: nat, size: nat, entries: seq<Entry>)
    requires entries != [] && Sorted(entries) && 0 < number && 0 < size
    ensures TableOk(MakeTable(number, size, entries))
  {}

  lemma FlushLookup(v: Version, t: Table, k: Bytes, s: nat)
    requires |v.levels| == NUM_LEVELS
    ensures Get(WithLevel0Table(v, t), k, s) ==
              if Lookup(t.entries, k, s).Some? then Lookup(t.entries, k, s) else Get(v, k, s)
  {
    hide Lookup;
    assert ([t] + v.levels[0])[0] == t && ([t] + v.levels[0])[1..] == v.levels[0];
  }

  lemma FlushContents(v: Version, t: Table)
    requires |v.levels| == NUM_LEVELS
    ensures LevelSet(WithLevel0Table(v, t).levels[0]) == SetOf(t.entries) + LevelSet(v.levels[0])
    ensures Contents(WithLevel0Table(v, t)) == Contents(v) + SetOf(t.entries)
    ensures NumbersOf(WithLevel0Table(v, t)) == NumbersOf(v) + multiset{t.meta.number}
  {
    assert ([t] + v.levels[0])[0] == t && ([t] + v.levels[0])[1..] == v.levels[0];
  }

  /** Prepending a table whose versions are all newer keeps the layout. */
  lemma FlushKeepsVersionOk(v: Version, t: Table)
    requires VersionOk(v) && TableOk(t) && Newer(SetOf(t.entries), Contents(v))
    requires UniqueVersions(Contents(v) + SetOf(t.entries))
    ensures VersionOk(WithLevel0Table(v, t))
  {
    hide LevelSet;
    var v' := WithLevel0Table(v, t);
    FlushContents(v, t);
    assert v'.levels[1] == v.levels[1] && v'.levels[2] == v.levels[2];
    assert Newer(LevelSet(v.levels[0]), LevelSet(v.levels[1])) && Newer(LevelSet(v.levels[0]), LevelSet(v.levels[2]));
    assert Layered(v');
    FlushNewestFirst(v, t);
    FlushTablesOk(v, t);
  }

  lemma FlushTablesOk(v: Version, t: Table)
    requires LevelsOk(v) && TableOk(t)
    ensures forall level :: 0 <= level < NUM_LEVELS ==> TablesOk(WithLevel0Table(v, t).levels[level])
  {
    hide TableOk;
    var v' := WithLevel0Table(v, t);
    forall level | 0 <= level < NUM_LEVELS ensures TablesOk(v'.levels[level]) {
      assert TablesOk(v.levels[level]);
    }
  }

  lemma FlushNewestFirst(v: Version, t: Table)
    requires |v.levels| == NUM_LEVELS && NewestFirst(v.levels[0]) && Newer(SetOf(t.entries), Contents(v))
    ensures NewestFirst(WithLevel0Table(v, t).levels[0])
  {
    var ts := v.levels[0];
    forall i, j | 0 <= i < j < |ts| + 1
      ensures Newer(SetOf(([t] + ts)[i].entries), SetOf(([t] + ts)[j].entries))
    {
      TableInLevel(ts, j - 1);
      if 0 < i { assert Newer(SetOf(ts[i - 1].entries), SetOf(ts[j - 1].entries)); }
    }
  }

  /** The manifest and the version are spliced separately and stay equal. */
  lemma FlushMetas(v: Version, t: Table)
    requires |v.levels| == NUM_LEVELS
    ensures MetasOf(WithLevel0Table(v, t)) == MetasOf(v)[0 := [t.meta] + MetasOf(v)[0]]
  {
    var l, r := MetasOf(WithLevel0Table(v, t)), MetasOf(v)[0 := [t.meta] + MetasOf(v)[0]];
    assert Metas([t] + v.levels[0]) == [t.meta] + Metas(v.levels[0]);
    forall i | 0 <= i < NUM_LEVELS ensures l[i] == r[i] {}
  }

  lemma FlushAnswers(v: Version, t: Table, ops: seq<Op>, lo: nat, hi: nat, floor: nat)
    requires |v.levels| == NUM_LEVELS && lo <= hi <= |ops| && Answers(v, ops, lo, floor)
    requires Sorted(t.entries) && SetOf(t.entries) == EntriesOf(ops, lo, hi)
    ensures Answers(WithLevel0Table(v, t), ops, hi, floor)
  {
    hide Sorted;
    hide Lookup;
    hide Get;
    hide Newest;
    hide EntriesOf;
    forall k, s | floor <= s
      ensures Observed(Get(WithLevel0Table(v, t), k, s)) == Read(ops[..hi], k, s)
    {
      FlushLookup(v, t, k, s);
      RunOverPrefix(t.entries, ops, lo, hi, k, s);
    }
  }

  lemma FlushBacked(v: Version, t: Table, ssts: map<nat, SstFile>)
    requires |v.levels| == NUM_LEVELS && Backed(ssts, v) && t.meta.number !in NumbersOf(v)
    ensures Backed(ssts[t.meta.number := SstFile(t.meta.size, t.entries)], WithLevel0Table(v, t))
  {
    hide Numbers;
    var ssts', v' := ssts[t.meta.number := SstFile(t.meta.size, t.entries)], WithLevel0Table(v, t);
    forall l | 0 <= l < NUM_LEVELS ensures BackedTables(ssts', v'.levels[l]) {
      assert l == 0 || l == 1 || l == 2;
      assert BackedTables(ssts, v.levels[l]);
      BackedSurvives(ssts, ssts', v.levels[l]);
    }
  }

  /** The flushed candidate is a good store for the longer flushed prefix. */
  lemma FlushIsGood(m: Manifest, v: Version, ssts: map<nat, SstFile>, ops: seq<Op>, floor: nat, t: Table, hi: nat, wal: nat)
    requires Good(m, v, ssts, ops, floor) && m.flushed <= hi <= |ops|
    requires TableOk(t) && SetOf(t.entries) == EntriesOf(ops, m.flushed, hi) && t.meta.number !in NumbersOf(v) && Stamped([t])
    ensures Good(Manifest(hi, wal, m.levels[0 := [t.meta] + m.levels[0]]), WithLevel0Table(v, t),
                 ssts[t.meta.number := SstFile(t.meta.size, t.entries)], ops, floor)
  {
    hide AllStamped;
    hide Published;
    hide Sorted;
    hide Get;
    hide Newest;
    hide LevelsOk;
    hide Layered;
    hide Backed;
    hide Numbers;
    FlushContents(v, t);
    EntriesSplit(ops, 0, m.flushed, hi);
    EntriesUnique(ops, 0, hi);
    FlushKeepsVersionOk(v, t);
    FlushMetas(v, t);
    FlushAnswers(v, t, ops, m.flushed, hi, floor);
    FlushBacked(v, t, ssts);
    FlushStamped(v, t);
  }

  lemma FlushStamped(v: Version, t: Table)
    requires |v.levels| == NUM_LEVELS && AllStamped(v) && Stamped([t])
    ensures AllStamped(WithLevel0Table(v, t))
  {
    var v' := WithLevel0Table(v, t);
    forall l | 0 <= l < NUM_LEVELS ensures Stamped(v'.levels[l]) {
      assert Stamped(v.levels[l]);
      if l == 0 {
        assert [t][0] == t;
        assert v'.levels[0] == [t] + v.levels[0];
      }
    }
  }
}
