/** What `newIterator` builds over a running database: its children share no entry, and
    the keys the iterator shows are those the history has a value for. */
module IteratorHistories {
  import opened Bytes
  import opened Entries
  import opened Versions
  import opened BatchCodec
  import opened History
  import opened Engine
  import opened World
  import opened Iterators
  import opened IteratorViews
  import opened DbIterators

  // ---------- the children ----------

  function Start(es: seq<Entry>): Cursor { Cursor(es, 0) }

  function TableCursors(ts: seq<Table>): (cs: seq<Cursor>)
    ensures |cs| == |ts| && forall i :: 0 <= i < |ts| ==> cs[i] == Start(ts[i].entries)
  {
    seq(|ts|, i requires 0 <= i < |ts| => Start(ts[i].entries))
  }

  function VersionCursors(v: Version): seq<Cursor>
    requires |v.levels| == NUM_LEVELS
  {
    TableCursors(v.levels[0]) + TableCursors(v.levels[1]) + TableCursors(v.levels[2])
  }

  /** The children in the order `newIterator` collects them. */
  function Children(db: Db): seq<Cursor>
    requires |db.version.levels| == NUM_LEVELS
  {
    [Start(db.mem)] + (if db.imm.Some? then [Start(db.imm.value.entries)] else []) + VersionCursors(db.version)
  }

  // ---------- concatenations of children ----------

  lemma {:induction false} AllVisConcat(a: seq<Cursor>, b: seq<Cursor>, s: nat)
    ensures AllVis(a + b, s) == AllVis(a, s) + AllVis(b, s)
  {
    if a == [] {
      assert a + b == b;
    } else {
      assert (a + b)[1..] == a[1..] + b;
      AllVisConcat(a[1..], b, s);
    }
  }

  lemma {:induction false} DistinctConcat(a: seq<Cursor>, b: seq<Cursor>, s: nat)
    requires Distinct(a, s) && Distinct(b, s) && AllVis(a, s) !! AllVis(b, s)
    ensures Distinct(a + b, s)
  {
    hide Vis;
    if a == [] {
      assert a + b == b;
    } else {
      assert (a + b)[1..] == a[1..] + b;
      DistinctConcat(a[1..], b, s);
      AllVisConcat(a[1..], b, s);
    }
  }

  lemma OneChild(es: seq<Entry>, s: nat)
    ensures Distinct([Start(es)], s) && forall e :: e in AllVis([Start(es)], s) <==> e in es && e.sn <= s
  {
    assert AllVis([Start(es)][1..], s) == {};
  }

  // ---------- one level ----------

  lemma {:induction false} LevelVis(ts: seq<Table>, s: nat)
    ensures forall e :: e in AllVis(TableCursors(ts), s) <==> e in LevelSet(ts) && e.sn <= s
  {
    if ts != [] {
      assert TableCursors(ts)[1..] == TableCursors(ts[1..]);
      LevelVis(ts[1..], s);
    }
  }

  /** No entry is in two tables of the run. */
  ghost predicate Apart(ts: seq<Table>) {
    forall i, j :: 0 <= i < j < |ts| ==> SetOf(ts[i].entries) !! SetOf(ts[j].entries)
  }

  lemma {:induction false} ApartIsDistinct(ts: seq<Table>, s: nat)
    requires Apart(ts)
    ensures Distinct(TableCursors(ts), s)
  {
    hide LevelSet;
    if ts != [] {
      var rest := ts[1..];
      assert Apart(rest) by {
        forall i, j | 0 <= i < j < |rest| ensures SetOf(rest[i].entries) !! SetOf(rest[j].entries) {
          assert rest[i] == ts[i + 1] && rest[j] == ts[j + 1];
        }
      }
      assert TableCursors(ts)[1..] == TableCursors(rest);
      ApartIsDistinct(rest, s);
      LevelVis(rest, s);
      forall j, e | 0 <= j < |rest| && e in rest[j].entries ensures e !in ts[0].entries {
        assert SetOf(ts[0].entries) !! SetOf(ts[j + 1].entries) && e in SetOf(ts[j + 1].entries);
      }
      forall e | e in Vis(TableCursors(ts)[0], s) ensures e !in AllVis(TableCursors(rest), s) {
        if e in LevelSet(rest) {
          var j := FindTable(rest, e);
        }
      }
    }
  }

  lemma NewestFirstIsApart(ts: seq<Table>)
    requires NewestFirst(ts)
    ensures Apart(ts)
  {
    forall i, j | 0 <= i < j < |ts| ensures SetOf(ts[i].entries) !! SetOf(ts[j].entries) {
      assert Newer(SetOf(ts[i].entries), SetOf(ts[j].entries));
    }
  }

  lemma DisjointIsApart(ts: seq<Table>)
    requires TablesOk(ts) && Disjoint(ts)
    ensures Apart(ts)
  {
    hide TablesOk;
    hide Disjoint;
    forall i, j, e | 0 <= i < j < |ts| && e in SetOf(ts[i].entries) ensures e !in SetOf(ts[j].entries) {
      if e in SetOf(ts[j].entries) {
        DisjointTablesOrderKeys(ts, i, j, e, e);
        LessIrreflexive(e.key);
      }
    }
  }

  lemma NewerIsApart(a: set<Entry>, b: set<Entry>)
    requires Newer(a, b)
    ensures a !! b
  {}

  // ---------- the version ----------

  lemma VersionChildren(v: Version, s: nat)
    requires VersionOk(v)
    ensures Distinct(VersionCursors(v), s)
    ensures forall e :: e in AllVis(VersionCursors(v), s) <==> e in Contents(v) && e.sn <= s
  {
    hide TablesOk;
    hide NewestFirst;
    hide Disjoint;
    hide LevelSet;
    hide Newer;
    hide Distinct;
    hide AllVis;
    hide Apart;
    hide UniqueVersions;
    var c0, c1, c2 := TableCursors(v.levels[0]), TableCursors(v.levels[1]), TableCursors(v.levels[2]);
    var l0, l1, l2 := LevelSet(v.levels[0]), LevelSet(v.levels[1]), LevelSet(v.levels[2]);
    NewestFirstIsApart(v.levels[0]);
    DisjointIsApart(v.levels[1]);
    DisjointIsApart(v.levels[2]);
    ApartIsDistinct(v.levels[0], s);
    ApartIsDistinct(v.levels[1], s);
    ApartIsDistinct(v.levels[2], s);
    LevelVis(v.levels[0], s);
    LevelVis(v.levels[1], s);
    LevelVis(v.levels[2], s);
    assert Newer(l0, l1) && Newer(l0, l2) && Newer(l1, l2);
    NewerIsApart(l0, l1);
    NewerIsApart(l0, l2);
    NewerIsApart(l1, l2);
    AllVisConcat(c0, c1, s);
    DistinctConcat(c0, c1, s);
    AllVisConcat(c0 + c1, c2, s);
    DistinctConcat(c0 + c1, c2, s);
  }

  // ---------- the whole database ----------

  /** Everything a reader could find. */
  ghost function Everything(db: Db): set<Entry>
    requires |db.version.levels| == NUM_LEVELS
  {
    SetOf(db.mem) + (if db.imm.Some? then SetOf(db.imm.value.entries) else {}) + Contents(db.version)
  }

  /** The layers hold consecutive parts of the history, so they share nothing. */
  lemma LayersApart(db: Db, ops: seq<Op>)
    requires |db.version.levels| == NUM_LEVELS && MemInv(db, ops) && Contents(db.version) <= EntriesOf(ops, 0, db.manifest.flushed)
    ensures SetOf(db.mem) !! Contents(db.version) && UniqueVersions(Everything(db))
    ensures db.imm.Some? ==> SetOf(db.mem) !! SetOf(db.imm.value.entries) && SetOf(db.imm.value.entries) !! Contents(db.version)
  {
    hide Sorted;
    hide Contents;
    EntriesUnique(ops, 0, db.last);
  }

  /** The visible entries of the first children and the rest together. */
  lemma FirstChild(es: seq<Entry>, cs: seq<Cursor>, rest: set<Entry>, s: nat)
    requires Distinct(cs, s) && SetOf(es) !! rest
    requires forall e :: e in AllVis(cs, s) <==> e in rest && e.sn <= s
    ensures Distinct([Start(es)] + cs, s)
    ensures forall e :: e in AllVis([Start(es)] + cs, s) <==> e in SetOf(es) + rest && e.sn <= s
  {
    hide Distinct;
    hide AllVis;
    OneChild(es, s);
    forall e | e in AllVis([Start(es)], s) ensures e !in AllVis(cs, s) { assert e in SetOf(es); }
    AllVisConcat([Start(es)], cs, s);
    DistinctConcat([Start(es)], cs, s);
  }

  lemma ChildrenShowEverything(db: Db, ops: seq<Op>, s: nat)
    requires VersionOk(db.version) && MemInv(db, ops) && Contents(db.version) <= EntriesOf(ops, 0, db.manifest.flushed)
    ensures CursorsOk(Children(db)) && Distinct(Children(db), s) && UniqueVersions(AllVis(Children(db), s))
    ensures forall e :: e in AllVis(Children(db), s) <==> e in Everything(db) && e.sn <= s
  {
    hide Sorted;
    hide Distinct;
    hide AllVis;
    hide EntriesOf;
    hide LevelsOk;
    hide Layered;
    hide Contents;
    hide CursorsOk;
    LevelCount(db.version);
    var tail, all := VersionCursors(db.version), Contents(db.version);
    hide VersionCursors;
    LayersApart(db, ops);
    SortedChildren(db);
    VersionChildren(db.version, s);
    if db.imm.Some? {
      var frozen := db.imm.value.entries;
      FirstChild(frozen, tail, all, s);
      FirstChild(db.mem, [Start(frozen)] + tail, SetOf(frozen) + all, s);
      assert Children(db) == [Start(db.mem)] + ([Start(frozen)] + tail);
    } else {
      FirstChild(db.mem, tail, all, s);
      assert Children(db) == [Start(db.mem)] + tail;
    }
  }

  lemma LevelCount(v: Version)
    requires VersionOk(v)
    ensures |v.levels| == NUM_LEVELS
  {}

  lemma SortedChildren(db: Db)
    requires VersionOk(db.version) && Sorted(db.mem) && (db.imm.Some? ==> Sorted(db.imm.value.entries))
    ensures CursorsOk(Children(db))
  {
    hide Sorted;
    hide Layered;
    hide UniqueVersions;
    hide NewestFirst;
    hide Disjoint;
    forall i | 0 <= i < |Children(db)| ensures CursorOk(Children(db)[i]) {
      var c := Children(db)[i];
    }
  }

  // ---------- what the iterator shows ----------

  lemma LayersNewer(db: Db, ops: seq<Op>)
    requires |db.version.levels| == NUM_LEVELS && MemInv(db, ops) && Contents(db.version) <= EntriesOf(ops, 0, db.manifest.flushed)
    ensures Newer(SetOf(db.mem), (if db.imm.Some? then SetOf(db.imm.value.entries) else {}) + Contents(db.version))
    ensures db.imm.Some? ==> Newer(SetOf(db.imm.value.entries), Contents(db.version))
  {
    hide Sorted;
    hide Contents;
  }

  /** The layered read finds the newest entry there is. */
  lemma DbGetIsNewest(db: Db, ops: seq<Op>, k: Bytes, s: nat)
    requires VersionOk(db.version) && MemInv(db, ops) && Contents(db.version) <= EntriesOf(ops, 0, db.manifest.flushed)
    ensures IsNewest(Everything(db), k, s, DbGet(db, k, s))
  {
    hide Sorted;
    hide EntriesOf;
    hide LevelsOk;
    hide Layered;
    hide UniqueVersions;
    hide Contents;
    hide Get;
    hide Lookup;
    hide Newer;
    hide IsNewest;
    LevelCount(db.version);
    LayersNewer(db, ops);
    GetIsNewest(db.version, k, s);
    LookupIsNewest(db.mem, k, s);
    var all, found := Contents(db.version), Get(db.version, k, s);
    if db.imm.Some? {
      var frozen := db.imm.value.entries;
      LookupIsNewest(frozen, k, s);
      FirstAnswerIsNewest(SetOf(frozen), all, k, s, Lookup(frozen, k, s), found);
      var older := if Lookup(frozen, k, s).Some? then Lookup(frozen, k, s) else found;
      FirstAnswerIsNewest(SetOf(db.mem), SetOf(frozen) + all, k, s, Lookup(db.mem, k, s), older);
      assert Everything(db) == SetOf(db.mem) + (SetOf(frozen) + all);
    } else {
      assert {} + all == all;
      FirstAnswerIsNewest(SetOf(db.mem), all, k, s, Lookup(db.mem, k, s), found);
      assert Everything(db) == SetOf(db.mem) + all;
    }
  }

  lemma NewestOfVisible(all: set<Entry>, vis: set<Entry>, k: Bytes, s: nat, r: Option<Entry>)
    requires IsNewest(all, k, s, r) && forall e :: e in vis <==> e in all && e.sn <= s
    ensures IsNewest(vis, k, s, r)
  {}

  /** An iterator at `s` shows exactly the keys a read at `s` finds, with the same values. */
  lemma IteratorAgreesWithReads(db: Db, ops: seq<Op>, k: Bytes, s: nat, value: Bytes)
    requires VersionOk(db.version) && MemInv(db, ops) && Contents(db.version) <= EntriesOf(ops, 0, db.manifest.flushed)
    ensures Shown(AllVis(Children(db), s), k, s) <==> Observed(DbGet(db, k, s)).Some?
    ensures Gives(AllVis(Children(db), s), k, s, value) <==> Observed(DbGet(db, k, s)) == Some(value)
  {
    hide Sorted;
    hide EntriesOf;
    hide LevelsOk;
    hide Layered;
    hide Contents;
    hide DbGet;
    hide IsNewest;
    hide AllVis;
    hide UniqueVersions;
    hide MemInv;
    LevelCount(db.version);
    var vis, r := AllVis(Children(db), s), DbGet(db, k, s);
    hide Children;
    hide Everything;
    ChildrenShowEverything(db, ops, s);
    DbGetIsNewest(db, ops, k, s);
    NewestOfVisible(Everything(db), vis, k, s, r);
    forall e | IsNewest(vis, k, s, Some(e)) ensures r == Some(e) { NewestIsUnique(vis, k, s, r, Some(e)); }
  }
}
