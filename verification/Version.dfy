/** The immutable on-disk read state: overlapping L0 tables, newest first, over
    sorted disjoint L1 and L2 tables, and the point lookup that walks them. */
module Versions {
  import opened Bytes
  import opened Entries

  const NUM_LEVELS: nat := 3

  datatype TableMeta = TableMeta(number: nat, size: nat, smallest: InternalKey, largest: InternalKey)

  /** A table as its reader presents it: descriptor plus decoded entries. */
  datatype Table = Table(meta: TableMeta, entries: seq<Entry>)

  datatype Version = Version(levels: seq<seq<Table>>)

  function Smallest(t: Table): Bytes { t.meta.smallest.key }

  function Largest(t: Table): Bytes { t.meta.largest.key }

  /** All entries of a run of tables. */
  ghost function LevelSet(ts: seq<Table>): set<Entry> {
    if ts == [] then {} else SetOf(ts[0].entries) + LevelSet(ts[1..])
  }

  lemma {:induction false} FindTable(ts: seq<Table>, e: Entry) returns (i: nat)
    requires e in LevelSet(ts)
    ensures i < |ts| && e in ts[i].entries
  {
    if e in ts[0].entries {
      i := 0;
    } else {
      var j := FindTable(ts[1..], e);
      i := j + 1;
    }
  }

  lemma {:induction false} TableInLevel(ts: seq<Table>, i: nat)
    requires i < |ts|
    ensures SetOf(ts[i].entries) <= LevelSet(ts)
  {
    if 0 < i { TableInLevel(ts[1..], i - 1); }
  }

  lemma {:induction false} LevelSetConcat(a: seq<Table>, b: seq<Table>)
    ensures LevelSet(a + b) == LevelSet(a) + LevelSet(b)
  {
    if a == [] {
      assert a + b == b;
    } else {
      assert (a + b)[1..] == a[1..] + b;
      LevelSetConcat(a[1..], b);
    }
  }

  ghost function Contents(v: Version): set<Entry>
    requires |v.levels| == NUM_LEVELS
  {
    LevelSet(v.levels[0]) + LevelSet(v.levels[1]) + LevelSet(v.levels[2])
  }

  // ---------- layout invariants ----------

  ghost predicate TableOk(t: Table) {
    && t.entries != [] && Sorted(t.entries)
    && t.meta.smallest == KeyOf(t.entries[0])
    && t.meta.largest == KeyOf(t.entries[|t.entries| - 1])
    && 0 < t.meta.number && 0 < t.meta.size
  }

  ghost predicate TablesOk(ts: seq<Table>) {
    forall i :: 0 <= i < |ts| ==> TableOk(ts[i])
  }

  /** L1/L2: ascending and disjoint by user key, so no user key straddles files. */
  ghost predicate Disjoint(ts: seq<Table>) {
    forall i, j :: 0 <= i < j < |ts| ==> Less(Largest(ts[i]), Smallest(ts[j]))
  }

  /** Every version in `a` of a key is newer than every version of it in `b`. */
  ghost predicate Newer(a: set<Entry>, b: set<Entry>) {
    forall e, f :: e in a && f in b && e.key == f.key ==> e.sn > f.sn
  }

  /** L0 lists newer tables first. */
  ghost predicate NewestFirst(ts: seq<Table>) {
    forall i, j :: 0 <= i < j < |ts| ==> Newer(SetOf(ts[i].entries), SetOf(ts[j].entries))
  }

  ghost predicate Layered(v: Version) {
    forall a, b :: 0 <= a < b < |v.levels| ==> Newer(LevelSet(v.levels[a]), LevelSet(v.levels[b]))
  }

  ghost predicate LevelsOk(v: Version) {
    && |v.levels| == NUM_LEVELS
    && (forall level :: 0 <= level < NUM_LEVELS ==> TablesOk(v.levels[level]))
    && NewestFirst(v.levels[0])
    && (forall level :: 1 <= level < NUM_LEVELS ==> Disjoint(v.levels[level]))
  }

  ghost predicate VersionOk(v: Version) {
    LevelsOk(v) && Layered(v) && UniqueVersions(Contents(v))
  }

  // ---------- lookup ----------

  /** First table of a level whose largest user key is not below `k`. */
  function Candidate(ts: seq<Table>, k: Bytes): (i: nat)
    ensures i <= |ts|
    ensures forall j :: 0 <= j < i ==> Less(Largest(ts[j]), k)
    ensures i < |ts| ==> !Less(Largest(ts[i]), k)
  {
    if ts == [] || !Less(Largest(ts[0]), k) then 0
    else
      var i := Candidate(ts[1..], k);
      assert forall j :: 0 <= j < 1 + i ==> ts[j] == (if j == 0 then ts[0] else ts[1..][j - 1]);
      1 + i
  }

  /** At most one table of a disjoint level can hold `k`. */
  function LevelLookup(ts: seq<Table>, k: Bytes, s: nat): Option<Entry> {
    var i := Candidate(ts, k);
    if i == |ts| || Less(k, Smallest(ts[i])) then None else Lookup(ts[i].entries, k, s)
  }

  /** L0: the first table that answers wins. */
  function Level0Lookup(ts: seq<Table>, k: Bytes, s: nat): Option<Entry> {
    if ts == [] then None
    else
      var r := Lookup(ts[0].entries, k, s);
      if r.Some? then r else Level0Lookup(ts[1..], k, s)
  }

  function Get(v: Version, k: Bytes, s: nat): Option<Entry>
    requires |v.levels| == NUM_LEVELS
  {
    var r0 := Level0Lookup(v.levels[0], k, s);
    if r0.Some? then r0
    else
      var r1 := LevelLookup(v.levels[1], k, s);
      if r1.Some? then r1 else LevelLookup(v.levels[2], k, s)
  }

  // ---------- the first answer is the newest ----------

  lemma FirstAnswerIsNewest(a: set<Entry>, b: set<Entry>, k: Bytes, s: nat, ra: Option<Entry>, rb: Option<Entry>)
    requires Newer(a, b) && IsNewest(a, k, s, ra) && IsNewest(b, k, s, rb)
    ensures IsNewest(a + b, k, s, if ra.Some? then ra else rb)
  {}

  lemma NewestFirstTail(ts: seq<Table>)
    requires ts != [] && TablesOk(ts) && NewestFirst(ts)
    ensures TablesOk(ts[1..]) && NewestFirst(ts[1..])
    ensures Newer(SetOf(ts[0].entries), LevelSet(ts[1..]))
  {
    forall e, f | e in SetOf(ts[0].entries) && f in LevelSet(ts[1..]) && e.key == f.key
      ensures e.sn > f.sn
    {
      var i := FindTable(ts[1..], f);
      assert Newer(SetOf(ts[0].entries), SetOf(ts[i + 1].entries));
    }
  }

  lemma {:induction false} Level0LookupIsNewest(ts: seq<Table>, k: Bytes, s: nat)
    requires TablesOk(ts) && NewestFirst(ts)
    ensures IsNewest(LevelSet(ts), k, s, Level0Lookup(ts, k, s))
  {
    if ts != [] {
      NewestFirstTail(ts);
      Level0LookupIsNewest(ts[1..], k, s);
      LookupIsNewest(ts[0].entries, k, s);
      FirstAnswerIsNewest(SetOf(ts[0].entries), LevelSet(ts[1..]), k, s,
                          Lookup(ts[0].entries, k, s), Level0Lookup(ts[1..], k, s));
    }
  }

  /** Every entry of a table lies inside the table's user-key range. */
  lemma EntryInRange(t: Table, e: Entry)
    requires TableOk(t) && e in t.entries
    ensures !Less(e.key, Smallest(t)) && !Less(Largest(t), e.key)
  {
    LessIsStrictTotalOrder();
    var i :| 0 <= i < |t.entries| && t.entries[i] == e;
    if 0 < i { assert Before(t.entries[0], t.entries[i]); }
    if i < |t.entries| - 1 { assert Before(t.entries[i], t.entries[|t.entries| - 1]); }
  }

  lemma DisjointTablesOrderKeys(ts: seq<Table>, i: nat, j: nat, e: Entry, f: Entry)
    requires TablesOk(ts) && Disjoint(ts) && i < j < |ts| && e in ts[i].entries && f in ts[j].entries
    ensures Less(e.key, f.key)
  {
    EntryInRange(ts[i], e);
    EntryInRange(ts[j], f);
    LessIsStrictTotalOrder();
    assert Less(Largest(ts[i]), Smallest(ts[j]));
  }

  /** In a disjoint level only the candidate table can hold `k`. */
  lemma OnlyCandidateHolds(ts: seq<Table>, k: Bytes, e: Entry, i: nat)
    requires TablesOk(ts) && Disjoint(ts)
    requires i < |ts| && e in ts[i].entries && e.key == k
    ensures Candidate(ts, k) == i && !Less(k, Smallest(ts[i]))
  {
    LessIsStrictTotalOrder();
    EntryInRange(ts[i], e);
    assert forall j :: 0 <= j < i ==> Less(Largest(ts[j]), Smallest(ts[i]));
    assert forall j :: 0 <= j < i ==> Less(Largest(ts[j]), k);
  }

  lemma LevelLookupIsNewest(ts: seq<Table>, k: Bytes, s: nat)
    requires TablesOk(ts) && Disjoint(ts)
    ensures IsNewest(LevelSet(ts), k, s, LevelLookup(ts, k, s))
  {
    var c := Candidate(ts, k);
    forall e | e in LevelSet(ts) && e.key == k
      ensures c < |ts| && e in ts[c].entries && !Less(k, Smallest(ts[c]))
    {
      var i := FindTable(ts, e);
      OnlyCandidateHolds(ts, k, e, i);
    }
    if c < |ts| && !Less(k, Smallest(ts[c])) {
      LookupIsNewest(ts[c].entries, k, s);
      TableInLevel(ts, c);
    }
  }

  /** The layered lookup that stops at the first answer finds the newest visible
      entry of the whole version. */
  lemma GetIsNewest(v: Version, k: Bytes, s: nat)
    requires VersionOk(v)
    ensures IsNewest(Contents(v), k, s, Get(v, k, s))
  {
    var l0, l1, l2 := LevelSet(v.levels[0]), LevelSet(v.levels[1]), LevelSet(v.levels[2]);
    Level0LookupIsNewest(v.levels[0], k, s);
    LevelLookupIsNewest(v.levels[1], k, s);
    LevelLookupIsNewest(v.levels[2], k, s);
    FirstAnswerIsNewest(l0, l1, k, s, Level0Lookup(v.levels[0], k, s), LevelLookup(v.levels[1], k, s));
    var r01 := if Level0Lookup(v.levels[0], k, s).Some? then Level0Lookup(v.levels[0], k, s)
               else LevelLookup(v.levels[1], k, s);
    FirstAnswerIsNewest(l0 + l1, l2, k, s, r01, LevelLookup(v.levels[2], k, s));
  }

  // ---------- the loops of `Version::get` ----------

  /** `std::lower_bound` over a disjoint level. */
  method LowerBound(ts: seq<Table>, k: Bytes) returns (i: nat)
    requires TablesOk(ts) && Disjoint(ts)
    ensures i == Candidate(ts, k)
  {
    LessIsStrictTotalOrder();
    var first, count := 0, |ts|;
    while count > 0
      invariant 0 <= first && 0 <= count && first + count <= |ts|
      invariant forall j :: 0 <= j < first ==> Less(Largest(ts[j]), k)
      invariant first + count < |ts| ==> !Less(Largest(ts[first + count]), k)
    {
      var step := count / 2;
      if Less(Largest(ts[first + step]), k) {
        forall j | 0 <= j < first + step ensures Less(Largest(ts[j]), k) {
          EntryInRange(ts[first + step], ts[first + step].entries[0]);
          assert Less(Largest(ts[j]), Smallest(ts[first + step]));
        }
        first, count := first + step + 1, count - step - 1;
      } else {
        count := step;
      }
    }
    i := first;
  }
}
