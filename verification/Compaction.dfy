/** Compaction as a rewrite of two adjacent levels: which tables it takes, which
    versions it drops, where it cuts its output files, and why no read at or
    above the oldest live snapshot can tell the difference. */
module Compaction {
  import opened Bytes
  import opened Entries
  import opened Versions

  const LEVEL0_TRIGGER: nat := 4
  const LEVEL1_BYTES: nat := 10 * 1024 * 1024

  /** A fixed choice of input tables: `inputs` = [inBegin, inEnd) of `level`,
      `overlaps` = [ovBegin, ovEnd) of `level + 1`. */
  datatype Plan = Plan(level: nat, inBegin: nat, inEnd: nat, ovBegin: nat, ovEnd: nat, oldest: nat)

  predicate PlanInBounds(v: Version, p: Plan) {
    && |v.levels| == NUM_LEVELS && p.level < 2
    && p.inBegin < p.inEnd <= |v.levels[p.level]|
    && p.ovBegin <= p.ovEnd <= |v.levels[p.level + 1]|
  }

  function Inputs(v: Version, p: Plan): seq<Table>
    requires PlanInBounds(v, p)
  {
    v.levels[p.level][p.inBegin..p.inEnd]
  }

  function Overlaps(v: Version, p: Plan): seq<Table>
    requires PlanInBounds(v, p)
  {
    v.levels[p.level + 1][p.ovBegin..p.ovEnd]
  }

  ghost function InputSet(v: Version, p: Plan): set<Entry>
    requires PlanInBounds(v, p)
  {
    LevelSet(Inputs(v, p)) + LevelSet(Overlaps(v, p))
  }

  // ---------- picking ----------

  function TotalSize(ts: seq<Table>): nat {
    if ts == [] then 0 else ts[0].meta.size + TotalSize(ts[1..])
  }

  predicate AtLimit(ts: seq<Table>, limit: nat) { ts != [] && TotalSize(ts) >= limit }

  /** `levelAtLimit`: subtract table sizes from the budget until it is used up. */
  method LevelAtLimit(ts: seq<Table>, limit: nat) returns (full: bool)
    ensures full == AtLimit(ts, limit)
  {
    if ts == [] { return false; }
    if limit == 0 { return true; }
    var remaining := limit;
    var i := 0;
    while i < |ts|
      invariant 0 <= i <= |ts| && 0 < remaining
      invariant TotalSize(ts) - limit == TotalSize(ts[i..]) - remaining
    {
      assert ts[i..][1..] == ts[i + 1..];
      if ts[i].meta.size >= remaining { return true; }
      remaining := remaining - ts[i].meta.size;
      i := i + 1;
    }
    return false;
  }

  /** The user-key hull of [lo, hi] and a run of tables. */
  function Widen(ts: seq<Table>, lo: Bytes, hi: Bytes): (Bytes, Bytes) {
    if ts == [] then (lo, hi)
    else Widen(ts[1..],
               if Less(Smallest(ts[0]), lo) then Smallest(ts[0]) else lo,
               if Less(hi, Largest(ts[0])) then Largest(ts[0]) else hi)
  }

  lemma {:induction false} WidenCovers(ts: seq<Table>, lo: Bytes, hi: Bytes)
    ensures !Less(lo, Widen(ts, lo, hi).0) && !Less(Widen(ts, lo, hi).1, hi)
    ensures forall i :: 0 <= i < |ts| ==>
              !Less(Smallest(ts[i]), Widen(ts, lo, hi).0) && !Less(Widen(ts, lo, hi).1, Largest(ts[i]))
  {
    LessIsStrictTotalOrder();
    if ts != [] {
      WidenCovers(ts[1..],
                  if Less(Smallest(ts[0]), lo) then Smallest(ts[0]) else lo,
                  if Less(hi, Largest(ts[0])) then Largest(ts[0]) else hi);
      assert forall i :: 1 <= i < |ts| ==> ts[i] == ts[1..][i - 1];
    }
  }

  function UserRange(ts: seq<Table>): (Bytes, Bytes)
    requires ts != []
  {
    Widen(ts[1..], Smallest(ts[0]), Largest(ts[0]))
  }

  method ComputeUserRange(ts: seq<Table>) returns (lo: Bytes, hi: Bytes)
    requires ts != []
    ensures (lo, hi) == UserRange(ts)
  {
    lo, hi := Smallest(ts[0]), Largest(ts[0]);
    for i := 1 to |ts|
      invariant UserRange(ts) == Widen(ts[i..], lo, hi)
    {
      assert ts[i..][1..] == ts[i + 1..];
      if Less(Smallest(ts[i]), lo) { lo := Smallest(ts[i]); }
      if Less(hi, Largest(ts[i])) { hi := Largest(ts[i]); }
    }
  }

  lemma UserRangeCovers(ts: seq<Table>, i: nat)
    requires i < |ts|
    ensures !Less(Smallest(ts[i]), UserRange(ts).0) && !Less(UserRange(ts).1, Largest(ts[i]))
  {
    WidenCovers(ts[1..], Smallest(ts[0]), Largest(ts[0]));
    if 0 < i { assert ts[i] == ts[1..][i - 1]; }
  }

  /** First table from `begin` on that starts above `hi`. */
  function OverlapEnd(ts: seq<Table>, begin: nat, hi: Bytes): (end: nat)
    requires begin <= |ts|
    ensures begin <= end <= |ts|
    ensures end < |ts| ==> Less(hi, Smallest(ts[end]))
    ensures forall j :: begin <= j < end ==> !Less(hi, Smallest(ts[j]))
    decreases |ts| - begin
  {
    if begin == |ts| || Less(hi, Smallest(ts[begin])) then begin else OverlapEnd(ts, begin + 1, hi)
  }

  function Pick(v: Version, oldest: nat, level1Bytes: nat): Option<Plan>
    requires |v.levels| == NUM_LEVELS
  {
    var chosen: Option<(nat, nat)> :=
                  if |v.levels[0]| >= LEVEL0_TRIGGER then Some((0, |v.levels[0]|))
                  else if AtLimit(v.levels[1], level1Bytes) then Some((1, 1))
                  else None;
    match chosen
    case None => None
    case Some((level, inEnd)) =>
      var (lo, hi) := UserRange(v.levels[level][..inEnd]);
      var begin := Candidate(v.levels[level + 1], lo);
      Some(Plan(level, 0, inEnd, begin, OverlapEnd(v.levels[level + 1], begin, hi), oldest))
  }

  /** `overlappingRange`: a binary search for the first table, a scan for the end. */
  method FindOverlaps(ts: seq<Table>, lo: Bytes, hi: Bytes) returns (begin: nat, end: nat)
    requires TablesOk(ts) && Disjoint(ts)
    ensures begin == Candidate(ts, lo) && end == OverlapEnd(ts, begin, hi)
  {
    begin := LowerBound(ts, lo);
    end := begin;
    while end < |ts| && !Less(hi, Smallest(ts[end]))
      invariant begin <= end <= |ts| && OverlapEnd(ts, begin, hi) == OverlapEnd(ts, end, hi)
    {
      end := end + 1;
    }
  }

  method PickCompaction(v: Version, oldest: nat, level1Bytes: nat) returns (r: Option<Plan>)
    requires LevelsOk(v)
    ensures r == Pick(v, oldest, level1Bytes)
  {
    hide TablesOk;
    hide Disjoint;
    hide NewestFirst;
    hide UserRange;
    hide Candidate;
    hide TotalSize;
    var level, inEnd := 0, |v.levels[0]|;
    if |v.levels[0]| < LEVEL0_TRIGGER {
      var full := LevelAtLimit(v.levels[1], level1Bytes);
      if !full { return None; }
      level, inEnd := 1, 1;
    }
    var lo, hi := ComputeUserRange(v.levels[level][..inEnd]);
    var begin, end := FindOverlaps(v.levels[level + 1], lo, hi);
    return Some(Plan(level, 0, inEnd, begin, end, oldest));
  }

  /** The input tables bring every table of the output level that could hold one
      of their user keys. */
  ghost predicate PlanOk(v: Version, p: Plan) {
    && PlanInBounds(v, p)
    && (p.level == 0 ==> p.inBegin == 0 && p.inEnd == |v.levels[0]|)
    && forall e :: e in InputSet(v, p) ==> Separated(v, p, e.key)
  }

  /** Output-level tables left of the overlaps end below `k`, those right of them
      start above `k`. */
  ghost predicate Separated(v: Version, p: Plan, k: Bytes)
    requires PlanInBounds(v, p)
  {
    var target := v.levels[p.level + 1];
    && (forall j :: 0 <= j < p.ovBegin ==> Less(Largest(target[j]), k))
    && (forall j :: p.ovEnd <= j < |target| ==> Less(k, Smallest(target[j])))
  }

  /** Both ends of the splice: a key inside the hull, or inside an overlap table. */
  lemma HullSeparates(v: Version, p: Plan, lo: Bytes, hi: Bytes, k: Bytes)
    requires PlanInBounds(v, p)
    requires TablesOk(v.levels[p.level + 1]) && Disjoint(v.levels[p.level + 1])
    requires p.ovBegin == Candidate(v.levels[p.level + 1], lo)
    requires p.ovEnd == OverlapEnd(v.levels[p.level + 1], p.ovBegin, hi)
    requires !Less(k, lo) && !Less(hi, k)
    ensures Separated(v, p, k)
  {
    LessIsStrictTotalOrder();
    var target := v.levels[p.level + 1];
    forall j | p.ovEnd <= j < |target| ensures Less(k, Smallest(target[j])) {
      if p.ovEnd < j {
        EntryInRange(target[p.ovEnd], target[p.ovEnd].entries[0]);
        assert Less(Largest(target[p.ovEnd]), Smallest(target[j]));
      }
    }
  }

  lemma OverlapKeysSeparate(v: Version, p: Plan, e: Entry)
    requires PlanInBounds(v, p)
    requires TablesOk(v.levels[p.level + 1]) && Disjoint(v.levels[p.level + 1])
    requires e in LevelSet(Overlaps(v, p))
    ensures Separated(v, p, e.key)
  {
    LessIsStrictTotalOrder();
    var target := v.levels[p.level + 1];
    var i := FindTable(Overlaps(v, p), e);
    var t := target[p.ovBegin + i];
    EntryInRange(t, e);
    assert forall j :: 0 <= j < p.ovBegin ==> Less(Largest(target[j]), Smallest(t));
    assert forall j :: p.ovEnd <= j < |target| ==> Less(Largest(t), Smallest(target[j]));
  }

  /** Every plan the picker returns brings its complete overlap. */
  lemma PickedPlanIsOk(v: Version, oldest: nat, level1Bytes: nat)
    requires VersionOk(v) && Pick(v, oldest, level1Bytes).Some?
    ensures PlanOk(v, Pick(v, oldest, level1Bytes).value)
    ensures Pick(v, oldest, level1Bytes).value.oldest == oldest
  {
    hide Less;
    hide Widen;
    LessIsStrictTotalOrder();
    var p := Pick(v, oldest, level1Bytes).value;
    var ins := Inputs(v, p);
    var (lo, hi) := UserRange(ins);
    forall e | e in InputSet(v, p) ensures Separated(v, p, e.key) {
      if e in LevelSet(Overlaps(v, p)) {
        OverlapKeysSeparate(v, p, e);
      } else {
        var i := FindTable(ins, e);
        EntryInRange(ins[i], e);
        UserRangeCovers(ins, i);
        HullSeparates(v, p, lo, hi, e.key);
      }
    }
  }

  /** A level is due for compaction. */
  predicate Due(v: Version, level1Bytes: nat)
    requires |v.levels| == NUM_LEVELS
  {
    |v.levels[0]| >= LEVEL0_TRIGGER || (v.levels[1] != [] && TotalSize(v.levels[1]) >= level1Bytes)
  }

  lemma {:induction false} WidenAttained(ts: seq<Table>, lo: Bytes, hi: Bytes) returns (a: nat, b: nat)
    ensures a <= |ts| && Widen(ts, lo, hi).0 == if a < |ts| then Smallest(ts[a]) else lo
    ensures b <= |ts| && Widen(ts, lo, hi).1 == if b < |ts| then Largest(ts[b]) else hi
  {
    if ts == [] {
      a, b := 0, 0;
    } else {
      var lo' := if Less(Smallest(ts[0]), lo) then Smallest(ts[0]) else lo;
      var hi' := if Less(hi, Largest(ts[0])) then Largest(ts[0]) else hi;
      a, b := WidenAttained(ts[1..], lo', hi');
      a := if a < |ts| - 1 then a + 1 else if lo' == lo then |ts| else 0;
      b := if b < |ts| - 1 then b + 1 else if hi' == hi then |ts| else 0;
    }
  }

  lemma UserRangeAttained(ts: seq<Table>) returns (a: nat, b: nat)
    requires ts != []
    ensures a < |ts| && b < |ts| && UserRange(ts) == (Smallest(ts[a]), Largest(ts[b]))
  {
    a, b := WidenAttained(ts[1..], Smallest(ts[0]), Largest(ts[0]));
    a := if a < |ts| - 1 then a + 1 else 0;
    b := if b < |ts| - 1 then b + 1 else 0;
  }

  /** Some input starts no later than the table ends, and some input ends no earlier than it starts. */
  ghost predicate Touches(ins: seq<Table>, t: Table) {
    && (exists a :: 0 <= a < |ins| && !Less(Largest(t), Smallest(ins[a])))
    && (exists b :: 0 <= b < |ins| && !Less(Largest(ins[b]), Smallest(t)))
  }

  /** A compaction is picked exactly when a level is due; it takes all of L0, or the first
      table of L1, and of the output level only tables its inputs touch. */
  lemma PickedExactly(v: Version, oldest: nat, level1Bytes: nat)
    requires LevelsOk(v)
    ensures Pick(v, oldest, level1Bytes).Some? <==> Due(v, level1Bytes)
    ensures Pick(v, oldest, level1Bytes).Some? ==>
      var p := Pick(v, oldest, level1Bytes).value;
      && PlanInBounds(v, p) && p.oldest == oldest && p.inBegin == 0
      && (|v.levels[0]| >= LEVEL0_TRIGGER ==> p.level == 0 && p.inEnd == |v.levels[0]|)
      && (|v.levels[0]| < LEVEL0_TRIGGER ==> p.level == 1 && p.inEnd == 1)
      && forall t :: t in Overlaps(v, p) ==> Touches(Inputs(v, p), t)
  {
    hide Pick;
    hide TablesOk;
    hide NewestFirst;
    hide Disjoint;
    hide Touches;
    hide Due;
    hide Candidate;
    hide OverlapEnd;
    hide UserRange;
    PickShape(v, oldest, level1Bytes);
    if Pick(v, oldest, level1Bytes).Some? {
      var p := Pick(v, oldest, level1Bytes).value;
      var ins, target := Inputs(v, p), v.levels[p.level + 1];
      forall t | t in Overlaps(v, p) ensures Touches(ins, t) {
        var j :| 0 <= j < |Overlaps(v, p)| && Overlaps(v, p)[j] == t;
        RangeTouches(ins, target, p.ovBegin, p.ovEnd, p.ovBegin + j);
      }
    }
  }

  lemma PickShape(v: Version, oldest: nat, level1Bytes: nat)
    requires |v.levels| == NUM_LEVELS
    ensures Pick(v, oldest, level1Bytes).Some? <==> Due(v, level1Bytes)
    ensures Pick(v, oldest, level1Bytes).Some? ==>
      var p := Pick(v, oldest, level1Bytes).value;
      && PlanInBounds(v, p) && p.oldest == oldest && p.inBegin == 0
      && (|v.levels[0]| >= LEVEL0_TRIGGER ==> p.level == 0 && p.inEnd == |v.levels[0]|)
      && (|v.levels[0]| < LEVEL0_TRIGGER ==> p.level == 1 && p.inEnd == 1)
      && var (lo, hi) := UserRange(Inputs(v, p));
         p.ovBegin == Candidate(v.levels[p.level + 1], lo) && p.ovEnd == OverlapEnd(v.levels[p.level + 1], p.ovBegin, hi)
  {
    hide UserRange;
    hide TotalSize;
    hide Candidate;
    hide OverlapEnd;
    var r := Pick(v, oldest, level1Bytes);
    if r.Some? {
      var p := r.value;
      assert Inputs(v, p) == v.levels[p.level][..p.inEnd];
    }
  }

  lemma RangeTouches(ins: seq<Table>, target: seq<Table>, begin: nat, end: nat, j: nat)
    requires ins != [] && Disjoint(target) && TablesOk(target) && begin <= j < end <= |target|
    requires begin == Candidate(target, UserRange(ins).0) && end == OverlapEnd(target, begin, UserRange(ins).1)
    ensures Touches(ins, target[j])
  {
    hide Less;
    hide UserRange;
    hide TablesOk;
    hide Disjoint;
    hide Touches;
    hide Candidate;
    var a, b := UserRangeAttained(ins);
    OverlapTouches(ins, target, begin, j, a, b);
  }

  /** From the first table not below the range, and before the first above it. */
  lemma OverlapTouches(ins: seq<Table>, target: seq<Table>, begin: nat, j: nat, a: nat, b: nat)
    requires a < |ins| && b < |ins| && begin <= j < |target| && Disjoint(target) && TablesOk(target)
    requires begin == Candidate(target, Smallest(ins[a])) && !Less(Largest(ins[b]), Smallest(target[j]))
    ensures Touches(ins, target[j])
  {
    hide Less;
    hide Candidate;
    if begin < j {
      assert Less(Largest(target[begin]), Smallest(target[j]));
      RangeOf(target[j]);
      NotBelowEither(Largest(target[begin]), Smallest(target[j]), Largest(target[j]), Smallest(ins[a]));
    }
    hide TablesOk;
    hide Disjoint;
  }

  lemma RangeOf(t: Table)
    requires TableOk(t)
    ensures !Less(Largest(t), Smallest(t))
  {
    EntryInRange(t, t.entries[0]);
    hide Less;
  }

  lemma NotBelowEither(a: Bytes, b: Bytes, c: Bytes, s: Bytes)
    requires !Less(a, s) && Less(a, b) && !Less(c, b)
    ensures !Less(c, s)
  {
    LessIsStrictTotalOrder();
    hide Less;
  }

  // ---------- dropping versions ----------

  predicate InRange(t: Table, k: Bytes) { !Less(Largest(t), k) && !Less(k, Smallest(t)) }

  /** No table below the output level can hold `k`. */
  predicate IsBaseLevel(v: Version, p: Plan, k: Bytes)
    requires |v.levels| == NUM_LEVELS
  {
    forall level :: p.level + 2 <= level < NUM_LEVELS ==>
      forall i :: 0 <= i < |v.levels[level]| ==> !InRange(v.levels[level][i], k)
  }

  /** The drop decision for entry `i` of the merged stream. The predecessor's
      sequence number counts whether or not the predecessor was itself dropped. */
  predicate Drops(v: Version, p: Plan, m: seq<Entry>, i: nat)
    requires |v.levels| == NUM_LEVELS && i < |m|
  {
    var last := if 0 < i && m[i - 1].key == m[i].key then m[i - 1].sn else MAX_SEQUENCE;
    || last <= p.oldest
    || (m[i].kind.Deletion? && m[i].sn <= p.oldest && IsBaseLevel(v, p, m[i].key))
  }

  /** What survives of the merged stream. */
  function Retained(v: Version, p: Plan, m: seq<Entry>): seq<Entry>
    requires |v.levels| == NUM_LEVELS
  {
    if m == [] then []
    else Retained(v, p, m[..|m| - 1]) + (if Drops(v, p, m, |m| - 1) then [] else [m[|m| - 1]])
  }

  lemma {:induction false} RetainedIsSorted(v: Version, p: Plan, m: seq<Entry>)
    requires |v.levels| == NUM_LEVELS && Sorted(m)
    ensures Sorted(Retained(v, p, m))
    ensures forall e :: e in Retained(v, p, m) ==> e in m
  {
    if m != [] {
      var front := m[..|m| - 1];
      RetainedIsSorted(v, p, front);
      assert forall e :: e in front ==> Before(e, m[|m| - 1]);
      AppendKeepsSorted(Retained(v, p, front), m[|m| - 1]);
    }
  }

  lemma {:induction false} UndroppedIsRetained(v: Version, p: Plan, m: seq<Entry>, i: nat)
    requires |v.levels| == NUM_LEVELS && i < |m| && !Drops(v, p, m, i)
    ensures m[i] in Retained(v, p, m)
  {
    var n := |m| - 1;
    if i < n {
      assert Drops(v, p, m[..n], i) == Drops(v, p, m, i);
      UndroppedIsRetained(v, p, m[..n], i);
    }
  }

  lemma {:induction false} RetainedIsUndropped(v: Version, p: Plan, m: seq<Entry>, e: Entry) returns (i: nat)
    requires |v.levels| == NUM_LEVELS && e in Retained(v, p, m)
    ensures i < |m| && m[i] == e && !Drops(v, p, m, i)
  {
    var n := |m| - 1;
    if e in Retained(v, p, m[..n]) {
      i := RetainedIsUndropped(v, p, m[..n], e);
      assert Drops(v, p, m[..n], i) == Drops(v, p, m, i);
    } else {
      i := n;
    }
  }

  /** `e` is hidden from every read at or above `oldest` by a newer version. */
  ghost predicate ShadowedIn(c: set<Entry>, e: Entry, oldest: nat) {
    exists f :: f in c && f.key == e.key && e.sn < f.sn <= oldest
  }

  lemma ShadowedIsDropped(v: Version, p: Plan, m: seq<Entry>, i: nat)
    requires |v.levels| == NUM_LEVELS && Sorted(m) && i < |m|
    requires ShadowedIn(SetOf(m), m[i], p.oldest)
    ensures Drops(v, p, m, i)
  {
    LessIsStrictTotalOrder();
    var f :| f in SetOf(m) && f.key == m[i].key && m[i].sn < f.sn <= p.oldest;
    var j :| 0 <= j < |m| && m[j] == f;
    assert !Before(m[i], m[j]);
    if j < i - 1 {
      assert Before(m[j], m[i - 1]) && Before(m[i - 1], m[i]);
    }
  }

  lemma DroppedForAReason(v: Version, p: Plan, m: seq<Entry>, i: nat)
    requires |v.levels| == NUM_LEVELS && Sorted(m) && UniqueVersions(SetOf(m)) && i < |m|
    requires p.oldest < MAX_SEQUENCE && Drops(v, p, m, i)
    ensures || ShadowedIn(SetOf(m), m[i], p.oldest)
            || (m[i].kind.Deletion? && m[i].sn <= p.oldest && IsBaseLevel(v, p, m[i].key))
  {
    LessIsStrictTotalOrder();
    if 0 < i && m[i - 1].key == m[i].key && m[i - 1].sn <= p.oldest {
      assert Before(m[i - 1], m[i]);
      assert m[i - 1] in SetOf(m) && m[i] in SetOf(m);
    }
  }

  // ---------- cutting the output ----------

  function Last<T>(s: seq<T>): T
    requires s != []
  {
    s[|s| - 1]
  }

  /** Cut the retained stream into files: a new file starts at a new user key
      once the current file has reached the target size. */
  function Split(kept: seq<Entry>, atTarget: seq<Entry> -> bool): (outs: seq<seq<Entry>>)
    ensures kept != [] ==> outs != [] && Last(outs) != []
    ensures kept == [] ==> outs == []
  {
    if kept == [] then []
    else
      var outs := Split(kept[..|kept| - 1], atTarget);
      AddEntry(outs, Last(kept), outs != [] && Last(outs) != [] && atTarget(Last(outs)))
  }

  /** `CompactionOutputWriter::add`, with `full` telling whether the open file has
      reached the target size. */
  function AddEntry(outs: seq<seq<Entry>>, e: Entry, full: bool): (r: seq<seq<Entry>>)
    requires full ==> outs != [] && Last(outs) != []
    ensures r != [] && Last(r) != []
  {
    if outs == [] then [[e]]
    else if full && Last(Last(outs)).key != e.key then outs + [[e]]
    else outs[..|outs| - 1] + [Last(outs) + [e]]
  }

  ghost function UnionOf(outs: seq<seq<Entry>>): set<Entry> {
    if outs == [] then {} else UnionOf(outs[..|outs| - 1]) + SetOf(outs[|outs| - 1])
  }

  /** The files hold exactly `kept`, each sorted, and no user key is in two files. */
  ghost predicate FilesOf(kept: set<Entry>, outs: seq<seq<Entry>>) {
    && (forall i :: 0 <= i < |outs| ==> outs[i] != [] && Sorted(outs[i]))
    && (forall i, j :: 0 <= i < j < |outs| ==> Less(Last(outs[i]).key, outs[j][0].key))
    && UnionOf(outs) == kept
  }

  /** The cut loses nothing, keeps every file sorted and never splits a user key. */
  lemma {:induction false} SplitMakesFiles(kept: seq<Entry>, atTarget: seq<Entry> -> bool)
    requires Sorted(kept)
    ensures FilesOf(SetOf(kept), Split(kept, atTarget))
  {
    if kept != [] {
      var front, e := kept[..|kept| - 1], Last(kept);
      var outs := Split(front, atTarget);
      SplitMakesFiles(front, atTarget);
      assert SetOf(kept) == SetOf(front) + {e};
      assert forall f :: f in SetOf(front) ==> Before(f, e);
      AddEntryMakesFiles(SetOf(front), outs, e, outs != [] && Last(outs) != [] && atTarget(Last(outs)));
    }
  }

  lemma AddEntryMakesFiles(front: set<Entry>, outs: seq<seq<Entry>>, e: Entry, full: bool)
    requires FilesOf(front, outs) && forall f :: f in front ==> Before(f, e)
    requires full ==> outs != [] && Last(outs) != []
    ensures FilesOf(front + {e}, AddEntry(outs, e, full))
  {
    if outs == [] {
      assert [[e]][..0] == [] && SetOf([e]) == {e};
    } else {
      assert forall f :: f in Last(outs) ==> f in UnionOf(outs);
      if full && Last(Last(outs)).key != e.key {
        NewFile(front, outs, e);
      } else {
        SameFile(front, outs, e);
      }
    }
  }

  lemma NewFile(front: set<Entry>, outs: seq<seq<Entry>>, e: Entry)
    requires FilesOf(front, outs) && outs != []
    requires forall f :: f in Last(outs) ==> Before(f, e)
    requires Last(Last(outs)).key != e.key
    ensures FilesOf(front + {e}, outs + [[e]])
  {
    var next, k := outs + [[e]], |outs| - 1;
    var last := Last(outs[k]);
    assert last in outs[k];
    assert Before(last, e);
    forall i | 0 <= i <= k ensures Less(Last(outs[i]).key, e.key) {
      if i < k {
        FirstNotAfterLast(outs[k]);
        LessTransitiveLeft(Last(outs[i]).key, outs[k][0].key, last.key);
        LessTransitive(Last(outs[i]).key, last.key, e.key);
      }
    }
    assert next[..k + 1] == outs;
    assert SetOf([e]) == {e};
  }

  lemma SameFile(front: set<Entry>, outs: seq<seq<Entry>>, e: Entry)
    requires FilesOf(front, outs) && outs != []
    requires forall f :: f in Last(outs) ==> Before(f, e)
    ensures FilesOf(front + {e}, outs[..|outs| - 1] + [Last(outs) + [e]])
  {
    var k := |outs| - 1;
    var open := outs[k];
    var next := outs[..k] + [open + [e]];
    AppendKeepsSorted(open, e);
    assert (open + [e])[0] == open[0];
    assert next[..k] == outs[..k];
    assert SetOf(open + [e]) == SetOf(open) + {e};
  }

  lemma FirstNotAfterLast(es: seq<Entry>)
    requires es != [] && Sorted(es)
    ensures es[0].key == es[|es| - 1].key || Less(es[0].key, es[|es| - 1].key)
  {
    if |es| > 1 { assert Before(es[0], es[|es| - 1]); }
  }

  lemma LessTransitiveLeft(a: Bytes, b: Bytes, c: Bytes)
    requires Less(a, b) && (b == c || Less(b, c))
    ensures Less(a, c)
  {
    if b != c { LessTransitive(a, b, c); }
  }

  // ---------- where the files are cut ----------

  function Joined(outs: seq<seq<Entry>>): seq<Entry> {
    if outs == [] then [] else Joined(outs[..|outs| - 1]) + Last(outs)
  }

  /** The file reaches the target at its end or not at all, as far as it could be closed:
      only where the user key changes. */
  ghost predicate ClosedInTime(file: seq<Entry>, atTarget: seq<Entry> -> bool) {
    forall n :: 0 < n < |file| && file[n - 1].key != file[n].key ==> !atTarget(file[..n])
  }

  /** The stream, in order, in files that are closed at the first change of the user key at
      which they have reached the target, and nowhere else. */
  ghost predicate IsCut(kept: seq<Entry>, atTarget: seq<Entry> -> bool, outs: seq<seq<Entry>>) {
    && Joined(outs) == kept
    && (forall i :: 0 <= i < |outs| ==> outs[i] != [] && ClosedInTime(outs[i], atTarget))
    && (forall i :: 0 <= i < |outs| - 1 ==> atTarget(outs[i]) && Last(outs[i]).key != outs[i + 1][0].key)
  }

  lemma JoinedMore(outs: seq<seq<Entry>>, file: seq<Entry>)
    ensures Joined(outs + [file]) == Joined(outs) + file
  {
    assert (outs + [file])[..|outs|] == outs;
  }

  lemma ClosedInTimeMore(file: seq<Entry>, e: Entry, atTarget: seq<Entry> -> bool)
    requires file != []
    ensures ClosedInTime(file + [e], atTarget) <==>
              ClosedInTime(file, atTarget) && (Last(file).key != e.key ==> !atTarget(file))
  {
    var more := file + [e];
    assert more[..|file|] == file;
    forall n | 0 < n < |file| ensures more[..n] == file[..n] {}
    if ClosedInTime(more, atTarget) {
      forall n | 0 < n < |file| && file[n - 1].key != file[n].key ensures !atTarget(file[..n]) {
        assert more[n - 1].key != more[n].key;
      }
      assert Last(file).key != e.key ==> more[|file| - 1].key != more[|file|].key;
    }
  }

  lemma CutNewFile(kept: seq<Entry>, atTarget: seq<Entry> -> bool, outs: seq<seq<Entry>>, e: Entry)
    requires IsCut(kept, atTarget, outs) && (outs != [] ==> atTarget(Last(outs)) && Last(Last(outs)).key != e.key)
    ensures IsCut(kept + [e], atTarget, outs + [[e]])
  {
    hide ClosedInTime;
    hide Joined;
    OneEntryInTime(e, atTarget);
    JoinedMore(outs, [e]);
  }

  lemma CutSameFile(kept: seq<Entry>, atTarget: seq<Entry> -> bool, outs: seq<seq<Entry>>, e: Entry)
    requires IsCut(kept, atTarget, outs) && outs != [] && (atTarget(Last(outs)) ==> Last(Last(outs)).key == e.key)
    ensures IsCut(kept + [e], atTarget, outs[..|outs| - 1] + [Last(outs) + [e]])
  {
    hide ClosedInTime;
    hide Joined;
    var k := |outs| - 1;
    var closed, file := outs[..k], outs[k];
    var next := closed + [file + [e]];
    ClosedInTimeMore(file, e, atTarget);
    JoinedMore(closed, file);
    JoinedMore(closed, file + [e]);
    assert outs == closed + [file];
    assert Joined(closed) + (file + [e]) == (Joined(closed) + file) + [e];
    assert (file + [e])[0] == file[0];
    forall i | 0 <= i < |next| - 1 ensures atTarget(next[i]) && Last(next[i]).key != next[i + 1][0].key {
      assert next[i] == outs[i] && next[i + 1][0] == outs[i + 1][0];
    }
  }

  lemma {:induction false} SplitIsCut(kept: seq<Entry>, atTarget: seq<Entry> -> bool)
    ensures IsCut(kept, atTarget, Split(kept, atTarget))
  {
    hide IsCut;
    if kept == [] {
      NothingIsCut(atTarget);
    } else {
      var n := |kept| - 1;
      var outs, e := Split(kept[..n], atTarget), kept[n];
      SplitIsCut(kept[..n], atTarget);
      assert kept == kept[..n] + [e];
      if outs == [] || (atTarget(Last(outs)) && Last(Last(outs)).key != e.key) {
        assert outs == [] ==> outs + [[e]] == [[e]];
        CutNewFile(kept[..n], atTarget, outs, e);
      } else {
        CutSameFile(kept[..n], atTarget, outs, e);
      }
    }
  }

  lemma NothingIsCut(atTarget: seq<Entry> -> bool)
    ensures IsCut([], atTarget, [])
  {}

  lemma OneEntryInTime(e: Entry, atTarget: seq<Entry> -> bool)
    ensures ClosedInTime([e], atTarget)
  {}

  /** The last entry opened a file: without it the rest is cut the same way. */
  lemma UncutNewFile(kept: seq<Entry>, atTarget: seq<Entry> -> bool, outs: seq<seq<Entry>>, e: Entry)
    requires IsCut(kept, atTarget, outs + [[e]])
    ensures kept != [] && e == Last(kept) && IsCut(kept[..|kept| - 1], atTarget, outs)
    ensures outs != [] ==> atTarget(Last(outs)) && Last(Last(outs)).key != e.key
  {
    hide ClosedInTime;
    hide Joined;
    var all, k := outs + [[e]], |outs|;
    JoinedMore(outs, [e]);
    assert kept == Joined(outs) + [e];
    assert forall i :: 0 <= i < k ==> all[i] == outs[i];
    if outs != [] { assert atTarget(all[k - 1]) && Last(all[k - 1]).key != all[k][0].key; }
    forall i | 0 <= i < k - 1 ensures atTarget(outs[i]) && Last(outs[i]).key != outs[i + 1][0].key {
      assert atTarget(all[i]) && Last(all[i]).key != all[i + 1][0].key;
    }
  }

  /** The last entry went into an open file: without it the rest is cut the same way. */
  lemma UncutSameFile(kept: seq<Entry>, atTarget: seq<Entry> -> bool, outs: seq<seq<Entry>>, file: seq<Entry>, e: Entry)
    requires IsCut(kept, atTarget, outs + [file + [e]]) && file != []
    ensures kept != [] && e == Last(kept) && IsCut(kept[..|kept| - 1], atTarget, outs + [file])
    ensures atTarget(file) ==> Last(file).key == e.key
  {
    hide ClosedInTime;
    hide Joined;
    var k := |outs|;
    var all: seq<seq<Entry>> := outs + [file + [e]];
    var fewer: seq<seq<Entry>> := outs + [file];
    JoinedMore(outs, file + [e]);
    JoinedMore(outs, file);
    assert kept == Joined(outs) + file + [e];
    ClosedInTimeMore(file, e, atTarget);
    assert ClosedInTime(all[k], atTarget);
    assert (file + [e])[0] == file[0];
    forall i | 0 <= i < |fewer| ensures fewer[i] != [] && ClosedInTime(fewer[i], atTarget) {
      if i < k { assert all[i] == fewer[i]; }
    }
    forall i | 0 <= i < |fewer| - 1 ensures atTarget(fewer[i]) && Last(fewer[i]).key != fewer[i + 1][0].key {
      assert atTarget(all[i]) && Last(all[i]).key != all[i + 1][0].key;
      assert fewer[i] == all[i] && fewer[i + 1][0] == all[i + 1][0];
    }
  }

  lemma EmptyCut(kept: seq<Entry>, atTarget: seq<Entry> -> bool)
    requires IsCut(kept, atTarget, [])
    ensures kept == []
  {}

  lemma LastFileIsFull(kept: seq<Entry>, atTarget: seq<Entry> -> bool, outs: seq<seq<Entry>>)
    requires IsCut(kept, atTarget, outs) && outs != []
    ensures Last(outs) != []
  {}

  /** There is no other way to cut: the rule determines every file. */
  lemma {:induction false} CutIsSplit(kept: seq<Entry>, atTarget: seq<Entry> -> bool, outs: seq<seq<Entry>>)
    requires IsCut(kept, atTarget, outs)
    ensures outs == Split(kept, atTarget)
    decreases |kept|
  {
    hide IsCut;
    if outs == [] {
      EmptyCut(kept, atTarget);
    } else {
      LastFileIsFull(kept, atTarget, outs);
      var closed, file := outs[..|outs| - 1], Last(outs);
      var rest, e := file[..|file| - 1], Last(file);
      assert file == rest + [e] && outs == closed + [file];
      if rest == [] {
        assert file == [e];
        UncutNewFile(kept, atTarget, closed, e);
        CutIsSplit(kept[..|kept| - 1], atTarget, closed);
      } else {
        UncutSameFile(kept, atTarget, closed, rest, e);
        CutIsSplit(kept[..|kept| - 1], atTarget, closed + [rest]);
        assert (closed + [rest])[..|closed|] == closed;
      }
    }
  }

  // ---------- what is dropped ----------

  /** Compaction drops exactly the garbage: what a newer version at or below the oldest
      snapshot shadows, and deletions at or below it with nothing underneath. */
  lemma GarbageIsDropped(v: Version, p: Plan, m: seq<Entry>, e: Entry)
    requires |v.levels| == NUM_LEVELS && Sorted(m) && UniqueVersions(SetOf(m)) && p.oldest < MAX_SEQUENCE && e in m
    ensures e in Retained(v, p, m) <==>
      && !ShadowedIn(SetOf(m), e, p.oldest)
      && !(e.kind.Deletion? && e.sn <= p.oldest && IsBaseLevel(v, p, e.key))
  {
    hide Drops;
    hide IsBaseLevel;
    hide Retained;
    hide ShadowedIn;
    if e in Retained(v, p, m) {
      var i := RetainedIsUndropped(v, p, m, e);
      if ShadowedIn(SetOf(m), e, p.oldest) { ShadowedIsDropped(v, p, m, i); }
      DeletionIsDropped(v, p, m, i);
    } else {
      var i :| 0 <= i < |m| && m[i] == e;
      if !Drops(v, p, m, i) { UndroppedIsRetained(v, p, m, i); }
      DroppedForAReason(v, p, m, i);
    }
  }

  lemma DeletionIsDropped(v: Version, p: Plan, m: seq<Entry>, i: nat)
    requires |v.levels| == NUM_LEVELS && i < |m|
    ensures m[i].kind.Deletion? && m[i].sn <= p.oldest && IsBaseLevel(v, p, m[i].key) ==> Drops(v, p, m, i)
  {}
}
