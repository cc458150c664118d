/** `buildCompactionTables` as it runs: one pass over the heap merge, with the base
    level checker and the output writer updated along the way. */
module CompactionRun {
  import opened Bytes
  import opened Entries
  import opened Versions
  import opened Compaction
  import opened CompactionProof
  import opened Iterators

  // ---------- what the merge has still to deliver, with multiplicity ----------

  ghost function Bag(cs: seq<Cursor>): multiset<Entry>
    requires CursorsOk(cs)
  {
    if cs == [] then multiset{} else Left(cs[0]) + Bag(cs[1..])
  }

  lemma {:induction false} FindInBag(cs: seq<Cursor>, e: Entry) returns (i: nat)
    requires CursorsOk(cs) && e in Bag(cs)
    ensures i < |cs| && e in cs[i].entries[cs[i].pos..]
  {
    if e in cs[0].entries[cs[0].pos..] {
      i := 0;
    } else {
      var j := FindInBag(cs[1..], e);
      i := j + 1;
    }
  }

  ghost function Left(c: Cursor): multiset<Entry>
    requires CursorOk(c)
  {
    multiset(c.entries[c.pos..])
  }

  lemma LeftAfterNext(c: Cursor)
    requires CursorOk(c) && HasEntry(c)
    ensures CursorOk(c.(pos := c.pos + 1)) && Left(c) == Left(c.(pos := c.pos + 1)) + multiset{At(c)}
  {
    assert c.entries[c.pos..] == [At(c)] + c.entries[c.pos + 1..];
  }

  lemma {:induction false} BagAfterNext(cs: seq<Cursor>, t: nat)
    requires CursorsOk(cs) && t < |cs| && HasEntry(cs[t])
    ensures var cs' := cs[t := cs[t].(pos := cs[t].pos + 1)];
      CursorsOk(cs') && Bag(cs) == Bag(cs') + multiset{At(cs[t])}
  {
    hide Sorted;
    hide Left;
    var cs' := cs[t := cs[t].(pos := cs[t].pos + 1)];
    if t == 0 {
      LeftAfterNext(cs[0]);
      assert cs'[1..] == cs[1..];
    } else {
      assert cs'[1..] == cs[1..][t - 1 := cs[1..][t - 1].(pos := cs[1..][t - 1].pos + 1)];
      BagAfterNext(cs[1..], t - 1);
    }
  }

  lemma TopOfBag(cs: seq<Cursor>, t: nat, e: Entry)
    requires CursorsOk(cs) && t < |cs| && HasEntry(cs[t]) && e in Bag(cs)
    requires forall i :: 0 <= i < |cs| && HasEntry(cs[i]) ==> !Before(At(cs[i]), At(cs[t]))
    ensures !Before(e, At(cs[t]))
  {
    hide Bag;
    BeforeIsStrictOrder();
    BeforeIsTotal();
    var i := FindInBag(cs, e);
    var j :| 0 <= j < |cs[i].entries[cs[i].pos..]| && cs[i].entries[cs[i].pos..][j] == e;
    if 0 < j { assert Before(At(cs[i]), e); }
  }

  lemma {:induction false} EmptyBag(cs: seq<Cursor>)
    requires CursorsOk(cs) && forall i :: 0 <= i < |cs| ==> !HasEntry(cs[i])
    ensures Bag(cs) == multiset{}
  {
    if cs != [] {
      assert cs[0].entries[cs[0].pos..] == [];
      EmptyBag(cs[1..]);
    }
  }

  /** Two inputs carry the same internal key. */
  ghost predicate HasDuplicate(b: multiset<Entry>) {
    exists x, y :: x in b && y in b && KeyOf(x) == KeyOf(y) && (x != y || b[x] >= 2)
  }

  lemma {:induction false} SortedHasNoDuplicate(m: seq<Entry>)
    requires Sorted(m)
    ensures !HasDuplicate(multiset(m))
    ensures forall e :: e in m ==> multiset(m)[e] == 1
  {
    if m != [] {
      var n := |m| - 1;
      SortedHasNoDuplicate(m[..n]);
      assert m == m[..n] + [m[n]];
      BeforeIsStrictOrder();
      LessIsStrictTotalOrder();
      assert forall e :: e in m[..n] ==> Before(e, m[n]);
    }
  }

  // ---------- base level checker ----------

  /** One forward-moving cursor per level below the output; keys arrive ascending. */
  class BaseLevelChecker {
    const v: Version
    const p: Plan
    var indices: seq<nat>
    ghost var asked: Bytes

    ghost predicate Valid()
      reads this
    {
      && LevelsOk(v) && p.level < 2 && |indices| == NUM_LEVELS
      && forall level :: p.level + 2 <= level < NUM_LEVELS ==>
           && indices[level] <= |v.levels[level]|
           && forall i :: 0 <= i < indices[level] ==> Less(Largest(v.levels[level][i]), asked)
    }

    constructor (version: Version, plan: Plan)
      requires LevelsOk(version) && plan.level < 2
      ensures Valid() && v == version && p == plan && asked == []
    {
      v := version;
      p := plan;
      indices := [0, 0, 0];
      asked := [];
    }

    method IsBaseLevelForKey(k: Bytes) returns (r: bool)
      requires Valid() && !Less(k, asked)
      modifies this
      ensures Valid() && asked == k
      ensures r == IsBaseLevel(v, p, k)
    {
      LessIsStrictTotalOrder();
      asked := k;
      var level := p.level + 2;
      while level < NUM_LEVELS
        invariant p.level + 2 <= level <= NUM_LEVELS && Valid() && asked == k
        invariant forall l :: p.level + 2 <= l < level ==>
                    forall i :: 0 <= i < |v.levels[l]| ==> !InRange(v.levels[l][i], k)
      {
        var ts := v.levels[level];
        var index := indices[level];
        while index < |ts| && Less(Largest(ts[index]), k)
          invariant index <= |ts|
          invariant forall i :: 0 <= i < index ==> Less(Largest(ts[i]), k)
        {
          index := index + 1;
        }
        indices := indices[level := index];
        if index < |ts| && !Less(k, Smallest(ts[index])) {
          assert InRange(v.levels[level][index], k);
          return false;
        }
        AfterIndexIsAbove(ts, index, k);
        level := level + 1;
      }
      return true;
    }
  }

  lemma AfterIndexIsAbove(ts: seq<Table>, index: nat, k: Bytes)
    requires TablesOk(ts) && Disjoint(ts) && index <= |ts|
    requires forall i :: 0 <= i < index ==> Less(Largest(ts[i]), k)
    requires index < |ts| ==> Less(k, Smallest(ts[index]))
    ensures forall i :: 0 <= i < |ts| ==> !InRange(ts[i], k)
  {
    LessIsStrictTotalOrder();
    forall i | index < i < |ts| ensures Less(k, Smallest(ts[i])) {
      EntryInRange(ts[index], ts[index].entries[0]);
      assert Less(Largest(ts[index]), Smallest(ts[i]));
    }
  }

  // ---------- output writer ----------

  lemma AddedTo(done: seq<seq<Entry>>, was: seq<Entry>, e: Entry, files: seq<seq<Entry>>)
    ensures was == [] && files == done ==> done + [was + [e]] == files + [[e]]
    ensures was != [] && files == done + [was] ==>
              done + [was + [e]] == files[..|files| - 1] + [Last(files) + [e]] && Last(files) == was
  {
    if was == [] { assert was + [e] == [e]; }
    if was != [] && files == done + [was] { assert files[..|files| - 1] == done; }
  }

  class OutputWriter {
    const atTarget: seq<Entry> -> bool
    var completed: seq<seq<Entry>>
    var open: seq<Entry>
    var lastUserKey: Bytes

    ghost predicate Valid()
      reads this
    {
      open != [] ==> lastUserKey == Last(open).key
    }

    ghost function Files(): seq<seq<Entry>>
      reads this
    {
      if open == [] then completed else completed + [open]
    }

    constructor (target: seq<Entry> -> bool)
      ensures Valid() && Files() == [] && atTarget == target && open == [] && completed == []
    {
      atTarget := target;
      completed := [];
      open := [];
      lastUserKey := [];
    }

    /** A file is closed only between two user keys, once it has reached the target. */
    method Add(e: Entry)
      requires Valid() && (open == [] ==> completed == [])
      modifies this
      ensures Valid() && open != []
      ensures Files() == AddEntry(old(Files()), e, old(Files()) != [] && Last(old(Files())) != [] && atTarget(Last(old(Files()))))
    {
      ghost var files := Files();
      if open != [] && lastUserKey != e.key && atTarget(open) {
        completed := completed + [open];
        open := [];
        lastUserKey := [];
      }
      ghost var was, done := open, completed;
      open := open + [e];
      lastUserKey := e.key;
      AddedTo(done, was, e, files);
    }

    method Finish() returns (outs: seq<seq<Entry>>)
      requires Valid()
      modifies this
      ensures outs == old(Files())
    {
      if open != [] {
        completed := completed + [open];
        open := [];
      }
      outs := completed;
    }
  }

  // ---------- the pass ----------

  /** The stream read so far, as the loop variables remember it. */
  ghost predicate Remembers(m: seq<Entry>, key: Bytes, sn: nat) {
    if m == [] then key == [] && sn == MAX_SEQUENCE else key == Last(m).key && sn == Last(m).sn
  }

  lemma DropDecision(v: Version, p: Plan, m: seq<Entry>, e: Entry, key: Bytes, sn: nat, last: nat)
    requires |v.levels| == NUM_LEVELS && Remembers(m, key, sn)
    requires last == if key != e.key then MAX_SEQUENCE else sn
    ensures Drops(v, p, m + [e], |m|) ==
              (last <= p.oldest || (e.kind.Deletion? && e.sn <= p.oldest && IsBaseLevel(v, p, e.key)))
    ensures Retained(v, p, m + [e]) == Retained(v, p, m) + (if Drops(v, p, m + [e], |m|) then [] else [e])
    ensures Remembers(m + [e], e.key, e.sn)
  {
    assert (m + [e])[..|m|] == m;
  }

  lemma SplitStep(kept: seq<Entry>, e: Entry, atTarget: seq<Entry> -> bool)
    ensures var outs := Split(kept, atTarget);
      Split(kept + [e], atTarget) == AddEntry(outs, e, outs != [] && Last(outs) != [] && atTarget(Last(outs)))
  {
    assert (kept + [e])[..|kept|] == kept;
  }

  /** The loop state of `buildCompactionTables`, with the stream read so far as `m`. */
  class CompactionPass {
    const v: Version
    const p: Plan
    const base: BaseLevelChecker
    const writer: OutputWriter
    var previous: Option<Entry>
    var currentUserKey: Bytes
    var lastSequence: nat
    ghost var m: seq<Entry>

    ghost predicate Valid()
      reads this, base, writer
    {
      && |v.levels| == NUM_LEVELS && LevelsOk(v) && p.level < 2 && base.v == v && base.p == p && base.Valid() && writer.Valid()
      && (writer.open == [] ==> writer.completed == [])
      && Sorted(m)
      && (m == [] <==> previous.None?)
      && (m != [] ==> previous == Some(Last(m)) && !Less(Last(m).key, base.asked))
      && (m == [] ==> base.asked == [])
      && Remembers(m, currentUserKey, lastSequence)
      && writer.Files() == Split(Retained(v, p, m), writer.atTarget)
    }

    constructor (version: Version, plan: Plan, target: seq<Entry> -> bool)
      requires LevelsOk(version) && plan.level < 2
      ensures Valid() && m == [] && v == version && p == plan && writer.atTarget == target
      ensures fresh(base) && fresh(writer)
    {
      v, p := version, plan;
      previous := None;
      currentUserKey := [];
      lastSequence := MAX_SEQUENCE;
      m := [];
      base := new BaseLevelChecker(version, plan);
      writer := new OutputWriter(target);
    }

    /** Refuse the next entry of the stream if it does not come after the last one,
        else drop or keep it. */
    method Consume(e: Entry) returns (ok: bool)
      requires Valid()
      modifies this, base, writer
      ensures ok <==> m == old(m) + [e]
      ensures ok <==> (old(m) == [] || Before(Last(old(m)), e))
      ensures Valid() && Sorted(m)
    {
      if previous.Some? && !Before(previous.value, e) {
        assert |m| != |m + [e]|;
        return false;
      }
      Keep(e);
      return true;
    }

    /** The drop decision, from what the loop remembers of the previous entry. */
    method Decide(e: Entry) returns (drop: bool)
      requires Valid() && !Less(e.key, base.asked)
      modifies base
      ensures base.Valid() && (base.asked == old(base.asked) || base.asked == e.key)
      ensures drop == Drops(v, p, m + [e], |m|)
    {
      hide Drops;
      hide Retained;
      hide Split;
      hide LevelsOk;
      hide IsBaseLevel;
      hide Less;
      hide Sorted;
      hide Before;
      var last := if currentUserKey != e.key then MAX_SEQUENCE else lastSequence;
      DropDecision(v, p, m, e, currentUserKey, lastSequence, last);
      drop := last <= p.oldest;
      if !drop && e.kind.Deletion? && e.sn <= p.oldest {
        drop := base.IsBaseLevelForKey(e.key);
      }
    }

    method Keep(e: Entry)
      requires Valid() && (m != [] ==> Before(Last(m), e))
      modifies this, base, writer
      ensures Valid() && m == old(m) + [e]
    {
      hide Drops;
      hide Retained;
      hide Split;
      hide AddEntry;
      hide Before;
      hide LevelsOk;
      hide Less;
      hide Sorted;
      hide BaseLevelChecker.Valid;
      KeysAscend(m, e, base.asked);
      StreamGrows(m, e);
      DropDecision(v, p, m, e, currentUserKey, lastSequence, if currentUserKey != e.key then MAX_SEQUENCE else lastSequence);
      hide Remembers;
      var drop := Decide(e);
      if !drop {
        SplitStep(Retained(v, p, m), e, writer.atTarget);
        writer.Add(e);
      } else {
        assert Retained(v, p, m) + [] == Retained(v, p, m);
      }
      currentUserKey, lastSequence, previous, m := e.key, e.sn, Some(e), m + [e];
    }

    method Finish() returns (outs: seq<seq<Entry>>)
      requires Valid()
      modifies writer
      ensures outs == Split(Retained(v, p, m), writer.atTarget)
    {
      outs := writer.Finish();
    }
  }

  /** What the loop knows of the merge it is reading. */
  ghost predicate Reading(cs: seq<Cursor>, m: seq<Entry>, all: multiset<Entry>) {
    && CursorsOk(cs) && multiset(m) + Bag(cs) == all
    && (m != [] ==> forall e :: e in Bag(cs) ==> !Before(e, Last(m)))
  }

  lemma ReadNext(cs: seq<Cursor>, t: nat, m: seq<Entry>, all: multiset<Entry>)
    requires Reading(cs, m, all) && t < |cs| && HasEntry(cs[t])
    requires forall i :: 0 <= i < |cs| && HasEntry(cs[i]) ==> !Before(At(cs[i]), At(cs[t]))
    ensures At(cs[t]) in Bag(cs)
    ensures var cs' := cs[t := cs[t].(pos := cs[t].pos + 1)];
      Reading(cs', m + [At(cs[t])], all) && Remaining(cs') < Remaining(cs)
  {
    RemainingAfterNext(cs, t);
    hide Bag;
    hide Before;
    BagAfterNext(cs, t);
    var e := At(cs[t]);
    forall x | x in Bag(cs) ensures !Before(x, e) { TopOfBag(cs, t, x); }
    assert Last(m + [e]) == e;
  }

  /** One pass over the merge: an error exactly when two inputs share an internal
      key, otherwise the retained entries of the merged stream cut into files. */
  method CompactStream(v: Version, p: Plan, inputs: MergingIterator, target: seq<Entry> -> bool, ghost all: multiset<Entry>)
    returns (r: Option<seq<seq<Entry>>>, ghost m: seq<Entry>)
    requires |v.levels| == NUM_LEVELS && LevelsOk(v) && p.level < 2
    requires CursorsOk(inputs.children) && forall i :: 0 <= i < |inputs.children| ==> inputs.children[i].pos == 0
    requires all == Bag(inputs.children)
    modifies inputs
    ensures r.None? <==> HasDuplicate(all)
    ensures r.Some? ==> Sorted(m) && multiset(m) == all && r.value == Split(Retained(v, p, m), target)
  {
    hide Remaining;
    hide Retained;
    hide Split;
    hide Bag;
    hide Before;
    hide LevelsOk;
    hide HasDuplicate;
    hide Reading;
    hide Sorted;
    hide CompactionPass.Valid;
    var pass := new CompactionPass(v, p, target);
    inputs.SeekToFirst();
    assert inputs.children == old(inputs.children);
    StartReading(inputs.children);
    while inputs.HasCurrent()
      invariant inputs.Valid() && pass.Valid() && pass.v == v && pass.p == p && pass.writer.atTarget == target
      invariant fresh(pass) && fresh(pass.base) && fresh(pass.writer)
      invariant Reading(inputs.children, pass.m, all)
      invariant Sorted(pass.m)
      decreases Remaining(inputs.children)
    {
      var e := inputs.Peek();
      ghost var cs, t := inputs.children, inputs.Top();
      ReadNext(cs, t, pass.m, all);
      ghost var before := pass.m;
      var ok := pass.Consume(e);
      if !ok {
        DuplicateFound(cs, t, before, all);
        return None, before;
      }
      inputs.Next();
    }
    m := pass.m;
    FinishReading(inputs.children, m, all);
    var outs := pass.Finish();
    return Some(outs), m;
  }

  lemma StartReading(cs: seq<Cursor>)
    requires CursorsOk(cs)
    ensures Reading(cs, [], Bag(cs))
  {}

  lemma FinishReading(cs: seq<Cursor>, m: seq<Entry>, all: multiset<Entry>)
    requires Sorted(m) && Reading(cs, m, all) && Readable(cs) == {}
    ensures multiset(m) == all && !HasDuplicate(all)
  {
    Exhausted(cs);
    SortedHasNoDuplicate(m);
    assert multiset(m) == all;
  }

  lemma Exhausted(cs: seq<Cursor>)
    requires CursorsOk(cs) && Readable(cs) == {}
    ensures Bag(cs) == multiset{}
  {
    forall i | 0 <= i < |cs| ensures !HasEntry(cs[i]) { assert HasEntry(cs[i]) ==> i in Readable(cs); }
    EmptyBag(cs);
  }

  lemma DuplicateFound(cs: seq<Cursor>, t: nat, m: seq<Entry>, all: multiset<Entry>)
    requires Reading(cs, m, all) && t < |cs| && HasEntry(cs[t]) && At(cs[t]) in Bag(cs)
    requires m != [] && !Before(Last(m), At(cs[t]))
    ensures HasDuplicate(all)
  {
    hide Bag;
    hide Before;
    var e := At(cs[t]);
    BeforeIsTotal();
    assert Last(m) in m;
    assert all[Last(m)] == multiset(m)[Last(m)] + Bag(cs)[Last(m)];
    assert Last(m) in all && e in all;
  }

  lemma KeysAscend(m: seq<Entry>, e: Entry, asked: Bytes)
    requires m == [] ==> asked == []
    requires m != [] ==> Before(Last(m), e) && !Less(Last(m).key, asked)
    ensures !Less(e.key, asked) && !Less(e.key, e.key)
  {
    LessIsStrictTotalOrder();
  }

  lemma StreamGrows(m: seq<Entry>, e: Entry)
    requires Sorted(m) && (m != [] ==> Before(Last(m), e))
    ensures Sorted(m + [e])
  {
    BeforeIsStrictOrder();
    forall f | f in m ensures Before(f, e) {
      var i :| 0 <= i < |m| && m[i] == f;
      if i < |m| - 1 { assert Before(m[i], Last(m)); }
    }
    AppendKeepsSorted(m, e);
  }

  // ---------- from the plan's tables ----------

  ghost function TablesBag(ts: seq<Table>): multiset<Entry> {
    if ts == [] then multiset{} else multiset(ts[0].entries) + TablesBag(ts[1..])
  }

  lemma {:induction false} TablesBagHolds(ts: seq<Table>)
    ensures forall e :: e in TablesBag(ts) <==> e in LevelSet(ts)
  {
    if ts != [] {
      TablesBagHolds(ts[1..]);
      assert ts == [ts[0]] + ts[1..];
      LevelSetConcat([ts[0]], ts[1..]);
      assert LevelSet([ts[0]]) == SetOf(ts[0].entries);
    }
  }

  lemma {:induction false} BagOfTables(ts: seq<Table>, cs: seq<Cursor>)
    requires |cs| == |ts| && CursorsOk(cs)
    requires forall i :: 0 <= i < |ts| ==> cs[i] == Cursor(ts[i].entries, 0)
    ensures Bag(cs) == TablesBag(ts)
  {
    if ts != [] {
      assert ts[0].entries[0..] == ts[0].entries;
      BagOfTables(ts[1..], cs[1..]);
    }
  }

  ghost function InputBag(v: Version, p: Plan): multiset<Entry>
    requires PlanInBounds(v, p)
  {
    TablesBag(Inputs(v, p) + Overlaps(v, p))
  }

  /** Build the output tables of a plan. */
  method BuildCompactionTables(v: Version, p: Plan, target: seq<Entry> -> bool)
    returns (r: Option<seq<seq<Entry>>>, ghost m: seq<Entry>)
    requires PlanInBounds(v, p) && LevelsOk(v)
    ensures r.None? <==> HasDuplicate(InputBag(v, p))
    ensures r.Some? ==> IsMerge(v, p, m) && r.value == Split(Retained(v, p, m), target)
  {
    hide Bag;
    hide Split;
    hide Retained;
    hide LevelSet;
    hide TablesBag;
    var tables := Inputs(v, p) + Overlaps(v, p);
    var cursors := [];
    for i := 0 to |tables|
      invariant |cursors| == i
      invariant forall j :: 0 <= j < i ==> cursors[j] == Cursor(tables[j].entries, 0)
    {
      cursors := cursors + [Cursor(tables[i].entries, 0)];
    }
    assert forall j :: 0 <= j < |tables| ==> TableOk(tables[j]);
    BagOfTables(tables, cursors);
    var inputs := new MergingIterator(cursors);
    r, m := CompactStream(v, p, inputs, target, InputBag(v, p));
    if r.Some? {
      LevelSetConcat(Inputs(v, p), Overlaps(v, p));
      TablesBagHolds(tables);
      forall e ensures e in SetOf(m) <==> e in InputSet(v, p) {
        assert e in m <==> e in multiset(m);
      }
    }
  }
}
