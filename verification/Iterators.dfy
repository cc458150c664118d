/** The iterator stack: a heap merge of sorted children, and above it the iterator
    that shows each user key once, in the version a snapshot sees. One child may be
    the mutable MemTable, which keeps growing while it is read. */
module Iterators {
  import opened Bytes
  import opened Entries

  /** A child iterator: a sorted run and a position in it. */
  datatype Cursor = Cursor(entries: seq<Entry>, pos: nat)

  predicate CursorOk(c: Cursor) { c.pos <= |c.entries| && Sorted(c.entries) }

  predicate HasEntry(c: Cursor) { c.pos < |c.entries| }

  function At(c: Cursor): Entry
    requires HasEntry(c)
  {
    c.entries[c.pos]
  }

  /** Concurrent writes put entries newer than `visible` into a run; a cursor stays on
      its node, and a cursor that ran off the end stays there. */
  predicate Grew(c: Cursor, c': Cursor, visible: nat) {
    && CursorOk(c')
    && (forall e :: e in c.entries ==> e in c'.entries)
    && (forall e :: e in c'.entries ==> e in c.entries || e.sn > visible)
    && (if HasEntry(c) then HasEntry(c') && At(c') == At(c) else !HasEntry(c'))
  }

  // ---------- heap order ----------

  /** `Greater`: child `l` must come after child `r`. */
  predicate Later(cs: seq<Cursor>, l: nat, r: nat)
    requires l < |cs| && r < |cs| && HasEntry(cs[l]) && HasEntry(cs[r])
  {
    if Before(At(cs[r]), At(cs[l])) then true
    else if Before(At(cs[l]), At(cs[r])) then false
    else l > r
  }

  predicate HeapOk(cs: seq<Cursor>, heap: set<nat>) {
    forall i :: i in heap ==> i < |cs| && HasEntry(cs[i])
  }

  /** The top of the heap restricted to indices below `n`. */
  function Best(cs: seq<Cursor>, heap: set<nat>, n: nat): (r: Option<nat>)
    requires HeapOk(cs, heap)
    ensures r.Some? ==> r.value in heap && r.value < n
    ensures r.None? ==> forall i :: i in heap ==> n <= i
    ensures r.Some? ==> forall i :: i in heap && i < n ==> !Before(At(cs[i]), At(cs[r.value]))
  {
    if n == 0 then None
    else
      var r := Best(cs, heap, n - 1);
      BeforeIsStrictOrder();
      BeforeIsTotal();
      if n - 1 !in heap then r
      else if r.None? || Later(cs, r.value, n - 1) then Some(n - 1)
      else r
  }

  lemma BeforeIsTotal()
    ensures forall a: Entry, b: Entry :: Before(a, b) || KeyOf(a) == KeyOf(b) || Before(b, a)
    ensures forall a: Entry, b: Entry, c: Entry :: KeyOf(a) == KeyOf(b) ==> Before(a, c) == Before(b, c) && Before(c, a) == Before(c, b)
  {
    LessIsStrictTotalOrder();
  }

  // ---------- the merging iterator ----------

  predicate CursorsOk(cs: seq<Cursor>) { forall i :: 0 <= i < |cs| ==> CursorOk(cs[i]) }

  ghost function Readable(cs: seq<Cursor>): set<nat> { set i | 0 <= i < |cs| && HasEntry(cs[i]) }

  /** Entries not yet delivered. */
  function Remaining(cs: seq<Cursor>): nat {
    if cs == [] then 0
    else (if cs[0].pos <= |cs[0].entries| then |cs[0].entries| - cs[0].pos else 0) + Remaining(cs[1..])
  }

  class MergingIterator {
    var children: seq<Cursor>
    var heap: set<nat>

    /** The heap holds exactly the children that still have an entry. */
    ghost predicate Valid()
      reads this
    {
      CursorsOk(children) && heap == Readable(children)
    }

    predicate HasCurrent()
      reads this
    {
      heap != {}
    }

    constructor (cursors: seq<Cursor>)
      requires CursorsOk(cursors)
      ensures children == cursors && heap == {}
    {
      children := cursors;
      heap := {};
    }

    /** The child on top of the heap. */
    ghost function Top(): (t: nat)
      requires Valid() && HasCurrent()
      reads this
      ensures t in heap && t < |children| && HasEntry(children[t])
      ensures forall i :: i in heap ==> !Before(At(children[i]), At(children[t]))
    {
      var t := Best(children, heap, |children|);
      t.value
    }

    ghost function Current(): Entry
      requires Valid() && HasCurrent()
      reads this
    {
      At(children[Top()])
    }

    method RebuildHeap()
      requires CursorsOk(children)
      modifies this`heap
      ensures Valid()
    {
      heap := {};
      for i := 0 to |children|
        invariant heap == set j | 0 <= j < i && HasEntry(children[j])
      {
        if HasEntry(children[i]) { heap := heap + {i}; }
      }
    }

    method SeekToFirst()
      requires CursorsOk(children)
      modifies this
      ensures Valid() && |children| == |old(children)|
      ensures forall i :: 0 <= i < |children| ==> children[i] == old(children)[i].(pos := 0)
    {
      var cs := [];
      for i := 0 to |children|
        invariant |cs| == i && children == old(children)
        invariant forall j :: 0 <= j < i ==> cs[j] == children[j].(pos := 0)
      {
        cs := cs + [children[i].(pos := 0)];
      }
      children := cs;
      RebuildHeap();
    }

    /** Every child seeks on its own to the lookup key (`k`, `s`, kValue). */
    method Seek(k: Bytes, s: nat)
      requires CursorsOk(children)
      modifies this
      ensures Valid() && |children| == |old(children)|
      ensures forall i :: 0 <= i < |children| ==>
                children[i] == old(children)[i].(pos := SeekIndex(old(children)[i].entries, k, s))
    {
      var cs := [];
      for i := 0 to |children|
        invariant |cs| == i && children == old(children)
        invariant forall j :: 0 <= j < i ==> cs[j] == children[j].(pos := SeekIndex(children[j].entries, k, s))
      {
        cs := cs + [children[i].(pos := SeekIndex(children[i].entries, k, s))];
      }
      children := cs;
      RebuildHeap();
    }

    /** The smallest current entry, without moving. */
    method Peek() returns (e: Entry)
      requires Valid() && HasCurrent()
      ensures e == Current()
    {
      var t := Best(children, heap, |children|);
      e := At(children[t.value]);
    }

    /** Advance the top child by one and put it back while it has entries. */
    method Next()
      requires Valid() && HasCurrent()
      modifies this
      ensures Valid()
      ensures var t := old(Top());
        children == old(children)[t := old(children)[t].(pos := old(children)[t].pos + 1)]
    {
      var best := Best(children, heap, |children|);
      var t := best.value;
      heap := heap - {t};
      children := children[t := children[t].(pos := children[t].pos + 1)];
      if HasEntry(children[t]) { heap := heap + {t}; }
    }

    /** Writers insert into the pinned MemTable: any number of entries up to `writes`,
        all newer than `visible`. */
    method Interfere(visible: nat, writes: nat) returns (left: nat)
      requires Valid()
      modifies this`children
      ensures Valid() && |children| == |old(children)|
      ensures forall i :: 0 <= i < |children| ==> Grew(old(children)[i], children[i], visible)
      ensures Remaining(children) + left <= Remaining(old(children)) + writes
    {
      assert forall i :: 0 <= i < |children| ==> Grew(children[i], children[i], visible);
      var cs: seq<Cursor>, n: nat :|
        && |cs| == |children|
        && (forall i :: 0 <= i < |cs| ==> Grew(children[i], cs[i], visible))
        && Remaining(cs) + n <= Remaining(children) + writes;
      forall i | 0 <= i < |cs| ensures CursorOk(cs[i]) && HasEntry(cs[i]) == HasEntry(children[i]) {
        assert Grew(children[i], cs[i], visible);
      }
      assert Readable(cs) == Readable(children);
      children := cs;
      left := n;
    }
  }

  lemma {:induction false} RemainingAfterNext(cs: seq<Cursor>, t: nat)
    requires t < |cs| && HasEntry(cs[t])
    ensures Remaining(cs[t := cs[t].(pos := cs[t].pos + 1)]) == Remaining(cs) - 1
  {
    var cs' := cs[t := cs[t].(pos := cs[t].pos + 1)];
    if t == 0 {
      assert cs'[1..] == cs[1..];
    } else {
      assert cs'[1..] == cs[1..][t - 1 := cs[1..][t - 1].(pos := cs[1..][t - 1].pos + 1)];
      RemainingAfterNext(cs[1..], t - 1);
    }
  }
}
