/** The tracker of live snapshots: an ordered map from sequence number to count. */
module Snapshots {
  import opened Engine

  /** The ordered map's nodes in order. */
  datatype Count = Count(sn: nat, live: nat)

  predicate Counted(cs: seq<Count>) {
    && (forall i, j :: 0 <= i < j < |cs| ==> cs[i].sn < cs[j].sn)
    && (forall i :: 0 <= i < |cs| ==> 0 < cs[i].live)
  }

  /** The live snapshots of one sequence number. */
  function Copies(c: Count): multiset<nat> { multiset{}[c.sn := c.live] }

  /** The snapshots a map stands for. */
  ghost function Live(cs: seq<Count>): multiset<nat> {
    if cs == [] then multiset{} else Copies(cs[0]) + Live(cs[1..])
  }

  /** The entry of `s`, or where it would go. */
  function Place(cs: seq<Count>, s: nat): (i: nat)
    ensures i <= |cs| && forall j :: 0 <= j < i ==> cs[j].sn < s
    ensures i < |cs| ==> s <= cs[i].sn
  {
    if cs == [] || s <= cs[0].sn then 0 else 1 + Place(cs[1..], s)
  }

  lemma {:induction false} LiveConcat(a: seq<Count>, b: seq<Count>)
    ensures Live(a + b) == Live(a) + Live(b)
  {
    if a == [] {
      assert a + b == b;
    } else {
      assert (a + b)[1..] == a[1..] + b;
      LiveConcat(a[1..], b);
    }
  }

  lemma LiveAround(cs: seq<Count>, i: nat)
    requires i < |cs|
    ensures Live(cs) == Live(cs[..i]) + Copies(cs[i]) + Live(cs[i + 1..])
  {
    hide Live;
    assert cs == cs[..i] + ([cs[i]] + cs[i + 1..]);
    LiveConcat(cs[..i], [cs[i]] + cs[i + 1..]);
    LiveConcat([cs[i]], cs[i + 1..]);
    LiveOne(cs[i]);
  }

  lemma LiveOne(c: Count)
    ensures Live([c]) == Copies(c)
  {}

  lemma {:induction false} LiveEntry(cs: seq<Count>, s: nat) returns (i: nat)
    requires s in Live(cs)
    ensures i < |cs| && cs[i].sn == s
  {
    if s in Copies(cs[0]) {
      i := 0;
    } else {
      var j := LiveEntry(cs[1..], s);
      i := j + 1;
    }
  }

  /** The map with one more, or one less, of `s`. */
  lemma Recounted(cs: seq<Count>, i: nat, live: nat)
    requires i < |cs|
    ensures Live(cs[i := Count(cs[i].sn, live)]) + Copies(cs[i]) == Live(cs) + Copies(Count(cs[i].sn, live))
  {
    hide Live;
    hide Copies;
    var cs' := cs[i := Count(cs[i].sn, live)];
    LiveAround(cs, i);
    LiveAround(cs', i);
    assert cs'[..i] == cs[..i] && cs'[i + 1..] == cs[i + 1..];
  }

  lemma OneMore(c: Count)
    ensures Copies(Count(c.sn, c.live + 1)) == Copies(c) + multiset{c.sn}
  {}

  lemma Cancel(a: multiset<nat>, b: multiset<nat>, c: multiset<nat>)
    requires a + c == b + c
    ensures a == b
  {
    forall n ensures a[n] == b[n] { assert (a + c)[n] == (b + c)[n]; }
  }

  lemma InsertedCount(cs: seq<Count>, i: nat, c: Count)
    requires i <= |cs|
    ensures Live(cs[..i] + [c] + cs[i..]) == Live(cs) + Copies(c)
  {
    hide Live;
    hide Copies;
    LiveConcat(cs[..i] + [c], cs[i..]);
    LiveConcat(cs[..i], [c]);
    LiveConcat(cs[..i], cs[i..]);
    assert cs[..i] + cs[i..] == cs;
    LiveOne(c);
  }

  lemma ErasedCount(cs: seq<Count>, i: nat)
    requires i < |cs|
    ensures Live(cs[..i] + cs[i + 1..]) + Copies(cs[i]) == Live(cs)
  {
    hide Live;
    hide Copies;
    LiveAround(cs, i);
    LiveConcat(cs[..i], cs[i + 1..]);
  }

  class SnapshotTracker {
    var counts: seq<Count>

    ghost predicate Valid()
      reads this
    {
      Counted(counts)
    }

    constructor ()
      ensures Valid() && Live(counts) == multiset{}
    {
      counts := [];
    }

    method Add(s: nat)
      requires Valid()
      modifies this
      ensures Valid() && Live(counts) == old(Live(counts)) + multiset{s}
    {
      hide Live;
      var i := Place(counts, s);
      if i < |counts| && counts[i].sn == s {
        Recounted(counts, i, counts[i].live + 1);
        OneMore(counts[i]);
        Cancel(Live(counts[i := Count(s, counts[i].live + 1)]), Live(counts) + multiset{s}, Copies(counts[i]));
        counts := counts[i := Count(s, counts[i].live + 1)];
      } else {
        InsertedCount(counts, i, Count(s, 1));
        assert Copies(Count(s, 1)) == multiset{s};
        counts := counts[..i] + [Count(s, 1)] + counts[i..];
      }
    }

    /** A handle is released once, so its sequence number is still counted. */
    method Remove(s: nat)
      requires Valid() && s in Live(counts)
      modifies this
      ensures Valid() && Live(counts) == old(Live(counts)) - multiset{s}
    {
      hide Live;
      ghost var at := LiveEntry(counts, s);
      var i := Place(counts, s);
      assert counts[i].sn == s;
      if counts[i].live == 1 {
        ErasedCount(counts, i);
        assert Copies(counts[i]) == multiset{s};
        counts := counts[..i] + counts[i + 1..];
      } else {
        Recounted(counts, i, counts[i].live - 1);
        var less := Count(s, counts[i].live - 1);
        OneMore(less);
        Cancel(Live(counts[i := less]) + multiset{s}, Live(counts), Copies(less));
        counts := counts[i := less];
      }
    }

    /** The map's first key. */
    method Oldest(fallback: nat) returns (r: nat)
      requires Valid()
      ensures IsOldest(Live(counts), fallback, r)
    {
      if counts == [] { return fallback; }
      r := counts[0].sn;
      assert r in Copies(counts[0]);
      forall s | s in Live(counts) ensures r <= s { var i := LiveEntry(counts, s); }
    }
  }
}
