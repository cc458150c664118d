/** Where data blocks end: a block is closed with the entry that brings it to the block
    size, and no earlier, so the entries and the size determine the blocks. */
module TableCuts {
  import opened BlockFormat
  import opened TableLayout

  /** The block of these entries has reached `size`. */
  ghost predicate Reaches(es: seq<KV>, interval: nat, size: nat) {
    Buildable(es, interval) && size <= |Block(es, interval)|
  }

  /** No non-empty prefix has. */
  ghost predicate Below(es: seq<KV>, interval: nat, size: nat) {
    forall k :: 0 < k <= |es| ==> !Reaches(es[..k], interval, size)
  }

  /** A closed block: its last entry brought it to `size`. */
  ghost predicate Full(es: seq<KV>, interval: nat, size: nat) {
    es != [] && Reaches(es, interval, size) && Below(es[..|es| - 1], interval, size)
  }

  ghost predicate AllFull(parts: seq<seq<KV>>, interval: nat, size: nat) {
    forall j :: 0 <= j < |parts| ==> Full(parts[j], interval, size)
  }

  /** Every block but the last is full, and the last is no more than that. */
  ghost predicate CutBySize(parts: seq<seq<KV>>, interval: nat, size: nat) {
    forall j :: 0 <= j < |parts| ==>
      && parts[j] != [] && Below(parts[j][..|parts[j]| - 1], interval, size)
      && (j < |parts| - 1 ==> Reaches(parts[j], interval, size))
  }

  lemma NothingIsBelow(interval: nat, size: nat)
    ensures Below([], interval, size)
  {}

  lemma StaysBelow(es: seq<KV>, kv: KV, interval: nat, size: nat)
    requires Below(es, interval, size) && !Reaches(es + [kv], interval, size)
    ensures Below(es + [kv], interval, size)
  {
    hide Reaches;
    var more := es + [kv];
    forall k | 0 < k <= |more| ensures !Reaches(more[..k], interval, size) {
      if k < |more| { assert more[..k] == es[..k]; } else { assert more[..k] == more; }
    }
  }

  lemma BecomesFull(es: seq<KV>, kv: KV, interval: nat, size: nat)
    requires Below(es, interval, size) && Reaches(es + [kv], interval, size)
    ensures Full(es + [kv], interval, size)
  {
    hide Reaches;
    assert (es + [kv])[..|es|] == es;
  }

  /** The open block closed at the end of the table. */
  lemma LastBlock(parts: seq<seq<KV>>, pending: seq<KV>, interval: nat, size: nat)
    requires AllFull(parts, interval, size) && Below(pending, interval, size)
    ensures CutBySize(if pending == [] then parts else parts + [pending], interval, size)
  {
    hide Reaches;
    if pending != [] {
      var prefix := pending[..|pending| - 1];
      forall k | 0 < k <= |prefix| ensures !Reaches(prefix[..k], interval, size) { assert prefix[..k] == pending[..k]; }
    }
  }

  lemma {:induction false} ConcatFirst(parts: seq<seq<KV>>)
    requires parts != []
    ensures Concat(parts) == parts[0] + Concat(parts[1..])
  {
    var n := |parts| - 1;
    if n > 0 {
      ConcatFirst(parts[..n]);
      assert parts[..n][1..] == parts[1..][..n - 1];
      assert parts[1..][..n - 1] + [Last(parts)] == parts[1..];
    } else {
      assert parts[..0] == [] && parts[1..] == [];
    }
  }

  lemma RestIsCut(parts: seq<seq<KV>>, interval: nat, size: nat)
    requires CutBySize(parts, interval, size) && parts != []
    ensures CutBySize(parts[1..], interval, size)
  {
    hide Reaches;
    hide Below;
    forall j | 0 <= j < |parts[1..]|
      ensures parts[1..][j] != [] && Below(parts[1..][j][..|parts[1..][j]| - 1], interval, size)
      ensures j < |parts[1..]| - 1 ==> Reaches(parts[1..][j], interval, size)
    {
      assert parts[1..][j] == parts[j + 1];
    }
  }

  lemma FirstPart(parts: seq<seq<KV>>, interval: nat, size: nat)
    requires CutBySize(parts, interval, size) && parts != []
    ensures parts[0] != [] && Below(parts[0][..|parts[0]| - 1], interval, size)
    ensures |parts| > 1 ==> Reaches(parts[0], interval, size)
  {}

  /** Two sequences that go on to the same whole: a shorter one is below the size. */
  lemma ShorterIsBelow(p: seq<KV>, more: seq<KV>, q: seq<KV>, rest: seq<KV>, interval: nat, size: nat)
    requires p + more == q + rest && p != [] && q != [] && Below(q[..|q| - 1], interval, size)
    ensures |p| < |q| ==> !Reaches(p, interval, size)
  {
    hide Reaches;
    if |p| < |q| {
      assert p == (p + more)[..|p|] == q[..|p|];
      assert q[..|q| - 1][..|p|] == p;
    }
  }

  lemma FirstNotShorter(a: seq<seq<KV>>, b: seq<seq<KV>>, interval: nat, size: nat)
    requires CutBySize(a, interval, size) && CutBySize(b, interval, size) && a != [] && b != [] && Concat(a) == Concat(b)
    ensures |b[0]| <= |a[0]|
  {
    hide Reaches;
    hide Below;
    hide Concat;
    hide CutBySize;
    ConcatFirst(a);
    ConcatFirst(b);
    FirstPart(a, interval, size);
    FirstPart(b, interval, size);
    ShorterIsBelow(a[0], Concat(a[1..]), b[0], Concat(b[1..]), interval, size);
    if |a| == 1 {
      assert a[1..] == [];
      NoParts();
    }
  }

  lemma NoParts()
    ensures Concat([]) == []
  {}

  lemma SomeParts(parts: seq<seq<KV>>, interval: nat, size: nat)
    requires CutBySize(parts, interval, size)
    ensures parts == [] <==> Concat(parts) == []
  {
    if parts != [] { ConcatFirst(parts); }
  }

  /** Two ways to cut the same entries by the same size are the same. */
  lemma {:induction false} CutIsDetermined(a: seq<seq<KV>>, b: seq<seq<KV>>, interval: nat, size: nat)
    requires CutBySize(a, interval, size) && CutBySize(b, interval, size) && Concat(a) == Concat(b)
    ensures a == b
    decreases |a|
  {
    hide CutBySize;
    hide Concat;
    SomeParts(a, interval, size);
    SomeParts(b, interval, size);
    if a != [] {
      FirstNotShorter(a, b, interval, size);
      FirstNotShorter(b, a, interval, size);
      ConcatFirst(a);
      ConcatFirst(b);
      assert a[0] == Concat(a)[..|a[0]|] && b[0] == Concat(b)[..|b[0]|];
      assert Concat(a[1..]) == Concat(a)[|a[0]|..] && Concat(b[1..]) == Concat(b)[|b[0]|..];
      RestIsCut(a, interval, size);
      RestIsCut(b, interval, size);
      CutIsDetermined(a[1..], b[1..], interval, size);
      assert a == [a[0]] + a[1..] && b == [b[0]] + b[1..];
    }
  }
}
