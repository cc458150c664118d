/** Multi-version entries and sorted runs of them: what a MemTable, an SSTable
    and a merged stream all look like once their bytes are decoded. */
module Entries {
  import opened Bytes

  /** A sequence number occupies the upper 56 bits of an internal-key tag. */
  const MAX_SEQUENCE: nat := 0xFF_FFFF_FFFF_FFFF

  datatype Kind = Deletion | Value

  datatype Entry = Entry(key: Bytes, sn: nat, kind: Kind, value: Bytes)

  /** The part of an entry that its internal key encodes. */
  datatype InternalKey = InternalKey(key: Bytes, sn: nat, kind: Kind)

  function KeyOf(e: Entry): InternalKey { InternalKey(e.key, e.sn, e.kind) }

  /** The order of `InternalKeyLess`: user key ascending, then tag descending. */
  predicate Before(a: Entry, b: Entry) {
    || Less(a.key, b.key)
    || (a.key == b.key && (a.sn > b.sn || (a.sn == b.sn && a.kind.Value? && b.kind.Deletion?)))
  }

  predicate Sorted(es: seq<Entry>) {
    forall i, j :: 0 <= i < j < |es| ==> Before(es[i], es[j])
  }

  lemma AppendKeepsSorted(es: seq<Entry>, e: Entry)
    requires Sorted(es) && forall f :: f in es ==> Before(f, e)
    ensures Sorted(es + [e])
  {
    assert forall i :: 0 <= i < |es| ==> es[i] in es;
  }

  lemma BeforeIsStrictOrder()
    ensures forall a: Entry :: !Before(a, a)
    ensures forall a: Entry, b: Entry, c: Entry :: Before(a, b) && Before(b, c) ==> Before(a, c)
  {
    LessIsStrictTotalOrder();
  }

  ghost function SetOf(es: seq<Entry>): set<Entry> { set e | e in es }

  /** A key has at most one entry per sequence number. */
  ghost predicate UniqueVersions(s: set<Entry>) {
    forall e, f :: e in s && f in s && e.key == f.key && e.sn == f.sn ==> e == f
  }

  /** `e` is visible to a read of `k` at sequence `s`. */
  predicate Visible(e: Entry, k: Bytes, s: nat) {
    e.key == k && e.sn <= s
  }

  /** The simple meaning of a read: `r` is the newest entry of `k` in `c` that
      a read at sequence `s` may see. */
  ghost predicate IsNewest(c: set<Entry>, k: Bytes, s: nat, r: Option<Entry>) {
    match r
    case None => forall e :: e in c ==> !Visible(e, k, s)
    case Some(n) =>
      n in c && Visible(n, k, s) && forall e :: e in c && Visible(e, k, s) ==> e.sn <= n.sn
  }

  lemma NewestIsUnique(c: set<Entry>, k: Bytes, s: nat, r: Option<Entry>, r': Option<Entry>)
    requires UniqueVersions(c) && IsNewest(c, k, s, r) && IsNewest(c, k, s, r')
    ensures r == r'
  {}

  /** What a caller of `get` observes: a deletion counts as not found. */
  function Observed(r: Option<Entry>): Option<Bytes> {
    if r.Some? && r.value.kind.Value? then Some(r.value.value) else None
  }

  /** Not before the lookup key (`k`, `s`, kValue). */
  predicate AtOrAfter(e: Entry, k: Bytes, s: nat) {
    Less(k, e.key) || (e.key == k && e.sn <= s)
  }

  /** Index of the first entry not before the lookup key. */
  function SeekIndex(es: seq<Entry>, k: Bytes, s: nat): (i: nat)
    ensures i <= |es|
    ensures forall j :: 0 <= j < i ==> !AtOrAfter(es[j], k, s)
    ensures i < |es| ==> AtOrAfter(es[i], k, s)
  {
    if es == [] || AtOrAfter(es[0], k, s) then 0
    else
      var i := SeekIndex(es[1..], k, s);
      assert forall j :: 0 <= j < 1 + i ==> es[j] == (if j == 0 then es[0] else es[1..][j - 1]);
      1 + i
  }

  /** Point lookup in one sorted run: the seeked entry, when its user key is `k`. */
  function Lookup(es: seq<Entry>, k: Bytes, s: nat): (r: Option<Entry>)
    ensures r.Some? ==> r.value in es && Visible(r.value, k, s)
  {
    var i := SeekIndex(es, k, s);
    if i < |es| && es[i].key == k then LessIrreflexive(k); Some(es[i]) else None
  }

  lemma LookupIsNewest(es: seq<Entry>, k: Bytes, s: nat)
    requires Sorted(es)
    ensures IsNewest(SetOf(es), k, s, Lookup(es, k, s))
  {
    LessIsStrictTotalOrder();
    var i := SeekIndex(es, k, s);
    forall e | e in SetOf(es) && Visible(e, k, s)
      ensures i < |es| && es[i].key == k && e.sn <= es[i].sn
    {
      var j :| 0 <= j < |es| && es[j] == e;
      assert AtOrAfter(es[j], k, s);
      assert i <= j;
      if i < j { assert Before(es[i], es[j]); }
    }
  }

  /** The sorted run with `e` added. */
  function Insert(es: seq<Entry>, e: Entry): (r: seq<Entry>)
    ensures |r| == |es| + 1
  {
    if es == [] || Before(e, es[0]) then [e] + es else [es[0]] + Insert(es[1..], e)
  }

  lemma {:induction false} InsertKeepsSorted(es: seq<Entry>, e: Entry)
    requires Sorted(es)
    requires forall f :: f in es ==> f.key != e.key || f.sn != e.sn
    ensures Sorted(Insert(es, e))
    ensures SetOf(Insert(es, e)) == SetOf(es) + {e}
  {
    BeforeIsStrictOrder();
    LessIsStrictTotalOrder();
    if es == [] {
    } else if Before(e, es[0]) {
      assert forall f :: f in es ==> Before(e, f);
    } else {
      assert Before(es[0], e);
      InsertKeepsSorted(es[1..], e);
      var r := Insert(es[1..], e);
      assert forall f :: f in SetOf(r) ==> f in SetOf(es[1..]) || f == e;
      assert forall f :: f in r ==> f in SetOf(r);
      assert forall f :: f in r ==> Before(es[0], f);
      assert SetOf([es[0]] + r) == {es[0]} + SetOf(r);
      assert SetOf(es) == {es[0]} + SetOf(es[1..]) by { assert es == [es[0]] + es[1..]; }
    }
  }
}
