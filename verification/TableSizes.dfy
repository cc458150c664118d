/** How large the parts of a table get: bounds on blocks, index and file in terms of the
    bytes of the entries. */
module TableSizes {
  import opened Bytes
  import opened BlockFormat
  import opened Blocks
  import opened TableFormat
  import opened TableLayout

  /** An entry takes at most its bytes and its header, a restart word, and its share of a
      block's trailer, or an index entry. */
  const OVERHEAD := 28

  /** What an index with one entry for each of these would take. */
  function KeyWeight(es: seq<KV>): nat {
    if es == [] then 0 else KeyWeight(es[..|es| - 1]) + OVERHEAD + |Last(es).key|
  }

  function Weight(es: seq<KV>): nat {
    if es == [] then 0 else Weight(es[..|es| - 1]) + OVERHEAD + |Last(es).key| + |Last(es).value|
  }

  lemma WeightOfMore(es: seq<KV>, kv: KV)
    ensures KeyWeight(es + [kv]) == KeyWeight(es) + OVERHEAD + |kv.key|
    ensures Weight(es + [kv]) == Weight(es) + OVERHEAD + |kv.key| + |kv.value|
  {
    assert (es + [kv])[..|es|] == es;
  }

  lemma {:induction false} WeightOfConcat(a: seq<KV>, b: seq<KV>)
    ensures KeyWeight(a + b) == KeyWeight(a) + KeyWeight(b) && Weight(a + b) == Weight(a) + Weight(b)
  {
    if b == [] {
      assert a + b == a;
    } else {
      var n := |b| - 1;
      WeightOfConcat(a, b[..n]);
      WeightOfMore(a + b[..n], b[n]);
      assert a + b == (a + b[..n]) + [b[n]];
    }
  }

  lemma {:induction false} WeightOfPrefix(es: seq<KV>, n: nat)
    requires n <= |es|
    ensures KeyWeight(es[..n]) <= KeyWeight(es) && Weight(es[..n]) <= Weight(es)
  {
    if n == |es| {
      assert es[..n] == es;
    } else {
      var front := es[..|es| - 1];
      WeightOfPrefix(front, n);
      assert front[..n] == es[..n];
    }
  }

  lemma {:induction false} WeightCounts(es: seq<KV>)
    ensures OVERHEAD * |es| <= KeyWeight(es) <= Weight(es)
  {
    if es != [] { WeightCounts(es[..|es| - 1]); }
  }

  // ---------- one block ----------

  lemma {:induction false} OffsetBound(es: seq<KV>, interval: nat, n: nat)
    requires AllSmall(es) && n <= |es|
    ensures Offset(es, interval, n) + 16 * n <= Weight(es[..n])
  {
    hide EntryBytes;
    if n > 0 {
      OffsetBound(es, interval, n - 1);
      assert es[..n] == es[..n - 1] + [es[n - 1]];
      WeightOfMore(es[..n - 1], es[n - 1]);
    }
  }

  lemma LastOffset(es: seq<KV>, kv: KV, interval: nat)
    requires AllSmall(es) && Small(kv)
    ensures AllSmall(es + [kv])
    ensures Offset(es + [kv], interval, |es| + 1) <= Offset(es, interval, |es|) + HEADER + |kv.key| + |kv.value|
  {
    hide EntryBytes;
    BodyOfMore(es, kv, interval, |es|);
  }

  lemma BlockSize(es: seq<KV>, interval: nat)
    requires Buildable(es, interval) && es != []
    ensures |Block(es, interval)| + TRAILER <= Weight(es)
  {
    RestartsFit(es, interval);
    Trailer(es, interval);
    RestartsAreOffsets(es, interval, |es|);
    PointsAscend(|es|, interval);
    OffsetBound(es, interval, |es|);
    assert es[..|es|] == es;
    hide Block;
    hide Body;
    hide Restarts;
    hide Points;
    hide Weight;
  }

  // ---------- the index ----------

  lemma {:induction false} IndexOffset(ix: seq<KV>, interval: nat, n: nat)
    requires AllSmall(ix) && n <= |ix| && forall i :: 0 <= i < |ix| ==> |ix[i].value| == 16
    ensures Offset(ix, interval, n) <= KeyWeight(ix[..n])
  {
    hide EntryBytes;
    if n > 0 {
      IndexOffset(ix, interval, n - 1);
      assert ix[..n] == ix[..n - 1] + [ix[n - 1]];
      WeightOfMore(ix[..n - 1], ix[n - 1]);
    }
  }

  lemma {:induction false} IndexWeight(parts: seq<seq<KV>>, handles: seq<Handle>)
    requires Parts(parts, handles)
    ensures KeyWeight(Index(parts, handles)) <= KeyWeight(Concat(parts))
  {
    hide HandleBytes;
    if parts != [] {
      var n := |parts| - 1;
      var p, h := parts[..n], handles[..n];
      IndexWeight(p, h);
      assert Index(parts, handles) == Index(p, h) + [KV(Last(parts[n]).key, HandleBytes(handles[n]))];
      WeightOfMore(Index(p, h), KV(Last(parts[n]).key, HandleBytes(handles[n])));
      WeightOfConcat(Concat(p), parts[n]);
    }
  }

  lemma {:induction false} KeysFit(es: seq<KV>)
    requires KeyWeight(es) < TWO_32
    ensures forall i :: 0 <= i < |es| ==> |es[i].key| < TWO_32
  {
    if es != [] { KeysFit(es[..|es| - 1]); }
  }

  /** An index of these blocks, with one more entry for `key`, keeps 32-bit offsets. */
  lemma IndexHasRoom(parts: seq<seq<KV>>, handles: seq<Handle>, key: Bytes, h: Handle, interval: nat)
    requires Parts(parts, handles) && HandleOk(h) && 0 < interval && KeyWeight(Concat(parts)) + OVERHEAD + |key| < TWO_32
    ensures |key| < TWO_32 && Buildable(Index(parts, handles) + [KV(key, HandleBytes(h))], interval)
  {
    hide HandleBytes;
    hide Body;
    hide Concat;
    hide KeyWeight;
    var ix := Index(parts, handles) + [KV(key, HandleBytes(h))];
    IndexWeight(parts, handles);
    WeightOfMore(Index(parts, handles), KV(key, HandleBytes(h)));
    KeysFit(ix);
    IndexOffset(ix, interval, |ix|);
    assert ix[..|ix|] == ix;
  }
}
