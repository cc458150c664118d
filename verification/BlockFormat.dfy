/** Blocks as bytes: prefix-compressed entries, then the restart array and its length. */
module BlockFormat {
  import opened Bytes
  import opened InternalKeys

  datatype KV = KV(key: Bytes, value: Bytes)

  const HEADER := 12

  // ---------- writing ----------

  function CommonPrefix(a: Bytes, b: Bytes): (n: nat)
    ensures n <= |a| && n <= |b| && a[..n] == b[..n]
  {
    if a == [] || b == [] || a[0] != b[0] then 0
    else
      var n := CommonPrefix(a[1..], b[1..]);
      assert a[..1 + n] == [a[0]] + a[1..][..n] && b[..1 + n] == [b[0]] + b[1..][..n];
      1 + n
  }

  /** The shared prefix is the longest one: the next bytes differ, or a key has ended. */
  lemma {:induction false} CommonPrefixIsLongest(a: Bytes, b: Bytes)
    ensures var n := CommonPrefix(a, b); n == |a| || n == |b| || a[n] != b[n]
  {
    if a != [] && b != [] && a[0] == b[0] { CommonPrefixIsLongest(a[1..], b[1..]); }
  }

  /** Entries since the last restart point, before the one at position `n`. */
  function Since(n: nat, interval: nat): nat {
    if n == 0 then 0 else if Since(n - 1, interval) == interval then 1 else Since(n - 1, interval) + 1
  }

  predicate RestartAt(n: nat, interval: nat) { n == 0 || Since(n, interval) == interval }

  lemma {:induction false} SinceCounts(n: nat, interval: nat)
    requires 0 < interval && 0 < n
    ensures Since(n, interval) == (n - 1) % interval + 1
  {
    if n > 1 {
      SinceCounts(n - 1, interval);
      NextInCycle(n - 2, interval);
    } else {
      assert Since(0, interval) == 0;
    }
  }

  lemma NextInCycle(k: nat, interval: nat)
    requires 0 < interval
    ensures (k + 1) % interval == if k % interval == interval - 1 then 0 else k % interval + 1
    ensures (k + 1) / interval == if k % interval == interval - 1 then k / interval + 1 else k / interval
    ensures k % interval == interval - 1 ==> k + 1 == (k / interval + 1) * interval
  {
    var q, r := k / interval, k % interval;
    if r == interval - 1 {
      assert k + 1 == (q + 1) * interval;
      DivMod(q + 1, 0, interval);
    } else {
      DivMod(q, r + 1, interval);
    }
  }

  lemma DivMod(q: nat, r: nat, m: nat)
    requires r < m
    ensures (q * m + r) % m == r && (q * m + r) / m == q
  {
    var x := q * m + r;
    var a, b := x / m, x % m;
    assert x == a * m + b;
    NoMultipleBetween(a - q, m, r - b);
  }

  lemma NoMultipleBetween(d: int, m: int, e: int)
    requires d * m == e && -m < e < m
    ensures d == 0
  {
    MultiplesSpread(d, m);
  }

  lemma MultiplesSpread(d: int, m: int)
    requires 0 < m
    ensures 1 <= d ==> m <= d * m
    ensures d <= -1 ==> d * m <= -m
  {}

  /** Compression restarts at every `interval`-th entry, and nowhere else. */
  lemma RestartsEveryInterval(n: nat, interval: nat)
    requires 0 < interval
    ensures RestartAt(n, interval) <==> n % interval == 0
  {
    if n > 0 {
      SinceCounts(n, interval);
      NextInCycle(n - 1, interval);
    }
  }

  function SharedAt(es: seq<KV>, interval: nat, i: nat): (s: nat)
    requires i < |es|
    ensures s <= |es[i].key|
  {
    if RestartAt(i, interval) then 0 else CommonPrefix(es[i - 1].key, es[i].key)
  }

  predicate Small(kv: KV) { |kv.key| < TWO_32 && |kv.value| < TWO_32 }

  predicate AllSmall(es: seq<KV>) { forall i :: 0 <= i < |es| ==> Small(es[i]) }

  function EntryBytes(shared: nat, kv: KV): (b: Bytes)
    requires Small(kv) && shared <= |kv.key|
    ensures |b| == HEADER + |kv.key| - shared + |kv.value|
  {
    Fixed32(shared) + Fixed32(|kv.key| - shared) + Fixed32(|kv.value|) + kv.key[shared..] + kv.value
  }

  /** The first `n` entries. */
  function Body(es: seq<KV>, interval: nat, n: nat): Bytes
    requires AllSmall(es) && n <= |es|
  {
    if n == 0 then [] else Body(es, interval, n - 1) + EntryBytes(SharedAt(es, interval, n - 1), es[n - 1])
  }

  function Offset(es: seq<KV>, interval: nat, n: nat): nat
    requires AllSmall(es) && n <= |es|
  {
    |Body(es, interval, n)|
  }

  /** The positions of the entries that restart the compression, among the first `n`. */
  function Points(n: nat, interval: nat): (ps: seq<nat>)
    ensures ps != [] && ps[0] == 0
  {
    if n <= 1 then [0] else Points(n - 1, interval) + if Since(n - 1, interval) == interval then [n - 1] else []
  }

  function Restarts(es: seq<KV>, interval: nat, n: nat): seq<nat>
    requires AllSmall(es) && n <= |es|
  {
    if n <= 1 then [0]
    else Restarts(es, interval, n - 1) + if Since(n - 1, interval) == interval then [Offset(es, interval, n - 1)] else []
  }

  predicate Words(ns: seq<nat>) { forall i :: 0 <= i < |ns| ==> ns[i] < TWO_32 }

  function WordBytes(ns: seq<nat>): (b: Bytes)
    requires Words(ns)
    ensures |b| == 4 * |ns|
  {
    if ns == [] then [] else WordBytes(ns[..|ns| - 1]) + Fixed32(ns[|ns| - 1])
  }

  /** What the builder's own assertions ask for: lengths and offsets fit 32 bits. */
  predicate Buildable(es: seq<KV>, interval: nat) {
    0 < interval && AllSmall(es) && Offset(es, interval, |es|) < TWO_32
  }

  lemma {:induction false} OffsetsGrow(es: seq<KV>, interval: nat, i: nat, j: nat)
    requires AllSmall(es) && i <= j <= |es|
    ensures Body(es, interval, i) <= Body(es, interval, j) && Offset(es, interval, i) + HEADER * (j - i) <= Offset(es, interval, j)
    decreases j
  {
    hide EntryBytes;
    if i < j { OffsetsGrow(es, interval, i, j - 1); }
  }

  lemma {:induction false} PointsAscend(n: nat, interval: nat)
    ensures forall j :: 0 <= j < |Points(n, interval)| ==>
              RestartAt(Points(n, interval)[j], interval) && Points(n, interval)[j] < (if n == 0 then 1 else n)
    ensures forall j, k :: 0 <= j < k < |Points(n, interval)| ==> Points(n, interval)[j] < Points(n, interval)[k]
    ensures |Points(n, interval)| <= if n == 0 then 1 else n
  {
    hide Since;
    if n > 1 { PointsAscend(n - 1, interval); }
  }

  /** The restart array lists entries 0, interval, 2 * interval and so on, all of them. */
  lemma {:induction false} PointsAre(n: nat, interval: nat)
    requires 0 < interval
    ensures |Points(n, interval)| == if n == 0 then 1 else (n - 1) / interval + 1
    ensures forall j :: 0 <= j < |Points(n, interval)| ==> Points(n, interval)[j] == j * interval
  {
    hide Since;
    if n > 1 {
      PointsAre(n - 1, interval);
      SinceCounts(n - 1, interval);
      NextInCycle(n - 2, interval);
    } else if n == 1 {
      DivMod(0, 0, interval);
    }
  }

  lemma {:induction false} RestartsAreOffsets(es: seq<KV>, interval: nat, n: nat)
    requires AllSmall(es) && n <= |es|
    ensures |Restarts(es, interval, n)| == |Points(n, interval)|
    ensures forall j :: 0 <= j < |Points(n, interval)| ==>
              Points(n, interval)[j] <= n && Restarts(es, interval, n)[j] == Offset(es, interval, Points(n, interval)[j])
  {
    hide Since;
    hide EntryBytes;
    if n > 1 { RestartsAreOffsets(es, interval, n - 1); }
  }

  lemma RestartsFit(es: seq<KV>, interval: nat)
    requires Buildable(es, interval)
    ensures Words(Restarts(es, interval, |es|)) && |Restarts(es, interval, |es|)| < TWO_32
  {
    hide Body;
    hide Points;
    hide Restarts;
    var n := |es|;
    RestartsAreOffsets(es, interval, n);
    PointsAscend(n, interval);
    OffsetsGrow(es, interval, 0, n);
    var ps, rs := Points(n, interval), Restarts(es, interval, n);
    forall j | 0 <= j < |rs| ensures rs[j] < TWO_32 {
      OffsetsGrow(es, interval, ps[j], n);
    }
  }

  /** A finished block. */
  function Block(es: seq<KV>, interval: nat): Bytes
    requires Buildable(es, interval)
  {
    RestartsFit(es, interval);
    var rs := Restarts(es, interval, |es|);
    Body(es, interval, |es|) + WordBytes(rs) + Fixed32(|rs|)
  }

  // ---------- reading ----------

  function Word(b: Bytes, o: nat): nat
    requires o + 4 <= |b|
  {
    Unfixed(b[o..o + 4])
  }

  datatype Decoded = Decoded(key: Bytes, value: Bytes, next: nat)

  /** `decodeEntry` at `offset`, with `key` the key decoded before; `end` is where the
      restart array begins. */
  function DecodeAt(b: Bytes, end: nat, offset: nat, key: Bytes): (r: Option<Decoded>)
    requires end <= |b|
    ensures r.Some? ==> offset < r.value.next <= end && ParseKey(r.value.key).Some?
  {
    if offset >= end || end - offset < HEADER then None
    else
      var shared, unshared, size := Word(b, offset), Word(b, offset + 4), Word(b, offset + 8);
      var body := offset + HEADER;
      if shared > |key| || unshared > end - body || size > end - body - unshared then None
      else
        var k := key[..shared] + b[body..body + unshared];
        if ParseKey(k).None? then None
        else Some(Decoded(k, b[body + unshared..body + unshared + size], body + unshared + size))
  }

  lemma {:induction false} WordBytesAt(ns: seq<nat>, j: nat)
    requires Words(ns) && j < |ns|
    ensures WordBytes(ns)[4 * j..4 * j + 4] == Fixed32(ns[j])
  {
    hide Fixed32;
    var m := |ns| - 1;
    if j < m {
      WordBytesAt(ns[..m], j);
      assert WordBytes(ns)[4 * j..4 * j + 4] == WordBytes(ns[..m])[4 * j..4 * j + 4];
    }
  }

  /** Reading the words of an entry header back. */
  lemma HeaderWords(shared: nat, kv: KV, pre: Bytes, post: Bytes)
    requires Small(kv) && shared <= |kv.key|
    ensures var b := pre + EntryBytes(shared, kv) + post; var o := |pre|;
      && Word(b, o) == shared && Word(b, o + 4) == |kv.key| - shared && Word(b, o + 8) == |kv.value|
      && b[o + HEADER..o + HEADER + |kv.key| - shared] == kv.key[shared..]
      && b[o + HEADER + |kv.key| - shared..o + |EntryBytes(shared, kv)|] == kv.value
  {
    var b, o := pre + EntryBytes(shared, kv) + post, |pre|;
    var s, u, v := Fixed32(shared), Fixed32(|kv.key| - shared), Fixed32(|kv.value|);
    hide Fixed32;
    hide Unfixed;
    assert b[o..o + 4] == s;
    assert b[o + 4..o + 8] == u;
    assert b[o + 8..o + 12] == v;
  }

  ghost predicate Internal(es: seq<KV>) { forall i :: 0 <= i < |es| ==> ParseKey(es[i].key).Some? }

  lemma EntryIsThere(es: seq<KV>, interval: nat, i: nat)
    requires Buildable(es, interval) && i < |es|
    ensures var o := Offset(es, interval, i); var b := Block(es, interval); var e := EntryBytes(SharedAt(es, interval, i), es[i]);
      o + |e| == Offset(es, interval, i + 1) <= Offset(es, interval, |es|) <= |b| && b == b[..o] + e + b[o + |e|..]
  {
    hide EntryBytes;
    hide Restarts;
    OffsetsGrow(es, interval, i + 1, |es|);
    var o, b, e := Offset(es, interval, i), Block(es, interval), EntryBytes(SharedAt(es, interval, i), es[i]);
    var body := Body(es, interval, |es|);
    assert body[..o + |e|] == Body(es, interval, i) + e;
    assert b[..o + |e|] == body[..o + |e|];
    assert b == b[..o + |e|] + b[o + |e|..];
    assert b[..o] == Body(es, interval, i);
  }

  lemma DecodeWritten(shared: nat, kv: KV, pre: Bytes, post: Bytes, end: nat, key: Bytes)
    requires Small(kv) && shared <= |kv.key| && ParseKey(kv.key).Some?
    requires shared <= |key| && key[..shared] == kv.key[..shared]
    requires |pre| + |EntryBytes(shared, kv)| <= end <= |pre + EntryBytes(shared, kv) + post|
    ensures DecodeAt(pre + EntryBytes(shared, kv) + post, end, |pre|, key)
              == Some(Decoded(kv.key, kv.value, |pre| + |EntryBytes(shared, kv)|))
  {
    HeaderWords(shared, kv, pre, post);
    var b, o := pre + EntryBytes(shared, kv) + post, |pre|;
    var size := |EntryBytes(shared, kv)|;
    assert size == HEADER + |kv.key| - shared + |kv.value|;
    hide EntryBytes;
    hide Word;
    hide ParseKey;
    assert kv.key == kv.key[..shared] + kv.key[shared..];
  }

  lemma SharedWithPrevious(es: seq<KV>, interval: nat, i: nat, key: Bytes)
    requires i < |es| && (RestartAt(i, interval) || key == es[i - 1].key)
    ensures var shared := SharedAt(es, interval, i); shared <= |key| && key[..shared] == es[i].key[..shared]
  {
    hide Since;
  }

  /** Decoding where an entry was written gives it back, provided the previous key is the
      one before it; a restart point needs no previous key. */
  lemma DecodeBuilt(es: seq<KV>, interval: nat, i: nat, key: Bytes)
    requires Buildable(es, interval) && Internal(es) && i < |es|
    requires RestartAt(i, interval) || key == es[i - 1].key
    ensures Offset(es, interval, |es|) <= |Block(es, interval)|
    ensures DecodeAt(Block(es, interval), Offset(es, interval, |es|), Offset(es, interval, i), key)
              == Some(Decoded(es[i].key, es[i].value, Offset(es, interval, i + 1)))
  {
    hide Block;
    hide Body;
    hide EntryBytes;
    hide DecodeAt;
    hide SharedAt;
    hide ParseKey;
    hide Since;
    var shared := SharedAt(es, interval, i);
    SharedWithPrevious(es, interval, i, key);
    EntryIsThere(es, interval, i);
    var b, o := Block(es, interval), Offset(es, interval, i);
    DecodeWritten(shared, es[i], b[..o], b[o + |EntryBytes(shared, es[i])|..], Offset(es, interval, |es|), key);
  }
}
