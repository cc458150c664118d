/** What a finished SSTable file holds, and why two block searches find what one linear
    search over all its entries would. */
module TableLayout {
  import opened Bytes
  import opened Entries
  import opened InternalKeys
  import opened BlockFormat
  import opened Blocks
  import opened Bloom
  import opened TableFormat

  function Last<T>(s: seq<T>): T
    requires s != []
  {
    s[|s| - 1]
  }

  /** The entries of consecutive data blocks. */
  function Concat(parts: seq<seq<KV>>): seq<KV> {
    if parts == [] then [] else Concat(parts[..|parts| - 1]) + Last(parts)
  }

  predicate Parts(parts: seq<seq<KV>>, handles: seq<Handle>) {
    && |parts| == |handles|
    && (forall j :: 0 <= j < |parts| ==> parts[j] != [])
    && (forall j :: 0 <= j < |handles| ==> HandleOk(handles[j]))
  }

  /** One index entry per data block: the block's last key and its handle. */
  function Index(parts: seq<seq<KV>>, handles: seq<Handle>): (r: seq<KV>)
    requires Parts(parts, handles)
    ensures |r| == |parts|
    ensures forall j :: 0 <= j < |parts| ==> r[j] == KV(Last(parts[j]).key, HandleBytes(handles[j]))
  {
    seq(|parts|, j requires 0 <= j < |parts| => KV(Last(parts[j]).key, HandleBytes(handles[j])))
  }

  // ---------- positions ----------

  lemma {:induction false} ConcatAt(parts: seq<seq<KV>>, j: nat)
    requires j < |parts|
    ensures var start := |Concat(parts[..j])|;
      && start + |parts[j]| <= |Concat(parts)| && Concat(parts)[..start] == Concat(parts[..j])
      && Concat(parts)[start..start + |parts[j]|] == parts[j]
  {
    var n := |parts| - 1;
    if j < n {
      ConcatAt(parts[..n], j);
      assert parts[..n][..j] == parts[..j];
    }
  }

  lemma {:induction false} ConcatMembers(parts: seq<seq<KV>>, i: nat) returns (j: nat, k: nat)
    requires i < |Concat(parts)|
    ensures j < |parts| && k < |parts[j]| && i == |Concat(parts[..j])| + k && parts[j][k] == Concat(parts)[i]
  {
    var n := |parts| - 1;
    if i < |Concat(parts[..n])| {
      j, k := ConcatMembers(parts[..n], i);
      assert parts[..n][..j] == parts[..j];
    } else {
      j, k := n, i - |Concat(parts[..n])|;
    }
  }

  lemma {:induction false} StartsAscend(parts: seq<seq<KV>>, i: nat, j: nat)
    requires i < j <= |parts|
    ensures |Concat(parts[..i])| + |parts[i]| <= |Concat(parts[..j])|
    decreases j
  {
    assert parts[..j][..j - 1] == parts[..j - 1];
    if i < j - 1 { StartsAscend(parts, i, j - 1); } else { assert parts[..j][j - 1] == parts[i]; }
  }

  lemma PartAt(parts: seq<seq<KV>>, j: nat, a: nat)
    requires j < |parts| && a < |parts[j]|
    ensures |Concat(parts[..j])| + a < |Concat(parts)| && parts[j][a] == Concat(parts)[|Concat(parts[..j])| + a]
  {
    hide Concat;
    ConcatAt(parts, j);
    var start := |Concat(parts[..j])|;
    assert Concat(parts)[start..start + |parts[j]|][a] == Concat(parts)[start + a];
  }

  lemma PartsSorted(parts: seq<seq<KV>>, j: nat)
    requires SortedKeys(Concat(parts)) && j < |parts|
    ensures SortedKeys(parts[j])
  {
    hide Concat;
    hide KeyLess;
    forall a | 0 <= a < |parts[j]| ensures TAG_SIZE <= |parts[j][a].key| { PartAt(parts, j, a); }
    forall a, b | 0 <= a < b < |parts[j]| ensures KeyLess(parts[j][a].key, parts[j][b].key) {
      PartAt(parts, j, a);
      PartAt(parts, j, b);
    }
  }

  lemma LastOfPart(parts: seq<seq<KV>>, j: nat)
    requires j < |parts| && parts[j] != []
    ensures var at := |Concat(parts[..j])| + |parts[j]| - 1; at < |Concat(parts)| && Concat(parts)[at] == Last(parts[j])
  {
    hide Concat;
    PartAt(parts, j, |parts[j]| - 1);
  }

  lemma IndexSorted(parts: seq<seq<KV>>, handles: seq<Handle>)
    requires Parts(parts, handles) && SortedKeys(Concat(parts))
    ensures SortedKeys(Index(parts, handles))
  {
    hide Concat;
    hide KeyLess;
    hide HandleBytes;
    var ix := Index(parts, handles);
    forall j | 0 <= j < |ix| ensures TAG_SIZE <= |ix[j].key| { LastOfPart(parts, j); }
    forall i, j | 0 <= i < j < |ix| ensures KeyLess(ix[i].key, ix[j].key) {
      LastOfPart(parts, i);
      LastOfPart(parts, j);
      StartsAscend(parts, i, j);
    }
  }

  /** When no block ends at or after the target, every entry is below it. */
  lemma IndexMisses(parts: seq<seq<KV>>, handles: seq<Handle>, target: Bytes)
    requires Parts(parts, handles) && SortedKeys(Concat(parts)) && FirstAtLeast(Index(parts, handles), target, |parts|)
    ensures FirstAtLeast(Concat(parts), target, |Concat(parts)|)
  {
    hide Concat;
    hide HandleBytes;
    KeyLessIsStrictOrder();
    hide KeyLess;
    forall i | 0 <= i < |Concat(parts)| ensures KeyLess(Concat(parts)[i].key, target) {
      var j, k := ConcatMembers(parts, i);
      PartsSorted(parts, j);
      assert KeyLess(Index(parts, handles)[j].key, target);
    }
  }

  lemma KeyLessChain(a: Bytes, b: Bytes, c: Bytes)
    requires TAG_SIZE <= |a| && TAG_SIZE <= |b| && TAG_SIZE <= |c| && (KeyLess(a, b) || a == b) && KeyLess(b, c)
    ensures KeyLess(a, c)
  {
    KeyLessIsStrictOrder();
  }

  /** Entries before the block the index names are below the target. */
  lemma BelowBlock(parts: seq<seq<KV>>, handles: seq<Handle>, target: Bytes, j: nat, a: nat)
    requires Parts(parts, handles) && SortedKeys(Concat(parts)) && 0 < j < |parts|
    requires FirstAtLeast(Index(parts, handles), target, j) && a < |Concat(parts[..j])| <= |Concat(parts)|
    ensures KeyLess(Concat(parts)[a].key, target)
  {
    hide Concat;
    hide HandleBytes;
    hide KeyLess;
    LastOfPart(parts, j - 1);
    StartIsAfter(parts, j);
    assert KeyLess(Index(parts, handles)[j - 1].key, target);
    KeyLessChain(Concat(parts)[a].key, Last(parts[j - 1]).key, target);
  }

  /** The block the index names holds the first entry not below the target. */
  lemma IndexCovers(parts: seq<seq<KV>>, handles: seq<Handle>, target: Bytes, j: nat, i: nat)
    requires Parts(parts, handles) && SortedKeys(Concat(parts)) && j < |parts|
    requires FirstAtLeast(Index(parts, handles), target, j) && FirstAtLeast(parts[j], target, i)
    ensures i < |parts[j]| && |Concat(parts[..j])| + i < |Concat(parts)| && Concat(parts)[|Concat(parts[..j])| + i] == parts[j][i]
    ensures FirstAtLeast(Concat(parts), target, |Concat(parts[..j])| + i)
  {
    StartOfFirst(parts);
    hide Concat;
    hide HandleBytes;
    hide KeyLess;
    var all, start := Concat(parts), |Concat(parts[..j])|;
    assert !KeyLess(Index(parts, handles)[j].key, target);
    assert i < |parts[j]|;
    ConcatAt(parts, j);
    var mine := all[start..start + |parts[j]|];
    assert mine[i] == all[start + i];
    forall a | 0 <= a < start + i ensures KeyLess(all[a].key, target) {
      if start <= a {
        assert mine[a - start] == all[a];
      } else {
        BelowBlock(parts, handles, target, j, a);
      }
    }
  }

  lemma StartOfFirst(parts: seq<seq<KV>>)
    ensures |Concat(parts[..0])| == 0
  {
    assert parts[..0] == [];
  }

  lemma StartIsAfter(parts: seq<seq<KV>>, j: nat)
    requires 0 < j <= |parts|
    ensures |Concat(parts[..j])| == |Concat(parts[..j - 1])| + |parts[j - 1]|
  {
    assert parts[..j][..j - 1] == parts[..j - 1];
  }

  // ---------- entries ----------

  predicate InRange(es: seq<Entry>) { forall i :: 0 <= i < |es| ==> es[i].sn <= MAX_SEQUENCE }

  function ToKV(e: Entry): KV
    requires e.sn <= MAX_SEQUENCE
  {
    KV(EncodeKey(KeyOf(e)), e.value)
  }

  function KVs(es: seq<Entry>): (r: seq<KV>)
    requires InRange(es)
    ensures |r| == |es| && forall i :: 0 <= i < |es| ==> r[i] == ToKV(es[i])
  {
    seq(|es|, i requires 0 <= i < |es| => ToKV(es[i]))
  }

  function LookupKey(k: Bytes, s: nat): (b: Bytes)
    requires s <= MAX_SEQUENCE
    ensures TAG_SIZE <= |b|
  {
    EncodeKey(InternalKey(k, s, Value))
  }

  lemma LookupKeyOrder(e: Entry, k: Bytes, s: nat)
    requires e.sn <= MAX_SEQUENCE && s <= MAX_SEQUENCE
    ensures KeyLess(ToKV(e).key, LookupKey(k, s)) <==> !AtOrAfter(e, k, s)
  {
    hide EncodeKey;
    hide KeyLess;
    var l := Entry(k, s, Value, []);
    KeyLessIsBefore(e, l);
    LessIsStrictTotalOrder();
    hide Less;
  }

  lemma KVsSorted(es: seq<Entry>)
    requires Sorted(es) && InRange(es)
    ensures SortedKeys(KVs(es)) && Internal(KVs(es))
  {
    hide KeyLess;
    hide EncodeKey;
    hide Before;
    hide ParseKey;
    forall i | 0 <= i < |es| ensures ParseKey(KVs(es)[i].key).Some? { ParseOfEncode(KeyOf(es[i])); }
    forall i, j | 0 <= i < j < |es| ensures KeyLess(KVs(es)[i].key, KVs(es)[j].key) { KeyLessIsBefore(es[i], es[j]); }
  }

  /** The byte-level search finds the entry-level one. */
  lemma SeekAgrees(es: seq<Entry>, k: Bytes, s: nat, p: nat)
    requires Sorted(es) && InRange(es) && s <= MAX_SEQUENCE && FirstAtLeast(KVs(es), LookupKey(k, s), p)
    ensures p == SeekIndex(es, k, s)
  {
    hide KeyLess;
    hide EncodeKey;
    hide AtOrAfter;
    var q := SeekIndex(es, k, s);
    if q < p { LookupKeyOrder(es[q], k, s); }
    if p < q { LookupKeyOrder(es[p], k, s); }
  }

  // ---------- the file ----------

  /** Every user key of the table is in its filter. */
  ghost predicate Filtered(all: seq<KV>, hashes: seq<Hash>) {
    forall i :: 0 <= i < |all| ==> TAG_SIZE <= |all[i].key| && BloomHash(UserPart(all[i].key)) in hashes
  }

  datatype Layout = Layout(
    parts: seq<seq<KV>>, handles: seq<Handle>, filter: Bytes, filterHandle: Handle, indexHandle: Handle)

  ghost predicate DataStored(file: Bytes, interval: nat, parts: seq<seq<KV>>, handles: seq<Handle>)
    requires Parts(parts, handles)
  {
    forall j :: 0 <= j < |parts| ==> Buildable(parts[j], interval) && StoredAt(file, handles[j], Block(parts[j], interval))
  }

  ghost predicate IsTable(file: Bytes, interval: nat, l: Layout, hashes: seq<Hash>) {
    && Parts(l.parts, l.handles) && HandleOk(l.filterHandle) && HandleOk(l.indexHandle)
    && DataStored(file, interval, l.parts, l.handles)
    && SortedKeys(Concat(l.parts)) && Internal(Concat(l.parts)) && Filtered(Concat(l.parts), hashes)
    && Covers(l.filter, hashes) && StoredAt(file, l.filterHandle, l.filter)
    && Buildable(Index(l.parts, l.handles), interval) && Internal(Index(l.parts, l.handles))
    && StoredAt(file, l.indexHandle, Block(Index(l.parts, l.handles), interval))
    && FOOTER <= |file| && file[|file| - FOOTER..] == FooterBytes(l.filterHandle, l.indexHandle)
  }
}
