/** The abstract database: the sequence of committed operations. Operation number
    `i`, counted from one, has sequence number `i`. */
module History {
  import opened Bytes
  import opened Entries
  import opened BatchCodec

  function EntryAt(op: Op, sn: nat): Entry {
    match op
    case Put(k, v) => Entry(k, sn, Value, v)
    case Delete(k) => Entry(k, sn, Deletion, [])
  }

  /** The entries of operations lo+1 .. hi. */
  ghost function EntriesOf(h: seq<Op>, lo: nat, hi: nat): (r: set<Entry>)
    requires lo <= hi <= |h|
    ensures forall e :: e in r <==> lo < e.sn <= hi && e == EntryAt(h[e.sn - 1], e.sn)
    decreases hi
  {
    if lo == hi then {} else EntriesOf(h, lo, hi - 1) + {EntryAt(h[hi - 1], hi)}
  }

  /** The newest operation on `k` with sequence number at most `s`. */
  function Newest(h: seq<Op>, k: Bytes, s: nat): Option<Entry> {
    if h == [] then None
    else
      var n := |h|;
      if n <= s && h[n - 1].key == k then Some(EntryAt(h[n - 1], n)) else Newest(h[..n - 1], k, s)
  }

  /** What reading `k` at sequence `s` must return. */
  function Read(h: seq<Op>, k: Bytes, s: nat): Option<Bytes> { Observed(Newest(h, k, s)) }

  lemma {:induction false} NewestIsNewest(h: seq<Op>, k: Bytes, s: nat)
    ensures IsNewest(EntriesOf(h, 0, |h|), k, s, Newest(h, k, s))
  {
    if h != [] {
      var n := |h|;
      NewestIsNewest(h[..n - 1], k, s);
      assert EntriesOf(h, 0, n) == EntriesOf(h[..n - 1], 0, n - 1) + {EntryAt(h[n - 1], n)};
    }
  }

  lemma EntriesUnique(h: seq<Op>, lo: nat, hi: nat)
    requires lo <= hi <= |h|
    ensures UniqueVersions(EntriesOf(h, lo, hi))
  {}

  lemma EntriesSplit(h: seq<Op>, lo: nat, mid: nat, hi: nat)
    requires lo <= mid <= hi <= |h|
    ensures EntriesOf(h, lo, hi) == EntriesOf(h, lo, mid) + EntriesOf(h, mid, hi)
  {}

  lemma EntriesOfExtension(h: seq<Op>, more: seq<Op>, lo: nat, hi: nat)
    requires lo <= hi <= |h|
    ensures EntriesOf(h + more, lo, hi) == EntriesOf(h, lo, hi)
  {}

  /** Later operations never change a read at an earlier sequence number. */
  lemma {:induction false} ReadIsStable(h: seq<Op>, more: seq<Op>, k: Bytes, s: nat)
    requires s <= |h|
    ensures Newest(h + more, k, s) == Newest(h, k, s)
  {
    if more == [] {
      assert h + more == h;
    } else {
      var n := |more| - 1;
      assert (h + more)[..|h| + n] == h + more[..n];
      ReadIsStable(h, more[..n], k, s);
    }
  }

  // ---------- applying a batch to a sorted run ----------

  /** `applyBatch`: the operations take consecutive sequence numbers. */
  function ApplyBatch(mem: seq<Entry>, ops: seq<Op>, first: nat): seq<Entry>
    decreases |ops|
  {
    if ops == [] then mem else ApplyBatch(Insert(mem, EntryAt(ops[0], first)), ops[1..], first + 1)
  }

  lemma InsertNextOp(mem: seq<Entry>, op: Op, h: seq<Op>, lo: nat)
    requires lo <= |h| && Sorted(mem) && SetOf(mem) == EntriesOf(h, lo, |h|)
    ensures Sorted(Insert(mem, EntryAt(op, |h| + 1)))
    ensures SetOf(Insert(mem, EntryAt(op, |h| + 1))) == EntriesOf(h + [op], lo, |h| + 1)
  {
    hide Sorted;
    hide Insert;
    assert forall f :: f in mem ==> f in SetOf(mem);
    InsertKeepsSorted(mem, EntryAt(op, |h| + 1));
    EntriesOfExtension(h, [op], lo, |h|);
  }

  /** A run that holds exactly operations lo+1 .. |h| still does after the batch. */
  lemma {:induction false} ApplyBatchHolds(mem: seq<Entry>, ops: seq<Op>, h: seq<Op>, lo: nat)
    requires lo <= |h| && Sorted(mem) && SetOf(mem) == EntriesOf(h, lo, |h|)
    ensures Sorted(ApplyBatch(mem, ops, |h| + 1))
    ensures SetOf(ApplyBatch(mem, ops, |h| + 1)) == EntriesOf(h + ops, lo, |h + ops|)
    decreases |ops|
  {
    hide Sorted;
    hide Insert;
    hide EntriesOf;
    hide EntryAt;
    if ops == [] {
      assert h + ops == h;
    } else {
      var h' := h + [ops[0]];
      InsertNextOp(mem, ops[0], h, lo);
      assert h' + ops[1..] == h + ops;
      ApplyBatchHolds(Insert(mem, EntryAt(ops[0], |h| + 1)), ops[1..], h', lo);
    }
  }
}
