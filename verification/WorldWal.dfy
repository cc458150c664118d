/** What every action does to the live WAL files: they keep carrying the unflushed
    batches, in order and without a gap. */
module WorldWal {
  import opened Bytes
  import opened Wal
  import opened BatchCodec
  import opened Engine
  import opened Manifests
  import opened World

  lemma FlattenAppend(bs: seq<seq<Op>>, b: seq<Op>)
    ensures Flatten(bs + [b]) == Flatten(bs) + b
  {
    assert (bs + [b])[..|bs|] == bs;
  }

  lemma PrefixOfAppend(bs: seq<seq<Op>>, b: seq<Op>, i: nat)
    requires i <= |bs|
    ensures (bs + [b])[..i] == bs[..i]
  {}

  lemma EncodableAppend(bs: seq<seq<Op>>, b: seq<Op>)
    requires AllEncodable(bs) && Encode(b, |Flatten(bs)| + 1).Some?
    ensures AllEncodable(bs + [b])
  {
    hide Encode;
    hide Flatten;
    var bs' := bs + [b];
    forall i | 0 <= i < |bs'| ensures Encode(bs'[i], |Flatten(bs'[..i])| + 1).Some? {
      PrefixOfAppend(bs, b, i);
      if i == |bs| { assert bs[..i] == bs; }
    }
  }

  lemma PayloadsOfPrefix(bs: seq<seq<Op>>, b: seq<Op>, x: nat, y: nat)
    requires AllEncodable(bs) && AllEncodable(bs + [b]) && x <= y <= |bs|
    ensures Payloads(bs + [b], x, y) == Payloads(bs, x, y)
  {
    hide Encode;
    hide Flatten;
    forall i | 0 <= i < y - x ensures Payloads(bs + [b], x, y)[i] == Payloads(bs, x, y)[i] {
      PrefixOfAppend(bs, b, x + i);
    }
  }

  lemma PayloadsSnoc(bs: seq<seq<Op>>, x: nat, y: nat)
    requires AllEncodable(bs) && x <= y < |bs|
    ensures Payloads(bs, x, y + 1) == Payloads(bs, x, y) + [Encode(bs[y], |Flatten(bs[..y])| + 1).value]
  {
    hide Encode;
    hide Flatten;
    assert bs[x + (y - x)] == bs[y];
  }

  lemma PayloadsAppend(bs: seq<seq<Op>>, b: seq<Op>, x: nat)
    requires AllEncodable(bs) && Encode(b, |Flatten(bs)| + 1).Some? && x <= |bs|
    ensures AllEncodable(bs + [b])
    ensures Payloads(bs + [b], x, |bs| + 1) == Payloads(bs, x, |bs|) + [Encode(b, |Flatten(bs)| + 1).value]
  {
    hide Encode;
    hide Flatten;
    hide Payloads;
    EncodableAppend(bs, b);
    PayloadsSnoc(bs + [b], x, |bs|);
    PayloadsOfPrefix(bs, b, x, |bs|);
    PrefixOfAppend(bs, b, |bs|);
    assert bs[..|bs|] == bs;
  }

  /** Appending one whole record to the last file commits one more batch. */
  lemma LastSpanGrows(h: Hist, ops: seq<Op>)
    requires HistOk(h) && h.torn.None? && Encode(ops, |Ops(h)| + 1).Some?
    ensures var h' := h.(batches := h.batches + [ops]);
      && HistOk(h')
      && SpanBytes(h', |h.spans| - 1) == SpanBytes(h, |h.spans| - 1) + Frame(Encode(ops, |Ops(h)| + 1).value)
      && forall i :: 0 <= i < |h.spans| - 1 ==> SpanBytes(h', i) == SpanBytes(h, i)
  {
    hide Encode;
    hide Flatten;
    hide Frame;
    hide Payloads;
    hide Log;
    var bs, h' := h.batches, h.(batches := h.batches + [ops]);
    var last := h.spans[|h.spans| - 1];
    PayloadsAppend(bs, ops, last.start);
    LogAppend(Payloads(bs, last.start, |bs|), Encode(ops, |Ops(h)| + 1).value);
    assert HistOk(h');
    assert SpanEnd(h', |h.spans| - 1) == |bs| + 1;
    forall i | 0 <= i < |h.spans| - 1 ensures SpanBytes(h', i) == SpanBytes(h, i) {
      PayloadsOfPrefix(bs, ops, h.spans[i].start, h.spans[i + 1].start);
    }
  }

  lemma WriteKeepsWal(disk: Disk, h: Hist, ops: seq<Op>, disk': Disk)
    requires WalInv(disk, h) && h.torn.None? && Encode(ops, |Ops(h)| + 1).Some?
    requires var n := h.spans[|h.spans| - 1].number;
      disk' == disk.(wals := disk.wals[n := disk.wals[n] + Frame(Encode(ops, |Ops(h)| + 1).value)])
    ensures WalInv(disk', h.(batches := h.batches + [ops]))
  {
    hide Published;
    hide Encode;
    hide Frame;
    hide SpanBytes;
    hide Flatten;
    LastSpanGrows(h, ops);
    PrefixOfAppend(h.batches, ops, h.spans[0].start);
  }

  lemma LastSpanTears(h: Hist, ops: seq<Op>, n: nat)
    requires HistOk(h) && h.torn.None? && Encode(ops, |Ops(h)| + 1).Some?
    requires n <= |Frame(Encode(ops, |Ops(h)| + 1).value)|
    ensures var h' := h.(torn := Some(Torn(ops, n)));
      && HistOk(h')
      && SpanBytes(h', |h.spans| - 1) == SpanBytes(h, |h.spans| - 1) + Frame(Encode(ops, |Ops(h)| + 1).value)[..n]
      && forall i :: 0 <= i < |h.spans| - 1 ==> SpanBytes(h', i) == SpanBytes(h, i)
  {
    hide Encode;
    hide Frame;
    hide Payloads;
    hide Log;
    hide Flatten;
  }

  lemma WriteFailsKeepsWal(disk: Disk, h: Hist, ops: seq<Op>, n: nat, disk': Disk)
    requires WalInv(disk, h) && h.torn.None? && Encode(ops, |Ops(h)| + 1).Some?
    requires n <= |Frame(Encode(ops, |Ops(h)| + 1).value)|
    requires var w := h.spans[|h.spans| - 1].number;
      disk' == disk.(wals := disk.wals[w := disk.wals[w] + Frame(Encode(ops, |Ops(h)| + 1).value)[..n]])
    ensures WalInv(disk', h.(torn := Some(Torn(ops, n))))
  {
    hide Published;
    hide IsSpan;
    hide AllEncodable;
    hide Encode;
    hide Frame;
    hide SpanBytes;
    hide Flatten;
    LastSpanTears(h, ops, n);
  }

  lemma NewSpanIsEmpty(h: Hist, n: nat)
    requires HistOk(h) && h.torn.None? && forall i :: 0 <= i < |h.spans| ==> h.spans[i].number < n
    ensures var h' := h.(spans := h.spans + [WalSpan(n, |h.batches|)]);
      && HistOk(h') && SpanBytes(h', |h.spans|) == []
      && forall i :: 0 <= i < |h.spans| ==> h'.spans[i] == h.spans[i] && SpanBytes(h', i) == SpanBytes(h, i)
  {
    hide Encode;
    hide Frame;
    hide Flatten;
    var h' := h.(spans := h.spans + [WalSpan(n, |h.batches|)]);
    assert Payloads(h.batches, |h.batches|, |h.batches|) == [];
    forall i | 0 <= i < |h.spans| ensures SpanEnd(h', i) == SpanEnd(h, i) {}
  }

  /** A new empty file continues the sequence. */
  lemma NewSpanKeepsWal(disk: Disk, h: Hist, n: nat)
    requires WalInv(disk, h) && h.torn.None? && forall x :: x in disk.wals ==> x < n
    ensures WalInv(disk.(wals := disk.wals[n := []]), h.(spans := h.spans + [WalSpan(n, |h.batches|)]))
  {
    hide Published;
    hide Encode;
    hide Frame;
    hide Flatten;
    hide SpanBytes;
    NewSpanIsEmpty(h, n);
    var k, h' := |h.spans|, h.(spans := h.spans + [WalSpan(n, |h.batches|)]);
    var disk' := disk.(wals := disk.wals[n := []]);
    forall x | x in disk'.wals && disk.manifest.oldestWal <= x
      ensures IsSpan(h'.spans, x)
    {
      if x == n {
        assert h'.spans[k].number == x;
      } else {
        var i :| 0 <= i < k && h.spans[i].number == x;
        assert h'.spans[i].number == x;
      }
    }
  }

  /** Publishing a flushed manifest forgets every file before the current one. */
  lemma FlushCommitKeepsWal(disk: Disk, h: Hist, c: Manifest)
    requires WalInv(disk, h) && Published(c)
    requires c.oldestWal == h.spans[|h.spans| - 1].number
    requires c.flushed == |Flatten(h.batches[..h.spans[|h.spans| - 1].start])|
    ensures WalInv(disk.(manifest := c), h.(spans := [h.spans[|h.spans| - 1]]))
  {
    hide Published;
    hide Encode;
    hide Frame;
    hide Flatten;
    hide Payloads;
    hide Log;
    var k, h' := |h.spans| - 1, h.(spans := [h.spans[|h.spans| - 1]]);
    assert HistOk(h');
    assert SpanBytes(h', 0) == SpanBytes(h, k) by {
      assert SpanEnd(h', 0) == SpanEnd(h, k);
    }
    forall x | x in disk.wals && c.oldestWal <= x
      ensures IsSpan(h'.spans, x)
    {
      var i :| 0 <= i < |h.spans| && h.spans[i].number == x;
      assert i == k;
      assert h'.spans[0].number == x;
    }
  }

  lemma RemoveWalKeepsWal(disk: Disk, h: Hist, n: nat)
    requires WalInv(disk, h) && n < disk.manifest.oldestWal
    ensures WalInv(DeleteWal(disk, n), h)
  {
    hide Published;
    hide IsSpan;
    hide SpanBytes;
    hide Flatten;
    hide HistOk;
    var disk' := DeleteWal(disk, n);
    forall i | 0 <= i < |h.spans| && HistOk(h)
      ensures h.spans[i].number in disk'.wals && disk'.wals[h.spans[i].number] == SpanBytes(h, i)
    {
      SpansFromOldest(h, i);
    }
  }

  lemma SpansFromOldest(h: Hist, i: nat)
    requires HistOk(h) && i < |h.spans|
    ensures h.spans[0].number <= h.spans[i].number
  {
    if 0 < i { assert h.spans[0].number < h.spans[i].number; }
  }
}
