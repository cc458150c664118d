/** Recovery reads back exactly the history the live WAL files carry. */
module WorldReplay {
  import opened Bytes
  import opened Entries
  import opened Wal
  import opened BatchCodec
  import opened History
  import opened Engine
  import opened World
  import opened WorldWal

  /** `mem` holds exactly operations lo+1 .. |ops|. */
  ghost predicate Holds(mem: seq<Entry>, ops: seq<Op>, lo: nat) {
    lo <= |ops| && Sorted(mem) && SetOf(mem) == EntriesOf(ops, lo, |ops|)
  }

  lemma FlattenPrefix(bs: seq<seq<Op>>, a: nat)
    requires a < |bs|
    ensures Flatten(bs[..a + 1]) == Flatten(bs[..a]) + bs[a]
  {
    assert bs[..a + 1] == bs[..a] + [bs[a]];
    FlattenAppend(bs[..a], bs[a]);
  }

  lemma PayloadsHead(bs: seq<seq<Op>>, a: nat, b: nat)
    requires AllEncodable(bs) && a < b <= |bs|
    ensures Payloads(bs, a, b) == [Encode(bs[a], |Flatten(bs[..a])| + 1).value] + Payloads(bs, a + 1, b)
  {
    hide Encode;
    hide Flatten;
    var l, r := Payloads(bs, a, b), [Encode(bs[a], |Flatten(bs[..a])| + 1).value] + Payloads(bs, a + 1, b);
    forall i | 0 <= i < |l| ensures l[i] == r[i] {
      if 0 < i { assert a + 1 + (i - 1) == a + i; }
    }
  }

  /** Replaying batches a .. b-1 extends the history from `a` to `b`. */
  lemma {:induction false} ReplayPayloads(bs: seq<seq<Op>>, a: nat, b: nat, lo: nat, mem: seq<Entry>)
    returns (mem': seq<Entry>)
    requires AllEncodable(bs) && a <= b <= |bs| && Holds(mem, Flatten(bs[..a]), lo)
    ensures ReplayRecords(Payloads(bs, a, b), |Flatten(bs[..a])|, mem) == Some((|Flatten(bs[..b])|, mem'))
    ensures Holds(mem', Flatten(bs[..b]), lo)
    decreases b - a
  {
    hide Encode;
    hide Decode;
    hide Flatten;
    hide ApplyBatch;
    hide Sorted;
    hide EntriesOf;
    if a == b {
      mem' := mem;
      assert Payloads(bs, a, b) == [];
    } else {
      PayloadsHead(bs, a, b);
      var ps := Payloads(bs, a, b);
      assert ps[0] == Encode(bs[a], |Flatten(bs[..a])| + 1).value && ps[1..] == Payloads(bs, a + 1, b);
      DecodeOfEncode(bs[a], |Flatten(bs[..a])| + 1);
      ApplyBatchHolds(mem, bs[a], Flatten(bs[..a]), lo);
      FlattenPrefix(bs, a);
      mem' := ReplayPayloads(bs, a + 1, b, lo, ApplyBatch(mem, bs[a], |Flatten(bs[..a])| + 1));
    }
  }

  lemma {:induction false} ReplayOneMore(rs: seq<Bytes>, ops: seq<Op>, last: nat, mem: seq<Entry>, last': nat, mem': seq<Entry>)
    requires ReplayRecords(rs, last, mem) == Some((last', mem')) && Encode(ops, last' + 1).Some?
    ensures ReplayRecords(rs + [Encode(ops, last' + 1).value], last, mem)
            == Some((last' + |ops|, ApplyBatch(mem', ops, last' + 1)))
    decreases |rs|
  {
    hide Encode;
    hide Decode;
    hide ApplyBatch;
    var all := rs + [Encode(ops, last' + 1).value];
    if rs == [] {
      DecodeOfEncode(ops, last' + 1);
      assert all[1..] == [];
    } else {
      var (first, ops0) := Decode(rs[0]).value;
      assert all[1..] == rs[1..] + [Encode(ops, last' + 1).value];
      ReplayOneMore(rs[1..], ops, last + |ops0|, ApplyBatch(mem, ops0, first), last', mem');
    }
  }

  /** One file of the sequence that is not the last. */
  lemma ReplayInnerSpan(h: Hist, i: nat, lo: nat, mem: seq<Entry>) returns (mem': seq<Entry>)
    requires HistOk(h) && i + 1 < |h.spans| && Holds(mem, Flatten(h.batches[..h.spans[i].start]), lo)
    ensures ReplayFile(SpanBytes(h, i), |Flatten(h.batches[..h.spans[i].start])|, mem)
            == Some((|Flatten(h.batches[..h.spans[i + 1].start])|, mem'))
    ensures Holds(mem', Flatten(h.batches[..h.spans[i + 1].start]), lo)
  {
    hide Payloads;
    hide Flatten;
    hide Holds;
    hide ReadAll;
    hide ReplayRecords;
    hide Log;
    var a, b := h.spans[i].start, h.spans[i + 1].start;
    var ps := Payloads(h.batches, a, b);
    assert SpanBytes(h, i) == Log(ps);
    CleanLogReplays(ps);
    mem' := ReplayPayloads(h.batches, a, b, lo, mem);
  }

  /** The last file: a torn tail is ignored, a whole unacknowledged record is kept. */
  lemma ReplayLastSpan(h: Hist, lo: nat, mem: seq<Entry>) returns (mem': seq<Entry>)
    requires HistOk(h)
    requires Holds(mem, Flatten(h.batches[..h.spans[|h.spans| - 1].start]), lo)
    ensures ReplayFile(SpanBytes(h, |h.spans| - 1), |Flatten(h.batches[..h.spans[|h.spans| - 1].start])|, mem)
            == Some((|Ops(RecoveredHist(h))|, mem'))
    ensures Holds(mem', Ops(RecoveredHist(h)), lo)
  {
    hide Payloads;
    hide Flatten;
    hide ReadAll;
    hide ReplayRecords;
    hide Log;
    hide Encode;
    hide Frame;
    hide ApplyBatch;
    hide Sorted;
    hide EntriesOf;
    var a, b := h.spans[|h.spans| - 1].start, |h.batches|;
    var ps := Payloads(h.batches, a, b);
    assert h.batches[..b] == h.batches;
    mem' := ReplayPayloads(h.batches, a, b, lo, mem);
    if h.torn.None? {
      assert SpanBytes(h, |h.spans| - 1) == Log(ps);
      CleanLogReplays(ps);
    } else {
      var ops := h.torn.value.ops;
      var extra := Encode(ops, |Ops(h)| + 1).value;
      TornLogReplays(ps, extra, h.torn.value.bytes);
      if TornIsWhole(h) {
        ReplayOneMore(ps, ops, |Flatten(h.batches[..a])|, mem, |Ops(h)|, mem');
        FlattenAppend(h.batches, ops);
        ApplyBatchHolds(mem', ops, Ops(h), lo);
        mem' := ApplyBatch(mem', ops, |Ops(h)| + 1);
      }
    }
  }

  function SpanNumbers(h: Hist): seq<nat> { seq(|h.spans|, i requires 0 <= i < |h.spans| => h.spans[i].number) }

  /** Replaying the files from the `i`-th on. */
  lemma {:induction false} ReplaySpans(wals: map<nat, Bytes>, h: Hist, i: nat, lo: nat, mem: seq<Entry>) returns (mem': seq<Entry>)
    requires HistOk(h) && SpansStored(wals, h) && i < |h.spans| && Holds(mem, Flatten(h.batches[..h.spans[i].start]), lo)
    ensures ReplayFiles(wals, SpanNumbers(h)[i..], |Flatten(h.batches[..h.spans[i].start])|, mem)
            == Some((|Ops(RecoveredHist(h))|, mem'))
    ensures Holds(mem', Ops(RecoveredHist(h)), lo)
    decreases |h.spans| - i
  {
    hide Flatten;
    hide Holds;
    hide ReplayFile;
    hide SpanBytes;
    hide HistOk;
    hide RecoveredHist;
    var ns := SpanNumbers(h)[i..];
    assert ns[0] == h.spans[i].number && ns[1..] == SpanNumbers(h)[i + 1..];
    if i + 1 == |h.spans| {
      mem' := ReplayLastSpan(h, lo, mem);
      assert ns[1..] == [];
    } else {
      var mid := ReplayInnerSpan(h, i, lo, mem);
      mem' := ReplaySpans(wals, h, i + 1, lo, mid);
    }
  }

  lemma {:induction false} AscendingUnique(a: seq<nat>, b: seq<nat>)
    requires Ascending(a) && Ascending(b) && forall n :: n in a <==> n in b
    ensures a == b
  {
    assert |a| > 0 ==> a[0] in a;
    assert |b| > 0 ==> b[0] in b;
    if a != [] {
      assert a[0] in b && b[0] in a;
      assert a[0] == b[0];
      forall n ensures n in a[1..] <==> n in b[1..] {
        if n in a[1..] { assert n in a && n != a[0]; }
        if n in b[1..] { assert n in b && n != b[0]; }
      }
      AscendingUnique(a[1..], b[1..]);
      assert a == [a[0]] + a[1..] && b == [b[0]] + b[1..];
    }
  }

  /** Scanning the directory finds exactly the live WAL files. */
  lemma LiveWalsAreSpans(disk: Disk, h: Hist, ns: seq<nat>)
    requires WalInv(disk, h) && LiveWals(disk.wals, disk.manifest.oldestWal, ns)
    ensures ns == SpanNumbers(h)
  {
    hide Published;
    hide AllEncodable;
    hide Encode;
    hide Flatten;
    hide SpanBytes;
    var ms := SpanNumbers(h);
    forall n | n in ms ensures n in ns {
      var i :| 0 <= i < |ms| && ms[i] == n;
      SpansFromOldest(h, i);
    }
    forall n | n in ns ensures n in ms {
      var i :| 0 <= i < |h.spans| && h.spans[i].number == n;
      assert ms[i] == n;
    }
    AscendingUnique(ns, ms);
  }

  // ---------- cutting torn tails ----------

  lemma TruncatedLog(ps: seq<Bytes>)
    requires AllWritable(ps)
    ensures Truncated(Log(ps)) == Log(ps)
  {
    hide Log;
    hide ReadAll;
    CleanLogReplays(ps);
  }

  lemma TruncatedTornLog(ps: seq<Bytes>, extra: Bytes, n: nat)
    requires AllWritable(ps) && Writable(extra) && n <= |Frame(extra)|
    ensures Truncated(Log(ps) + Frame(extra)[..n]) == if n < |Frame(extra)| then Log(ps) else Log(ps + [extra])
  {
    hide Log;
    hide Frame;
    hide ReadAll;
    TornLogReplays(ps, extra, n);
    if n == |Frame(extra)| {
      LogAppend(ps, extra);
      assert Frame(extra)[..n] == Frame(extra);
    } else {
      assert (Log(ps) + Frame(extra)[..n])[..|Log(ps)|] == Log(ps);
    }
  }

  /** Cutting a live file back to its whole records leaves what the recovered history
      says it holds. */
  lemma TruncatedSpan(h: Hist, i: nat)
    requires HistOk(h) && i < |h.spans|
    ensures HistOk(RecoveredHist(h))
    ensures Truncated(SpanBytes(h, i)) == SpanBytes(RecoveredHist(h), i)
  {
    hide Log;
    hide Frame;
    hide Truncated;
    hide Encode;
    hide Flatten;
    hide Payloads;
    var h', bs := RecoveredHist(h), h.batches;
    var a, b := h.spans[i].start, SpanEnd(h, i);
    if TornIsWhole(h) {
      var ops := h.torn.value.ops;
      var extra := Encode(ops, |Ops(h)| + 1).value;
      EncodableAppend(bs, ops);
      if i + 1 == |h.spans| {
        PayloadsAppend(bs, ops, a);
        TruncatedTornLog(Payloads(bs, a, b), extra, h.torn.value.bytes);
      } else {
        PayloadsOfPrefix(bs, ops, a, b);
        TruncatedLog(Payloads(bs, a, b));
        assert SpanEnd(h', i) == b;
        assert SpanBytes(h, i) == Log(Payloads(bs, a, b)) == SpanBytes(h', i);
      }
    } else if i + 1 == |h.spans| && h.torn.Some? {
      TruncatedTornLog(Payloads(bs, a, b), Encode(h.torn.value.ops, |Ops(h)| + 1).value, h.torn.value.bytes);
    } else {
      TruncatedLog(Payloads(bs, a, b));
      assert SpanBytes(h, i) == Log(Payloads(bs, a, b)) == SpanBytes(h', i);
    }
  }

  lemma RecoveredPrefix(h: Hist)
    requires HistOk(h)
    ensures RecoveredHist(h).batches[..h.spans[0].start] == h.batches[..h.spans[0].start]
  {}

  lemma TruncateKeepsWal(disk: Disk, h: Hist, ns: seq<nat>)
    requires WalInv(disk, h) && ns == SpanNumbers(h)
    ensures HistOk(RecoveredHist(h)) && WalInv(TruncateWals(disk, ns), RecoveredHist(h))
  {
    hide Published;
    hide IsSpan;
    hide AllEncodable;
    hide Encode;
    hide Frame;
    hide TornIsWhole;
    hide SpanBytes;
    hide Truncated;
    hide Flatten;
    var disk', h' := TruncateWals(disk, ns), RecoveredHist(h);
    TruncatedSpan(h, 0);
    RecoveredPrefix(h);
    forall i | 0 <= i < |h.spans|
      ensures h.spans[i].number in disk'.wals && disk'.wals[h.spans[i].number] == SpanBytes(h', i)
    {
      TruncatedSpan(h, i);
      assert ns[i] == h.spans[i].number;
    }
  }

  /** Recovery may itself be interrupted after cutting any of the files. */
  lemma CutTailKeepsWal(disk: Disk, h: Hist, n: nat, h': Hist)
    requires WalInv(disk, h) && n in disk.wals && disk.manifest.oldestWal <= n
    requires h' == if n == h.spans[|h.spans| - 1].number && !TornIsWhole(h) then h.(torn := None) else h
    ensures WalInv(disk.(wals := disk.wals[n := Truncated(disk.wals[n])]), h')
  {
    hide Published;
    hide Truncated;
    hide Flatten;
    hide SpanBytes;
    hide Encode;
    hide Frame;
    hide AllEncodable;
    var k :| 0 <= k < |h.spans| && h.spans[k].number == n;
    assert k + 1 == |h.spans| <==> n == h.spans[|h.spans| - 1].number;
    TruncatedSpan(h, k);
    CutSpan(h, k);
    UncutSpans(h, k);
  }

  lemma UncutSpans(h: Hist, k: nat)
    requires HistOk(h) && k < |h.spans|
    ensures var h' := if k + 1 == |h.spans| && !TornIsWhole(h) then h.(torn := None) else h;
      HistOk(h') && forall i :: 0 <= i < |h.spans| && i != k ==> SpanBytes(h', i) == SpanBytes(h, i)
  {
    hide Flatten;
    hide Encode;
    hide Frame;
    hide Log;
    hide Payloads;
  }

  lemma CutSpan(h: Hist, k: nat)
    requires HistOk(h) && k < |h.spans| && HistOk(RecoveredHist(h))
    ensures var h' := if k + 1 == |h.spans| && !TornIsWhole(h) then h.(torn := None) else h;
      HistOk(h') && SpanBytes(RecoveredHist(h), k) == SpanBytes(h', k)
  {
    hide Flatten;
    hide Encode;
    hide Frame;
    hide Log;
    hide Payloads;
    var bs := h.batches;
    if TornIsWhole(h) {
      var ops := h.torn.value.ops;
      if k + 1 == |h.spans| {
        PayloadsAppend(bs, ops, h.spans[k].start);
        LogAppend(Payloads(bs, h.spans[k].start, |bs|), Encode(ops, |Ops(h)| + 1).value);
        assert TornBytes(h) == Frame(Encode(ops, |Ops(h)| + 1).value);
      } else {
        PayloadsOfPrefix(bs, ops, h.spans[k].start, h.spans[k + 1].start);
      }
    }
  }
}
