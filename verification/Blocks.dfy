/** `BlockBuilder` and `BlockIterator`: whatever the restart interval, walking a built
    block gives the added entries back and `seek` finds the first key not below the
    target, without failing. */
module Blocks {
  import opened Bytes
  import opened InternalKeys
  import opened BlockFormat

  // ---------- builder ----------

  /** The loop of `commonPrefix`. */
  method ComputeCommonPrefix(a: Bytes, b: Bytes) returns (n: nat)
    ensures n == CommonPrefix(a, b)
  {
    n := 0;
    while n < |a| && n < |b| && a[n] == b[n]
      invariant n <= |a| && n <= |b| && CommonPrefix(a, b) == n + CommonPrefix(a[n..], b[n..])
    {
      assert a[n..][1..] == a[n + 1..] && b[n..][1..] == b[n + 1..];
      n := n + 1;
    }
  }

  lemma {:induction false} BodyOfMore(es: seq<KV>, kv: KV, interval: nat, n: nat)
    requires AllSmall(es) && Small(kv) && n <= |es|
    ensures AllSmall(es + [kv]) && Body(es + [kv], interval, n) == Body(es, interval, n)
  {
    hide EntryBytes;
    hide Since;
    if n > 0 { BodyOfMore(es, kv, interval, n - 1); }
  }

  lemma {:induction false} RestartsOfMore(es: seq<KV>, kv: KV, interval: nat, n: nat)
    requires AllSmall(es) && Small(kv) && n <= |es|
    ensures AllSmall(es + [kv]) && Restarts(es + [kv], interval, n) == Restarts(es, interval, n)
  {
    hide EntryBytes;
    hide Since;
    hide Body;
    BodyOfMore(es, kv, interval, n);
    if n > 1 {
      BodyOfMore(es, kv, interval, n - 1);
      RestartsOfMore(es, kv, interval, n - 1);
    }
  }

  class BlockBuilder {
    const interval: nat
    var buffer: Bytes
    var restarts: seq<nat>
    var lastKey: Bytes
    var sinceRestart: nat
    var finished: bool
    ghost var added: seq<KV>

    ghost predicate Valid()
      reads this
    {
      && 0 < interval && AllSmall(added) && !finished
      && buffer == Body(added, interval, |added|) && restarts == Restarts(added, interval, |added|)
      && sinceRestart == Since(|added|, interval)
      && lastKey == (if added == [] then [] else added[|added| - 1].key)
    }

    constructor (restartInterval: nat)
      requires 0 < restartInterval
      ensures Valid() && added == [] && interval == restartInterval
    {
      interval := restartInterval;
      buffer, restarts, lastKey, sinceRestart, finished, added := [], [0], [], 0, false, [];
    }

    method Reset()
      modifies this
      requires 0 < interval
      ensures Valid() && added == []
    {
      buffer, restarts, lastKey, sinceRestart, finished, added := [], [0], [], 0, false, [];
    }

    method Add(key: Bytes, value: Bytes)
      requires Valid() && |key| < TWO_32 && |value| < TWO_32
      modifies this
      ensures Valid() && added == old(added) + [KV(key, value)]
    {
      hide Body;
      hide Restarts;
      hide EntryBytes;
      ghost var kv := KV(key, value);
      ghost var n := |added|;
      BodyOfMore(added, kv, interval, n);
      RestartsOfMore(added, kv, interval, n);
      OneMore(added, kv, interval);
      var shared := 0;
      var fresh_ := sinceRestart == interval;
      if !fresh_ { shared := ComputeCommonPrefix(lastKey, key); }
      var bytes := EntryBytes(shared, KV(key, value));
      if fresh_ { restarts := restarts + [|buffer|]; }
      sinceRestart := (if fresh_ then 0 else sinceRestart) + 1;
      buffer := buffer + bytes;
      lastKey := key;
      added := added + [kv];
    }

    method Finish() returns (block: Bytes)
      requires Valid() && Buildable(added, interval)
      modifies this
      ensures block == Block(old(added), interval) && finished
    {
      hide Body;
      hide Restarts;
      RestartsFit(added, interval);
      var i := 0;
      ghost var body := buffer;
      while i < |restarts|
        invariant i <= |restarts| && restarts == old(restarts) && Words(restarts[..i]) && buffer == body + WordBytes(restarts[..i])
      {
        assert restarts[..i + 1][..i] == restarts[..i];
        buffer := buffer + Fixed32(restarts[i]);
        i := i + 1;
      }
      assert restarts[..i] == restarts;
      buffer := buffer + Fixed32(|restarts|);
      finished := true;
      return buffer;
    }
  }

  lemma OneMore(es: seq<KV>, kv: KV, interval: nat)
    requires AllSmall(es) && Small(kv) && 0 < interval
    ensures var es', n := es + [kv], |es|;
      && AllSmall(es')
      && SharedAt(es', interval, n)
           == (if Since(n, interval) == interval then 0 else CommonPrefix(if es == [] then [] else es[n - 1].key, kv.key))
      && Body(es', interval, n + 1) == Body(es', interval, n) + EntryBytes(SharedAt(es', interval, n), kv)
      && Restarts(es', interval, n + 1)
           == Restarts(es', interval, n) + (if Since(n, interval) == interval then [Offset(es', interval, n)] else [])
      && Since(n + 1, interval) == (if Since(n, interval) == interval then 0 else Since(n, interval)) + 1
  {
    hide EntryBytes;
  }

  // ---------- iterator ----------

  ghost predicate SortedKeys(es: seq<KV>) {
    && (forall i :: 0 <= i < |es| ==> TAG_SIZE <= |es[i].key|)
    && forall i, j :: 0 <= i < j < |es| ==> KeyLess(es[i].key, es[j].key)
  }

  /** `i` is the first position whose key is not below `target`. */
  ghost predicate FirstAtLeast(es: seq<KV>, target: Bytes, i: nat) {
    && TAG_SIZE <= |target| && SortedKeys(es) && i <= |es|
    && (forall j :: 0 <= j < i ==> KeyLess(es[j].key, target))
    && (i < |es| ==> !KeyLess(es[i].key, target))
  }

  lemma WordInside(b: Bytes, o: nat, n: nat)
    requires n < TWO_32 && o + 4 <= |b| && b[o..o + 4] == Fixed32(n)
    ensures Word(b, o) == n
  {
    var word := Fixed32(n);
  }

  lemma MiddleSlice(a: Bytes, b: Bytes, c: Bytes, i: nat, j: nat)
    requires i <= j <= |b|
    ensures (a + b + c)[|a| + i..|a| + j] == b[i..j]
  {}

  lemma WordInMiddle(a: Bytes, b: Bytes, c: Bytes, i: nat, n: nat)
    requires n < TWO_32 && i + 4 <= |b| && b[i..i + 4] == Fixed32(n)
    ensures Word(a + b + c, |a| + i) == n
  {
    hide Fixed32;
    hide Word;
    MiddleSlice(a, b, c, i, i + 4);
    WordInside(a + b + c, |a| + i, n);
  }

  lemma RestartWord(body: Bytes, rs: seq<nat>, j: nat, count: Bytes)
    requires Words(rs) && j < |rs|
    ensures Word(body + WordBytes(rs) + count, |body| + 4 * j) == rs[j]
  {
    hide WordBytes;
    hide Fixed32;
    hide Word;
    WordBytesAt(rs, j);
    WordInMiddle(body, WordBytes(rs), count, 4 * j, rs[j]);
  }

  /** The restart words and their count, behind any body. */
  lemma TrailerWords(body: Bytes, rs: seq<nat>)
    requires Words(rs) && |rs| < TWO_32
    ensures var b := body + WordBytes(rs) + Fixed32(|rs|);
      && |b| == |body| + 4 * |rs| + 4 && Word(b, |b| - 4) == |rs|
      && forall j :: 0 <= j < |rs| ==> Word(b, |body| + 4 * j) == rs[j]
  {
    hide WordBytes;
    hide Fixed32;
    hide Word;
    var count := Fixed32(|rs|);
    var b := body + WordBytes(rs) + count;
    assert b[|b| - 4..|b| - 4 + 4] == count;
    WordInside(b, |b| - 4, |rs|);
    forall j | 0 <= j < |rs| ensures Word(b, |body| + 4 * j) == rs[j] { RestartWord(body, rs, j, count); }
  }

  /** The bytes around the entries of a built block. */
  lemma Trailer(es: seq<KV>, interval: nat)
    requires Buildable(es, interval)
    ensures var b, end, rs := Block(es, interval), Offset(es, interval, |es|), Restarts(es, interval, |es|);
      && |b| == end + 4 * |rs| + 4 && Word(b, |b| - 4) == |rs|
      && forall j :: 0 <= j < |rs| ==> Word(b, end + 4 * j) == rs[j]
  {
    hide Restarts;
    hide Body;
    hide Word;
    hide WordBytes;
    hide Fixed32;
    RestartsFit(es, interval);
    TrailerWords(Body(es, interval, |es|), Restarts(es, interval, |es|));
  }

  class BlockIterator {
    const block: Bytes
    var restartCount: nat
    var restartOffset: nat
    var key: Bytes
    var value: Bytes
    var nextOffset: nat
    var valid: bool
    var failed: bool

    /** What holds for any bytes whatever. */
    ghost predicate Wf()
      reads this
    {
      && (!failed ==> restartOffset + 4 * restartCount + 4 == |block| && 0 < restartCount)
      && (valid ==> !failed && nextOffset <= restartOffset && TAG_SIZE <= |key|)
    }

    /** The iterator reads a block built from `es`. */
    ghost predicate Over(es: seq<KV>, interval: nat)
      reads this
    {
      && Buildable(es, interval) && Internal(es) && SortedKeys(es) && block == Block(es, interval) && !failed
      && restartOffset == Offset(es, interval, |es|) && restartCount == |Points(|es|, interval)|
    }

    /** It stands on entry `i`, or past the last one. */
    ghost predicate At(es: seq<KV>, interval: nat, i: nat)
      requires Buildable(es, interval)
      reads this
    {
      && i <= |es| && valid == (i < |es|)
      && (i < |es| ==> key == es[i].key && value == es[i].value && nextOffset == Offset(es, interval, i + 1))
    }

    constructor (bytes: Bytes, ghost es: seq<KV>, ghost interval: nat)
      ensures block == bytes && Wf() && !valid
      ensures Buildable(es, interval) && Internal(es) && SortedKeys(es) && bytes == Block(es, interval) ==> Over(es, interval)
    {
      hide Body;
      hide Block;
      hide Points;
      hide Word;
      hide SortedKeys;
      var bad := true;
      var count, offset := 0, 0;
      if 4 <= |bytes| {
        count := Word(bytes, |bytes| - 4);
        if 0 < count <= (|bytes| - 4) / 4 {
          offset := |bytes| - 4 - 4 * count;
          bad := Word(bytes, offset) != 0;
        }
      }
      block, restartCount, restartOffset, failed := bytes, count, offset, bad;
      key, value, nextOffset, valid := [], [], 0, false;
      if Buildable(es, interval) && bytes == Block(es, interval) { OpensBuilt(es, interval); }
    }

    method Invalidate()
      requires Wf()
      modifies this`valid, this`key, this`value
      ensures Wf() && !valid && key == []
    {
      valid, key, value := false, [], [];
    }

    method Fail()
      requires Wf()
      modifies this`failed, this`valid, this`key, this`value
      ensures Wf() && failed && !valid
    {
      failed := true;
      valid, key, value := false, [], [];
    }

    /** Decode the entry at `offset`, sharing the prefix of the current key. */
    method DecodeEntry(offset: nat) returns (ok: bool)
      requires Wf() && !failed
      modifies this
      ensures Wf() && ok == DecodeAt(block, old(restartOffset), offset, old(key)).Some? && valid == ok && failed == !ok
      ensures restartOffset == old(restartOffset) && restartCount == old(restartCount)
      ensures ok ==> DecodeAt(block, restartOffset, offset, old(key)) == Some(Decoded(key, value, nextOffset)) && offset < nextOffset
    {
      hide Word;
      if offset >= restartOffset || restartOffset - offset < HEADER {
        Fail();
        return false;
      }
      var shared, unshared, size := Word(block, offset), Word(block, offset + 4), Word(block, offset + 8);
      var body := offset + HEADER;
      if shared > |key| || unshared > restartOffset - body {
        Fail();
        return false;
      }
      var k := key[..shared] + block[body..body + unshared];
      if size > restartOffset - body - unshared {
        Fail();
        return false;
      }
      if ParseKey(k).None? {
        Fail();
        return false;
      }
      key, value, nextOffset := k, block[body + unshared..body + unshared + size], body + unshared + size;
      valid := true;
      return true;
    }

    method SeekToFirst(ghost es: seq<KV>, ghost interval: nat)
      requires Wf()
      modifies this
      ensures Wf()
      ensures old(Over(es, interval)) ==> Over(es, interval) && At(es, interval, 0)
    {
      if failed { return; }
      hide DecodeAt;
      hide Body;
      hide Block;
      hide Points;
      Invalidate();
      if restartOffset == 0 {
        if old(Over(es, interval)) { NoEntries(es, interval); }
        return;
      }
      if old(Over(es, interval)) {
        FirstEntry(es, interval, []);
      }
      var ok := DecodeEntry(0);
    }

    /** The last restart point whose key does not exceed the target, or the first one. */
    method SearchRestarts(target: Bytes, ghost es: seq<KV>, ghost interval: nat) returns (index: nat, ok: bool)
      requires Wf() && !failed && !valid && key == [] && restartOffset > 0 && TAG_SIZE <= |target|
      modifies this`failed, this`valid, this`key, this`value
      ensures Wf() && failed == !ok && !valid && index < restartCount && (ok ==> key == [])
      ensures old(Over(es, interval)) ==>
        && ok && Over(es, interval) && index < |Points(|es|, interval)| && Points(|es|, interval)[index] < |es|
        && forall i :: 0 <= i < Points(|es|, interval)[index] ==> KeyLess(es[i].key, target)
    {
      hide DecodeAt;
      hide Body;
      hide Block;
      hide Points;
      hide KeyLess;
      hide Word;
      index, ok := 0, true;
      ghost var built := Over(es, interval);
      if built { FirstEntry(es, interval, []); }
      var left: nat, right: nat := 0, restartCount;
      while left < right
        invariant Wf() && !failed && !valid && left <= right <= restartCount && built == Over(es, interval) && key == []
        invariant built && 0 < left ==>
          Points(|es|, interval)[left - 1] < |es| && !KeyLess(target, es[Points(|es|, interval)[left - 1]].key)
      {
        var middle := left + (right - left) / 2;
        if built { PointEntry(es, interval, middle, []); }
        var at := DecodeAt(block, restartOffset, Word(block, restartOffset + 4 * middle), []);
        if at.None? {
          Fail();
          return 0, false;
        }
        if !KeyLess(target, at.value.key) {
          left := middle + 1;
        } else {
          right := middle;
        }
      }
      index := if left == 0 then 0 else left - 1;
      if built {
        PointEntry(es, interval, index, []);
        if 0 < left { BelowPoint(es, interval, target, index); }
      }
    }

    /** Binary search over the restart points, then a scan. */
    method Seek(target: Bytes, ghost es: seq<KV>, ghost interval: nat) returns (ghost i: nat)
      requires Wf() && TAG_SIZE <= |target|
      modifies this
      ensures Wf()
      ensures old(Over(es, interval)) ==> Over(es, interval) && At(es, interval, i) && FirstAtLeast(es, target, i)
    {
      hide DecodeAt;
      hide Body;
      hide Block;
      hide Points;
      hide KeyLess;
      hide Word;
      i := 0;
      if failed { return; }
      ghost var built := Over(es, interval);
      Invalidate();
      if restartOffset == 0 {
        if built { NoEntries(es, interval); }
        return;
      }
      var index, found := SearchRestarts(target, es, interval);
      if !found { return; }
      if built {
        PointEntry(es, interval, index, []);
        i := Points(|es|, interval)[index];
      }
      var ok := DecodeEntry(Word(block, restartOffset + 4 * index));
      while valid && KeyLess(key, target)
        invariant Wf() && restartOffset == old(restartOffset)
        invariant built ==> Over(es, interval) && At(es, interval, i) && forall j :: 0 <= j < i ==> KeyLess(es[j].key, target)
        decreases if valid then 1 + restartOffset - nextOffset else 0
      {
        Next(es, interval, i);
        i := i + 1;
      }
    }

    method Next(ghost es: seq<KV>, ghost interval: nat, ghost i: nat)
      requires Wf() && valid
      modifies this
      ensures Wf() && restartOffset == old(restartOffset) && restartCount == old(restartCount)
      ensures valid ==> old(nextOffset) < nextOffset
      ensures old(Over(es, interval) && At(es, interval, i)) ==> i < |es| && Over(es, interval) && At(es, interval, i + 1)
    {
      hide DecodeAt;
      hide Body;
      hide Block;
      hide Points;
      if old(Over(es, interval) && At(es, interval, i)) { NextEntry(es, interval, i); }
      if nextOffset == restartOffset {
        Invalidate();
        return;
      }
      var ok := DecodeEntry(nextOffset);
    }
  }

  /** Walk a block from the first entry to the end: a built block gives back what was added. */
  method Walk(bytes: Bytes, ghost es: seq<KV>, ghost interval: nat) returns (out: seq<KV>, ok: bool)
    ensures Buildable(es, interval) && Internal(es) && SortedKeys(es) && bytes == Block(es, interval) ==> ok && out == es
  {
    hide Block;
    hide Body;
    hide Points;
    ghost var built := Buildable(es, interval) && Internal(es) && SortedKeys(es) && bytes == Block(es, interval);
    var it := new BlockIterator(bytes, es, interval);
    it.SeekToFirst(es, interval);
    out := [];
    while it.valid
      invariant it.Wf() && (built ==> it.Over(es, interval) && it.At(es, interval, |out|) && out == es[..|out|])
      decreases if it.valid then 1 + it.restartOffset - it.nextOffset else 0
    {
      out := out + [KV(it.key, it.value)];
      it.Next(es, interval, |out| - 1);
    }
    ok := !it.failed;
  }

  /** Everything before restart point `j` is below a target the point does not exceed. */
  lemma BelowPoint(es: seq<KV>, interval: nat, target: Bytes, j: nat)
    requires SortedKeys(es) && TAG_SIZE <= |target| && es != [] && j < |Points(|es|, interval)|
    requires Points(|es|, interval)[j] < |es| && !KeyLess(target, es[Points(|es|, interval)[j]].key)
    ensures forall i :: 0 <= i < Points(|es|, interval)[j] ==> KeyLess(es[i].key, target)
  {
    hide Points;
    KeyLessIsStrictOrder();
  }

  /** What the restart array points at. */
  lemma PointEntry(es: seq<KV>, interval: nat, j: nat, key: Bytes)
    requires Buildable(es, interval) && Internal(es) && es != [] && j < |Points(|es|, interval)|
    ensures var p, b, end := Points(|es|, interval)[j], Block(es, interval), Offset(es, interval, |es|);
      && p < |es| && end + 4 * j + 4 <= |b|
      && DecodeAt(b, end, Word(b, end + 4 * j), key) == Some(Decoded(es[p].key, es[p].value, Offset(es, interval, p + 1)))
  {
    hide Body;
    hide Block;
    hide DecodeAt;
    hide Word;
    Trailer(es, interval);
    RestartsAreOffsets(es, interval, |es|);
    PointsAscend(|es|, interval);
    hide Restarts;
    hide Points;
    DecodeBuilt(es, interval, Points(|es|, interval)[j], key);
  }

  lemma OpensBuilt(es: seq<KV>, interval: nat)
    requires Buildable(es, interval)
    ensures var b, end, n := Block(es, interval), Offset(es, interval, |es|), |Points(|es|, interval)|;
      && 4 <= |b| && Word(b, |b| - 4) == n && 0 < n <= (|b| - 4) / 4 && end == |b| - 4 - 4 * n && Word(b, end) == 0
  {
    hide Block;
    hide Word;
    hide Points;
    var b, end, rs := Block(es, interval), Offset(es, interval, |es|), Restarts(es, interval, |es|);
    assert Offset(es, interval, 0) == 0;
    hide Body;
    hide Restarts;
    Trailer(es, interval);
    RestartsAreOffsets(es, interval, |es|);
    assert rs[0] == 0;
    assert Word(b, end + 4 * 0) == rs[0];
    RoomForRestarts(|b|, end, |rs|);
  }

  lemma RoomForRestarts(size: nat, end: nat, n: nat)
    requires size == end + 4 * n + 4
    ensures n <= (size - 4) / 4
  {}

  lemma NoEntries(es: seq<KV>, interval: nat)
    requires Buildable(es, interval) && Offset(es, interval, |es|) == 0
    ensures es == []
  {
    OffsetsGrow(es, interval, 0, |es|);
  }

  lemma FirstEntry(es: seq<KV>, interval: nat, key: Bytes)
    requires Buildable(es, interval) && Internal(es) && 0 < Offset(es, interval, |es|)
    ensures es != [] && Offset(es, interval, |es|) <= |Block(es, interval)|
    ensures DecodeAt(Block(es, interval), Offset(es, interval, |es|), 0, key)
              == Some(Decoded(es[0].key, es[0].value, Offset(es, interval, 1)))
  {
    assert Offset(es, interval, 0) == 0;
    if es != [] { DecodeBuilt(es, interval, 0, key); }
  }

  /** After entry `i` comes entry `i + 1`, or the restart array. */
  lemma NextEntry(es: seq<KV>, interval: nat, i: nat)
    requires Buildable(es, interval) && Internal(es) && i < |es|
    ensures Offset(es, interval, |es|) <= |Block(es, interval)|
    ensures Offset(es, interval, i + 1) == Offset(es, interval, |es|) <==> i + 1 == |es|
    ensures i + 1 < |es| ==>
      DecodeAt(Block(es, interval), Offset(es, interval, |es|), Offset(es, interval, i + 1), es[i].key)
        == Some(Decoded(es[i + 1].key, es[i + 1].value, Offset(es, interval, i + 2)))
  {
    hide Body;
    hide Block;
    hide DecodeAt;
    EntryIsThere(es, interval, i);
    OffsetsGrow(es, interval, i + 1, |es|);
    if i + 1 < |es| { DecodeBuilt(es, interval, i + 1, es[i].key); }
  }
}
