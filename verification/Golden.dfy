/** The stored formats byte for byte: little-endian numbers in general, and the encodings
    of one key, one batch and one block that files on disk must keep to. */
module Golden {
  import opened Bytes
  import opened Entries
  import opened InternalKeys
  import opened BatchCodec
  import opened BlockFormat

  /** Byte `i` of a fixed-width number has weight 256 to the power `i`. */
  lemma {:induction false} LittleEndian(n: nat, w: nat, i: nat)
    requires i < w
    ensures Fixed(n, w)[i] == n / Pow256(i) % 256
  {
    if i > 0 {
      LittleEndian(n / 256, w - 1, i - 1);
      DivTwice(n, Pow256(i - 1));
    }
  }

  lemma DivTwice(n: nat, p: nat)
    requires 0 < p
    ensures n / 256 / p == n / (256 * p)
  {
    var a, b := n / 256, n % 256;
    var q, r := a / p, a % p;
    assert n == 256 * a + b && a == q * p + r;
    assert n == q * (256 * p) + (256 * r + b) by {
      assert 256 * (q * p) == q * (256 * p);
    }
    DivMod(q, 256 * r + b, 256 * p);
  }

  lemma Word78563412()
    ensures Fixed32(0x1234_5678) == [0x78, 0x56, 0x34, 0x12]
  {
    assert Fixed(0x12, 1) == [0x12];
    assert Fixed(0x1234, 2) == [0x34, 0x12];
    assert Fixed(0x12_3456, 3) == [0x56, 0x34, 0x12];
  }

  lemma {:induction false} SmallNumber(n: nat, w: nat)
    requires n < 256 && 0 < w
    ensures Fixed(n, w) == [n] + Zeros(w - 1)
  {
    if w > 1 {
      SmallNumber(0, w - 1);
      assert [0] + Zeros(w - 2) == Zeros(w - 1);
    }
  }

  function Zeros(n: nat): Bytes { seq(n, i => 0) }

  lemma Small32(n: nat)
    requires n < 256
    ensures Fixed32(n) == [n, 0, 0, 0]
  {
    SmallNumber(n, 4);
    assert Zeros(3) == [0, 0, 0];
  }

  lemma TagBytes()
    ensures Fixed(0x102_0301, 8) == [1, 3, 2, 1, 0, 0, 0, 0]
  {
    SmallNumber(1, 5);
    var low := Fixed(1, 5);
    assert Zeros(4) == [0, 0, 0, 0];
    assert Fixed(0x102, 6) == [2] + low;
    assert Fixed(0x1_0203, 7) == [3] + Fixed(0x102, 6);
    assert Fixed(0x102_0301, 8) == [1] + Fixed(0x1_0203, 7);
  }

  /** Key `a` at sequence 0x010203 as a value. */
  lemma KeyEncoding()
    ensures EncodeKey(InternalKey([97], 0x1_0203, Value)) == [97, 1, 3, 2, 1, 0, 0, 0, 0]
  {
    TagBytes();
    hide Fixed;
    assert Fixed64(0x102_0301) == [1, 3, 2, 1, 0, 0, 0, 0];
  }

  const BATCH: seq<Op> := [Put([97], [120]), Delete([98])]

  lemma BatchBody()
    ensures OpsSize(BATCH) == 17 && EncodeOps(BATCH) == [1, 1, 0, 0, 0, 97, 1, 0, 0, 0, 120] + [2, 1, 0, 0, 0, 98]
  {
    var put, del := BATCH[0], BATCH[1];
    Small32(1);
    hide Fixed32;
    assert BATCH[1..] == [del] && [del][1..] == [];
    assert OpsSize([del]) == 6;
    assert EncodeOp(put) == [1, 1, 0, 0, 0, 97, 1, 0, 0, 0, 120];
    assert EncodeOp(del) == [2, 1, 0, 0, 0, 98];
    assert EncodeOps([del]) == EncodeOp(del) + [];
  }

  /** The batch that puts `a` to `x` and deletes `b`, from sequence 1 on. */
  lemma BatchEncoding()
    ensures Encode(BATCH, 1) == Some([1, 0, 0, 0, 0, 0, 0, 0] + [2, 0, 0, 0]
                                     + ([1, 1, 0, 0, 0, 97, 1, 0, 0, 0, 120] + [2, 1, 0, 0, 0, 98]))
  {
    Small32(2);
    SmallNumber(1, 8);
    assert Zeros(7) == [0, 0, 0, 0, 0, 0, 0];
    assert Fixed64(1) == [1, 0, 0, 0, 0, 0, 0, 0];
    BatchBody();
    hide Fixed32;
    hide Fixed64;
    hide EncodeOps;
    hide OpsSize;
  }

  /** A block with one entry: its header, key and value, one restart point at 0. */
  lemma BlockEncoding(key: Bytes, value: Bytes, interval: nat)
    requires |key| < 256 && |value| < 256 && 0 < interval
    ensures Buildable([KV(key, value)], interval)
    ensures Block([KV(key, value)], interval) ==
            [0, 0, 0, 0] + [|key|, 0, 0, 0] + [|value|, 0, 0, 0] + key + value + [0, 0, 0, 0] + [1, 0, 0, 0]
  {
    var es := [KV(key, value)];
    Small32(0);
    Small32(1);
    Small32(|key|);
    Small32(|value|);
    hide Fixed32;
    assert Body(es, interval, 1) == EntryBytes(0, es[0]);
    assert Restarts(es, interval, 1) == [0];
    assert WordBytes([0]) == [0, 0, 0, 0] by { assert [0][..0] == []; }
    RestartsFit(es, interval);
  }
}
