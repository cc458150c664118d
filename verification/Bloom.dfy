/** The Bloom filter of a table: a key that was added is never reported absent. */
module Bloom {
  import opened Bytes

  const BITS_PER_KEY := 10
  const PROBES := 6
  const MINIMUM_BITS := 64
  const MAXIMUM_PROBES := 30

  // ---------- hashing, in 32-bit arithmetic ----------

  const SEED: nat := 0xbc9f_1d34
  const MULTIPLIER: nat := 0xc6a4_a793

  type Hash = h: nat | h < TWO_32

  /** The exclusive or of the low `w` bits. */
  function Xor(a: nat, b: nat, w: nat): (r: nat)
    ensures r < Power(w)
  {
    if w == 0 then 0 else (a % 2 + b % 2) % 2 + 2 * Xor(a / 2, b / 2, w - 1)
  }

  function Power(w: nat): (r: nat)
    ensures 0 < r
  {
    if w == 0 then 1 else 2 * Power(w - 1)
  }

  function Xor32(a: nat, b: nat): Hash {
    assert Power(8) == 0x100 && Power(16) == 0x1_0000 && Power(24) == 0x100_0000 && Power(32) == TWO_32;
    Xor(a, b, 32)
  }

  /** Multiply, then fold the high bits into the low ones. */
  function Mix(h: nat, shift: nat): Hash
    requires 0 < shift
  {
    var m := (h * MULTIPLIER) % TWO_32;
    Xor32(m, m / shift)
  }

  function HashWords(h: Hash, b: Bytes): Hash
    decreases |b|
  {
    if |b| < 4 then HashTail(h, b) else HashWords(Mix(h + Unfixed(b[..4]), 0x1_0000), b[4..])
  }

  function HashTail(h: Hash, b: Bytes): Hash
    requires |b| < 4
  {
    if b == [] then h
    else
      var h3 := if |b| == 3 then h + Unfixed([0, 0, b[2]]) else h;
      var h2 := if |b| >= 2 then h3 + Unfixed([0, b[1]]) else h3;
      Mix(h2 + b[0], 0x100_0000)
  }

  function BloomHash(key: Bytes): Hash {
    HashWords(Xor32(SEED, (|key| * MULTIPLIER) % TWO_32), key)
  }

  /** The loop of `bloomHash`, one little-endian word at a time. */
  method ComputeBloomHash(key: Bytes) returns (hash: Hash)
    ensures hash == BloomHash(key)
  {
    hide Mix;
    hide Xor32;
    hide HashTail;
    hash := Xor32(SEED, (|key| * MULTIPLIER) % TWO_32);
    var i := 0;
    while |key| - i >= 4
      invariant 0 <= i <= |key| && HashWords(hash, key[i..]) == BloomHash(key)
    {
      assert key[i..][..4] == key[i..i + 4] && key[i..][4..] == key[i + 4..];
      hash := Mix(hash + Unfixed(key[i..i + 4]), 0x1_0000);
      i := i + 4;
    }
    hash := HashTail(hash, key[i..]);
  }

  /** Rotate right by 17: the two parts share no bit, so their sum is their union. */
  function Delta(h: Hash): nat { h / 0x2_0000 + (h * 0x8000) % TWO_32 }

  /** The hash used by probe `i`. */
  function ProbeHash(h: Hash, i: nat): Hash { if i == 0 then h else (ProbeHash(h, i - 1) + Delta(h)) % TWO_32 }

  function ProbeBit(h: Hash, i: nat, bits: nat): (n: nat)
    requires 0 < bits
    ensures n < bits
  {
    ProbeHash(h, i) % bits
  }

  // ---------- bits ----------

  predicate BitOf(b: nat, j: nat) { if j == 0 then b % 2 == 1 else BitOf(b / 2, j - 1) }

  /** `b | (1 << j)`. */
  function OrBit(b: nat, j: nat): nat {
    if j == 0 then (if b % 2 == 1 then b else b + 1) else b % 2 + 2 * OrBit(b / 2, j - 1)
  }

  lemma {:induction false} OrBitSets(b: nat, j: nat)
    ensures BitOf(OrBit(b, j), j)
  {
    if j > 0 { OrBitSets(b / 2, j - 1); }
  }

  lemma {:induction false} OrBitKeeps(b: nat, j: nat, k: nat)
    requires BitOf(b, k)
    ensures BitOf(OrBit(b, j), k)
  {
    if j > 0 && k > 0 { OrBitKeeps(b / 2, j - 1, k - 1); }
  }

  lemma {:induction false} OrBitAddsOne(b: nat, j: nat, k: nat)
    requires BitOf(OrBit(b, j), k) && k != j
    ensures BitOf(b, k)
  {
    if j > 0 && k > 0 {
      assert OrBit(b, j) / 2 == OrBit(b / 2, j - 1);
      OrBitAddsOne(b / 2, j - 1, k - 1);
    } else if k > 0 {
      assert OrBit(b, 0) / 2 == b / 2;
    }
  }

  lemma {:induction false} OrBitFits(b: nat, j: nat, w: nat)
    requires b < Power(w) && j < w
    ensures OrBit(b, j) < Power(w)
  {
    var half := Power(w - 1);
    assert Power(w) == 2 * half;
    if j > 0 {
      assert b / 2 < half;
      OrBitFits(b / 2, j - 1, w - 1);
      assert OrBit(b, j) == b % 2 + 2 * OrBit(b / 2, j - 1);
    }
  }

  function WithBit(b: byte, j: nat): (c: byte)
    requires j < 8
    ensures BitOf(c, j) && forall k :: 0 <= k && BitOf(b, k) ==> BitOf(c, k)
    ensures forall k :: 0 <= k && BitOf(c, k) ==> BitOf(b, k) || k == j
  {
    assert Power(8) == 256;
    OrBitFits(b, j, 8);
    OrBitSets(b, j);
    assert forall k :: 0 <= k && BitOf(b, k) ==> BitOf(OrBit(b, j), k) by {
      forall k | 0 <= k && BitOf(b, k) ensures BitOf(OrBit(b, j), k) { OrBitKeeps(b, j, k); }
    }
    assert forall k :: 0 <= k && BitOf(OrBit(b, j), k) ==> BitOf(b, k) || k == j by {
      forall k | 0 <= k && k != j && BitOf(OrBit(b, j), k) ensures BitOf(b, k) { OrBitAddsOne(b, j, k); }
    }
    OrBit(b, j)
  }

  /** Bit `n` of the filter bytes. */
  predicate BitAt(f: Bytes, n: nat)
    requires n / 8 < |f|
  {
    BitOf(f[n / 8], n % 8)
  }

  lemma SetBitAt(f: Bytes, n: nat)
    requires n / 8 < |f|
    ensures var g := f[n / 8 := WithBit(f[n / 8], n % 8)];
      && BitAt(g, n) && (forall m :: 0 <= m && m / 8 < |f| && BitAt(f, m) ==> BitAt(g, m))
      && (forall m :: 0 <= m && m / 8 < |f| && BitAt(g, m) ==> BitAt(f, m) || m == n)
  {
    hide BitOf;
    hide OrBit;
    var g := f[n / 8 := WithBit(f[n / 8], n % 8)];
    forall m | 0 <= m && m / 8 < |f| && BitAt(f, m) ensures BitAt(g, m) {
      if m / 8 == n / 8 { assert BitOf(g[n / 8], m % 8); }
    }
    forall m | 0 <= m && m / 8 < |f| && BitAt(g, m) ensures BitAt(f, m) || m == n {
      if m / 8 == n / 8 { assert BitOf(f[n / 8], m % 8) || m % 8 == n % 8; }
    }
  }

  // ---------- building ----------

  /** All probes of `h` hit set bits. */
  predicate Hits(f: Bytes, h: Hash, probes: nat, bits: nat)
    requires 0 < bits <= 8 * |f|
  {
    forall i :: 0 <= i < probes ==> BitAt(f, ProbeBit(h, i, bits))
  }

  lemma HitsStay(f: Bytes, g: Bytes, h: Hash, probes: nat, bits: nat)
    requires 0 < bits <= 8 * |f| && |f| == |g| && Hits(f, h, probes, bits)
    requires forall m :: 0 <= m && m / 8 < |f| && BitAt(f, m) ==> BitAt(g, m)
    ensures Hits(g, h, probes, bits)
  {}

  /** A filter built for these hashes. */
  ghost predicate Covers(f: Bytes, hashes: seq<Hash>) {
    && 1 < |f| && f[|f| - 1] == PROBES
    && forall k :: 0 <= k < |hashes| ==> Hits(f[..|f| - 1], hashes[k], PROBES, 8 * (|f| - 1))
  }

  /** Bit `m` is one of the probes of `h`. */
  ghost predicate Probed(h: Hash, m: nat, probes: nat, bits: nat)
    requires 0 < bits
  {
    exists i :: 0 <= i < probes && m == ProbeBit(h, i, bits)
  }

  /** Every set bit is a probe of one of the hashes. */
  ghost predicate OnlyProbes(f: Bytes, hashes: seq<Hash>, n: nat, bits: nat)
    requires 0 < bits && n <= |hashes|
  {
    forall m :: 0 <= m && m / 8 < |f| && BitAt(f, m) ==> exists k :: 0 <= k < n && Probed(hashes[k], m, PROBES, bits)
  }

  lemma NoBits(size: nat, n: nat)
    requires n / 8 < size
    ensures !BitAt(seq(size, i => 0), n)
  {
    ZeroHasNoBits(n % 8);
  }

  lemma {:induction false} ZeroHasNoBits(j: nat)
    ensures !BitOf(0, j)
  {
    if j > 0 { ZeroHasNoBits(j - 1); }
  }

  lemma MoreProbes(f: Bytes, g: Bytes, hashes: seq<Hash>, n: nat, bits: nat)
    requires 0 < bits && n < |hashes| && |g| == |f| && OnlyProbes(f, hashes, n, bits)
    requires forall m :: 0 <= m && m / 8 < |f| && BitAt(g, m) ==> BitAt(f, m) || Probed(hashes[n], m, PROBES, bits)
    ensures OnlyProbes(g, hashes, n + 1, bits)
  {
    hide BitAt;
    hide Probed;
  }

  method SetProbes(f: Bytes, h: Hash, bits: nat) returns (g: Bytes)
    requires 0 < bits <= 8 * |f|
    ensures |g| == |f| && Hits(g, h, PROBES, bits)
    ensures forall m :: 0 <= m && m / 8 < |f| && BitAt(f, m) ==> BitAt(g, m)
    ensures forall m :: 0 <= m && m / 8 < |f| && BitAt(g, m) ==> BitAt(f, m) || Probed(h, m, PROBES, bits)
  {
    hide BitAt;
    hide OrBit;
    hide BitOf;
    hide Delta;
    g := f;
    var probe := 0;
    var hash := h;
    while probe < PROBES
      invariant 0 <= probe <= PROBES && |g| == |f| && hash == ProbeHash(h, probe) && Hits(g, h, probe, bits)
      invariant forall m :: 0 <= m && m / 8 < |f| && BitAt(f, m) ==> BitAt(g, m)
      invariant forall m :: 0 <= m && m / 8 < |f| && BitAt(g, m) ==> BitAt(f, m) || Probed(h, m, probe, bits)
    {
      var bit := hash % bits;
      assert bit == ProbeBit(h, probe, bits);
      SetBitAt(g, bit);
      var next := g[bit / 8 := WithBit(g[bit / 8], bit % 8)];
      HitsStay(g, next, h, probe, bits);
      g := next;
      hash := (hash + Delta(h)) % TWO_32;
      probe := probe + 1;
    }
  }

  function Larger(a: nat, b: nat): nat { if a > b then a else b }

  /** Ten bits a key, at least 64, in whole bytes, and the number of probes; the bits set
      are those that some key's hash probes, and no others. */
  method BuildFilter(hashes: seq<Hash>) returns (f: Bytes)
    ensures Covers(f, hashes) && |f| <= 2 * |hashes| + 10
    ensures |f| - 1 == (Larger(|hashes| * BITS_PER_KEY, MINIMUM_BITS) + 7) / 8
    ensures OnlyProbes(f[..|f| - 1], hashes, |hashes|, 8 * (|f| - 1))
  {
    hide Hits;
    hide BitAt;
    hide Probed;
    var bits := |hashes| * BITS_PER_KEY;
    if bits < MINIMUM_BITS { bits := MINIMUM_BITS; }
    var size := (bits + 7) / 8;
    bits := size * 8;
    var filter: Bytes := seq(size, i => 0);
    forall m | 0 <= m && m / 8 < size ensures !BitAt(filter, m) { NoBits(size, m); }
    var k := 0;
    while k < |hashes|
      invariant k <= |hashes| && |filter| == size
      invariant forall j :: 0 <= j < k ==> Hits(filter, hashes[j], PROBES, bits)
      invariant OnlyProbes(filter, hashes, k, bits)
    {
      var next := SetProbes(filter, hashes[k], bits);
      forall j | 0 <= j < k ensures Hits(next, hashes[j], PROBES, bits) {
        HitsStay(filter, next, hashes[j], PROBES, bits);
      }
      MoreProbes(filter, next, hashes, k, bits);
      filter := next;
      k := k + 1;
    }
    f := filter + [PROBES];
    assert f[..|f| - 1] == filter;
  }

  // ---------- asking ----------

  ghost predicate MayContain(key: Bytes, f: Bytes) {
    || |f| <= 1
    || f[|f| - 1] == 0
    || f[|f| - 1] > MAXIMUM_PROBES
    || Hits(f[..|f| - 1], BloomHash(key), f[|f| - 1], 8 * (|f| - 1))
  }

  method BloomMayContain(key: Bytes, f: Bytes) returns (r: bool)
    ensures r == MayContain(key, f)
  {
    hide BloomHash;
    hide BitOf;
    hide Delta;
    if |f| <= 1 { return true; }
    var bits := (|f| - 1) * 8;
    var probes := f[|f| - 1];
    if probes == 0 || probes > MAXIMUM_PROBES { return true; }
    var h := ComputeBloomHash(key);
    var hash := h;
    var probe := 0;
    while probe < probes
      invariant 0 <= probe <= probes && hash == ProbeHash(h, probe) && Hits(f[..|f| - 1], h, probe, bits)
    {
      var bit := hash % bits;
      assert bit == ProbeBit(h, probe, bits) && f[bit / 8] == f[..|f| - 1][bit / 8];
      if !BitOf(f[bit / 8], bit % 8) { return false; }
      hash := (hash + Delta(h)) % TWO_32;
      probe := probe + 1;
    }
    return true;
  }

  /** No false negative: a filter covering a key's hash never denies the key. */
  lemma NoFalseNegative(f: Bytes, hashes: seq<Hash>, key: Bytes)
    requires Covers(f, hashes) && BloomHash(key) in hashes
    ensures MayContain(key, f)
  {
    hide BloomHash;
    hide Hits;
    var k :| 0 <= k < |hashes| && hashes[k] == BloomHash(key);
    assert Hits(f[..|f| - 1], hashes[k], PROBES, 8 * (|f| - 1));
  }

  /** Probe `i` of `h` is also a probe of one of the hashes. */
  ghost predicate Shared(hashes: seq<Hash>, h: Hash, i: nat, bits: nat)
    requires 0 < bits
  {
    exists k :: 0 <= k < |hashes| && Probed(hashes[k], ProbeBit(h, i, bits), PROBES, bits)
  }

  lemma SharedIsSet(f: Bytes, hashes: seq<Hash>, h: Hash, i: nat)
    requires Covers(f, hashes) && OnlyProbes(f[..|f| - 1], hashes, |hashes|, 8 * (|f| - 1))
    ensures BitAt(f[..|f| - 1], ProbeBit(h, i, 8 * (|f| - 1))) <==> Shared(hashes, h, i, 8 * (|f| - 1))
  {
    hide BitAt;
    hide ProbeBit;
    var bits, g := 8 * (|f| - 1), f[..|f| - 1];
    if k :| 0 <= k < |hashes| && Probed(hashes[k], ProbeBit(h, i, bits), PROBES, bits) {
      assert Hits(g, hashes[k], PROBES, bits);
    }
  }

  /** When a built filter admits a key: every probe of the key is a probe of some added hash. */
  lemma AdmitsExactly(f: Bytes, bits: nat, hashes: seq<Hash>, key: Bytes)
    requires Covers(f, hashes) && bits == 8 * (|f| - 1) && OnlyProbes(f[..|f| - 1], hashes, |hashes|, bits)
    ensures MayContain(key, f) <==> forall i :: 0 <= i < PROBES ==> Shared(hashes, BloomHash(key), i, bits)
  {
    hide BloomHash;
    hide BitAt;
    hide ProbeBit;
    hide Shared;
    hide OnlyProbes;
    var h := BloomHash(key);
    forall i | 0 <= i < PROBES ensures BitAt(f[..|f| - 1], ProbeBit(h, i, bits)) <==> Shared(hashes, h, i, bits) {
      SharedIsSet(f, hashes, h, i);
    }
  }

  /** A filter built for no keys admits none. */
  lemma EmptyFilterAdmitsNothing(f: Bytes, key: Bytes)
    requires Covers(f, []) && OnlyProbes(f[..|f| - 1], [], 0, 8 * (|f| - 1))
    ensures !MayContain(key, f)
  {
    hide BloomHash;
    hide MayContain;
    AdmitsExactly(f, 8 * (|f| - 1), [], key);
    assert !Shared([], BloomHash(key), 0, 8 * (|f| - 1));
  }
}
