/** CRC-32C (section 12.1 of RFC 3720), bit by bit as the engine computes it, and
    what it can promise: a change confined to four consecutive bytes of a
    checksummed file is always detected. A 32-bit word is modelled by its bits,
    least significant first. */
module Crc32c {
  import opened Bytes

  type Bits = seq<bool>

  function Zeros(n: nat): (z: Bits)
    ensures |z| == n && forall i :: 0 <= i < n ==> !z[i]
  {
    seq(n, _ => false)
  }

  function Ones(n: nat): (z: Bits)
    ensures |z| == n && forall i :: 0 <= i < n ==> z[i]
  {
    seq(n, _ => true)
  }

  type Word = w: Bits | |w| == 32 witness Zeros(32)

  function Value(b: Bits): nat {
    if b == [] then 0 else (if b[0] then 1 else 0) + 2 * Value(b[1..])
  }

  function BitsOf(n: nat, w: nat): (b: Bits)
    ensures |b| == w
  {
    if w == 0 then [] else [n % 2 == 1] + BitsOf(n / 2, w - 1)
  }

  function Pow2(w: nat): (r: nat)
    ensures r > 0
  {
    if w == 0 then 1 else 2 * Pow2(w - 1)
  }

  /** The reflected Castagnoli polynomial. */
  const POLYNOMIAL: Word := BitsOf(0x82f6_3b78, 32)

  function Xor(a: Word, b: Word): (c: Word)
    ensures forall i :: 0 <= i < 32 ==> c[i] == (a[i] != b[i])
  {
    seq(32, i requires 0 <= i < 32 => a[i] != b[i])
  }

  function ShiftRight(r: Word): Word { r[1..] + [false] }

  /** One bit of the shift register with feedback polynomial `p`. */
  function Shift1(p: Word, r: Word): Word {
    if r[0] then Xor(ShiftRight(r), p) else ShiftRight(r)
  }

  function Shift(p: Word, r: Word, n: nat): Word
    decreases n
  {
    if n == 0 then r else Shift1(p, Shift(p, r, n - 1))
  }

  function ByteWord(b: byte): Word { BitsOf(b, 8) + Zeros(24) }

  /** The register after the bytes of `data`. */
  function Run(p: Word, r: Word, data: Bytes): Word
    decreases data
  {
    if data == [] then r else Run(p, Shift(p, Xor(r, ByteWord(data[0])), 8), data[1..])
  }

  function Not(r: Word): (c: Word)
    ensures forall i :: 0 <= i < 32 ==> c[i] == !r[i]
  {
    seq(32, i requires 0 <= i < 32 => !r[i])
  }

  /** The checksum of `data` under polynomial `p`. */
  function CrcWith(p: Word, data: Bytes): (n: nat)
    ensures n < TWO_32
  {
    ValueBound(Not(Run(p, Ones(32), data)));
    PowersOf2();
    Value(Not(Run(p, Ones(32), data)))
  }

  function Crc(data: Bytes): (n: nat)
    ensures n < TWO_32
  {
    CrcWith(POLYNOMIAL, data)
  }

  /** The inner loop of `crc32c`: eight conditional shifts. */
  method ShiftByte(p: Word, start: Word) returns (r: Word)
    ensures r == Shift(p, start, 8)
  {
    r := start;
    var bit := 0;
    while bit < 8
      invariant 0 <= bit <= 8
      invariant r == Shift(p, start, bit)
    {
      if r[0] { r := Xor(ShiftRight(r), p); } else { r := ShiftRight(r); }
      bit := bit + 1;
    }
  }

  /** The outer loop of `crc32c`, one byte per turn. */
  method ComputeCrc(p: Word, data: Bytes) returns (crc: Word)
    ensures Value(crc) == CrcWith(p, data)
  {
    var r: Word := Ones(32);
    var i := 0;
    while i < |data|
      invariant 0 <= i <= |data|
      invariant Run(p, r, data[i..]) == Run(p, Ones(32), data)
    {
      assert data[i..][1..] == data[i + 1..];
      r := ShiftByte(p, Xor(r, ByteWord(data[i])));
      i := i + 1;
    }
    assert data[i..] == [];
    crc := Not(r);
  }

  /** `crc32c`. */
  method Checksum(data: Bytes) returns (n: nat)
    ensures n == Crc(data)
  {
    var crc := ComputeCrc(POLYNOMIAL, data);
    n := Value(crc);
  }

  /** The empty input has checksum zero. */
  lemma EmptyIsZero()
    ensures Crc([]) == 0
  {
    var r := Not(Run(POLYNOMIAL, Ones(32), []));
    assert r == Zeros(32);
    ZerosAreZero(32);
  }

  lemma {:induction false} ZerosAreZero(n: nat)
    ensures Value(Zeros(n)) == 0
  {
    if n > 0 {
      assert Zeros(n)[1..] == Zeros(n - 1);
      ZerosAreZero(n - 1);
    }
  }

  // ---------- words and numbers ----------

  lemma PowersOf2()
    ensures Pow2(8) == 256 && Pow2(32) == TWO_32
  {
    assert Pow2(4) == 16;
    assert Pow2(8) == 256;
    assert Pow2(12) == 4096;
    assert Pow2(16) == 0x1_0000;
    assert Pow2(20) == 0x10_0000;
    assert Pow2(24) == 0x100_0000;
    assert Pow2(28) == 0x1000_0000;
  }

  lemma {:induction false} ValueBound(b: Bits)
    ensures Value(b) < Pow2(|b|)
  {
    if b != [] { ValueBound(b[1..]); }
  }

  lemma {:induction false} ValueOfBits(n: nat, w: nat)
    requires n < Pow2(w)
    ensures Value(BitsOf(n, w)) == n
  {
    if w > 0 { ValueOfBits(n / 2, w - 1); }
  }

  lemma {:induction false} ValueInjective(a: Bits, b: Bits)
    requires |a| == |b| && Value(a) == Value(b)
    ensures a == b
  {
    if a != [] {
      ValueInjective(a[1..], b[1..]);
      assert a == [a[0]] + a[1..] && b == [b[0]] + b[1..];
    }
  }

  lemma {:induction false} ValueConcat(a: Bits, b: Bits)
    ensures Value(a + b) == Value(a) + Pow2(|a|) * Value(b)
  {
    if a == [] {
      assert a + b == b;
    } else {
      ValueConcat(a[1..], b);
      assert (a + b)[1..] == a[1..] + b;
      calc {
        2 * (Pow2(|a| - 1) * Value(b));
        Pow2(|a|) * Value(b);
      }
    }
  }

  lemma {:induction false} TopBit(n: nat, w: nat)
    requires w > 0 && Pow2(w - 1) <= n < Pow2(w)
    ensures BitsOf(n, w)[w - 1]
  {
    if w > 1 { TopBit(n / 2, w - 1); }
  }

  // ---------- the register is injective and linear ----------

  lemma PolynomialTopBit()
    ensures POLYNOMIAL[31]
  {
    PowersOf2();
    TopBit(0x82f6_3b78, 32);
  }

  lemma Shift1Injective(p: Word, x: Word, y: Word)
    requires p[31] && Shift1(p, x) == Shift1(p, y)
    ensures x == y
  {
    assert Shift1(p, x)[31] == x[0] && Shift1(p, y)[31] == y[0];
    forall i | 1 <= i < 32 ensures x[i] == y[i] {
      assert ShiftRight(x)[i - 1] == x[i] && ShiftRight(y)[i - 1] == y[i];
      assert Shift1(p, x)[i - 1] == Shift1(p, y)[i - 1];
    }
  }

  lemma {:induction false} ShiftInjective(p: Word, x: Word, y: Word, n: nat)
    requires p[31] && Shift(p, x, n) == Shift(p, y, n)
    ensures x == y
    decreases n
  {
    hide Shift1;
    if n > 0 {
      Shift1Injective(p, Shift(p, x, n - 1), Shift(p, y, n - 1));
      ShiftInjective(p, x, y, n - 1);
    }
  }

  lemma Shift1Linear(p: Word, x: Word, y: Word)
    ensures Shift1(p, Xor(x, y)) == Xor(Shift1(p, x), Shift1(p, y))
  {
    assert Xor(x, y)[0] == (x[0] != y[0]);
    var a, b := Shift1(p, Xor(x, y)), Xor(Shift1(p, x), Shift1(p, y));
    assert forall i :: 0 <= i < 32 ==> a[i] == b[i];
  }

  lemma {:induction false} ShiftLinear(p: Word, x: Word, y: Word, n: nat)
    ensures Shift(p, Xor(x, y), n) == Xor(Shift(p, x, n), Shift(p, y, n))
    decreases n
  {
    if n > 0 {
      ShiftLinear(p, x, y, n - 1);
      Shift1Linear(p, Shift(p, x, n - 1), Shift(p, y, n - 1));
    }
  }

  lemma {:induction false} ShiftAdd(p: Word, r: Word, m: nat, n: nat)
    ensures Shift(p, r, m + n) == Shift(p, Shift(p, r, m), n)
    decreases n
  {
    if n > 0 { ShiftAdd(p, r, m, n - 1); }
  }

  /** While only zeros fall out, the register just shifts. */
  lemma {:induction false} ShiftOfZeros(p: Word, r: Word, n: nat)
    requires n <= 32 && forall i :: 0 <= i < n ==> !r[i]
    ensures Shift(p, r, n) == r[n..] + Zeros(n)
    decreases n
  {
    if n > 0 {
      ShiftOfZeros(p, r, n - 1);
      assert (r[n - 1..] + Zeros(n - 1))[0] == r[n - 1];
      assert r[n - 1..][1..] == r[n..];
      assert ShiftRight(r[n - 1..] + Zeros(n - 1)) == r[n..] + Zeros(n);
    }
  }

  // ---------- up to four bytes at once ----------

  function BytesBits(w: Bytes): (b: Bits)
    ensures |b| == 8 * |w|
  {
    if w == [] then [] else BitsOf(w[0], 8) + BytesBits(w[1..])
  }

  function Padded(w: Bytes): Word
    requires |w| <= 4
  {
    BytesBits(w) + Zeros(32 - 8 * |w|)
  }

  lemma {:induction false} BytesBitsValue(w: Bytes)
    ensures Value(BytesBits(w)) == Unfixed(w)
  {
    if w != [] {
      BytesBitsValue(w[1..]);
      ValueConcat(BitsOf(w[0], 8), BytesBits(w[1..]));
      PowersOf2();
      ValueOfBits(w[0], 8);
    }
  }

  lemma {:induction false} BytesBitsInjective(w: Bytes, w': Bytes)
    requires |w| == |w'| && BytesBits(w) == BytesBits(w')
    ensures w == w'
  {
    BytesBitsValue(w);
    BytesBitsValue(w');
    FixedOfUnfixed(w);
    FixedOfUnfixed(w');
  }

  lemma XorAssociative(a: Word, b: Word, c: Word)
    ensures Xor(Xor(a, b), c) == Xor(a, Xor(b, c))
  {}

  /** The word with `w` moved up by one byte. */
  lemma PaddedCons(p: Word, b: byte, w: Bytes)
    requires |w| <= 3
    ensures var up: Word := Zeros(8) + Padded(w)[..24];
      Padded([b] + w) == Xor(ByteWord(b), up) && Shift(p, up, 8) == Padded(w)
  {
    var up: Word := Zeros(8) + Padded(w)[..24];
    assert ([b] + w)[1..] == w;
    ShiftOfZeros(p, up, 8);
  }

  /** Running the register over `w` is one big shift of the word it spells. */
  lemma {:induction false} RunIsShift(p: Word, r: Word, w: Bytes)
    requires |w| <= 4
    ensures Run(p, r, w) == Shift(p, Xor(r, Padded(w)), 8 * |w|)
    decreases w
  {
    if w == [] {
      assert Xor(r, Padded(w)) == r;
    } else {
      var b, t := w[0], w[1..];
      var up: Word := Zeros(8) + Padded(t)[..24];
      assert w == [b] + t;
      PaddedCons(p, b, t);
      var next := Shift(p, Xor(r, ByteWord(b)), 8);
      RunIsShift(p, next, t);
      XorAssociative(r, ByteWord(b), up);
      ShiftLinear(p, Xor(r, ByteWord(b)), up, 8);
      assert Shift(p, Xor(r, Padded(w)), 8) == Xor(next, Padded(t));
      ShiftAdd(p, Xor(r, Padded(w)), 8, 8 * |t|);
    }
  }

  lemma {:induction false} RunConcat(p: Word, r: Word, a: Bytes, b: Bytes)
    ensures Run(p, r, a + b) == Run(p, Run(p, r, a), b)
    decreases a
  {
    if a == [] {
      assert a + b == b;
    } else {
      assert (a + b)[1..] == a[1..] + b;
      RunConcat(p, Shift(p, Xor(r, ByteWord(a[0])), 8), a[1..], b);
    }
  }

  lemma {:induction false} RunInjective(p: Word, r: Word, r': Word, data: Bytes)
    requires p[31] && Run(p, r, data) == Run(p, r', data)
    ensures r == r'
    decreases data
  {
    if data != [] {
      var b := ByteWord(data[0]);
      RunInjective(p, Shift(p, Xor(r, b), 8), Shift(p, Xor(r', b), 8), data[1..]);
      ShiftInjective(p, Xor(r, b), Xor(r', b), 8);
      XorCancel(r, r', b);
    }
  }

  lemma XorCancel(x: Word, y: Word, c: Word)
    requires Xor(x, c) == Xor(y, c)
    ensures x == y
  {
    forall i | 0 <= i < 32 ensures x[i] == y[i] {
      assert Xor(x, c)[i] == Xor(y, c)[i];
    }
  }

  lemma XorCommutes(x: Word, y: Word)
    ensures Xor(x, y) == Xor(y, x)
  {}

  lemma NotInjective(x: Word, y: Word)
    requires x != y
    ensures Not(x) != Not(y)
  {
    var i :| 0 <= i < 32 && x[i] != y[i];
    assert Not(x)[i] != Not(y)[i];
  }

  lemma XorIsOnes(x: Word, y: Word)
    ensures Xor(x, y) == Ones(32) <==> y == Not(x)
  {
    if y != Not(x) {
      var i :| 0 <= i < 32 && y[i] != Not(x)[i];
      assert !Xor(x, y)[i];
    }
  }

  /** Two texts that differ only inside a window of at most four bytes never
      leave the register in the same state. */
  lemma BurstChangesRegister(p: Word, r: Word, pre: Bytes, w: Bytes, w': Bytes, post: Bytes)
    requires p[31] && |w| == |w'| <= 4 && w != w'
    ensures Run(p, r, pre + w + post) != Run(p, r, pre + w' + post)
  {
    RunConcat(p, r, pre + w, post);
    RunConcat(p, r, pre, w);
    RunConcat(p, r, pre + w', post);
    RunConcat(p, r, pre, w');
    var s := Run(p, r, pre);
    RunIsShift(p, s, w);
    RunIsShift(p, s, w');
    if Run(p, r, pre + w + post) == Run(p, r, pre + w' + post) {
      RunInjective(p, Run(p, s, w), Run(p, s, w'), post);
      ShiftInjective(p, Xor(s, Padded(w)), Xor(s, Padded(w')), 8 * |w|);
      XorCommutes(s, Padded(w));
      XorCommutes(s, Padded(w'));
      XorCancel(Padded(w), Padded(w'), s);
      assert BytesBits(w) == Padded(w)[..8 * |w|];
      BytesBitsInjective(w, w');
      assert false;
    }
  }

  /** Inputs of equal length that differ within four consecutive bytes never
      share a checksum. */
  lemma BurstChangesCrc(pre: Bytes, w: Bytes, w': Bytes, post: Bytes)
    requires |w| == |w'| <= 4 && w != w'
    ensures Crc(pre + w + post) != Crc(pre + w' + post)
  {
    PolynomialTopBit();
    BurstChangesCrcWith(POLYNOMIAL, pre, w, w', post);
  }

  lemma BurstChangesCrcWith(p: Word, pre: Bytes, w: Bytes, w': Bytes, post: Bytes)
    requires p[31] && |w| == |w'| <= 4 && w != w'
    ensures CrcWith(p, pre + w + post) != CrcWith(p, pre + w' + post)
  {
    var a, b := Run(p, Ones(32), pre + w + post), Run(p, Ones(32), pre + w' + post);
    BurstChangesRegister(p, Ones(32), pre, w, w', post);
    NotInjective(a, b);
    if Value(Not(a)) == Value(Not(b)) { ValueInjective(Not(a), Not(b)); }
  }

  // ---------- checksummed files ----------

  /** A file that ends in the checksum of everything before it. */
  predicate Sealed(file: Bytes) {
    |file| >= 4 && Unfixed(file[|file| - 4..]) == Crc(file[..|file| - 4])
  }

  lemma ChecksumLeavesResidue(p: Word, r: Word, sum: Bytes)
    requires p[31] && |sum| == 4
    ensures Unfixed(sum) == Value(Not(r)) <==> Run(p, r, sum) == Shift(p, Ones(32), 8 * |sum|)
  {
    RunIsShift(p, r, sum);
    BytesBitsValue(sum);
    assert Padded(sum) == BytesBits(sum);
    XorIsOnes(r, Padded(sum));
    if Value(Padded(sum)) == Value(Not(r)) {
      ValueInjective(Padded(sum), Not(r));
    } else if Run(p, r, sum) == Shift(p, Ones(32), 8 * |sum|) {
      ShiftInjective(p, Xor(r, Padded(sum)), Ones(32), 8 * |sum|);
    }
  }

  /** A file ends in its checksum exactly when the register, run over contents and
      checksum together, ends in one fixed state. */
  lemma SealIsResidue(p: Word, file: Bytes)
    requires p[31] && |file| >= 4
    ensures Unfixed(file[|file| - 4..]) == CrcWith(p, file[..|file| - 4])
            <==> Run(p, Ones(32), file) == Shift(p, Ones(32), 32)
  {
    var n := |file| - 4;
    assert file == file[..n] + file[n..];
    RunConcat(p, Ones(32), file[..n], file[n..]);
    ChecksumLeavesResidue(p, Run(p, Ones(32), file[..n]), file[n..]);
  }

  /** Any change confined to four consecutive bytes of a sealed file, its checksum
      included, breaks the seal. */
  lemma BurstBreaksSeal(pre: Bytes, w: Bytes, w': Bytes, post: Bytes)
    requires |w| == |w'| <= 4 && w != w' && Sealed(pre + w + post)
    ensures !Sealed(pre + w' + post)
  {
    PolynomialTopBit();
    SealIsResidue(POLYNOMIAL, pre + w + post);
    SealIsResidue(POLYNOMIAL, pre + w' + post);
    BurstChangesRegister(POLYNOMIAL, Ones(32), pre, w, w', post);
  }
}
