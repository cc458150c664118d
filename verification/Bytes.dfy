/** Byte strings: the unsigned lexicographic order that `std::string_view`
    comparison gives user keys, and the fixed-width little-endian coding that
    every on-disk format of the engine is built from. */
module Bytes {

  type byte = x: int | 0 <= x < 256
  type Bytes = seq<byte>

  const TWO_32: nat := 0x1_0000_0000
  const TWO_64: nat := 0x1_0000_0000_0000_0000

  datatype Option<+T> = None | Some(value: T)

  /** Unsigned lexicographic order; a proper prefix is smaller. */
  predicate Less(a: Bytes, b: Bytes) {
    b != [] && (a == [] || a[0] < b[0] || (a[0] == b[0] && Less(a[1..], b[1..])))
  }

  lemma {:induction false} LessIrreflexive(a: Bytes)
    ensures !Less(a, a)
  {
    if a != [] { LessIrreflexive(a[1..]); }
  }

  lemma {:induction false} LessTransitive(a: Bytes, b: Bytes, c: Bytes)
    requires Less(a, b) && Less(b, c)
    ensures Less(a, c)
  {
    if a != [] && a[0] == b[0] && b[0] == c[0] { LessTransitive(a[1..], b[1..], c[1..]); }
  }

  lemma {:induction false} LessTotal(a: Bytes, b: Bytes)
    ensures Less(a, b) || a == b || Less(b, a)
  {
    if a != [] && b != [] && a[0] == b[0] {
      LessTotal(a[1..], b[1..]);
      assert a == [a[0]] + a[1..] && b == [b[0]] + b[1..];
    }
  }

  /** `Less` is a strict total order on byte strings. */
  lemma LessIsStrictTotalOrder()
    ensures forall a: Bytes :: !Less(a, a)
    ensures forall a: Bytes, b: Bytes, c: Bytes :: Less(a, b) && Less(b, c) ==> Less(a, c)
    ensures forall a: Bytes, b: Bytes :: Less(a, b) || a == b || Less(b, a)
  {
    forall a: Bytes ensures !Less(a, a) { LessIrreflexive(a); }
    forall a: Bytes, b: Bytes, c: Bytes | Less(a, b) && Less(b, c) ensures Less(a, c) {
      LessTransitive(a, b, c);
    }
    forall a: Bytes, b: Bytes ensures Less(a, b) || a == b || Less(b, a) { LessTotal(a, b); }
  }

  // ---------- fixed-width little-endian integers ----------

  function Pow256(w: nat): (r: nat)
    ensures r > 0
  {
    if w == 0 then 1 else 256 * Pow256(w - 1)
  }

  lemma PowersOf256()
    ensures Pow256(4) == TWO_32 && Pow256(8) == TWO_64
  {
    assert Pow256(2) == 0x1_0000;
    assert Pow256(4) == TWO_32;
    assert Pow256(6) == 0x1_0000_0000_0000;
  }

  /** `n` in `w` bytes, least significant first. */
  function Fixed(n: nat, w: nat): (b: Bytes)
    ensures |b| == w
  {
    if w == 0 then [] else [n % 256] + Fixed(n / 256, w - 1)
  }

  function Unfixed(b: Bytes): nat {
    if b == [] then 0 else b[0] + 256 * Unfixed(b[1..])
  }

  lemma {:induction false} UnfixedOfFixed(n: nat, w: nat)
    requires n < Pow256(w)
    ensures Unfixed(Fixed(n, w)) == n
  {
    if w > 0 { UnfixedOfFixed(n / 256, w - 1); }
  }

  lemma {:induction false} FixedOfUnfixed(b: Bytes)
    ensures Unfixed(b) < Pow256(|b|)
    ensures Fixed(Unfixed(b), |b|) == b
  {
    if b != [] {
      FixedOfUnfixed(b[1..]);
      assert Unfixed(b) / 256 == Unfixed(b[1..]) && Unfixed(b) % 256 == b[0];
    }
  }

  function Fixed32(n: nat): (b: Bytes)
    requires n < TWO_32
    ensures |b| == 4 && Unfixed(b) == n
  {
    PowersOf256();
    UnfixedOfFixed(n, 4);
    Fixed(n, 4)
  }

  function Fixed64(n: nat): (b: Bytes)
    requires n < TWO_64
    ensures |b| == 8 && Unfixed(b) == n
  {
    PowersOf256();
    UnfixedOfFixed(n, 8);
    Fixed(n, 8)
  }

  /** A four-byte field decodes to a 32-bit number and re-encodes to itself. */
  lemma Fixed32OfUnfixed(b: Bytes)
    requires |b| == 4
    ensures Unfixed(b) < TWO_32 && Fixed32(Unfixed(b)) == b
  {
    PowersOf256();
    FixedOfUnfixed(b);
  }

  lemma Fixed64OfUnfixed(b: Bytes)
    requires |b| == 8
    ensures Unfixed(b) < TWO_64 && Fixed64(Unfixed(b)) == b
  {
    PowersOf256();
    FixedOfUnfixed(b);
  }
}
