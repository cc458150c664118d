/** Internal keys as bytes: the user key followed by an eight-byte tag holding the
    sequence number and the value type. */
module InternalKeys {
  import opened Bytes
  import opened Entries

  const TAG_SIZE := 8

  function KindCode(kind: Kind): nat { if kind.Deletion? then 0 else 1 }

  function Tag(k: InternalKey): (t: nat)
    requires k.sn <= MAX_SEQUENCE
    ensures t < TWO_64
  {
    k.sn * 256 + KindCode(k.kind)
  }

  /** `encodeInternalKey`. */
  function EncodeKey(k: InternalKey): (b: Bytes)
    requires k.sn <= MAX_SEQUENCE
    ensures |b| == |k.key| + TAG_SIZE
  {
    k.key + Fixed64(Tag(k))
  }

  function UserPart(b: Bytes): Bytes
    requires TAG_SIZE <= |b|
  {
    b[..|b| - TAG_SIZE]
  }

  function TagPart(b: Bytes): nat
    requires TAG_SIZE <= |b|
  {
    Unfixed(b[|b| - TAG_SIZE..])
  }

  /** `parseInternalKey`. */
  function ParseKey(b: Bytes): Option<InternalKey> {
    if |b| < TAG_SIZE then None
    else if TagPart(b) % 256 == 0 then Some(InternalKey(UserPart(b), TagPart(b) / 256, Deletion))
    else if TagPart(b) % 256 == 1 then Some(InternalKey(UserPart(b), TagPart(b) / 256, Value))
    else None
  }

  /** `InternalKeyLess` on encoded keys: user keys ascending, then tags descending. */
  predicate KeyLess(a: Bytes, b: Bytes)
    requires TAG_SIZE <= |a| && TAG_SIZE <= |b|
  {
    Less(UserPart(a), UserPart(b)) || (UserPart(a) == UserPart(b) && TagPart(a) > TagPart(b))
  }

  lemma EncodedParts(k: InternalKey)
    requires k.sn <= MAX_SEQUENCE
    ensures UserPart(EncodeKey(k)) == k.key && TagPart(EncodeKey(k)) == Tag(k)
  {
    hide Unfixed;
    hide Fixed64;
    assert EncodeKey(k)[|k.key|..] == Fixed64(Tag(k));
  }

  /** Parsing an encoded key gives it back. */
  lemma ParseOfEncode(k: InternalKey)
    requires k.sn <= MAX_SEQUENCE
    ensures ParseKey(EncodeKey(k)) == Some(k)
  {
    EncodedParts(k);
    hide EncodeKey;
    assert Tag(k) / 256 == k.sn && Tag(k) % 256 == KindCode(k.kind);
  }

  /** Every accepted key is the encoding of what it parses to. */
  lemma EncodeOfParse(b: Bytes)
    requires ParseKey(b).Some?
    ensures ParseKey(b).value.sn <= MAX_SEQUENCE && EncodeKey(ParseKey(b).value) == b
  {
    var tag := b[|b| - TAG_SIZE..];
    Fixed64OfUnfixed(tag);
    hide Unfixed;
    hide Fixed64;
    var k := ParseKey(b).value;
    assert Tag(k) == TagPart(b);
    assert b == UserPart(b) + tag;
  }

  /** Encoded keys compare as the entries they stand for. */
  lemma KeyLessIsBefore(a: Entry, b: Entry)
    requires a.sn <= MAX_SEQUENCE && b.sn <= MAX_SEQUENCE
    ensures KeyLess(EncodeKey(KeyOf(a)), EncodeKey(KeyOf(b))) <==> Before(a, b)
  {
    EncodedParts(KeyOf(a));
    EncodedParts(KeyOf(b));
    hide EncodeKey;
    hide Less;
    hide Unfixed;
  }

  lemma KeyLessIsStrictOrder()
    ensures forall a: Bytes :: TAG_SIZE <= |a| ==> !KeyLess(a, a)
    ensures forall a: Bytes, b: Bytes, c: Bytes ::
              TAG_SIZE <= |a| && TAG_SIZE <= |b| && TAG_SIZE <= |c| && KeyLess(a, b) && KeyLess(b, c) ==> KeyLess(a, c)
    ensures forall a: Bytes, b: Bytes, c: Bytes ::
              TAG_SIZE <= |a| && TAG_SIZE <= |b| && TAG_SIZE <= |c| && KeyLess(a, b) && !KeyLess(c, b) ==> KeyLess(a, c)
  {
    LessIsStrictTotalOrder();
    hide Less;
    hide Unfixed;
  }
}
