/** The parts of an SSTable file: sealed blocks, the handles that point at them, the footer. */
module TableFormat {
  import opened Bytes
  import opened Crc32c

  const TRAILER := 5
  const FOOTER := 48
  const MAGIC: Bytes := [76, 83, 77, 84, 82, 69, 69, 49]
  const VERSION := 1

  datatype Handle = Handle(offset: nat, size: nat)

  predicate HandleOk(h: Handle) { h.offset < TWO_64 && h.size < TWO_64 }

  function HandleBytes(h: Handle): (b: Bytes)
    requires HandleOk(h)
    ensures |b| == 16
  {
    Fixed64(h.offset) + Fixed64(h.size)
  }

  /** A handle that fills its input exactly. */
  function ParseHandle(b: Bytes): Option<Handle> {
    if |b| != 16 then None else Some(Handle(Unfixed(b[..8]), Unfixed(b[8..])))
  }

  lemma HandleRoundTrip(h: Handle)
    requires HandleOk(h)
    ensures ParseHandle(HandleBytes(h)) == Some(h)
  {
    var o, s := Fixed64(h.offset), Fixed64(h.size);
    assert HandleBytes(h)[..8] == o && HandleBytes(h)[8..] == s;
  }

  function FooterBytes(filter: Handle, index: Handle): (b: Bytes)
    requires HandleOk(filter) && HandleOk(index)
    ensures |b| == FOOTER
  {
    MAGIC + Fixed32(VERSION) + Fixed32(0) + HandleBytes(filter) + HandleBytes(index)
  }

  function ParseFooter(b: Bytes): Option<(Handle, Handle)> {
    if |b| != FOOTER || b[..8] != MAGIC || Unfixed(b[8..12]) != VERSION || Unfixed(b[12..16]) != 0 then None
    else
      match (ParseHandle(b[16..32]), ParseHandle(b[32..48]))
      case (Some(filter), Some(index)) => Some((filter, index))
      case _ => None
  }

  lemma FooterParts(v: Bytes, z: Bytes, f: Bytes, i: Bytes)
    requires |v| == 4 && |z| == 4 && |f| == 16 && |i| == 16
    ensures var b := MAGIC + v + z + f + i;
      b[..8] == MAGIC && b[8..12] == v && b[12..16] == z && b[16..32] == f && b[32..48] == i
  {}

  lemma FooterRoundTrip(filter: Handle, index: Handle)
    requires HandleOk(filter) && HandleOk(index)
    ensures ParseFooter(FooterBytes(filter, index)) == Some((filter, index))
  {
    hide HandleBytes;
    hide ParseHandle;
    hide Unfixed;
    FooterParts(Fixed32(VERSION), Fixed32(0), HandleBytes(filter), HandleBytes(index));
    HandleRoundTrip(filter);
    HandleRoundTrip(index);
    hide Fixed32;
  }

  lemma HandleFrom(b: Bytes)
    requires |b| == 16
    ensures ParseHandle(b).Some? && HandleOk(ParseHandle(b).value) && HandleBytes(ParseHandle(b).value) == b
  {
    Fixed64OfUnfixed(b[..8]);
    Fixed64OfUnfixed(b[8..]);
    hide Unfixed;
    hide Fixed64;
    assert b == b[..8] + b[8..];
  }

  lemma FooterFrom(b: Bytes)
    requires ParseFooter(b).Some?
    ensures var (filter, index) := ParseFooter(b).value;
      HandleOk(filter) && HandleOk(index) && b == FooterBytes(filter, index)
  {
    hide Unfixed;
    HandleFrom(b[16..32]);
    HandleFrom(b[32..48]);
    Fixed32OfUnfixed(b[8..12]);
    Fixed32OfUnfixed(b[12..16]);
    hide Fixed32;
    hide HandleBytes;
    hide ParseHandle;
    assert b == b[..8] + b[8..12] + b[12..16] + b[16..32] + b[32..48];
  }

  /** The footer parser accepts exactly the footers the builder writes. */
  lemma FooterIsExact(b: Bytes, filter: Handle, index: Handle)
    ensures ParseFooter(b) == Some((filter, index)) <==> HandleOk(filter) && HandleOk(index) && b == FooterBytes(filter, index)
  {
    hide ParseFooter;
    hide FooterBytes;
    if HandleOk(filter) && HandleOk(index) && b == FooterBytes(filter, index) { FooterRoundTrip(filter, index); }
    if ParseFooter(b) == Some((filter, index)) { FooterFrom(b); }
  }

  /** A block as written: payload, compression type, checksum of both. */
  function SealBlock(payload: Bytes): (b: Bytes)
    ensures |b| == |payload| + TRAILER
  {
    payload + [0] + Fixed32(Crc(payload + [0]))
  }

  predicate InBounds(size: nat, h: Handle) { h.offset + h.size + TRAILER + FOOTER <= size }

  /** `readBlock`. */
  function ReadBlock(file: Bytes, h: Handle, verify: bool): Option<Bytes> {
    if !InBounds(|file|, h) then None
    else
      var b := file[h.offset..h.offset + h.size + TRAILER];
      if verify && Unfixed(b[h.size + 1..]) != Crc(b[..h.size + 1]) then None
      else if b[h.size] != 0 then None
      else Some(b[..h.size])
  }

  /** The sealed payload lies where the handle points, before the footer. */
  ghost predicate StoredAt(file: Bytes, h: Handle, payload: Bytes) {
    && h.size == |payload| && InBounds(|file|, h)
    && file[h.offset..h.offset + h.size + TRAILER] == SealBlock(payload)
  }

  lemma ReadStored(file: Bytes, h: Handle, payload: Bytes, verify: bool)
    requires StoredAt(file, h, payload)
    ensures ReadBlock(file, h, verify) == Some(payload)
  {
    var crc := Crc(payload + [0]);
    var sum := Fixed32(crc);
    hide Crc;
    hide Unfixed;
    hide Fixed32;
    var b := SealBlock(payload);
    assert b[h.size + 1..] == sum && b[..h.size + 1] == payload + [0] && b[..h.size] == payload;
  }

  lemma ReadWasStored(file: Bytes, h: Handle)
    requires ReadBlock(file, h, true).Some?
    ensures StoredAt(file, h, ReadBlock(file, h, true).value)
  {
    hide Crc;
    hide Unfixed;
    var b := file[h.offset..h.offset + h.size + TRAILER];
    var body, sum := b[..h.size + 1], b[h.size + 1..];
    Fixed32OfUnfixed(sum);
    hide Fixed32;
    assert body == b[..h.size] + [0];
    assert b == body + sum;
  }

  /** With verification, a block is read exactly if it is stored there, checksum included. */
  lemma ReadsExactlyStored(file: Bytes, h: Handle, payload: Bytes)
    ensures ReadBlock(file, h, true) == Some(payload) <==> StoredAt(file, h, payload)
  {
    hide ReadBlock;
    hide StoredAt;
    if StoredAt(file, h, payload) { ReadStored(file, h, payload, true); }
    if ReadBlock(file, h, true) == Some(payload) { ReadWasStored(file, h); }
  }

  // ---------- damage ----------

  ghost predicate SameOutside(a: Bytes, b: Bytes, at: nat)
    requires |a| == |b|
  {
    forall i :: 0 <= i < |a| && !(at <= i < at + 4) ==> a[i] == b[i]
  }

  /** `file'` is `file` with changes only within four consecutive bytes. */
  ghost predicate Altered(file: Bytes, file': Bytes) {
    |file| == |file'| && exists at: nat :: SameOutside(file, file', at)
  }

  lemma ChangedSealIsRejected(file: Bytes, h: Handle, payload: Bytes, pre: Bytes, w: Bytes, w': Bytes, post: Bytes)
    requires InBounds(|file|, h) && h.size == |payload| && |w| == |w'| <= 4 && w != w'
    requires SealBlock(payload) == pre + w + post && file[h.offset..h.offset + h.size + TRAILER] == pre + w' + post
    ensures ReadBlock(file, h, true) == None
  {
    var b := pre + w' + post;
    SealedBlock(payload);
    hide Crc;
    hide Fixed32;
    hide SealBlock;
    BurstBreaksSeal(pre, w, w', post);
    assert b[..|b| - 4] == b[..h.size + 1] && b[|b| - 4..] == b[h.size + 1..];
  }

  lemma SealedBlock(payload: Bytes)
    ensures Sealed(SealBlock(payload))
  {
    var b, sum := SealBlock(payload), Fixed32(Crc(payload + [0]));
    hide Crc;
    hide Unfixed;
    hide Fixed32;
    assert b[..|b| - 4] == payload + [0] && b[|b| - 4..] == sum;
  }

  /** After changes within four consecutive bytes anywhere in the file, a stored block is
      read as it was, or its damage is noticed. */
  lemma DamageIsNoticed(file: Bytes, file': Bytes, h: Handle, payload: Bytes)
    requires Altered(file, file') && StoredAt(file, h, payload)
    ensures ReadBlock(file', h, true) == None || ReadBlock(file', h, true) == Some(payload)
  {
    hide SealBlock;
    hide ReadBlock;
    var at: nat :| SameOutside(file, file', at);
    var lo, hi := h.offset, h.offset + h.size + TRAILER;
    var a, b := file[lo..hi], file'[lo..hi];
    if a == b {
      ReadStored(file', h, payload, true);
    } else {
      var start := if at < lo then 0 else at - lo;
      assert SameOutside(a, b, start);
      var p, v, v', q := Window(a, b, start);
      ChangedSealIsRejected(file', h, payload, p, v, v', q);
    }
  }

  lemma Window(a: Bytes, b: Bytes, at: nat) returns (pre: Bytes, w: Bytes, w': Bytes, post: Bytes)
    requires |a| == |b| && SameOutside(a, b, at) && a != b
    ensures a == pre + w + post && b == pre + w' + post && |w| == |w'| <= 4 && w != w'
  {
    var from := if at < |a| then at else |a|;
    var to := if at + 4 < |a| then at + 4 else |a|;
    pre, w, w', post := a[..from], a[from..to], b[from..to], a[to..];
    assert b[..from] == pre && b[to..] == post;
    assert a == pre + w + post && b == pre + w' + post;
  }
}
