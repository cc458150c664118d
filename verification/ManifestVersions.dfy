/** The three manifest formats the decoder reads: version 1 stores L0 only, version 2
    adds L1, version 3 adds L2. The decoder accepts exactly their encodings. */
module ManifestVersions {
  import opened Bytes
  import opened Entries
  import opened Versions
  import opened InternalKeys
  import opened Crc32c
  import opened Manifests

  /** The levels a format has no room for are empty. */
  predicate FitsVersion(m: Manifest, version: nat) {
    && 1 <= version <= 3 && |m.levels| == NUM_LEVELS
    && forall l :: version <= l < NUM_LEVELS ==> m.levels[l] == []
  }

  /** The first `count` table lists, L0 first. */
  function StoredLevels(levels: seq<seq<TableMeta>>, count: nat): Bytes
    requires count <= |levels| && forall l :: 0 <= l < count ==> |levels[l]| < TWO_32 && ValidTables(levels[l])
  {
    if count == 0 then [] else StoredLevels(levels, count - 1) + LevelBytes(levels[count - 1])
  }

  function VersionContent(m: Manifest, version: nat): Bytes
    requires ValidManifest(m) && FitsVersion(m, version)
  {
    SequenceFits();
    MAGIC + Fixed32(version) + Fixed64(m.flushed) + Fixed64(m.oldestWal) + StoredLevels(m.levels, version)
  }

  /** `m` in the format of `version`. */
  function EncodeAs(m: Manifest, version: nat): Option<Bytes> {
    if !ValidManifest(m) || !FitsVersion(m, version) || |VersionContent(m, version)| + 4 > MAX_MANIFEST then None
    else Some(VersionContent(m, version) + Fixed32(Crc(VersionContent(m, version))))
  }

  lemma CurrentContent(m: Manifest)
    requires ValidManifest(m)
    ensures FitsVersion(m, 3) && ContentBytes(m) == VersionContent(m, 3)
  {
    hide ValidTables;
    hide InOrder;
    hide Distinct;
    hide AllTables;
    hide LevelBytes;
    hide Fixed32;
    hide Fixed64;
    assert StoredLevels(m.levels, 1) == LevelBytes(m.levels[0]);
    assert StoredLevels(m.levels, 3) == LevelBytes(m.levels[0]) + LevelBytes(m.levels[1]) + LevelBytes(m.levels[2]);
    SequenceFits();
    LastThree(MAGIC + Fixed32(3) + Fixed64(m.flushed) + Fixed64(m.oldestWal),
              LevelBytes(m.levels[0]), LevelBytes(m.levels[1]), LevelBytes(m.levels[2]));
  }

  lemma LastThree(a: Bytes, b: Bytes, c: Bytes, d: Bytes)
    ensures a + b + c + d == a + (b + c + d)
  {}

  /** The writer writes version 3. */
  lemma CurrentVersion(m: Manifest)
    ensures EncodeManifest(m) == EncodeAs(m, 3)
  {
    hide ValidManifest;
    hide ContentBytes;
    hide VersionContent;
    hide Fixed32;
    hide Crc;
    if ValidManifest(m) { CurrentContent(m); }
  }

  // ---------- reading what was written ----------

  lemma TakeStoredLevels(m: Manifest, version: nat)
    requires ValidManifest(m) && FitsVersion(m, version)
    ensures TakeLevels(StoredLevels(m.levels, version), version) == Some((m.levels, []))
  {
    hide TakeLevel;
    hide LevelBytes;
    hide ValidTables;
    hide InOrder;
    hide Distinct;
    var levels := m.levels;
    var b0, b1, b2 := LevelBytes(levels[0]), LevelBytes(levels[1]), LevelBytes(levels[2]);
    assert levels == [levels[0], levels[1], levels[2]];
    assert StoredLevels(levels, 1) == b0;
    if version == 1 {
      TakeLevelOf(levels[0], []);
      assert b0 + [] == b0;
    } else if version == 2 {
      TakeLevelOf(levels[0], b1);
      TakeLevelOf(levels[1], []);
      assert b1 + [] == b1 && StoredLevels(levels, 2) == b0 + b1;
    } else {
      TakeLevelsOf(levels);
      assert StoredLevels(levels, 3) == b0 + b1 + b2;
    }
  }

  lemma VersionParts(m: Manifest, version: nat)
    requires ValidManifest(m) && FitsVersion(m, version)
    ensures var c := VersionContent(m, version);
      && 32 <= |c| && c[..8] == MAGIC && Unfixed(c[8..12]) == version
      && Unfixed(c[12..20]) == m.flushed && Unfixed(c[20..28]) == m.oldestWal
      && c[28..] == StoredLevels(m.levels, version)
  {
    hide Unfixed;
    hide LevelBytes;
    hide ValidTables;
    hide Distinct;
    hide InOrder;
    SequenceFits();
    var v, f, w := Fixed32(version), Fixed64(m.flushed), Fixed64(m.oldestWal);
    SomeLevel(m.levels, version);
    HeaderParts(v, f, w, StoredLevels(m.levels, version));
    hide Fixed32;
    hide Fixed64;
    hide StoredLevels;
  }

  lemma {:induction false} SomeLevel(levels: seq<seq<TableMeta>>, count: nat)
    requires 0 < count <= |levels| && forall l :: 0 <= l < count ==> |levels[l]| < TWO_32 && ValidTables(levels[l])
    ensures 4 <= |StoredLevels(levels, count)|
  {
    hide ValidTables;
    LevelSize(levels[count - 1]);
    hide LevelBytes;
  }

  lemma SealedWith(contents: Bytes)
    ensures var b := contents + Fixed32(Crc(contents));
      Sealed(b) && b[..|b| - 4] == contents
  {
    hide Crc;
    var sum := Fixed32(Crc(contents));
    var b := contents + sum;
    assert Unfixed(sum) == Crc(contents);
    hide Unfixed;
    hide Fixed32;
    assert b[..|b| - 4] == contents && b[|b| - 4..] == sum;
  }

  /** A manifest written in any of the three formats reads back as it was. */
  lemma EveryVersionRoundTrips(m: Manifest, version: nat)
    requires EncodeAs(m, version).Some?
    ensures DecodeManifest(EncodeAs(m, version).value) == Some(m)
  {
    hide Crc;
    hide Unfixed;
    hide TakeLevels;
    hide Sealed;
    hide VersionContent;
    hide StoredLevels;
    hide ValidTables;
    hide Distinct;
    hide InOrder;
    var contents := VersionContent(m, version);
    VersionParts(m, version);
    TakeStoredLevels(m, version);
    SealedWith(contents);
    hide Fixed32;
  }

  // ---------- nothing else is read ----------

  lemma TakeKeyFrom(b: Bytes)
    requires TakeKey(b).Some?
    ensures var (k, rest) := TakeKey(b).value;
      KeyFits(k) && b == Fixed32(|KeyBytes(k)|) + KeyBytes(k) + rest
  {
    var n := Unfixed(b[..4]);
    Fixed32OfUnfixed(b[..4]);
    hide Unfixed;
    EncodeOfParse(b[4..4 + n]);
    hide ParseKey;
    hide EncodeKey;
    hide Fixed32;
    assert b == b[..4] + b[4..4 + n] + b[4 + n..];
  }

  lemma TakeTableFrom(b: Bytes)
    requires TakeTable(b).Some? && ValidTable(TakeTable(b).value.0)
    ensures b == TableBytes(TakeTable(b).value.0) + TakeTable(b).value.1
  {
    hide TakeKey;
    hide Before;
    hide KeyBytes;
    hide Unfixed;
    TakeKeyFrom(b[16..]);
    var (k1, mid) := TakeKey(b[16..]).value;
    TakeKeyFrom(mid);
    var (k2, rest) := TakeKey(mid).value;
    Fixed64OfUnfixed(b[..8]);
    Fixed64OfUnfixed(b[8..16]);
    hide Fixed64;
    hide Fixed32;
    assert b == b[..8] + b[8..16] + b[16..];
  }

  lemma {:induction false} TakeTablesFrom(b: Bytes, count: nat)
    requires TakeTables(b, count).Some? && ValidTables(TakeTables(b, count).value.0)
    ensures var (ts, rest) := TakeTables(b, count).value;
      |ts| == count && b == TablesBytes(ts) + rest
    decreases count
  {
    hide TakeTable;
    hide TableBytes;
    hide ValidTable;
    var (ts, rest) := TakeTables(b, count).value;
    if count > 0 {
      var (t, mid) := TakeTable(b).value;
      var (ts', rest') := TakeTables(mid, count - 1).value;
      assert ts == [t] + ts' && ts[1..] == ts';
      assert ValidTable(ts[0]);
      assert forall i :: 0 <= i < |ts'| ==> ts'[i] == ts[i + 1];
      TakeTableFrom(b);
      TakeTablesFrom(mid, count - 1);
    }
  }

  lemma TakeLevelFrom(b: Bytes)
    requires TakeLevel(b).Some? && ValidTables(TakeLevel(b).value.0)
    ensures var (ts, rest) := TakeLevel(b).value;
      |ts| < TWO_32 && b == LevelBytes(ts) + rest
  {
    hide TakeTables;
    hide ValidTables;
    hide Unfixed;
    TakeTablesFrom(b[4..], Unfixed(b[..4]));
    Fixed32OfUnfixed(b[..4]);
    hide Fixed32;
    hide TablesBytes;
    assert b == b[..4] + b[4..];
  }

  lemma TakeLevelsFrom(b: Bytes, version: nat, m: Manifest)
    requires ValidManifest(m) && 1 <= version <= 3 && TakeLevels(b, version) == Some((m.levels, []))
    ensures FitsVersion(m, version) && b == StoredLevels(m.levels, version)
  {
    hide TakeLevel;
    hide LevelBytes;
    hide ValidTables;
    hide Distinct;
    hide InOrder;
    hide AllTables;
    var (l0, r0) := TakeLevel(b).value;
    assert m.levels[0] == l0;
    TakeLevelFrom(b);
    assert StoredLevels(m.levels, 1) == LevelBytes(l0);
    if version == 1 {
      assert b == LevelBytes(l0);
    } else {
      var (l1, r1) := TakeLevel(r0).value;
      assert m.levels[1] == l1;
      TakeLevelFrom(r0);
      if version == 2 {
        assert StoredLevels(m.levels, 2) == LevelBytes(l0) + LevelBytes(l1);
      } else {
        var (l2, r2) := TakeLevel(r1).value;
        assert m.levels[2] == l2;
        TakeLevelFrom(r1);
        assert StoredLevels(m.levels, 3) == LevelBytes(l0) + LevelBytes(l1) + LevelBytes(l2);
      }
    }
  }

  lemma HeaderFrom(c: Bytes)
    requires 28 <= |c| && c[..8] == MAGIC
    ensures Unfixed(c[8..12]) < TWO_32 && Unfixed(c[12..20]) < TWO_64 && Unfixed(c[20..28]) < TWO_64
    ensures c == MAGIC + Fixed32(Unfixed(c[8..12])) + Fixed64(Unfixed(c[12..20])) + Fixed64(Unfixed(c[20..28])) + c[28..]
  {
    hide Unfixed;
    Fixed32OfUnfixed(c[8..12]);
    Fixed64OfUnfixed(c[12..20]);
    Fixed64OfUnfixed(c[20..28]);
    hide Fixed32;
    hide Fixed64;
    assert c == c[..8] + c[8..12] + c[12..20] + c[20..28] + c[28..];
  }

  lemma SealFrom(b: Bytes)
    requires 4 <= |b| && Sealed(b)
    ensures b == b[..|b| - 4] + Fixed32(Crc(b[..|b| - 4]))
  {
    hide Crc;
    hide Unfixed;
    Fixed32OfUnfixed(b[|b| - 4..]);
    hide Fixed32;
    assert b == b[..|b| - 4] + b[|b| - 4..];
  }

  lemma DecodedWasEncoded(b: Bytes)
    requires DecodeManifest(b).Some?
    ensures exists version :: EncodeAs(DecodeManifest(b).value, version) == Some(b)
  {
    hide Crc;
    hide Unfixed;
    hide TakeLevels;
    hide Sealed;
    hide StoredLevels;
    hide ValidTables;
    hide Distinct;
    hide InOrder;
    hide AllTables;
    var m, c := DecodeManifest(b).value, b[..|b| - 4];
    var version := Unfixed(c[8..12]);
    SealFrom(b);
    HeaderFrom(c);
    TakeLevelsFrom(c[28..], version, m);
    hide Fixed32;
    hide Fixed64;
    assert VersionContent(m, version) == c;
    assert EncodeAs(m, version) == Some(b);
  }

  /** The decoder reads `m` from exactly the encodings of `m` in the three formats. */
  lemma DecodesExactlyEncodings(b: Bytes, m: Manifest)
    ensures DecodeManifest(b) == Some(m) <==> exists version :: EncodeAs(m, version) == Some(b)
  {
    hide DecodeManifest;
    hide EncodeAs;
    if DecodeManifest(b) == Some(m) { DecodedWasEncoded(b); }
    if version :| EncodeAs(m, version) == Some(b) { EveryVersionRoundTrips(m, version); }
  }
}
