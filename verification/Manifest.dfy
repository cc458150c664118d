/** The manifest: what `validateState` accepts, and its encoding with a checksum. */
module Manifests {
  import opened Bytes
  import opened Entries
  import opened Versions
  import opened InternalKeys
  import opened Crc32c

  datatype Manifest = Manifest(flushed: nat, oldestWal: nat, levels: seq<seq<TableMeta>>)

  const MAX_MANIFEST: nat := 64 * 1024 * 1024
  const MAGIC: Bytes := [76, 83, 77, 77, 65, 78, 48, 49]
  const VERSION := 3
  const LEVEL1_VERSION := 2
  const MIN_TABLE := 40

  // ---------- validation ----------

  function Bare(k: InternalKey): Entry { Entry(k.key, k.sn, k.kind, []) }

  predicate KeyFits(k: InternalKey) { k.sn <= MAX_SEQUENCE && |k.key| + TAG_SIZE < TWO_32 }

  predicate ValidTable(t: TableMeta) {
    && 0 < t.number < TWO_64 && 0 < t.size < TWO_64 && KeyFits(t.smallest) && KeyFits(t.largest)
    && !Before(Bare(t.largest), Bare(t.smallest))
  }

  predicate ValidTables(ts: seq<TableMeta>) { forall i :: 0 <= i < |ts| ==> ValidTable(ts[i]) }

  /** Each table of L1 or L2 starts after the user key its predecessor ends with. */
  predicate InOrder(ts: seq<TableMeta>) {
    forall i :: 0 < i < |ts| ==> Less(ts[i - 1].largest.key, ts[i].smallest.key)
  }

  ghost function NumbersIn(ts: seq<TableMeta>): set<nat> { set i | 0 <= i < |ts| :: ts[i].number }

  predicate Distinct(ts: seq<TableMeta>) {
    forall i, j :: 0 <= i < j < |ts| ==> ts[i].number != ts[j].number
  }

  function AllTables(levels: seq<seq<TableMeta>>): seq<TableMeta> {
    if levels == [] then [] else AllTables(levels[..|levels| - 1]) + levels[|levels| - 1]
  }

  /** Everything `validateState` asks of a state about to be written or just read. */
  predicate ValidManifest(m: Manifest) {
    && m.flushed <= MAX_SEQUENCE && 0 < m.oldestWal < TWO_64 && |m.levels| == NUM_LEVELS
    && (forall l :: 0 <= l < NUM_LEVELS ==> |m.levels[l]| < TWO_32 && ValidTables(m.levels[l]))
    && Distinct(AllTables(m.levels))
    && (forall l :: 1 <= l < NUM_LEVELS ==> InOrder(m.levels[l]))
  }

  /** One level of the check: the numbers seen so far, and every table. */
  method ValidateLevel(ts: seq<TableMeta>, ordered: bool, ghost before: seq<TableMeta>, seen: set<nat>)
    returns (ok: bool, numbers: set<nat>)
    requires Distinct(before) && seen == NumbersIn(before)
    ensures ok <==> ValidTables(ts) && Distinct(before + ts) && (ordered ==> InOrder(ts))
    ensures ok ==> numbers == NumbersIn(before + ts)
  {
    hide Less;
    hide Before;
    numbers := seen;
    var i := 0;
    assert before + ts[..0] == before;
    while i < |ts|
      invariant 0 <= i <= |ts| && numbers == NumbersIn(before + ts[..i])
      invariant ValidTables(ts[..i]) && Distinct(before + ts[..i]) && (ordered ==> InOrder(ts[..i]))
    {
      var t := ts[i];
      OneMoreTable(before, ts, i);
      if t.number == 0 || t.size == 0 || t.number >= TWO_64 || t.size >= TWO_64 { return false, numbers; }
      if t.number in numbers { return false, numbers; }
      if !KeyFits(t.smallest) || !KeyFits(t.largest) || Before(Bare(t.largest), Bare(t.smallest)) { return false, numbers; }
      if ordered && 0 < i && !Less(ts[i - 1].largest.key, t.smallest.key) { return false, numbers; }
      numbers := numbers + {t.number};
      i := i + 1;
    }
    assert ts[..i] == ts;
    return true, numbers;
  }

  lemma OneMoreTable(before: seq<TableMeta>, ts: seq<TableMeta>, i: nat)
    requires i < |ts|
    ensures var a, b, t := before + ts[..i], before + ts[..i + 1], ts[i];
      && NumbersIn(b) == NumbersIn(a) + {t.number}
      && (Distinct(a) ==> (Distinct(b) <==> t.number !in NumbersIn(a)))
      && (Distinct(before + ts) ==> Distinct(b))
      && (ValidTables(ts) ==> ValidTable(t)) && (InOrder(ts) && 0 < i ==> Less(ts[i - 1].largest.key, t.smallest.key))
  {
    var a, b, t := before + ts[..i], before + ts[..i + 1], ts[i];
    hide Less;
    hide ValidTable;
    assert b == a + [t];
    NumbersMore(a, t);
    assert before + ts == b + ts[i + 1..];
    if Distinct(before + ts) { DistinctPrefix(b, ts[i + 1..]); }
  }

  lemma NumbersMore(a: seq<TableMeta>, t: TableMeta)
    ensures NumbersIn(a + [t]) == NumbersIn(a) + {t.number}
    ensures Distinct(a) ==> (Distinct(a + [t]) <==> t.number !in NumbersIn(a))
  {
    var b := a + [t];
    forall n ensures n in NumbersIn(b) <==> n in NumbersIn(a) + {t.number} {
      if n in NumbersIn(a) {
        var i :| 0 <= i < |a| && a[i].number == n;
        assert b[i].number == n;
      }
      if n == t.number { assert b[|a|].number == n; }
    }
    if t.number in NumbersIn(a) {
      var i :| 0 <= i < |a| && a[i].number == t.number;
      assert b[i].number == b[|a|].number;
    }
  }

  /** `validateState`. */
  method ValidateState(m: Manifest) returns (ok: bool)
    requires |m.levels| == NUM_LEVELS
    ensures ok == ValidManifest(m)
  {
    if m.flushed > MAX_SEQUENCE || m.oldestWal == 0 || m.oldestWal >= TWO_64 { return false; }
    var l := 0;
    while l < NUM_LEVELS
      invariant l <= NUM_LEVELS && forall k :: 0 <= k < l ==> |m.levels[k]| < TWO_32
    {
      if |m.levels[l]| >= TWO_32 { return false; }
      l := l + 1;
    }
    ThreeLevels(m.levels);
    hide ValidTables;
    hide InOrder;
    hide Distinct;
    hide AllTables;
    ghost var t0, t1, t2 := m.levels[0], m.levels[1], m.levels[2];
    NoTables();
    assert [] + t0 == t0;
    var ok0, n0 := ValidateLevel(m.levels[0], false, [], {});
    if Distinct(t0 + (t1 + t2)) { DistinctPrefix(t0, t1 + t2); }
    assert t0 + (t1 + t2) == t0 + t1 + t2;
    if !ok0 { return false; }
    var ok1, n1 := ValidateLevel(m.levels[1], true, t0, n0);
    if Distinct(t0 + t1 + t2) { DistinctPrefix(t0 + t1, t2); }
    if !ok1 { return false; }
    var ok2, n2 := ValidateLevel(m.levels[2], true, t0 + t1, n1);
    return ok2;
  }

  lemma NoTables()
    ensures Distinct([]) && NumbersIn([]) == {}
  {}

  lemma DistinctPrefix(a: seq<TableMeta>, b: seq<TableMeta>)
    requires Distinct(a + b)
    ensures Distinct(a)
  {
    forall i, j | 0 <= i < j < |a| ensures a[i].number != a[j].number {
      assert (a + b)[i] == a[i] && (a + b)[j] == a[j];
    }
  }

  lemma ThreeLevels(levels: seq<seq<TableMeta>>)
    requires |levels| == NUM_LEVELS
    ensures AllTables(levels) == levels[0] + levels[1] + levels[2]
  {
    assert levels[..2][..1] == levels[..1] && levels[..1][..0] == [];
    assert AllTables(levels[..1]) == levels[0];
  }

  // ---------- encoding ----------

  function KeyBytes(k: InternalKey): (b: Bytes)
    requires KeyFits(k)
    ensures |b| < TWO_32 && |b| >= TAG_SIZE
  {
    EncodeKey(k)
  }

  function TableBytes(t: TableMeta): (b: Bytes)
    requires ValidTable(t)
    ensures |b| >= MIN_TABLE
  {
    Fixed64(t.number) + Fixed64(t.size)
    + Fixed32(|KeyBytes(t.smallest)|) + KeyBytes(t.smallest) + Fixed32(|KeyBytes(t.largest)|) + KeyBytes(t.largest)
  }

  function TablesBytes(ts: seq<TableMeta>): (b: Bytes)
    requires ValidTables(ts)
    ensures |b| >= MIN_TABLE * |ts|
  {
    if ts == [] then [] else TableBytes(ts[0]) + TablesBytes(ts[1..])
  }

  function LevelBytes(ts: seq<TableMeta>): Bytes
    requires ValidTables(ts) && |ts| < TWO_32
  {
    Fixed32(|ts|) + TablesBytes(ts)
  }

  /** Everything before the checksum. */
  function ContentBytes(m: Manifest): Bytes
    requires ValidManifest(m)
  {
    SequenceFits();
    MAGIC + Fixed32(VERSION) + Fixed64(m.flushed) + Fixed64(m.oldestWal)
    + LevelBytes(m.levels[0]) + LevelBytes(m.levels[1]) + LevelBytes(m.levels[2])
  }

  lemma SequenceFits()
    ensures MAX_SEQUENCE < TWO_64
  {}

  /** The encoding the decoder's size limit admits. */
  function EncodeManifest(m: Manifest): Option<Bytes> {
    if !ValidManifest(m) || |ContentBytes(m)| + 4 > MAX_MANIFEST then None
    else Some(ContentBytes(m) + Fixed32(Crc(ContentBytes(m))))
  }

  /** `encodeManifest`: validate first, then encode within the size limit. */
  method EncodeState(m: Manifest) returns (r: Option<Bytes>)
    requires |m.levels| == NUM_LEVELS
    ensures r == EncodeManifest(m)
  {
    hide ContentBytes;
    hide ValidManifest;
    hide Crc;
    var valid := ValidateState(m);
    if !valid { return None; }
    var content := ContentBytes(m);
    if |content| + 4 > MAX_MANIFEST { return None; }
    var checksum := Checksum(content);
    return Some(content + Fixed32(checksum));
  }

  /** The manifest a new database starts with can be written. */
  lemma FirstManifest()
    ensures EncodeManifest(Manifest(0, 1, [[], [], []])).Some?
  {
    var m := Manifest(0, 1, [[], [], []]);
    ThreeLevels(m.levels);
    assert AllTables(m.levels) == [];
    assert ValidManifest(m);
    EmptyLevels(m);
  }

  lemma EmptyLevels(m: Manifest)
    requires ValidManifest(m) && m.levels == [[], [], []]
    ensures |ContentBytes(m)| == 40
  {
    hide Fixed32;
    hide Fixed64;
  }

  // ---------- decoding ----------

  function TakeKey(b: Bytes): (r: Option<(InternalKey, Bytes)>)
    ensures r.Some? ==> |r.value.1| < |b|
  {
    if |b| < 4 || |b| - 4 < Unfixed(b[..4]) then None
    else
      var n := Unfixed(b[..4]);
      var k := ParseKey(b[4..4 + n]);
      if k.None? then None else Some((k.value, b[4 + n..]))
  }

  function TakeTable(b: Bytes): (r: Option<(TableMeta, Bytes)>)
    ensures r.Some? ==> |r.value.1| < |b|
  {
    if |b| < 16 then None
    else
      match TakeKey(b[16..])
      case None => None
      case Some((smallest, rest)) =>
        match TakeKey(rest)
        case None => None
        case Some((largest, rest')) => Some((TableMeta(Unfixed(b[..8]), Unfixed(b[8..16]), smallest, largest), rest'))
  }

  function TakeTables(b: Bytes, count: nat): (r: Option<(seq<TableMeta>, Bytes)>)
    ensures r.Some? ==> |r.value.1| <= |b|
    decreases count
  {
    if count == 0 then Some(([], b))
    else
      match TakeTable(b)
      case None => None
      case Some((t, rest)) =>
        match TakeTables(rest, count - 1)
        case None => None
        case Some((ts, rest')) => Some(([t] + ts, rest'))
  }

  function TakeLevel(b: Bytes): (r: Option<(seq<TableMeta>, Bytes)>) {
    if |b| < 4 || Unfixed(b[..4]) > (|b| - 4) / MIN_TABLE then None else TakeTables(b[4..], Unfixed(b[..4]))
  }

  /** The table lists of a version: L0 only, then L1, then L2 as versions grew. */
  function TakeLevels(b: Bytes, version: nat): Option<(seq<seq<TableMeta>>, Bytes)> {
    match TakeLevel(b)
    case None => None
    case Some((l0, r0)) =>
      if version < LEVEL1_VERSION then Some(([l0, [], []], r0))
      else
        match TakeLevel(r0)
        case None => None
        case Some((l1, r1)) =>
          if version < VERSION then Some(([l0, l1, []], r1))
          else
            match TakeLevel(r1)
            case None => None
            case Some((l2, r2)) => Some(([l0, l1, l2], r2))
  }

  function DecodeManifest(input: Bytes): Option<Manifest> {
    if |input| < 36 || |input| > MAX_MANIFEST || !Sealed(input) then None
    else
      var contents := input[..|input| - 4];
      if contents[..8] != MAGIC then None
      else
        var version := Unfixed(contents[8..12]);
        if version < 1 || version > VERSION then None
        else
          match TakeLevels(contents[28..], version)
          case None => None
          case Some((levels, rest)) =>
            var m := Manifest(Unfixed(contents[12..20]), Unfixed(contents[20..28]), levels);
            if rest != [] || !ValidManifest(m) then None else Some(m)
  }

  // ---------- round trip ----------

  lemma TakeKeyOf(k: InternalKey, rest: Bytes)
    requires KeyFits(k)
    ensures TakeKey(Fixed32(|KeyBytes(k)|) + KeyBytes(k) + rest) == Some((k, rest))
  {
    var kb := KeyBytes(k);
    var n := Fixed32(|kb|);
    ParseOfEncode(k);
    hide ParseKey;
    hide EncodeKey;
    hide Fixed32;
    hide Unfixed;
    var b := n + kb + rest;
    assert b[..4] == n && b[4..4 + |kb|] == kb && b[4 + |kb|..] == rest;
  }

  lemma CutAt(a: Bytes, b: Bytes)
    ensures (a + b)[..|a|] == a && (a + b)[|a|..] == b
  {}

  lemma TakeTableParts(n: Bytes, z: Bytes, mid: Bytes, k1: InternalKey, mid': Bytes, k2: InternalKey, rest: Bytes)
    requires |n| == 8 && |z| == 8 && TakeKey(mid) == Some((k1, mid')) && TakeKey(mid') == Some((k2, rest))
    ensures TakeTable(n + z + mid) == Some((TableMeta(Unfixed(n), Unfixed(z), k1, k2), rest))
  {
    hide TakeKey;
    hide Unfixed;
    var b := n + z + mid;
    CutAt(n + z, mid);
    assert b[..8] == n && b[8..16] == z;
  }

  lemma TakeTableOf(t: TableMeta, rest: Bytes)
    requires ValidTable(t)
    ensures TakeTable(TableBytes(t) + rest) == Some((t, rest))
  {
    hide TakeTable;
    hide TakeKey;
    hide Unfixed;
    hide KeyBytes;
    hide Before;
    var n, z := Fixed64(t.number), Fixed64(t.size);
    var k1 := Fixed32(|KeyBytes(t.smallest)|) + KeyBytes(t.smallest);
    var k2 := Fixed32(|KeyBytes(t.largest)|) + KeyBytes(t.largest);
    TakeKeyOf(t.smallest, k2 + rest);
    TakeKeyOf(t.largest, rest);
    TakeTableParts(n, z, k1 + (k2 + rest), t.smallest, k2 + rest, t.largest, rest);
    hide Fixed32;
    hide Fixed64;
    assert TableBytes(t) + rest == n + z + (k1 + (k2 + rest));
  }

  lemma {:induction false} TakeTablesOf(ts: seq<TableMeta>, rest: Bytes)
    requires ValidTables(ts)
    ensures TakeTables(TablesBytes(ts) + rest, |ts|) == Some((ts, rest))
  {
    hide TakeTable;
    hide TableBytes;
    hide ValidTable;
    if ts == [] {
      assert TablesBytes(ts) + rest == rest;
    } else {
      TakeTableOf(ts[0], TablesBytes(ts[1..]) + rest);
      TakeTablesOf(ts[1..], rest);
      assert TablesBytes(ts) + rest == TableBytes(ts[0]) + (TablesBytes(ts[1..]) + rest);
      assert ts == [ts[0]] + ts[1..];
    }
  }

  lemma TakeLevelParts(n: Bytes, body: Bytes)
    requires |n| == 4 && Unfixed(n) * MIN_TABLE <= |body|
    ensures TakeLevel(n + body) == TakeTables(body, Unfixed(n))
  {
    hide TakeTables;
    hide Unfixed;
    CutAt(n, body);
  }

  lemma TakeLevelOf(ts: seq<TableMeta>, rest: Bytes)
    requires ValidTables(ts) && |ts| < TWO_32
    ensures TakeLevel(LevelBytes(ts) + rest) == Some((ts, rest))
  {
    hide TakeLevel;
    hide Unfixed;
    hide TakeTables;
    hide TablesBytes;
    hide ValidTables;
    var n := Fixed32(|ts|);
    TakeTablesOf(ts, rest);
    TakeLevelParts(n, TablesBytes(ts) + rest);
    hide Fixed32;
    assert LevelBytes(ts) + rest == n + (TablesBytes(ts) + rest);
  }

  lemma TakeLevelsOf(levels: seq<seq<TableMeta>>)
    requires |levels| == NUM_LEVELS && forall l :: 0 <= l < NUM_LEVELS ==> |levels[l]| < TWO_32 && ValidTables(levels[l])
    ensures TakeLevels(LevelBytes(levels[0]) + LevelBytes(levels[1]) + LevelBytes(levels[2]), VERSION) == Some((levels, []))
  {
    hide TakeLevel;
    hide LevelBytes;
    hide ValidTables;
    var b0, b1, b2 := LevelBytes(levels[0]), LevelBytes(levels[1]), LevelBytes(levels[2]);
    TakeLevelOf(levels[0], b1 + b2);
    TakeLevelOf(levels[1], b2);
    TakeLevelOf(levels[2], []);
    assert b0 + (b1 + b2) == b0 + b1 + b2 && b2 + [] == b2;
    assert levels == [levels[0], levels[1], levels[2]];
  }

  /** Decoding an encoded manifest gives it back. */
  lemma ManifestRoundTrip(m: Manifest)
    requires EncodeManifest(m).Some?
    ensures DecodeManifest(EncodeManifest(m).value) == Some(m)
  {
    hide Crc;
    hide ContentBytes;
    hide Unfixed;
    hide TakeLevels;
    hide ValidManifest;
    hide Sealed;
    var contents, e := ContentBytes(m), EncodeManifest(m).value;
    ContentParts(m);
    EncodedIsSealed(m);
    hide Fixed32;
    assert e[..|e| - 4] == contents;
  }

  lemma EncodedIsSealed(m: Manifest)
    requires EncodeManifest(m).Some?
    ensures Sealed(EncodeManifest(m).value)
  {
    hide Crc;
    hide ContentBytes;
    hide Unfixed;
    hide ValidManifest;
    var contents, e := ContentBytes(m), EncodeManifest(m).value;
    var sum := Fixed32(Crc(contents));
    hide Fixed32;
    assert e[..|e| - 4] == contents && e[|e| - 4..] == sum;
  }

  /** The header fields and the table lists, cut apart. */
  lemma HeaderParts(v: Bytes, f: Bytes, w: Bytes, ls: Bytes)
    requires |v| == 4 && |f| == 8 && |w| == 8
    ensures var c := MAGIC + v + f + w + ls;
      c[..8] == MAGIC && c[8..12] == v && c[12..20] == f && c[20..28] == w && c[28..] == ls
  {}

  lemma ContentParts(m: Manifest)
    requires ValidManifest(m)
    ensures var c := ContentBytes(m);
      && 32 <= |c| && c[..8] == MAGIC && Unfixed(c[8..12]) == VERSION
      && Unfixed(c[12..20]) == m.flushed && Unfixed(c[20..28]) == m.oldestWal
      && TakeLevels(c[28..], VERSION) == Some((m.levels, []))
  {
    hide Unfixed;
    hide LevelBytes;
    hide TakeLevels;
    hide ValidTables;
    hide Distinct;
    hide InOrder;
    TakeLevelsOf(m.levels);
    SequenceFits();
    var v, f, w := Fixed32(VERSION), Fixed64(m.flushed), Fixed64(m.oldestWal);
    var b0, b1, b2 := LevelBytes(m.levels[0]), LevelBytes(m.levels[1]), LevelBytes(m.levels[2]);
    LevelSize(m.levels[0]);
    HeaderParts(v, f, w, b0 + b1 + b2);
    hide Fixed32;
    hide Fixed64;
    assert ContentBytes(m) == MAGIC + v + f + w + (b0 + b1 + b2);
  }

  lemma LevelSize(ts: seq<TableMeta>)
    requires ValidTables(ts) && |ts| < TWO_32
    ensures 4 <= |LevelBytes(ts)|
  {}

  /** A change of up to four consecutive bytes anywhere in an encoded manifest, checksum
      included, is rejected on reading. */
  lemma ChangedManifestIsRejected(m: Manifest, pre: Bytes, w: Bytes, w': Bytes, post: Bytes)
    requires EncodeManifest(m) == Some(pre + w + post) && |w| == |w'| <= 4 && w != w'
    ensures DecodeManifest(pre + w' + post) == None
  {
    hide EncodeManifest;
    hide Sealed;
    EncodedIsSealed(m);
    BurstBreaksSeal(pre, w, w', post);
  }
}
