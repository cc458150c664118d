/** `SSTableReader`: opening a built file and looking up a key at a sequence number. */
module TableReaders {
  import opened Bytes
  import opened Entries
  import opened InternalKeys
  import opened BlockFormat
  import opened Blocks
  import opened Bloom
  import opened TableFormat
  import opened TableLayout
  import Crc32c

  datatype LookupResult = Absent | Deleted | Found(value: Bytes) | Corrupt

  /** What a lookup reports for the entry a linear search finds. */
  function Answer(r: Option<Entry>): LookupResult {
    match r
    case None => Absent
    case Some(e) => if e.kind.Deletion? then Deleted else Found(e.value)
  }

  /** The file holds the table of `es`. */
  ghost predicate TableFor(file: Bytes, interval: nat, l: Layout, hashes: seq<Hash>, es: seq<Entry>) {
    InRange(es) && Sorted(es) && IsTable(file, interval, l, hashes) && Concat(l.parts) == KVs(es)
  }

  /** The file is the one that was written, or has been altered within four consecutive
      bytes and is read with its checksums. */
  ghost predicate Survives(written: Bytes, file: Bytes, verify: bool) {
    file == written || (verify && Altered(written, file))
  }

  ghost predicate SameFooter(written: Bytes, file: Bytes) {
    |file| == |written| >= FOOTER && file[|file| - FOOTER..] == written[|written| - FOOTER..]
  }

  /** What a reader that opened successfully has checked. */
  ghost predicate Opened(file: Bytes, filter: Bytes, index: Bytes) {
    && FOOTER <= |file|
    && var footer := ParseFooter(file[|file| - FOOTER..]);
       footer.Some? && StoredAt(file, footer.value.0, filter) && StoredAt(file, footer.value.1, index)
  }

  // ---------- why each step answers as the linear search ----------

  lemma AbsentKey(l: Layout, hashes: seq<Hash>, es: seq<Entry>, k: Bytes, s: nat)
    requires InRange(es) && Concat(l.parts) == KVs(es) && Filtered(Concat(l.parts), hashes) && Covers(l.filter, hashes)
    requires !MayContain(k, l.filter)
    ensures Lookup(es, k, s) == None
  {
    hide BloomHash;
    hide Hits;
    hide MayContain;
    hide Covers;
    hide EncodeKey;
    hide Concat;
    var i := SeekIndex(es, k, s);
    if i < |es| && es[i].key == k {
      EncodedParts(KeyOf(es[i]));
      assert KVs(es)[i] == ToKV(es[i]);
      assert BloomHash(UserPart(KVs(es)[i].key)) in hashes;
      NoFalseNegative(l.filter, hashes, k);
      assert false;
    }
  }

  lemma PastTheEnd(l: Layout, es: seq<Entry>, k: Bytes, s: nat)
    requires InRange(es) && Sorted(es) && Concat(l.parts) == KVs(es) && s <= MAX_SEQUENCE
    requires Parts(l.parts, l.handles) && SortedKeys(Concat(l.parts))
    requires FirstAtLeast(Index(l.parts, l.handles), LookupKey(k, s), |l.parts|)
    ensures Lookup(es, k, s) == None
  {
    hide SortedKeys;
    hide Concat;
    hide EncodeKey;
    hide FirstAtLeast;
    IndexMisses(l.parts, l.handles, LookupKey(k, s));
    SeekAgrees(es, k, s, |es|);
  }

  /** The data block's first entry not below the lookup key is the linear search's. */
  lemma FoundInBlock(l: Layout, es: seq<Entry>, k: Bytes, s: nat, j: nat, i: nat)
    requires InRange(es) && Sorted(es) && Concat(l.parts) == KVs(es) && s <= MAX_SEQUENCE
    requires Parts(l.parts, l.handles) && SortedKeys(Concat(l.parts)) && j < |l.parts|
    requires FirstAtLeast(Index(l.parts, l.handles), LookupKey(k, s), j) && FirstAtLeast(l.parts[j], LookupKey(k, s), i)
    ensures i < |l.parts[j]| && SeekIndex(es, k, s) < |es| && l.parts[j][i] == ToKV(es[SeekIndex(es, k, s)])
  {
    hide SortedKeys;
    hide Concat;
    hide EncodeKey;
    hide FirstAtLeast;
    IndexCovers(l.parts, l.handles, LookupKey(k, s), j, i);
    SeekAgrees(es, k, s, |Concat(l.parts[..j])| + i);
  }

  lemma AnswerOf(es: seq<Entry>, k: Bytes, s: nat, kv: KV)
    requires InRange(es) && SeekIndex(es, k, s) < |es| && kv == ToKV(es[SeekIndex(es, k, s)])
    ensures ParseKey(kv.key).Some?
    ensures var p := ParseKey(kv.key).value;
      Answer(Lookup(es, k, s)) == if p.key != k then Absent else if p.kind.Deletion? then Deleted else Found(kv.value)
  {
    hide EncodeKey;
    ParseOfEncode(KeyOf(es[SeekIndex(es, k, s)]));
    hide ParseKey;
  }

  lemma IndexBound(l: Layout, k: Bytes, s: nat, j: nat)
    requires Parts(l.parts, l.handles) && s <= MAX_SEQUENCE && FirstAtLeast(Index(l.parts, l.handles), LookupKey(k, s), j)
    ensures j <= |l.parts|
  {
    hide SortedKeys;
  }

  // ---------- reader ----------

  datatype IndexResult = NoBlock | BadIndex | Covering(handle: Handle)

  class SSTableReader {
    const file: Bytes
    var filterBlock: Bytes
    var indexBlock: Bytes
    var ready: bool

    /** The filter and index of this layout are loaded. */
    ghost predicate Loaded(interval: nat, l: Layout)
      reads this
    {
      && ready && filterBlock == l.filter && Parts(l.parts, l.handles) && Buildable(Index(l.parts, l.handles), interval)
      && indexBlock == Block(Index(l.parts, l.handles), interval)
    }

    /** Read the footer, then filter and index with their checksums. A file altered
        before its footer is refused, or opened as if it were whole. */
    constructor (bytes: Bytes, ghost written: Bytes, ghost interval: nat, ghost l: Layout, ghost hashes: seq<Hash>)
      ensures file == bytes && (ready ==> Opened(bytes, filterBlock, indexBlock))
      ensures IsTable(written, interval, l, hashes) && bytes == written ==> Loaded(interval, l)
      ensures IsTable(written, interval, l, hashes) && Altered(written, bytes) && SameFooter(written, bytes) && ready ==>
        Loaded(interval, l)
    {
      hide Block;
      hide Buildable;
      hide ParseFooter;
      hide FooterBytes;
      hide ReadBlock;
      hide StoredAt;
      hide Altered;
      hide IsTable;
      hide Crc32c.Crc;
      var filter, index: Bytes := [], [];
      var ok := false;
      ghost var built := IsTable(written, interval, l, hashes)
        && (bytes == written || (Altered(written, bytes) && SameFooter(written, bytes)));
      ghost var ix := if built then IndexOf(written, interval, l, hashes) else [];
      if built { OpensAltered(written, bytes, interval, l, hashes); }
      if FOOTER <= |bytes| {
        var footer := ParseFooter(bytes[|bytes| - FOOTER..]);
        if footer.Some? {
          var f, i := ReadBlock(bytes, footer.value.0, true), ReadBlock(bytes, footer.value.1, true);
          if f.Some? && i.Some? {
            ReadsExactlyStored(bytes, footer.value.0, f.value);
            ReadsExactlyStored(bytes, footer.value.1, i.value);
            var it := new BlockIterator(i.value, ix, interval);
            filter, index, ok := f.value, i.value, !it.failed;
          }
        }
      }
      file, filterBlock, indexBlock, ready := bytes, filter, index, ok;
    }

    /** The first index entry not below the lookup key, and the handle it holds. */
    method FindBlock(k: Bytes, s: nat, ghost interval: nat, ghost l: Layout) returns (r: IndexResult, ghost j: nat)
      requires s <= MAX_SEQUENCE
      ensures Loaded(interval, l) && SortedKeys(Index(l.parts, l.handles)) && Internal(Index(l.parts, l.handles)) ==>
        && FirstAtLeast(Index(l.parts, l.handles), LookupKey(k, s), j)
        && r == if j < |l.parts| then Covering(l.handles[j]) else NoBlock
    {
      hide Block;
      hide Body;
      hide SortedKeys;
      hide EncodeKey;
      hide ParseKey;
      hide ParseHandle;
      hide HandleBytes;
      ghost var built := Loaded(interval, l) && SortedKeys(Index(l.parts, l.handles)) && Internal(Index(l.parts, l.handles));
      ghost var ix := if built then Index(l.parts, l.handles) else [];
      var index := new BlockIterator(indexBlock, ix, interval);
      j := 0;
      if index.failed { return BadIndex, j; }
      j := index.Seek(LookupKey(k, s), ix, interval);
      if index.failed { return BadIndex, j; }
      if !index.valid { return NoBlock, j; }
      if built { HandleRoundTrip(l.handles[j]); }
      var handle := ParseHandle(index.value);
      return if handle.None? then BadIndex else Covering(handle.value), j;
    }

    /** The linear search's answer; over an altered file, that or a report of corruption. */
    method Get(k: Bytes, s: nat, verify: bool,
               ghost written: Bytes, ghost interval: nat, ghost l: Layout, ghost hashes: seq<Hash>, ghost es: seq<Entry>)
      returns (r: LookupResult)
      requires s <= MAX_SEQUENCE
      ensures TableFor(written, interval, l, hashes, es) && Loaded(interval, l) && Survives(written, file, verify) ==>
        r == Answer(Lookup(es, k, s)) || (r == Corrupt && file != written)
    {
      hide Altered;
      hide Block;
      hide Body;
      hide Buildable;
      hide MayContain;
      hide ReadBlock;
      hide FirstAtLeast;
      hide SortedKeys;
      hide EncodeKey;
      hide Concat;
      hide ParseKey;
      hide Lookup;
      hide Internal;
      hide Filtered;
      hide Covers;
      hide HandleBytes;
      ghost var built := TableFor(written, interval, l, hashes, es) && Loaded(interval, l) && Survives(written, file, verify);
      var may := BloomMayContain(k, filterBlock);
      if !may {
        if built { AbsentKey(l, hashes, es, k, s); }
        return Absent;
      }
      if built { IndexSorted(l.parts, l.handles); }
      ghost var j;
      var found;
      found, j := FindBlock(k, s, interval, l);
      if found.BadIndex? { return Corrupt; }
      if found.NoBlock? {
        if built { IndexBound(l, k, s, j); PastTheEnd(l, es, k, s); }
        return Absent;
      }
      var block := ReadBlock(file, found.handle, verify);
      if built { ReadsOrNotices(written, file, l.handles[j], Block(l.parts[j], interval), verify); }
      if block.None? { return Corrupt; }
      ghost var part := if built then l.parts[j] else [];
      if built { PartReady(l, j); }
      r := GetInBlock(block.value, k, s, interval, part);
      if built { BlockAnswers(l, es, k, s, j, r); }
    }

    /** The lookup inside one data block. */
    method GetInBlock(block: Bytes, k: Bytes, s: nat, ghost interval: nat, ghost part: seq<KV>) returns (r: LookupResult)
      requires s <= MAX_SEQUENCE
      ensures Buildable(part, interval) && Internal(part) && SortedKeys(part) && block == Block(part, interval)
        ==> exists i :: FirstAtLeast(part, LookupKey(k, s), i) && r == BlockAnswer(part, k, i)
    {
      hide Block;
      hide Body;
      hide FirstAtLeast;
      hide SortedKeys;
      hide EncodeKey;
      hide ParseKey;
      var target := LookupKey(k, s);
      var data := new BlockIterator(block, part, interval);
      if data.failed { return Corrupt; }
      ghost var i := data.Seek(target, part, interval);
      if data.failed || !data.valid {
        r := Corrupt;
      } else {
        var parsed := ParseKey(data.key);
        if parsed.None? {
          r := Corrupt;
        } else if parsed.value.key != k {
          r := Absent;
        } else if parsed.value.kind.Deletion? {
          r := Deleted;
        } else {
          r := Found(data.value);
        }
      }
      assert Buildable(part, interval) && Internal(part) && SortedKeys(part) && block == Block(part, interval)
        ==> FirstAtLeast(part, LookupKey(k, s), i) && r == BlockAnswer(part, k, i);
    }
  }

  /** What the block search reports when it stops at position `i`. */
  ghost function BlockAnswer(part: seq<KV>, k: Bytes, i: nat): LookupResult {
    if i >= |part| || ParseKey(part[i].key).None? then Corrupt
    else
      var p := ParseKey(part[i].key).value;
      if p.key != k then Absent else if p.kind.Deletion? then Deleted else Found(part[i].value)
  }

  lemma BlockAnswers(l: Layout, es: seq<Entry>, k: Bytes, s: nat, j: nat, r: LookupResult)
    requires InRange(es) && Sorted(es) && Concat(l.parts) == KVs(es) && s <= MAX_SEQUENCE
    requires Parts(l.parts, l.handles) && SortedKeys(Concat(l.parts)) && j < |l.parts|
    requires FirstAtLeast(Index(l.parts, l.handles), LookupKey(k, s), j)
    requires exists i :: FirstAtLeast(l.parts[j], LookupKey(k, s), i) && r == BlockAnswer(l.parts[j], k, i)
    ensures r == Answer(Lookup(es, k, s))
  {
    hide SortedKeys;
    hide FirstAtLeast;
    hide Concat;
    hide EncodeKey;
    hide ParseKey;
    hide Lookup;
    var i: nat :| FirstAtLeast(l.parts[j], LookupKey(k, s), i) && r == BlockAnswer(l.parts[j], k, i);
    FoundInBlock(l, es, k, s, j, i);
    AnswerOf(es, k, s, l.parts[j][i]);
  }

  lemma IndexReady(file: Bytes, interval: nat, l: Layout, hashes: seq<Hash>)
    requires IsTable(file, interval, l, hashes)
    ensures Parts(l.parts, l.handles) && Buildable(Index(l.parts, l.handles), interval)
    ensures Internal(Index(l.parts, l.handles)) && SortedKeys(Index(l.parts, l.handles))
  {
    hide Concat;
    IndexSorted(l.parts, l.handles);
  }

  lemma PartReady(l: Layout, j: nat)
    requires SortedKeys(Concat(l.parts)) && Internal(Concat(l.parts)) && j < |l.parts|
    ensures SortedKeys(l.parts[j]) && Internal(l.parts[j])
  {
    PartsSorted(l.parts, j);
    hide SortedKeys;
    hide Concat;
    hide ParseKey;
    forall a | 0 <= a < |l.parts[j]| ensures ParseKey(l.parts[j][a].key).Some? { PartAt(l.parts, j, a); }
  }

  ghost function IndexOf(file: Bytes, interval: nat, l: Layout, hashes: seq<Hash>): seq<KV>
    requires IsTable(file, interval, l, hashes)
  {
    Index(l.parts, l.handles)
  }

  lemma ReadsOrNotices(written: Bytes, file: Bytes, h: Handle, payload: Bytes, verify: bool)
    requires StoredAt(written, h, payload) && Survives(written, file, verify)
    ensures ReadBlock(file, h, verify) == Some(payload) || (ReadBlock(file, h, verify) == None && file != written)
  {
    hide ReadBlock;
    hide StoredAt;
    if file == written { ReadStored(file, h, payload, verify); } else { DamageIsNoticed(written, file, h, payload); }
  }

  lemma OpensAltered(written: Bytes, file: Bytes, interval: nat, l: Layout, hashes: seq<Hash>)
    requires IsTable(written, interval, l, hashes) && (file == written || (Altered(written, file) && SameFooter(written, file)))
    ensures Parts(l.parts, l.handles) && Buildable(Index(l.parts, l.handles), interval)
    ensures Internal(Index(l.parts, l.handles)) && SortedKeys(Index(l.parts, l.handles))
    ensures FOOTER <= |file| && ParseFooter(file[|file| - FOOTER..]) == Some((l.filterHandle, l.indexHandle))
    ensures var f, i := ReadBlock(file, l.filterHandle, true), ReadBlock(file, l.indexHandle, true);
      && (f == Some(l.filter) || (f == None && file != written))
      && (i == Some(Block(Index(l.parts, l.handles), interval)) || (i == None && file != written))
  {
    hide Block;
    hide Buildable;
    hide SortedKeys;
    hide StoredAt;
    hide Concat;
    hide ParseFooter;
    hide FooterBytes;
    hide ReadBlock;
    hide Altered;
    FooterRoundTrip(l.filterHandle, l.indexHandle);
    ReadsOrNotices(written, file, l.filterHandle, l.filter, true);
    ReadsOrNotices(written, file, l.indexHandle, Block(Index(l.parts, l.handles), interval), true);
    IndexSorted(l.parts, l.handles);
  }
}
