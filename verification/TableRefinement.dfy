/** From entries to bytes and back: the file built from any sorted entries answers every
    lookup, seek and scan like the entries themselves, for any block size and restart
    interval. */
module TableRefinements {
  import opened Bytes
  import opened Entries
  import opened InternalKeys
  import opened BlockFormat
  import opened Blocks
  import opened Bloom
  import opened TableFormat
  import opened TableLayout
  import opened TableSizes
  import opened TableCuts
  import opened Tables
  import opened TableReaders
  import opened TableIterators

  /** What the 32-bit block offsets leave room for: index keys below 4 GiB, and either all
      data below 4 GiB, or each entry together with a full block. */
  predicate Fitting(kvs: seq<KV>, blockSize: nat) {
    && KeyWeight(kvs) < TWO_32 && Weight(kvs) < TWO_64 / 4
    && (|| Weight(kvs) < TWO_32
        || forall i :: 0 <= i < |kvs| ==> blockSize + HEADER + |kvs[i].key| + |kvs[i].value| < TWO_32)
  }

  lemma FittingPrefix(kvs: seq<KV>, blockSize: nat, i: nat)
    requires Fitting(kvs, blockSize) && i < |kvs|
    ensures HasRoom(kvs[..i], kvs[i], blockSize)
  {
    hide KeyWeight;
    hide Weight;
    assert kvs[..i + 1] == kvs[..i] + [kvs[i]];
    WeightOfPrefix(kvs, i + 1);
    WeightOfMore(kvs[..i], kvs[i]);
  }

  /** `buildLevel0Table`, and one output of a compaction: add every entry, then finish. */
  method BuildTable(es: seq<Entry>, blockSize: nat, interval: nat)
    returns (file: Bytes, ghost l: Layout, ghost hashes: seq<Hash>)
    requires Sorted(es) && InRange(es) && 0 < interval && Fitting(KVs(es), blockSize)
    ensures TableFor(file, interval, l, hashes, es) && FOOTER <= |file| < TWO_64
    ensures CutBySize(l.parts, interval, blockSize)
  {
    hide CutBySize;
    hide SSTableBuilder.Cut;
    hide TableState;
    hide KeyLess;
    hide EncodeKey;
    hide ParseKey;
    hide IsTable;
    hide HasRoom;
    hide Concat;
    hide Sorted;
    hide SortedKeys;
    hide Internal;
    hide Weight;
    hide KeyWeight;
    hide SSTableBuilder.Valid;
    hide SSTableBuilder.Sized;
    hide SSTableBuilder.All;
    ghost var kvs := KVs(es);
    KVsSorted(es);
    assert Weight(kvs) < TWO_64 / 4;
    hide Fitting;
    var builder := new SSTableBuilder(blockSize, interval);
    assert kvs[..0] == [];
    for i := 0 to |es|
      invariant builder.Valid() && builder.Sized() && builder.Cut() && fresh(builder) && fresh(builder.data) && fresh(builder.index)
      invariant builder.All() == kvs[..i]
    {
      FittingPrefix(kvs, blockSize, i);
      NextKeyIsLater(builder, kvs, i);
      KeyParses(kvs, i);
      var kv := ToKV(es[i]);
      assert kv == kvs[i] && kvs[..i + 1] == kvs[..i] + [kv];
      var ok := builder.Add(kv.key, kv.value);
    }
    assert kvs[..|es|] == kvs;
    l := builder.Finish();
    file, hashes := builder.file, builder.hashes;
  }

  lemma KeyParses(kvs: seq<KV>, i: nat)
    requires Internal(kvs) && i < |kvs|
    ensures ParseKey(kvs[i].key).Some?
  {}

  lemma NextKeyIsLater(builder: SSTableBuilder, kvs: seq<KV>, i: nat)
    requires builder.Valid() && i < |kvs| && builder.All() == kvs[..i] && SortedKeys(kvs)
    ensures builder.All() != [] ==> TAG_SIZE <= |builder.lastKey| && KeyLess(builder.lastKey, kvs[i].key)
  {
    hide KeyLess;
    hide DataWritten;
    hide Buildable;
    hide IndexRoom;
    hide Filtered;
    hide Internal;
    hide Concat;
    if i > 0 { assert Last(kvs[..i]) == kvs[i - 1]; }
  }

  /** Table refinement: building the table of any sorted entries, opening it, and looking up
      any key at any sequence number is the linear search for the first entry not below
      (`k`, `s`). It is never reported corrupt. */
  method BuildAndGet(es: seq<Entry>, blockSize: nat, interval: nat, k: Bytes, s: nat, verify: bool) returns (r: LookupResult)
    requires Sorted(es) && InRange(es) && 0 < interval && Fitting(KVs(es), blockSize) && s <= MAX_SEQUENCE
    ensures r == Answer(Lookup(es, k, s)) && !r.Corrupt?
  {
    hide IsTable;
    hide Concat;
    hide KVs;
    hide Lookup;
    hide SSTableReader.Loaded;
    var file, l, hashes := BuildTable(es, blockSize, interval);
    var reader := new SSTableReader(file, file, interval, l, hashes);
    r := reader.Get(k, s, verify, file, interval, l, hashes, es);
  }

  /** Walking from where the iterator stands to the end delivers the rest of the table. */
  method CollectRest(it: SSTableIterator, ghost interval: nat, ghost l: Layout, ghost hashes: seq<Hash>)
    returns (out: seq<KV>, ok: bool)
    requires it.Wf() && it.Over(interval, l, hashes) && it.Placed(interval, l) && it.block <= |l.parts|
    requires it.At(l) <= |Concat(l.parts)|
    modifies it, it.index, it.data
    ensures ok && out == Concat(l.parts)[old(it.At(l))..]
  {
    hide Concat;
    hide SSTableIterator.Wf;
    hide SSTableIterator.Over;
    hide SSTableIterator.Placed;
    hide SSTableIterator.At;
    out := [];
    ghost var all, from := Concat(l.parts), it.At(l);
    ghost var at := from;
    while it.HasCurrent()
      invariant it.Wf() && (it.data != null ==> it.data == old(it.data) || fresh(it.data))
      invariant it.Over(interval, l, hashes) && it.Placed(interval, l) && it.block <= |l.parts| && from <= at == it.At(l) <= |all|
      invariant out == all[from..at]
      decreases |all| - at
    {
      CurrentEntry(it, interval, l);
      out := out + [KV(it.data.key, it.data.value)];
      it.Next(interval, l, hashes);
      at := at + 1;
      PlacedWithin(it, interval, l);
    }
    ok := !it.failed;
    OverIsNotFailed(it, interval, l, hashes);
    PlacedAtEnd(it, interval, l);
  }

  lemma OverIsNotFailed(it: SSTableIterator, interval: nat, l: Layout, hashes: seq<Hash>)
    requires it.Over(interval, l, hashes)
    ensures !it.failed
  {
    hide IsTable;
  }

  /** Seeking an opened table and walking to its end delivers the entries from the first one
      not below (`k`, `s`) on, in order. */
  method ScanTableFrom(reader: SSTableReader, k: Bytes, s: nat, verify: bool,
                       ghost interval: nat, ghost l: Layout, ghost hashes: seq<Hash>, ghost es: seq<Entry>)
    returns (out: seq<KV>, ok: bool)
    requires s <= MAX_SEQUENCE
    requires TableFor(reader.file, interval, l, hashes, es) && reader.Loaded(interval, l)
    ensures ok && out == KVs(es)[SeekIndex(es, k, s)..]
  {
    hide IsTable;
    hide Concat;
    hide Sorted;
    hide FirstAtLeast;
    hide SSTableReader.Loaded;
    hide EncodeKey;
    hide ParseKey;
    hide SSTableIterator.Wf;
    hide SSTableIterator.Over;
    hide SSTableIterator.Placed;
    var it := new SSTableIterator(reader, verify, interval, l, hashes);
    LookupKeyParses(k, s);
    it.Seek(LookupKey(k, s), interval, l, hashes);
    PlacedWithin(it, interval, l);
    SeekAgrees(es, k, s, it.At(l));
    hide SSTableIterator.At;
    out, ok := CollectRest(it, interval, l, hashes);
  }

  /** The bytes are a finished table of these entries. */
  ghost predicate Holds(file: Bytes, es: seq<Entry>) {
    exists interval, l, hashes :: TableFor(file, interval, l, hashes, es)
  }

  /** Open a table file and look one key up. */
  method GetFromFile(file: Bytes, k: Bytes, s: nat, verify: bool, ghost es: seq<Entry>) returns (r: LookupResult)
    requires Holds(file, es) && s <= MAX_SEQUENCE
    ensures r == Answer(Lookup(es, k, s))
  {
    hide IsTable;
    hide Concat;
    hide KVs;
    hide Lookup;
    hide SSTableReader.Loaded;
    ghost var interval, l, hashes :| TableFor(file, interval, l, hashes, es);
    var reader := new SSTableReader(file, file, interval, l, hashes);
    r := reader.Get(k, s, verify, file, interval, l, hashes, es);
  }

  /** The answer of an opened file, or a report that it cannot be read. */
  method OpenAndGet(file: Bytes, k: Bytes, s: nat,
                    ghost written: Bytes, ghost interval: nat, ghost l: Layout, ghost hashes: seq<Hash>, ghost es: seq<Entry>)
    returns (r: LookupResult)
    requires s <= MAX_SEQUENCE && TableFor(written, interval, l, hashes, es)
    requires Altered(written, file) && SameFooter(written, file)
    ensures r == Answer(Lookup(es, k, s)) || r == Corrupt
  {
    hide IsTable;
    hide Concat;
    hide KVs;
    hide Lookup;
    hide Altered;
    hide SSTableReader.Loaded;
    var reader := new SSTableReader(file, written, interval, l, hashes);
    if !reader.ready { return Corrupt; }
    r := reader.Get(k, s, true, written, interval, l, hashes, es);
  }

  /** A table file altered within four consecutive bytes before its footer never gives a
      wrong answer: with checksums verified, any lookup gives the right one or reports
      corruption. */
  method GetFromAltered(file: Bytes, k: Bytes, s: nat, ghost written: Bytes, ghost es: seq<Entry>) returns (r: LookupResult)
    requires Holds(written, es) && s <= MAX_SEQUENCE && Altered(written, file) && SameFooter(written, file)
    ensures r == Answer(Lookup(es, k, s)) || r == Corrupt
  {
    hide TableFor;
    hide Lookup;
    hide Altered;
    ghost var interval, l, hashes :| TableFor(written, interval, l, hashes, es);
    r := OpenAndGet(file, k, s, written, interval, l, hashes, es);
  }

  /** Open a table file and read all of it back. */
  method ReadFile(file: Bytes, verify: bool, ghost es: seq<Entry>) returns (out: seq<Entry>, ok: bool)
    requires Holds(file, es)
    ensures ok && out == es
  {
    hide IsTable;
    hide Concat;
    hide Sorted;
    hide SSTableReader.Loaded;
    hide EncodeKey;
    hide Block;
    hide Body;
    hide Points;
    hide SortedKeys;
    hide ParseKey;
    hide HandleBytes;
    hide Index;
    hide SSTableIterator.Placed;
    hide SSTableIterator.At;
    hide BlockIterator.Over;
    hide BlockIterator.At;
    hide BlockIterator.Wf;
    ghost var interval, l, hashes :| TableFor(file, interval, l, hashes, es);
    var reader := new SSTableReader(file, file, interval, l, hashes);
    var it := new SSTableIterator(reader, verify, interval, l, hashes);
    it.SeekToFirst(interval, l, hashes);
    out := [];
    PlacedWithin(it, interval, l);
    while it.HasCurrent()
      invariant it.Wf() && fresh(it) && fresh(it.index) && (it.data != null ==> fresh(it.data))
      invariant it.Over(interval, l, hashes) && it.Placed(interval, l) && it.block <= |l.parts|
      invariant |out| == it.At(l) <= |es| && out == es[..|out|]
      decreases |es| - |out|
    {
      CurrentEntry(it, interval, l);
      ghost var at := |out|;
      EntryOfKV(es[at]);
      var parsed := ParseKey(it.data.key);
      out := out + [Entry(parsed.value.key, parsed.value.sn, parsed.value.kind, it.data.value)];
      it.Next(interval, l, hashes);
      PlacedWithin(it, interval, l);
    }
    ok := !it.failed;
    PlacedAtEnd(it, interval, l);
  }

  lemma EntryOfKV(e: Entry)
    requires e.sn <= MAX_SEQUENCE
    ensures ParseKey(ToKV(e).key) == Some(KeyOf(e)) && ToKV(e).value == e.value
  {
    ParseOfEncode(KeyOf(e));
  }

  lemma LookupKeyParses(k: Bytes, s: nat)
    requires s <= MAX_SEQUENCE
    ensures ParseKey(LookupKey(k, s)).Some?
  {
    ParseOfEncode(InternalKey(k, s, Value));
  }

  lemma PlacedWithin(it: SSTableIterator, interval: nat, l: Layout)
    requires it.Placed(interval, l)
    ensures it.block <= |l.parts| && it.At(l) <= |Concat(l.parts)|
  {
    hide Concat;
    hide Block;
    if it.block < |l.parts| { PartAt(l.parts, it.block, it.entry); } else { assert l.parts[..it.block] == l.parts; }
  }

  lemma CurrentEntry(it: SSTableIterator, interval: nat, l: Layout)
    requires it.Placed(interval, l) && it.data != null
    ensures it.At(l) < |Concat(l.parts)| && KV(it.data.key, it.data.value) == Concat(l.parts)[it.At(l)]
  {
    hide Concat;
    hide Block;
    hide Body;
    hide Points;
    hide SortedKeys;
    hide Internal;
    hide Index;
    PartAt(l.parts, it.block, it.entry);
  }

  lemma PlacedAtEnd(it: SSTableIterator, interval: nat, l: Layout)
    requires it.Placed(interval, l) && !it.failed && !it.HasCurrent()
    ensures it.At(l) == |Concat(l.parts)|
  {
    hide Concat;
    hide Block;
    assert l.parts[..|l.parts|] == l.parts;
  }
}
