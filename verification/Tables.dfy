/** `SSTableBuilder`: what adding entries one by one and finishing leaves in the file. */
module Tables {
  import opened Bytes
  import opened InternalKeys
  import opened BlockFormat
  import opened Blocks
  import opened Bloom
  import opened TableFormat
  import opened TableLayout
  import opened TableSizes
  import opened TableCuts

  // ---------- builder ----------

  /** The sealed payload lies where the handle points; the footer is not written yet. */
  ghost predicate Written(file: Bytes, h: Handle, payload: Bytes) {
    && h.size == |payload| && h.offset + h.size + TRAILER <= |file|
    && file[h.offset..h.offset + h.size + TRAILER] == SealBlock(payload)
  }

  ghost predicate DataWritten(file: Bytes, interval: nat, parts: seq<seq<KV>>, handles: seq<Handle>)
    requires Parts(parts, handles)
  {
    forall j :: 0 <= j < |parts| ==> Buildable(parts[j], interval) && Written(file, handles[j], Block(parts[j], interval))
  }

  lemma StillWritten(file: Bytes, more: Bytes, h: Handle, payload: Bytes)
    requires Written(file, h, payload)
    ensures Written(file + more, h, payload)
  {
    hide SealBlock;
    assert (file + more)[h.offset..h.offset + h.size + TRAILER] == file[h.offset..h.offset + h.size + TRAILER];
  }

  lemma DataStillWritten(file: Bytes, more: Bytes, interval: nat, parts: seq<seq<KV>>, handles: seq<Handle>)
    requires Parts(parts, handles) && DataWritten(file, interval, parts, handles)
    ensures DataWritten(file + more, interval, parts, handles)
  {
    hide Written;
    hide Block;
    hide Buildable;
    forall j | 0 <= j < |parts| ensures Written(file + more, handles[j], Block(parts[j], interval)) {
      StillWritten(file, more, handles[j], Block(parts[j], interval));
    }
  }

  lemma JustWritten(file: Bytes, payload: Bytes)
    ensures Written(file + SealBlock(payload), Handle(|file|, |payload|), payload)
  {
    hide SealBlock;
  }

  lemma WrittenIsStored(file: Bytes, more: Bytes, h: Handle, payload: Bytes)
    requires Written(file, h, payload) && |more| == FOOTER
    ensures StoredAt(file + more, h, payload)
  {
    hide SealBlock;
    StillWritten(file, more, h, payload);
  }

  /** Closing a block that ends with `key` keeps the index within 32-bit offsets. */
  ghost predicate IndexRoom(index: seq<KV>, key: Bytes, interval: nat) {
    |key| < TWO_32 && forall h :: HandleOk(h) ==> Buildable(index + [KV(key, HandleBytes(h))], interval)
  }

  /** The builder between calls: flushed blocks with their handles, and the pending block. */
  ghost predicate TableState(file: Bytes, interval: nat, parts: seq<seq<KV>>, handles: seq<Handle>,
                             pending: seq<KV>, index: seq<KV>, firstKey: Bytes, lastKey: Bytes, hashes: seq<Hash>)
  {
    var all := Concat(parts) + pending;
    && Parts(parts, handles) && DataWritten(file, interval, parts, handles) && index == Index(parts, handles)
    && Buildable(pending, interval) && Buildable(index, interval)
    && (pending != [] ==> IndexRoom(index, lastKey, interval))
    && SortedKeys(all) && Internal(all) && Filtered(all, hashes)
    && (all != [] ==> lastKey == Last(all).key && firstKey == all[0].key)
  }

  lemma StartState(interval: nat)
    requires 0 < interval
    ensures TableState([], interval, [], [], [], [], [], [], [])
  {}

  lemma FlushState(file: Bytes, interval: nat, parts: seq<seq<KV>>, handles: seq<Handle>,
                   pending: seq<KV>, index: seq<KV>, firstKey: Bytes, lastKey: Bytes, hashes: seq<Hash>, h: Handle)
    requires TableState(file, interval, parts, handles, pending, index, firstKey, lastKey, hashes) && pending != []
    requires HandleOk(h) && h == Handle(|file|, |Block(pending, interval)|)
    ensures |lastKey| < TWO_32 && Concat(parts + [pending]) == Concat(parts) + pending
    ensures TableState(file + SealBlock(Block(pending, interval)), interval, parts + [pending], handles + [h],
                       [], index + [KV(lastKey, HandleBytes(h))], firstKey, lastKey, hashes)
  {
    hide Block;
    hide SealBlock;
    hide HandleBytes;
    hide SortedKeys;
    hide Filtered;
    hide DataWritten;
    hide ParseKey;
    hide Body;
    var bytes := SealBlock(Block(pending, interval));
    DataStillWritten(file, bytes, interval, parts, handles);
    JustWritten(file, Block(pending, interval));
    DataWrittenMore(file + bytes, interval, parts, handles, pending, h);
    assert (parts + [pending])[..|parts|] == parts;
    var all := Concat(parts) + pending;
    assert Last(all) == Last(pending);
    assert Concat(parts + [pending]) + [] == all;
    EmptyBuildable(interval);
    assert Index(parts + [pending], handles + [h]) == index + [KV(lastKey, HandleBytes(h))];
  }

  lemma StateBuildable(file: Bytes, interval: nat, parts: seq<seq<KV>>, handles: seq<Handle>,
                       pending: seq<KV>, index: seq<KV>, firstKey: Bytes, lastKey: Bytes, hashes: seq<Hash>)
    requires TableState(file, interval, parts, handles, pending, index, firstKey, lastKey, hashes)
    ensures Buildable(pending, interval) && Buildable(index, interval)
  {}

  lemma EmptyBuildable(interval: nat)
    requires 0 < interval
    ensures Buildable([], interval)
  {}

  lemma DataWrittenMore(file: Bytes, interval: nat, parts: seq<seq<KV>>, handles: seq<Handle>, part: seq<KV>, h: Handle)
    requires Parts(parts, handles) && DataWritten(file, interval, parts, handles) && part != [] && HandleOk(h)
    requires Buildable(part, interval) && Written(file, h, Block(part, interval))
    ensures Parts(parts + [part], handles + [h]) && DataWritten(file, interval, parts + [part], handles + [h])
  {
    hide Written;
    hide Block;
    hide Buildable;
  }

  lemma AddState(file: Bytes, interval: nat, parts: seq<seq<KV>>, handles: seq<Handle>,
                 pending: seq<KV>, index: seq<KV>, firstKey: Bytes, lastKey: Bytes, hashes: seq<Hash>, kv: KV)
    requires TableState(file, interval, parts, handles, pending, index, firstKey, lastKey, hashes)
    requires ParseKey(kv.key).Some? && Buildable(pending + [kv], interval) && IndexRoom(index, kv.key, interval)
    requires Concat(parts) + pending != [] ==> TAG_SIZE <= |lastKey| && KeyLess(lastKey, kv.key)
    ensures TableState(file, interval, parts, handles, pending + [kv], index,
                       if Concat(parts) + pending == [] then kv.key else firstKey, kv.key, hashes + [BloomHash(UserPart(kv.key))])
  {
    hide DataWritten;
    hide Body;
    hide BloomHash;
    hide KeyLess;
    hide SortedKeys;
    hide IndexRoom;
    hide Internal;
    hide Filtered;
    hide ParseKey;
    hide Parts;
    var all := Concat(parts) + pending;
    assert Concat(parts) + (pending + [kv]) == all + [kv];
    KeyOfEntry(kv);
    SortedMore(all, kv);
    InternalMore(all, kv);
    FilteredMore(all, kv, hashes);
  }

  lemma KeyOfEntry(kv: KV)
    requires ParseKey(kv.key).Some?
    ensures TAG_SIZE <= |kv.key|
  {}

  lemma InternalMore(all: seq<KV>, kv: KV)
    requires Internal(all) && ParseKey(kv.key).Some?
    ensures Internal(all + [kv])
  {}

  lemma FilteredMore(all: seq<KV>, kv: KV, hashes: seq<Hash>)
    requires Filtered(all, hashes) && TAG_SIZE <= |kv.key|
    ensures Filtered(all + [kv], hashes + [BloomHash(UserPart(kv.key))])
  {
    hide BloomHash;
    var more, more' := all + [kv], hashes + [BloomHash(UserPart(kv.key))];
    forall i | 0 <= i < |more| ensures TAG_SIZE <= |more[i].key| && BloomHash(UserPart(more[i].key)) in more' {
      if i < |all| { assert BloomHash(UserPart(all[i].key)) in hashes; } else { assert more'[|hashes|] in more'; }
    }
  }

  lemma SortedMore(all: seq<KV>, kv: KV)
    requires SortedKeys(all) && TAG_SIZE <= |kv.key| && (all != [] ==> KeyLess(Last(all).key, kv.key))
    ensures SortedKeys(all + [kv])
  {
    var more := all + [kv];
    forall i | 0 <= i < |all| ensures KeyLess(all[i].key, kv.key) {
      if i < |all| - 1 { KeyLessChain(all[i].key, Last(all).key, kv.key); }
    }
    hide KeyLess;
  }

  class SSTableBuilder {
    const blockSize: nat
    const interval: nat
    const data: BlockBuilder
    const index: BlockBuilder
    var file: Bytes
    var hashes: seq<Hash>
    var firstKey: Bytes
    var lastKey: Bytes
    var count: nat
    ghost var parts: seq<seq<KV>>
    ghost var handles: seq<Handle>

    /** Everything added so far. */
    ghost function All(): seq<KV>
      reads this, data
    {
      Concat(parts) + data.added
    }

    ghost predicate Valid()
      reads this, data, index
    {
      && data != index && data.Valid() && index.Valid() && data.interval == interval && index.interval == interval
      && count == |All()| && TableState(file, interval, parts, handles, data.added, index.added, firstKey, lastKey, hashes)
    }

    /** The file is no larger than what was added, and the open block is below its size. */
    ghost predicate Sized()
      reads this, data
    {
      && |file| <= Weight(Concat(parts)) && |hashes| == count
      && (data.added != [] ==> |data.buffer| < blockSize)
    }

    /** Closed blocks have reached the block size, the open one has not. */
    ghost predicate Cut()
      reads this, data
    {
      AllFull(parts, interval, blockSize) && Below(data.added, interval, blockSize)
    }

    /** File offsets fit 64 bits. */
    ghost predicate Fits()
      reads this, data
    {
      Buildable(data.added, interval) && |file| + |Block(data.added, interval)| < TWO_64
    }

    constructor (size: nat, restartInterval: nat)
      requires 0 < restartInterval
      ensures Valid() && Sized() && Cut() && All() == [] && fresh(data) && fresh(index)
      ensures interval == restartInterval && blockSize == size
    {
      blockSize, interval := size, restartInterval;
      data := new BlockBuilder(restartInterval);
      index := new BlockBuilder(restartInterval);
      file, hashes, firstKey, lastKey, count, parts, handles := [], [], [], [], 0, [], [];
      StartState(restartInterval);
    }

    /** Append a sealed block and return its handle. */
    method WriteBlock(payload: Bytes) returns (h: Handle)
      modifies this`file
      ensures file == old(file) + SealBlock(payload) && h == Handle(|old(file)|, |payload|)
    {
      h := Handle(|file|, |payload|);
      file := file + SealBlock(payload);
    }

    method FlushDataBlock()
      requires Valid() && Fits() && |file| <= Weight(Concat(parts)) && |hashes| == count
      modifies this, data, index
      ensures Valid() && Sized() && All() == old(All()) && data.added == [] && hashes == old(hashes)
      ensures parts == if old(data.added) == [] then old(parts) else old(parts) + [old(data.added)]
    {
      hide TableState;
      hide Block;
      hide SealBlock;
      hide HandleBytes;
      hide Body;
      hide Weight;
      if |data.buffer| == 0 {
        NothingAdded(data.added, interval);
        return;
      }
      SomethingAdded(data.added, interval);
      ghost var part, h' := data.added, Handle(|file|, |Block(data.added, interval)|);
      BlockSize(part, interval);
      WeightOfConcat(Concat(parts), part);
      FlushState(file, interval, parts, handles, part, index.added, firstKey, lastKey, hashes, h');
      var block := data.Finish();
      var h := WriteBlock(block);
      index.Add(lastKey, HandleBytes(h));
      data.Reset();
      parts, handles := parts + [part], handles + [h];
      assert All() == old(All());
    }

    /** Close the last block and write filter, index and footer. */
    method Finish() returns (ghost l: Layout)
      requires Valid() && Sized() && Cut() && Weight(All()) < TWO_64 / 4
      modifies this, data, index
      ensures CutBySize(l.parts, interval, blockSize)
      ensures IsTable(file, interval, l, hashes) && Concat(l.parts) == old(All()) && hashes == old(hashes)
      ensures FOOTER <= |file| < TWO_64
    {
      hide TableState;
      hide Block;
      hide SealBlock;
      hide FooterBytes;
      hide Body;
      hide IsTable;
      hide Covers;
      hide Weight;
      hide Concat;
      hide CutBySize;
      hide AllFull;
      hide Below;
      LastBlock(parts, data.added, interval, blockSize);
      StateBuildable(file, interval, parts, handles, data.added, index.added, firstKey, lastKey, hashes);
      BlockBound(data.added, interval);
      WeightOfConcat(Concat(parts), data.added);
      WeightCounts(All());
      FlushDataBlock();
      assert Concat(parts) + [] == Concat(parts);
      StateBuildable(file, interval, parts, handles, data.added, index.added, firstKey, lastKey, hashes);
      BlockBound(index.added, interval);
      ghost var f0, indexed := file, index.added;
      var filter := BuildFilter(hashes);
      var fh := WriteBlock(filter);
      var block := index.Finish();
      var ih := WriteBlock(block);
      l := Layout(parts, handles, filter, fh, ih);
      Completed(f0, interval, l, firstKey, lastKey, hashes, indexed);
      file := file + FooterBytes(fh, ih);
    }

    /** Keep the key for the filter and the table's key range. */
    method Note(key: Bytes)
      requires TAG_SIZE <= |key|
      modifies this`hashes, this`firstKey, this`lastKey, this`count
      ensures hashes == old(hashes) + [BloomHash(UserPart(key))] && lastKey == key && count == old(count) + 1
      ensures firstKey == if old(count) == 0 then key else old(firstKey)
    {
      hide BloomHash;
      var hash := ComputeBloomHash(UserPart(key));
      hashes := hashes + [hash];
      if count == 0 { firstKey := key; }
      lastKey, count := key, count + 1;
    }

    /** The entry goes into the open block, the filter and the key range. */
    method Append(key: Bytes, value: Bytes)
      requires Valid() && Sized() && ParseKey(key).Some? && HasRoom(All(), KV(key, value), blockSize)
      requires All() != [] ==> TAG_SIZE <= |lastKey| && KeyLess(lastKey, key)
      modifies this`hashes, this`firstKey, this`lastKey, this`count, data
      ensures Valid() && Fits() && All() == old(All()) + [KV(key, value)]
      ensures |file| <= Weight(Concat(parts)) && |hashes| == count && parts == old(parts)
      ensures data.added == old(data.added) + [KV(key, value)]
    {
      hide TableState;
      hide Block;
      hide Body;
      hide Restarts;
      hide KeyLess;
      hide IndexRoom;
      hide BloomHash;
      hide Weight;
      hide Concat;
      hide ParseKey;
      hide HasRoom;
      hide Since;
      ghost var kv := KV(key, value);
      KeyOfEntry(kv);
      RoomFor(file, interval, parts, handles, data.added, index.added, firstKey, lastKey, hashes, kv, blockSize);
      AddState(file, interval, parts, handles, data.added, index.added, firstKey, lastKey, hashes, kv);
      Note(key);
      data.Add(key, value);
      assert All() == old(All()) + [kv];
    }

    /** Add the next entry; close the block once it has reached its size. What was added and
        the new entry must fit 32-bit offsets within a block, and within the index. */
    method Add(key: Bytes, value: Bytes) returns (ok: bool)
      requires Valid() && Sized() && Cut() && (All() != [] && ParseKey(key).Some? ==> TAG_SIZE <= |lastKey| && KeyLess(lastKey, key))
      requires HasRoom(All(), KV(key, value), blockSize)
      modifies this, data, index
      ensures Valid() && Sized() && Cut() && ok == ParseKey(key).Some?
      ensures All() == if ok then old(All()) + [KV(key, value)] else old(All())
    {
      hide TableState;
      hide Block;
      hide Body;
      hide Restarts;
      hide KeyLess;
      hide Weight;
      hide Concat;
      hide ParseKey;
      hide HasRoom;
      hide Since;
      var parsed := ParseKey(key);
      if parsed.None? { return false; }
      Append(key, value);
      OpenBlockSize(data.added, interval);
      AllFullSoFar(parts, old(data.added), KV(key, value), interval, blockSize);
      hide AllFull;
      hide Below;
      NothingIsBelow(interval, blockSize);
      if |data.buffer| + 4 * |data.restarts| + 4 >= blockSize { FlushDataBlock(); }
      return true;
    }
  }

  lemma OpenBlockSize(es: seq<KV>, interval: nat)
    requires Buildable(es, interval)
    ensures |Block(es, interval)| == Offset(es, interval, |es|) + 4 * |Restarts(es, interval, |es|)| + 4
  {
    hide Block;
    hide Body;
    hide Restarts;
    hide Word;
    Trailer(es, interval);
  }

  /** The open block and one more entry: it stays open below the block size, and counts as
      full otherwise. */
  lemma AllFullSoFar(parts: seq<seq<KV>>, pending: seq<KV>, kv: KV, interval: nat, size: nat)
    requires AllFull(parts, interval, size) && Below(pending, interval, size) && Buildable(pending + [kv], interval)
    ensures |Block(pending + [kv], interval)| < size ==> Below(pending + [kv], interval, size)
    ensures |Block(pending + [kv], interval)| >= size ==> AllFull(parts + [pending + [kv]], interval, size)
  {
    hide Block;
    hide Buildable;
    if |Block(pending + [kv], interval)| < size {
      StaysBelow(pending, kv, interval, size);
    } else {
      BecomesFull(pending, kv, interval, size);
      hide Full;
    }
  }

  /** The builder's size limits, for one more entry: index offsets and either all data or
      one block with one entry too many below 4 GiB. */
  predicate HasRoom(all: seq<KV>, kv: KV, blockSize: nat) {
    && KeyWeight(all) + OVERHEAD + |kv.key| < TWO_32
    && Weight(all) + OVERHEAD + |kv.key| + |kv.value| < TWO_64 / 4
    && (|| Weight(all) + OVERHEAD + |kv.key| + |kv.value| < TWO_32
        || blockSize + HEADER + |kv.key| + |kv.value| < TWO_32)
  }

  /** With room, the open block, the file and the index all take the entry. */
  lemma RoomFor(file: Bytes, interval: nat, parts: seq<seq<KV>>, handles: seq<Handle>, pending: seq<KV>,
                index: seq<KV>, firstKey: Bytes, lastKey: Bytes, hashes: seq<Hash>, kv: KV, blockSize: nat)
    requires TableState(file, interval, parts, handles, pending, index, firstKey, lastKey, hashes)
    requires HasRoom(Concat(parts) + pending, kv, blockSize) && |file| <= Weight(Concat(parts))
    requires pending != [] ==> Offset(pending, interval, |pending|) < blockSize
    ensures Small(kv) && Buildable(pending + [kv], interval) && IndexRoom(index, kv.key, interval)
    ensures |file| + |Block(pending + [kv], interval)| < TWO_64
  {
    hide DataWritten;
    hide SortedKeys;
    hide Filtered;
    hide Internal;
    hide Body;
    hide Concat;
    hide Weight;
    hide KeyWeight;
    hide HandleBytes;
    hide Block;
    WeightOfConcat(Concat(parts), pending);
    WeightOfMore(pending, kv);
    LastOffset(pending, kv, interval);
    OffsetBound(pending + [kv], interval, |pending| + 1);
    assert (pending + [kv])[..|pending| + 1] == pending + [kv];
    NoOffset(interval);
    forall h | HandleOk(h) ensures Buildable(index + [KV(kv.key, HandleBytes(h))], interval) {
      IndexHasRoom(parts, handles, kv.key, h, interval);
    }
    BlockSize(pending + [kv], interval);
  }

  lemma NoOffset(interval: nat)
    ensures Offset([], interval, 0) == 0
  {}

  lemma BlockBound(es: seq<KV>, interval: nat)
    requires Buildable(es, interval)
    ensures |Block(es, interval)| < 5 * TWO_32 + 4
  {
    RestartsFit(es, interval);
    Trailer(es, interval);
    hide Block;
    hide Body;
    hide Restarts;
  }

  lemma IndexInternal(parts: seq<seq<KV>>, handles: seq<Handle>)
    requires Parts(parts, handles) && Internal(Concat(parts))
    ensures Internal(Index(parts, handles))
  {
    hide Concat;
    hide ParseKey;
    hide HandleBytes;
    forall j | 0 <= j < |parts| ensures ParseKey(Index(parts, handles)[j].key).Some? { LastOfPart(parts, j); }
  }

  /** The last writes complete the file: everything lies before the footer. */
  lemma Completed(file: Bytes, interval: nat, l: Layout, firstKey: Bytes, lastKey: Bytes, hashes: seq<Hash>, index: seq<KV>)
    requires TableState(file, interval, l.parts, l.handles, [], index, firstKey, lastKey, hashes)
    requires Covers(l.filter, hashes) && HandleOk(l.filterHandle) && HandleOk(l.indexHandle)
    requires l.filterHandle == Handle(|file|, |l.filter|)
    requires l.indexHandle == Handle(|file + SealBlock(l.filter)|, |Block(index, interval)|)
    ensures IsTable(file + SealBlock(l.filter) + SealBlock(Block(index, interval)) + FooterBytes(l.filterHandle, l.indexHandle),
                    interval, l, hashes)
  {
    hide Block;
    hide SealBlock;
    hide FooterBytes;
    hide SortedKeys;
    hide Covers;
    hide Filtered;
    hide Buildable;
    hide ParseKey;
    hide Concat;
    hide HandleBytes;
    hide Written;
    hide StoredAt;
    var f1 := file + SealBlock(l.filter);
    var f2 := f1 + SealBlock(Block(index, interval));
    var footer := FooterBytes(l.filterHandle, l.indexHandle);
    assert Concat(l.parts) + [] == Concat(l.parts);
    IndexInternal(l.parts, l.handles);
    JustWritten(file, l.filter);
    StillWritten(f1, SealBlock(Block(index, interval)), l.filterHandle, l.filter);
    JustWritten(f1, Block(index, interval));
    DataStillWritten(file, SealBlock(l.filter), interval, l.parts, l.handles);
    DataStillWritten(f1, SealBlock(Block(index, interval)), interval, l.parts, l.handles);
    WrittenIsStored(f2, footer, l.filterHandle, l.filter);
    WrittenIsStored(f2, footer, l.indexHandle, Block(index, interval));
    forall j | 0 <= j < |l.parts| ensures StoredAt(f2 + footer, l.handles[j], Block(l.parts[j], interval)) {
      WrittenIsStored(f2, footer, l.handles[j], Block(l.parts[j], interval));
    }
  }

  lemma NothingAdded(es: seq<KV>, interval: nat)
    requires AllSmall(es) && Body(es, interval, |es|) == []
    ensures es == []
  {
    OffsetsGrow(es, interval, 0, |es|);
  }

  lemma SomethingAdded(es: seq<KV>, interval: nat)
    requires AllSmall(es) && Body(es, interval, |es|) != []
    ensures es != []
  {}
}
