/** `SSTableIterator`: one block iterator over the index, one over the current data block.
    Over a built table it stands on positions of the whole entry sequence. */
module TableIterators {
  import opened Bytes
  import opened InternalKeys
  import opened BlockFormat
  import opened Blocks
  import opened Bloom
  import opened TableFormat
  import opened TableLayout
  import opened TableReaders

  /** The position in the whole table of entry `i` of block `j`. */
  ghost function Position(parts: seq<seq<KV>>, j: nat, i: nat): nat
    requires j <= |parts|
  {
    |Concat(parts[..j])| + i
  }

  class SSTableIterator {
    const table: SSTableReader
    const verify: bool
    const index: BlockIterator
    var data: BlockIterator?
    var failed: bool
    ghost var block: nat
    ghost var entry: nat

    /** What holds whatever the file holds. */
    ghost predicate Wf()
      reads this, index, data
    {
      index.Wf() && (data != null ==> data != index && data.Wf() && index.valid)
    }

    /** The iterator reads a built table. */
    ghost predicate Over(interval: nat, l: Layout, hashes: seq<Hash>)
      reads this, table, index
    {
      && !failed && IsTable(table.file, interval, l, hashes) && table.Loaded(interval, l)
      && index.Over(Index(l.parts, l.handles), interval)
    }

    /** It stands on `entry` of `block`, or past the last block. */
    ghost predicate Placed(interval: nat, l: Layout)
      reads this, index, data
    {
      && block <= |l.parts| && (block < |l.parts| <==> data != null)
      && (data == null ==> entry == 0)
      && (data != null ==>
            && Parts(l.parts, l.handles) && Buildable(Index(l.parts, l.handles), interval)
            && index.At(Index(l.parts, l.handles), interval, block)
            && data.Over(l.parts[block], interval) && entry < |l.parts[block]| && data.At(l.parts[block], interval, entry))
    }

    ghost function At(l: Layout): nat
      requires block <= |l.parts|
      reads this
    {
      Position(l.parts, block, entry)
    }

    predicate HasCurrent()
      reads this, data
    {
      !failed && data != null && data.valid
    }

    constructor (reader: SSTableReader, verifyChecksums: bool, ghost interval: nat, ghost l: Layout, ghost hashes: seq<Hash>)
      ensures Wf() && table == reader && fresh(index) && data == null
      ensures IsTable(reader.file, interval, l, hashes) && reader.Loaded(interval, l) ==> Over(interval, l, hashes)
    {
      hide IsTable;
      hide SSTableReader.Loaded;
      hide Block;
      hide Buildable;
      hide Internal;
      hide SortedKeys;
      hide BlockIterator.Over;
      ghost var built := IsTable(reader.file, interval, l, hashes) && reader.Loaded(interval, l);
      if built { IndexLoaded(reader, interval, l, hashes); }
      var ix := new BlockIterator(reader.indexBlock, if built then Index(l.parts, l.handles) else [], interval);
      table, verify, index, data, failed := reader, verifyChecksums, ix, null, ix.failed;
      block, entry := 0, 0;
      new;
      if built { OverIsOpen(index, Index(l.parts, l.handles), interval); }
    }

    /** `loadDataBlock`: open the block the index stands on, at its first entry. */
    method Load(ghost interval: nat, ghost l: Layout, ghost hashes: seq<Hash>, ghost j: nat)
      requires Wf() && index.valid && !failed
      modifies this
      ensures Wf() && (failed <==> data == null) && (data != null ==> fresh(data)) && block == j && entry == 0
      ensures old(Over(interval, l, hashes)) && j < |l.parts| && index.At(Index(l.parts, l.handles), interval, j) ==>
        Over(interval, l, hashes) && data != null && data.Over(l.parts[j], interval) && data.At(l.parts[j], interval, 0)
    {
      hide Block;
      hide Body;
      hide Points;
      hide ReadBlock;
      hide SortedKeys;
      hide ParseKey;
      hide ParseHandle;
      hide HandleBytes;
      hide IsTable;
      ghost var built := Over(interval, l, hashes) && j < |l.parts| && index.At(Index(l.parts, l.handles), interval, j);
      if built { BlockIsStored(table.file, interval, l, hashes, j, verify); }
      data, block, entry := null, j, 0;
      var handle := ParseHandle(index.value);
      if handle.None? {
        failed := true;
        return;
      }
      var bytes := ReadBlock(table.file, handle.value, verify);
      if bytes.None? {
        failed := true;
        return;
      }
      ghost var part := if built then l.parts[j] else [];
      var it := new BlockIterator(bytes.value, part, interval);
      it.SeekToFirst(part, interval);
      if it.failed || !it.valid {
        failed := true;
        return;
      }
      data := it;
    }

    method SeekToFirst(ghost interval: nat, ghost l: Layout, ghost hashes: seq<Hash>)
      requires Wf()
      modifies this, index
      ensures Wf() && (data != null ==> data == old(data) || fresh(data))
      ensures old(Over(interval, l, hashes)) ==> Over(interval, l, hashes) && Placed(interval, l) && At(l) == 0
    {
      hide Block;
      hide Body;
      hide Points;
      hide SortedKeys;
      hide ParseKey;
      hide HandleBytes;
      hide IsTable;
      if failed { return; }
      ghost var built := Over(interval, l, hashes);
      ghost var ix := if built then Index(l.parts, l.handles) else [];
      data, block, entry := null, 0, 0;
      index.SeekToFirst(ix, interval);
      StartOfFirst(l.parts);
      if index.failed {
        failed := true;
        return;
      }
      if index.valid { Load(interval, l, hashes, 0); }
    }

    /** Lands on the first entry of the whole table not below the target: the index names
        the only block that can hold it, and that block does. */
    method Seek(target: Bytes, ghost interval: nat, ghost l: Layout, ghost hashes: seq<Hash>)
      requires Wf()
      modifies this, index
      ensures Wf() && (data != null ==> data == old(data) || fresh(data))
      ensures old(Over(interval, l, hashes)) && ParseKey(target).Some? ==>
        Over(interval, l, hashes) && Placed(interval, l) && FirstAtLeast(Concat(l.parts), target, At(l))
      ensures ParseKey(target).None? ==> failed
    {
      hide Block;
      hide Body;
      hide Points;
      hide SortedKeys;
      hide KeyLess;
      hide Concat;
      hide HandleBytes;
      hide IsTable;
      hide FirstAtLeast;
      if failed { return; }
      if ParseKey(target).None? {
        failed, data := true, null;
        return;
      }
      hide ParseKey;
      ghost var built := Over(interval, l, hashes);
      ghost var ix := if built then Index(l.parts, l.handles) else [];
      data := null;
      ghost var j := index.Seek(target, ix, interval);
      block, entry := j, 0;
      if index.failed {
        failed := true;
        return;
      }
      if !index.valid {
        if built { PastLastBlock(table.file, interval, l, hashes, target, j); }
        return;
      }
      Load(interval, l, hashes, j);
      if failed { return; }
      ghost var part := if built then l.parts[j] else [];
      ghost var i := data.Seek(target, part, interval);
      entry := i;
      if built { InsideBlock(table.file, interval, l, hashes, target, j, i); }
      if data.failed || !data.valid {
        failed, data := true, null;
      }
    }

    /** One entry on, into the next block when this one is exhausted. */
    method Next(ghost interval: nat, ghost l: Layout, ghost hashes: seq<Hash>)
      requires Wf() && HasCurrent()
      modifies this, index, data
      ensures Wf() && (data != null ==> data == old(data) || fresh(data))
      ensures old(Over(interval, l, hashes) && Placed(interval, l)) ==>
        Over(interval, l, hashes) && Placed(interval, l) && At(l) == old(At(l)) + 1
    {
      hide Block;
      hide Body;
      hide Points;
      hide SortedKeys;
      hide KeyLess;
      hide Concat;
      hide ParseKey;
      hide HandleBytes;
      hide IsTable;
      ghost var built := Over(interval, l, hashes) && Placed(interval, l);
      ghost var ix := if built then Index(l.parts, l.handles) else [];
      ghost var j, i := block, entry;
      data.Next(if built then l.parts[j] else [], interval, i);
      entry := i + 1;
      if data.failed {
        failed, data := true, null;
        return;
      }
      if data.valid { return; }
      if built { NextBlockStarts(l.parts, j); }
      index.Next(ix, interval, j);
      data, block, entry := null, j + 1, 0;
      if index.failed {
        failed := true;
        return;
      }
      if index.valid { Load(interval, l, hashes, j + 1); }
    }
  }

  lemma BlockIsStored(file: Bytes, interval: nat, l: Layout, hashes: seq<Hash>, j: nat, verify: bool)
    requires IsTable(file, interval, l, hashes) && j < |l.parts|
    ensures Parts(l.parts, l.handles) && Buildable(l.parts[j], interval) && Internal(l.parts[j]) && SortedKeys(l.parts[j])
    ensures ParseHandle(HandleBytes(l.handles[j])) == Some(l.handles[j])
    ensures ReadBlock(file, l.handles[j], verify) == Some(Block(l.parts[j], interval))
  {
    hide Block;
    hide SortedKeys;
    hide Internal;
    hide FooterBytes;
    hide Buildable;
    hide ReadBlock;
    hide StoredAt;
    hide Concat;
    hide HandleBytes;
    hide ParseHandle;
    hide Covers;
    hide Filtered;
    HandleRoundTrip(l.handles[j]);
    ReadStored(file, l.handles[j], Block(l.parts[j], interval), verify);
    PartReady(l, j);
  }

  lemma PastLastBlock(file: Bytes, interval: nat, l: Layout, hashes: seq<Hash>, target: Bytes, j: nat)
    requires IsTable(file, interval, l, hashes) && FirstAtLeast(Index(l.parts, l.handles), target, j) && j == |l.parts|
    ensures FirstAtLeast(Concat(l.parts), target, Position(l.parts, j, 0))
  {
    hide Block;
    hide Buildable;
    hide DataStored;
    hide FirstAtLeast;
    hide SortedKeys;
    hide Internal;
    hide FooterBytes;
    hide StoredAt;
    hide Concat;
    hide HandleBytes;
    hide Covers;
    hide Filtered;
    IndexMisses(l.parts, l.handles, target);
    assert l.parts[..j] == l.parts;
  }

  lemma InsideBlock(file: Bytes, interval: nat, l: Layout, hashes: seq<Hash>, target: Bytes, j: nat, i: nat)
    requires IsTable(file, interval, l, hashes) && j < |l.parts|
    requires FirstAtLeast(Index(l.parts, l.handles), target, j) && FirstAtLeast(l.parts[j], target, i)
    ensures i < |l.parts[j]| && FirstAtLeast(Concat(l.parts), target, Position(l.parts, j, i))
  {
    hide Block;
    hide Buildable;
    hide DataStored;
    hide FirstAtLeast;
    hide SortedKeys;
    hide Internal;
    hide FooterBytes;
    hide StoredAt;
    hide Concat;
    hide HandleBytes;
    hide Covers;
    hide Filtered;
    IndexCovers(l.parts, l.handles, target, j, i);
  }

  lemma NextBlockStarts(parts: seq<seq<KV>>, j: nat)
    requires j < |parts|
    ensures Position(parts, j + 1, 0) == Position(parts, j, |parts[j]|)
  {
    StartIsAfter(parts, j + 1);
  }

  lemma IndexLoaded(reader: SSTableReader, interval: nat, l: Layout, hashes: seq<Hash>)
    requires IsTable(reader.file, interval, l, hashes) && reader.Loaded(interval, l)
    ensures Parts(l.parts, l.handles) && Buildable(Index(l.parts, l.handles), interval)
    ensures Internal(Index(l.parts, l.handles)) && SortedKeys(Index(l.parts, l.handles))
    ensures reader.indexBlock == Block(Index(l.parts, l.handles), interval)
  {
    IndexReady(reader.file, interval, l, hashes);
    hide IsTable;
    hide Block;
    hide Body;
    hide SortedKeys;
  }

  lemma OverIsOpen(it: BlockIterator, es: seq<KV>, interval: nat)
    requires it.Over(es, interval)
    ensures !it.failed
  {
    hide Block;
    hide Body;
    hide Points;
  }
}
