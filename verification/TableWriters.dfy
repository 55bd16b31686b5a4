/** The compactor's writer, which drains finished blocks while it builds
    (slatedb/store/table_store.go). */
module TableWriters {
  import opened Types
  import opened History
  import opened RowCodec
  import opened Blocks
  import opened SSTables

  class EncodedSSTableWriter {
    const builder: TableBuilder
    var buffer: Bytes
    var blocksWritten: nat

    ghost predicate Valid()
      reads this, builder, builder.blockBuilder
    {
      && builder.Valid() && builder.bitsPerKey < TWO32
      && buffer == Flatten(builder.drained) && blocksWritten == |builder.drained| && builder.blocks == []
    }

    constructor (f: Format, blockSize: nat, minFilterKeys: nat, bitsPerKey: nat)
      requires blockSize < TWO16 && bitsPerKey < TWO32
      ensures Valid() && builder.All() == [] && builder.f == f && fresh(builder) && fresh(builder.blockBuilder)
      ensures builder.minFilterKeys == minFilterKeys && builder.bitsPerKey == bitsPerKey
    {
      builder := new TableBuilder(f, blockSize, minFilterKeys, bitsPerKey);
      buffer, blocksWritten := [], 0;
    }

    /** Adds a row, an absent or empty value as a tombstone, and drains every finished block. */
    method Add(key: Key, value: Option<Bytes>)
      requires Valid() && key != []
      modifies this, builder, builder.blockBuilder
      ensures Valid() && (builder.blockBuilder == old(builder.blockBuilder) || fresh(builder.blockBuilder))
      ensures builder.All() ==
        old(builder.All()) + [RowEntry(key, Persist(if value.Some? then KeyValue(value.value) else Tombstone))]
    {
      hide BlocksOK, Flatten, Hashes, RowsBytes, RowStart;
      var v := if value.Some? then value.value else [];
      if |v| == 0 {
        builder.Add(key, Tombstone);
      } else {
        builder.Add(key, KeyValue(v));
      }
      Drain();
    }

    method Drain()
      requires builder.Valid() && builder.bitsPerKey < TWO32
      requires buffer == Flatten(builder.drained) && blocksWritten == |builder.drained|
      modifies this, builder
      ensures Valid() && builder.blockBuilder == old(builder.blockBuilder) && builder.All() == old(builder.All())
    {
      hide Flatten, TableBuilder.Valid, TableBuilder.All;
      while true
        invariant builder.Valid() && builder.All() == old(builder.All())
        invariant builder.blockBuilder == old(builder.blockBuilder)
        invariant buffer == Flatten(builder.drained) && blocksWritten == |builder.drained|
        decreases |builder.blocks|
      {
        ghost var before := builder.drained;
        var b := builder.NextBlock();
        if b.None? {
          break;
        }
        FlattenSnoc(before, b.value);
        buffer := buffer + b.value;
        blocksWritten := blocksWritten + 1;
      }
    }

    /** Close: the drained bytes followed by the built ones are a table that reads back to the blocks of
        the rows added, through index and any block range. */
    method Close() returns (r: Option<Table>, file: Bytes)
      requires Valid() && Sound(builder.f)
      modifies this, builder
      ensures r.None? <==> FilterPanics(|old(builder.All())|, builder.minFilterKeys, builder.bitsPerKey)
      ensures r.Some? ==>
        var f, all, info := builder.f, old(builder.All()), r.value.info;
        && Flatten(builder.groups) == all
        && (if all == [] then info.firstKey == [] else info.firstKey == all[0].key)
        && (Packable(|file|, all) ==> TableOK(f, file, info, builder.metas, builder.groups))
        && (Packable(|file|, all) && |file| < TWO32 ==> ReadInfo(f, file) == Some(info))
        && ReadFilter(f, info, file) == Ok(r.value.filter)
        && FilterOK(f, r.value.filter, all, builder.minFilterKeys, builder.bitsPerKey)
        && FileTail(f, file, info, builder.metas)
    {
      hide BlocksOK, Flatten, Hashes, TableOK, ReadFilter, ReadInfo, FilterOK, FilterPanics, FileTail, Sound, RowsBytes,
           RowStart, Packable;
      ghost var built;
      r, built := builder.Build();
      file := buffer;
      if r.Some? {
        file := AppendAll(buffer, r.value.blocks);
      }
    }
  }

  method AppendAll(buffer: Bytes, blocks: seq<Bytes>) returns (r: Bytes)
    ensures r == buffer + Flatten(blocks)
  {
    r := buffer;
    for i := 0 to |blocks|
      invariant r == buffer + Flatten(blocks[..i])
    {
      FlattenSnoc(blocks[..i], blocks[i]);
      assert blocks[..i + 1] == blocks[..i] + [blocks[i]];
      r := r + blocks[i];
    }
    assert blocks[..|blocks|] == blocks;
  }
}
