/** Building SSTables and reading them back (internal/sstable/builder.go, internal/sstable/decode.go,
    slatedb/store/table_store.go). */
module SSTables {
  import opened Types
  import opened History
  import opened RowCodec
  import opened Blocks
  import opened Bloom

  datatype BlockMeta = BlockMeta(offset: nat, firstKey: Key)
  datatype Info = Info(firstKey: Key, indexOffset: nat, indexLen: nat, filterOffset: nat, filterLen: nat)

  /** The codec of the blocks, the key hash, and the FlatBuffers encodings of index and info, which are
      generated or foreign code. */
  datatype Format = Format(
    codec: Codec,
    hash: Key -> Hash,
    packIndex: seq<BlockMeta> -> Bytes,
    unpackIndex: Bytes -> Option<seq<BlockMeta>>,
    packInfo: Info -> Bytes,
    unpackInfo: Bytes -> Option<Info>)

  /** What the fields of an index can hold: 64-bit offsets, and 32-bit lengths of vectors. */
  ghost predicate IndexFits(metas: seq<BlockMeta>) {
    |metas| < TWO32 && forall i :: 0 <= i < |metas| ==> metas[i].offset < TWO64 && |metas[i].firstKey| < TWO32
  }

  predicate InfoFits(info: Info) {
    && |info.firstKey| < TWO32
    && info.indexOffset < TWO64 && info.indexLen < TWO64 && info.filterOffset < TWO64 && info.filterLen < TWO64
  }

  /** Whatever fits reads back, and no encoding is shorter than two bytes. */
  ghost predicate Sound(f: Format) {
    && Lossless(f.codec)
    && (forall x :: IndexFits(x) ==> f.unpackIndex(f.packIndex(x)) == Some(x))
    && (forall x :: |f.packIndex(x)| >= 2)
    && (forall x :: InfoFits(x) ==> f.unpackInfo(f.packInfo(x)) == Some(x))
    && (forall x :: |f.packInfo(x)| >= 2)
  }

  /** encodeIndex: the packed index, compressed and followed by a checksum. */
  function EncodeIndex(f: Format, metas: seq<BlockMeta>): Bytes {
    Sealed(f.codec, f.packIndex(metas))
  }

  function DecodeIndex(f: Format, b: Bytes): Option<seq<BlockMeta>> {
    if |b| <= 4 then None
    else match Unsealed(f.codec, b)
         case None => None
         case Some(packed) => f.unpackIndex(packed)
  }

  /** EncodeInfo: the packed info followed by a checksum. */
  function EncodeInfo(f: Format, info: Info): Bytes {
    f.packInfo(info) + BigEndian(f.codec.checksum(f.packInfo(info)), 4)
  }

  function DecodeInfo(f: Format, b: Bytes): Option<Info> {
    if |b| <= 4 then None else
      var packed := b[..|b| - 4];
      if Number(b[|b| - 4..]) != f.codec.checksum(packed) then None else f.unpackInfo(packed)
  }

  lemma IndexRoundTrip(f: Format, metas: seq<BlockMeta>)
    requires Sound(f) && IndexFits(metas)
    ensures DecodeIndex(f, EncodeIndex(f, metas)) == Some(metas)
  {
    hide Sealed, Unsealed, Lossless, IndexFits;
    SealRoundTrip(f.codec, f.packIndex(metas));
  }

  lemma InfoRoundTrip(f: Format, info: Info)
    requires Sound(f) && InfoFits(info)
    ensures DecodeInfo(f, EncodeInfo(f, info)) == Some(info) && |EncodeInfo(f, info)| > 4
  {
    hide BigEndian, Number, InfoFits;
    var packed := f.packInfo(info);
    Widths();
    NumberRoundTrip(f.codec.checksum(packed), 4);
    Cut(packed, BigEndian(f.codec.checksum(packed), 4));
  }

  // ---- the layout of the blocks

  /** The block that holds the entries. */
  function BlockOf(s: seq<RowEntry>): Block
    requires s != []
  {
    Block(s[0].key, RowsBytes(s), seq(|s|, i requires 0 <= i < |s| => RowStart(s, i)))
  }

  predicate NoneEmpty(groups: seq<seq<RowEntry>>) {
    forall i :: 0 <= i < |groups| ==> groups[i] != []
  }

  ghost predicate GroupsOK(groups: seq<seq<RowEntry>>) {
    NoneEmpty(groups) && forall i :: 0 <= i < |groups| ==> Packed(BlockOf(groups[i]), groups[i])
  }

  function EncodedBlocks(c: Codec, groups: seq<seq<RowEntry>>): (e: seq<Bytes>)
    requires NoneEmpty(groups)
    ensures |e| == |groups|
  {
    seq(|groups|, i requires 0 <= i < |groups| => EncodedBlock(c, BlockOf(groups[i])))
  }

  /** Where the i-th part starts in the concatenation. */
  function PartStart(parts: seq<Bytes>, i: nat): nat
    requires i <= |parts|
  {
    |Flatten(parts[..i])|
  }

  lemma PartSlice(parts: seq<Bytes>, i: nat, j: nat)
    requires i <= j <= |parts|
    ensures PartStart(parts, i) <= PartStart(parts, j) <= |Flatten(parts)|
    ensures Flatten(parts)[PartStart(parts, i)..PartStart(parts, j)] == Flatten(parts[i..j])
  {
    hide Flatten;
    FlattenConcat(parts[..i], parts[i..j]);
    assert parts[..i] + parts[i..j] == parts[..j];
    FlattenConcat(parts[..j], parts[j..]);
    assert parts[..j] + parts[j..] == parts;
  }

  lemma PartAt(parts: seq<Bytes>, i: nat)
    requires i < |parts|
    ensures PartStart(parts, i) <= PartStart(parts, i + 1) <= |Flatten(parts)|
    ensures Flatten(parts)[PartStart(parts, i)..PartStart(parts, i + 1)] == parts[i]
  {
    PartSlice(parts, i, i + 1);
    assert parts[i..i + 1] == [] + [parts[i]];
    FlattenSnoc([], parts[i]);
    assert [] + parts[i] == parts[i];
  }

  // ---- the file

  /** Where block i starts, or where the blocks end. */
  function BlockStart(info: Info, metas: seq<BlockMeta>, i: nat): nat {
    if i < |metas| then metas[i].offset else info.filterOffset
  }

  /** The file begins with the parts, and the index says where each starts. */
  ghost predicate LaidOut(file: Bytes, info: Info, metas: seq<BlockMeta>, parts: seq<Bytes>) {
    && |metas| == |parts|
    && Flatten(parts) <= file
    && forall i :: 0 <= i <= |parts| ==> BlockStart(info, metas, i) == PartStart(parts, i)
  }

  /** The file has the groups of entries, one block each, under the given info and index. */
  ghost predicate TableOK(f: Format, file: Bytes, info: Info, metas: seq<BlockMeta>, groups: seq<seq<RowEntry>>) {
    && GroupsOK(groups)
    && |metas| == |groups| && (forall i :: 0 <= i < |groups| ==> metas[i].firstKey == groups[i][0].key)
    && LaidOut(file, info, metas, EncodedBlocks(f.codec, groups))
    && ReadIndex(f, info, file) == Some(metas)
  }

  /** The last four bytes say where the info starts. */
  function ReadInfo(f: Format, file: Bytes): Option<Info> {
    if |file| <= 4 then None else
      var end := |file| - 4;
      var start := Number(file[end..]);
      if start <= end then DecodeInfo(f, file[start..end]) else None
  }

  function ReadIndex(f: Format, info: Info, file: Bytes): Option<seq<BlockMeta>> {
    if info.indexOffset + info.indexLen > |file| then None
    else DecodeIndex(f, file[info.indexOffset..info.indexOffset + info.indexLen])
  }

  /** An absent filter is not an error. */
  function ReadFilter(f: Format, info: Info, file: Bytes): Decoded<Option<Filter>> {
    if info.filterLen < 1 then Ok(None)
    else if info.filterOffset + info.filterLen > |file| then Corrupt
    else match DecodeFilter(f.codec, file[info.filterOffset..info.filterOffset + info.filterLen])
         case Ok(filter) => Ok(Some(filter))
         case Corrupt => Corrupt
         case Panic => Panic
  }

  /** getBlockRange: the bytes of the blocks lo, ..., hi - 1. */
  function BlockRange(info: Info, metas: seq<BlockMeta>, lo: nat, hi: nat): (nat, nat)
    requires lo < |metas|
  {
    (metas[lo].offset, if hi < |metas| then metas[hi].offset else info.filterOffset)
  }

  /** Cutting the range out of the file and then a block out of the range gives the block. */
  lemma BlockSlice(file: Bytes, info: Info, metas: seq<BlockMeta>, parts: seq<Bytes>, lo: nat, hi: nat, i: nat)
    requires LaidOut(file, info, metas, parts) && lo <= i < hi <= |metas|
    ensures var start, end := BlockStart(info, metas, lo), BlockStart(info, metas, hi);
      var a, b := BlockStart(info, metas, i), BlockStart(info, metas, i + 1);
      start <= a <= b <= end <= |file| && file[start..end][a - start..b - start] == parts[i]
  {
    hide Flatten, PartStart;
    PartSlice(parts, lo, i);
    PartAt(parts, i);
    PartSlice(parts, i + 1, hi);
    var start, end, a, b := PartStart(parts, lo), PartStart(parts, hi), PartStart(parts, i), PartStart(parts, i + 1);
    SliceOfSlice(file, Flatten(parts), start, end, a, b);
  }

  lemma SliceOfSlice(file: Bytes, prefix: Bytes, start: nat, end: nat, a: nat, b: nat)
    requires prefix <= file && start <= a <= b <= end <= |prefix|
    ensures file[start..end][a - start..b - start] == prefix[a..b]
  {
    var x, y := file[start..end][a - start..b - start], prefix[a..b];
    forall k | 0 <= k < |y| ensures x[k] == y[k] {
      assert x[k] == file[start..end][a - start + k] == file[a + k];
    }
  }

  /** Reads any range of blocks of an intact table: exactly the blocks that were written. An empty
      range and a range beyond the index are errors. */
  method ReadBlocks(f: Format, info: Info, metas: seq<BlockMeta>, lo: nat, hi: nat, file: Bytes,
                    ghost groups: seq<seq<RowEntry>>) returns (r: Decoded<seq<Block>>)
    requires Lossless(f.codec) && TableOK(f, file, info, metas, groups)
    ensures r.Ok? <==> lo < hi <= |groups|
    ensures r.Ok? ==> |r.value| == hi - lo
    ensures r.Ok? ==> forall i :: 0 <= i < hi - lo ==> Packed(r.value[i], groups[lo + i])
  {
    hide LaidOut, Packed, EncodedBlock, DecodedBlock, ReadIndex, Lossless, EncodedBlocks, BlockOf;
    if lo >= hi || hi > |metas| {
      return Corrupt;
    }
    ghost var parts := EncodedBlocks(f.codec, groups);
    var (start, end) := BlockRange(info, metas, lo, hi);
    BlockSlice(file, info, metas, parts, lo, hi, lo);
    var data := file[start..end];
    var blocks: seq<Block> := [];
    for i := lo to hi
      invariant |blocks| == i - lo
      invariant forall j :: 0 <= j < i - lo ==> Packed(blocks[j], groups[lo + j])
    {
      BlockSlice(file, info, metas, parts, lo, hi, i);
      EncodedAt(f.codec, groups, i);
      var bytesStart := metas[i].offset - start;
      var blockBytes := if i == |metas| - 1 then data[bytesStart..] else data[bytesStart..metas[i + 1].offset - start];
      var block := DecodeWritten(f.codec, blockBytes, groups[i]);
      blocks := blocks + [block];
    }
    return Ok(blocks);
  }

  lemma EncodedAt(c: Codec, groups: seq<seq<RowEntry>>, i: nat)
    requires NoneEmpty(groups) && i < |groups|
    ensures EncodedBlocks(c, groups)[i] == EncodedBlock(c, BlockOf(groups[i]))
  {
  }

  method DecodeWritten(c: Codec, bytes: Bytes, ghost s: seq<RowEntry>) returns (b: Block)
    requires Lossless(c) && s != [] && Packed(BlockOf(s), s) && bytes == EncodedBlock(c, BlockOf(s))
    ensures Packed(b, s) && b == BlockOf(s).(firstKey := [])
  {
    hide Lossless, Packed, EncodedBlock, DecodedBlock, BlockOf;
    BlockRoundTrip(c, BlockOf(s), s);
    var r := DecodeBlock(c, bytes);
    b := r.value;
  }

  // ---- the builder

  /** The finished blocks: their encodings in order, their index entries and their total length. */
  ghost predicate BlocksOK(c: Codec, groups: seq<seq<RowEntry>>, metas: seq<BlockMeta>, parts: seq<Bytes>, len: nat) {
    && GroupsOK(groups)
    && |metas| == |groups| && parts == EncodedBlocks(c, groups)
    && (forall i :: 0 <= i < |groups| ==> metas[i] == BlockMeta(PartStart(parts, i), groups[i][0].key))
    && len == |Flatten(parts)|
  }

  lemma FinishOne(c: Codec, groups: seq<seq<RowEntry>>, metas: seq<BlockMeta>, parts: seq<Bytes>, len: nat,
                  s: seq<RowEntry>)
    requires BlocksOK(c, groups, metas, parts, len) && s != [] && Packed(BlockOf(s), s)
    ensures var part := EncodedBlock(c, BlockOf(s));
      BlocksOK(c, groups + [s], metas + [BlockMeta(len, s[0].key)], parts + [part], len + |part|)
  {
    hide Packed, EncodedBlock, Flatten, BlockOf;
    var part := EncodedBlock(c, BlockOf(s));
    FlattenSnoc(parts, part);
    var parts', groups' := parts + [part], groups + [s];
    forall i | 0 <= i <= |groups| ensures PartStart(parts', i) == PartStart(parts, i) {
      assert parts'[..i] == parts[..i];
    }
    assert parts[..|parts|] == parts;
    assert NoneEmpty(groups');
    assert parts' == EncodedBlocks(c, groups');
  }

  lemma PackedBlockOf(b: Block, s: seq<RowEntry>)
    requires Packed(b, s) && b.firstKey == s[0].key
    ensures b == BlockOf(s)
  {
  }

  /** What Build returns: the table, or the panic of the bloom filter. */
  datatype Table = Table(info: Info, filter: Option<Filter>, blocks: seq<Bytes>)

  class TableBuilder {
    const f: Format
    const blockSize: nat
    const minFilterKeys: nat
    const bitsPerKey: nat
    var blockBuilder: Builder
    var hashes: seq<Hash>
    var metas: seq<BlockMeta>
    var firstKey: Key
    var blocks: seq<Bytes>
    var currentLen: nat
    var numKeys: nat
    ghost var groups: seq<seq<RowEntry>>  // the entries of the finished blocks
    ghost var drained: seq<Bytes>         // the blocks that NextBlock handed out

    ghost predicate Valid()
      reads this, blockBuilder
    {
      && BlocksValid()
      && (firstKey == [] <==> All() == []) && (All() != [] ==> firstKey == All()[0].key)
      && numKeys == |All()| % TWO32 && hashes == Hashes(f, All())
    }

    ghost predicate BlocksValid()
      reads `blockBuilder, `metas, `blocks, `currentLen, `groups, `drained, blockBuilder
    {
      && blockBuilder.Valid() && blockBuilder.blockSize == blockSize < TWO16
      && BlocksOK(f.codec, groups, metas, drained + blocks, currentLen)
    }

    /** Every entry added so far. */
    ghost function All(): seq<RowEntry>
      reads `groups, `blockBuilder, blockBuilder
    {
      Flatten(groups) + blockBuilder.entries
    }

    constructor (f: Format, blockSize: nat, minFilterKeys: nat, bitsPerKey: nat)
      requires blockSize < TWO16 && bitsPerKey < TWO32
      ensures Valid() && All() == [] && drained == [] && blocks == [] && fresh(blockBuilder)
      ensures this.f == f && this.bitsPerKey == bitsPerKey && this.minFilterKeys == minFilterKeys
    {
      this.f, this.blockSize, this.minFilterKeys, this.bitsPerKey := f, blockSize, minFilterKeys, bitsPerKey;
      blockBuilder := new Builder(blockSize);
      hashes, metas, firstKey, blocks, currentLen, numKeys := [], [], [], [], 0, 0;
      groups, drained := [], [];
    }

    /** finishBlock: encodes the current block, if it has rows, and starts a new one. */
    method FinishBlock() returns (buf: Bytes)
      requires BlocksValid()
      modifies this
      ensures unchanged(`hashes, `firstKey, `blocks, `currentLen, `numKeys, `groups, `drained)
      ensures blockBuilder.Valid() && blockBuilder.blockSize == blockSize
      ensures var s := old(blockBuilder.entries);
        if s == [] then buf == [] && metas == old(metas) && blockBuilder == old(blockBuilder)
        else
          && fresh(blockBuilder) && blockBuilder.entries == []
          && Packed(BlockOf(s), s) && buf == EncodedBlock(f.codec, BlockOf(s))
          && metas == old(metas) + [BlockMeta(currentLen, s[0].key)]
    {
      hide RowsBytes, BlocksOK, EncodedBlock;
      ghost var s := blockBuilder.entries;
      var b := blockBuilder.Build();
      if b.None? {
        return [];
      }
      PackedBlockOf(b.value, s);
      blockBuilder := new Builder(blockSize);
      buf := EncodeBlock(f.codec, b.value);
      metas := metas + [BlockMeta(currentLen, b.value.firstKey)];
    }

    /** Adds an entry, finishing the current block first when the entry does not fit. The key may be of
        any length, but the source asserts that it is not empty. */
    method Add(key: Key, value: Value)
      requires Valid() && key != []
      modifies this, blockBuilder
      ensures Valid() && (blockBuilder == old(blockBuilder) || fresh(blockBuilder))
      ensures All() == old(All()) + [RowEntry(key, value)] && drained == old(drained)
      ensures groups ==
        if old(blockBuilder.Accepts(key, value)) then old(groups) else old(groups) + [old(blockBuilder.entries)]
    {
      hide TableBuilder.BlocksValid, TableBuilder.All, Builder.Accepts, Hashes;
      Place(key, value);
      if firstKey == [] {
        firstKey := key;
      }
      numKeys := (numKeys + 1) % TWO32;
      HashesSnoc(f, old(All()), RowEntry(key, value));
      hashes := hashes + [f.hash(key)];
    }

    /** Adds an entry to the current block, or to a new one if it does not fit. */
    method Place(key: Key, value: Value)
      requires BlocksValid() && key != []
      modifies this, blockBuilder
      ensures BlocksValid() && (blockBuilder == old(blockBuilder) || fresh(blockBuilder))
      ensures All() == old(All()) + [RowEntry(key, value)] && drained == old(drained)
      ensures unchanged(`hashes, `firstKey, `numKeys)
      ensures groups ==
        if old(blockBuilder.Accepts(key, value)) then old(groups) else old(groups) + [old(blockBuilder.entries)]
    {
      hide BlocksOK, Flatten, Builder.Valid, RawBlock, Builder.Accepts;
      ghost var s := blockBuilder.entries;
      var added := blockBuilder.Add(key, value);
      if !added {
        PushBlock();
        s := [];
        added := blockBuilder.Add(key, value);
      }
      MoveLast(Flatten(groups), s, RowEntry(key, value));
    }

    /** Finishes the current block and queues it. */
    method PushBlock()
      requires BlocksValid() && blockBuilder.entries != []
      modifies this
      ensures BlocksValid() && fresh(blockBuilder) && blockBuilder.entries == []
      ensures All() == old(All()) && drained == old(drained) && unchanged(`hashes, `firstKey, `numKeys)
      ensures groups == old(groups) + [old(blockBuilder.entries)]
    {
      hide RowsBytes, BlocksOK, EncodedBlock, Packed, BlockOf, EntryRow, Flatten;
      ghost var s := blockBuilder.entries;
      var buf := FinishBlock();
      FinishOne(f.codec, groups, old(metas), drained + blocks, currentLen, s);
      assert drained + blocks + [buf] == drained + (blocks + [buf]);
      FlattenSnoc(groups, s);
      currentLen := currentLen + |buf|;
      blocks := blocks + [buf];
      groups := groups + [s];
      assert Flatten(groups) + [] == old(All());
    }

    /** Hands out the oldest finished block. */
    method NextBlock() returns (b: Option<Bytes>)
      requires Valid()
      modifies this
      ensures Valid() && blockBuilder == old(blockBuilder) && All() == old(All())
      ensures b.None? <==> old(blocks) == []
      ensures drained == if b.Some? then old(drained) + [b.value] else old(drained)
      ensures b.Some? ==> blocks == old(blocks)[1..]
      ensures b.None? ==> blocks == []
    {
      hide BlocksOK, Flatten, RowsBytes, Hashes, RowStart;
      if |blocks| == 0 {
        return None;
      }
      b := Some(blocks[0]);
      MoveFirst(drained, blocks);
      drained, blocks := drained + [blocks[0]], blocks[1..];
    }

    /** Build: finishes the last block and appends filter, index, info and the info's offset. The
        file is what was drained before followed by the blocks of the table. It reads back to exactly
        the blocks of the entries added; its info can be found from its end if it is shorter than
        4 GiB. */
    method Build() returns (r: Option<Table>, ghost file: Bytes)
      requires Valid() && Sound(f) && bitsPerKey < TWO32
      modifies this
      ensures r.None? <==> FilterPanics(|old(All())|, minFilterKeys, bitsPerKey)
      ensures r.Some? ==>
        && file == Flatten(old(drained)) + Flatten(r.value.blocks)
        && Flatten(groups) == old(All())
        && (if old(All()) == [] then r.value.info.firstKey == [] else r.value.info.firstKey == old(All())[0].key)
        && (Packable(|file|, old(All())) ==> TableOK(f, file, r.value.info, metas, groups))
        && (Packable(|file|, old(All())) && |file| < TWO32 ==> ReadInfo(f, file) == Some(r.value.info))
        && ReadFilter(f, r.value.info, file) == Ok(r.value.filter)
        && FilterOK(f, r.value.filter, old(All()), minFilterKeys, bitsPerKey)
        && FileTail(f, file, r.value.info, metas)
    {
      hide RowsBytes, BlocksOK, EncodedBlock, Packed, BlockOf, EntryRow, Flatten, HasHash, FilterBytes, TableOK,
           ReadFilter, FileTail, BuiltFrom;
      hide Sound, BigEndian, Packable, ReadInfo, EncodeFilter, EncodeIndex, EncodeInfo;
      ghost var all, parts := All(), drained + blocks;
      var buf := FinishBlock();
      ghost var len := currentLen + |buf|;
      ghost var last := old(blockBuilder.entries);
      groups, parts := FinishedBlocks(f.codec, groups, old(metas), metas, parts, currentLen, last, buf);

      var filter := BuildFilter();
      if filter.None? {
        return None, [];
      }
      var filterBytes := if filter.value.Some? then EncodeFilter(f.codec, filter.value.value) else [];
      var filterOffset := currentLen + |buf|;
      var index := EncodeIndex(f, metas);
      var indexOffset := filterOffset + |filterBytes|;
      var metaOffset := indexOffset + |index|;
      var info := Info(firstKey, indexOffset, |index|, filterOffset, |filterBytes|);
      var tail := filterBytes + index + EncodeInfo(f, info) + BigEndian(metaOffset % TWO32, 4);
      blocks := blocks + [buf + tail];
      file := Flatten(parts) + tail;
      FileReads(f, groups, metas, parts, len, info, filter.value, filterBytes, index, all);
      FlattenConcat(old(drained), old(blocks));
      FlattenSnoc(old(blocks), buf + tail);
      assert file == Flatten(old(drained)) + (Flatten(old(blocks)) + (buf + tail));
      r := Some(Table(info, filter.value, blocks));
    }

    /** The filter is made only for enough keys; it may panic. */
    method BuildFilter() returns (r: Option<Option<Filter>>)
      requires bitsPerKey < TWO32 && numKeys == |hashes| % TWO32
      ensures r.None? <==> FilterPanics(|hashes|, minFilterKeys, bitsPerKey)
      ensures r.Some? ==>
        && (r.value.Some? <==> |hashes| % TWO32 >= minFilterKeys)
        && (r.value.Some? ==>
              && SmallFilter(r.value.value) && BuiltFrom(r.value.value, hashes, bitsPerKey)
              && forall h :: h in hashes ==> HasHash(r.value.value, h))
    {
      hide HasHash, FilterBytes, BuiltFrom;
      if numKeys < minFilterKeys {
        return Some(None);
      }
      var built := Bloom.Build(hashes, bitsPerKey);
      r := if built.DivideByZero? then None else Some(Some(built.filter));
    }
  }

  /** A filter is made and its wrapped size leaves no byte. The keys are counted in 32 bits. */
  predicate FilterPanics(n: nat, minFilterKeys: nat, bitsPerKey: nat) {
    n % TWO32 >= minFilterKeys && n != 0 && FilterBytes(n, bitsPerKey) == 0
  }

  /** Offsets, keys and the number of blocks fit the fields of index and info. */
  ghost predicate Packable(len: nat, s: seq<RowEntry>) {
    len < TWO64 && |s| < TWO32 && forall i :: 0 <= i < |s| ==> |s[i].key| < TWO32
  }

  /** The probe count fits 16 bits and the bit count 32. */
  ghost predicate SmallFilter(filter: Filter) {
    filter.numProbes < TWO16 && |filter.data| * 8 < TWO32
  }

  /** The filter is there exactly when there are enough keys, it is the filter of these keys, and it has
      every one of them. */
  ghost predicate FilterOK(f: Format, filter: Option<Filter>, s: seq<RowEntry>, minFilterKeys: nat, bitsPerKey: nat) {
    && (filter.Some? <==> |s| % TWO32 >= minFilterKeys)
    && (filter.Some? ==>
          && SmallFilter(filter.value) && BuiltFrom(filter.value, Hashes(f, s), bitsPerKey)
          && forall h :: h in Hashes(f, s) ==> HasHash(filter.value, h))
  }

  /** What follows the blocks: filter, index and info, each where the info says, and at the end the place of
      the info in four bytes. */
  ghost predicate FileTail(f: Format, file: Bytes, info: Info, metas: seq<BlockMeta>) {
    var m := info.indexOffset + info.indexLen;
    && info.indexOffset == info.filterOffset + info.filterLen && m <= |file|
    && file[info.indexOffset..m] == EncodeIndex(f, metas)
    && file[m..] == EncodeInfo(f, info) + BigEndian(m % TWO32, 4)
  }

  lemma FinishedBlocks(c: Codec, groups: seq<seq<RowEntry>>, metas: seq<BlockMeta>, metas': seq<BlockMeta>,
                       parts: seq<Bytes>,
                       len: nat, s: seq<RowEntry>, buf: Bytes) returns (groups': seq<seq<RowEntry>>, parts': seq<Bytes>)
    requires BlocksOK(c, groups, metas, parts, len)
    requires s == [] ==> buf == [] && metas' == metas
    requires s != [] ==>
      Packed(BlockOf(s), s) && buf == EncodedBlock(c, BlockOf(s)) && metas' == metas + [BlockMeta(len, s[0].key)]
    ensures BlocksOK(c, groups', metas', parts', len + |buf|)
    ensures Flatten(groups') == Flatten(groups) + s && Flatten(parts') == Flatten(parts) + buf
  {
    hide BlocksOK, Packed, BlockOf, EncodedBlock, Flatten;
    groups', parts' := groups, parts;
    if s != [] {
      FinishOne(c, groups, metas, parts, len, s);
      FlattenSnoc(groups, s);
      FlattenSnoc(parts, buf);
      groups', parts' := groups + [s], parts + [buf];
    }
  }

  /** The file that Build lays out reads back. */
  lemma FileReads(f: Format, groups: seq<seq<RowEntry>>, metas: seq<BlockMeta>, parts: seq<Bytes>, len: nat,
                  info: Info, filter: Option<Filter>, filterBytes: Bytes, index: Bytes, all: seq<RowEntry>)
    requires Sound(f) && BlocksOK(f.codec, groups, metas, parts, len) && all == Flatten(groups)
    requires filterBytes == if filter.Some? then EncodeFilter(f.codec, filter.value) else []
    requires index == EncodeIndex(f, metas)
    requires filter.Some? ==> SmallFilter(filter.value)
    requires info.firstKey == if all == [] then [] else all[0].key
    requires info.filterOffset == len && info.filterLen == |filterBytes|
    requires info.indexOffset == len + |filterBytes| && info.indexLen == |index|
    ensures var metaOffset := info.indexOffset + info.indexLen;
      var file := Flatten(parts) + (filterBytes + index + EncodeInfo(f, info) + BigEndian(metaOffset % TWO32, 4));
      && (Packable(|file|, all) ==> TableOK(f, file, info, metas, groups))
      && (Packable(|file|, all) && |file| < TWO32 ==> ReadInfo(f, file) == Some(info))
      && ReadFilter(f, info, file) == Ok(filter) && FileTail(f, file, info, metas)
  {
    hide BlocksOK, Flatten, BigEndian, Sound, EncodeFilter, EncodeIndex, EncodeInfo, FileTail, ReadFilter, ReadIndex,
         ReadInfo, SmallFilter, Packable, TableOK, LaidOut;
    var a, e := Flatten(parts), EncodeInfo(f, info);
    var metaOffset := info.indexOffset + info.indexLen;
    var m := BigEndian(metaOffset % TWO32, 4);
    assert |a| == len by { BlocksLength(f.codec, groups, metas, parts, len); }
    FivePieces(a, filterBytes, index, e, m);
    var file := a + (filterBytes + index + e + m);
    TailLaidOut(f, info, metas, a, filterBytes, index);
    FilterPart(f, info, filter, file, filterBytes);
    if Packable(|file|, all) {
      IndexPart(f, info, groups, metas, parts, len, all, file, index);
      BlocksLaidOut(f.codec, groups, metas, parts, len, info, file);
      TableParts(f, file, info, groups, metas, parts, len);
      if |file| < TWO32 {
        InfoPart(f, info, file, all, metaOffset);
      }
    }
  }

  lemma BlocksLength(c: Codec, groups: seq<seq<RowEntry>>, metas: seq<BlockMeta>, parts: seq<Bytes>, len: nat)
    requires BlocksOK(c, groups, metas, parts, len)
    ensures |Flatten(parts)| == len
  {
  }

  lemma TableParts(f: Format, file: Bytes, info: Info, groups: seq<seq<RowEntry>>, metas: seq<BlockMeta>,
                   parts: seq<Bytes>, len: nat)
    requires BlocksOK(f.codec, groups, metas, parts, len) && LaidOut(file, info, metas, parts)
    requires ReadIndex(f, info, file) == Some(metas)
    ensures TableOK(f, file, info, metas, groups)
  {
    hide LaidOut, ReadIndex, Packed, EncodedBlock;
  }

  lemma FilterPart(f: Format, info: Info, filter: Option<Filter>, file: Bytes, bytes: Bytes)
    requires Sound(f) && (filter.Some? ==> SmallFilter(filter.value))
    requires bytes == if filter.Some? then EncodeFilter(f.codec, filter.value) else []
    requires info.filterLen == |bytes| && info.filterOffset + |bytes| <= |file|
    requires file[info.filterOffset..info.filterOffset + |bytes|] == bytes
    ensures ReadFilter(f, info, file) == Ok(filter)
  {
    hide Sound, EncodeFilter, DecodeFilter;
    if filter.Some? {
      assert Lossless(f.codec) by { SoundCodec(f); }
      hide Lossless;
      FilterRoundTrip(f.codec, filter.value);
    }
  }

  lemma IndexPart(f: Format, info: Info, groups: seq<seq<RowEntry>>, metas: seq<BlockMeta>, parts: seq<Bytes>, len: nat,
                  all: seq<RowEntry>, file: Bytes, index: Bytes)
    requires Sound(f) && BlocksOK(f.codec, groups, metas, parts, len) && all == Flatten(groups)
    requires Packable(|file|, all) && len <= |file|
    requires index == EncodeIndex(f, metas) && info.indexLen == |index| && info.indexOffset + |index| <= |file|
    requires file[info.indexOffset..info.indexOffset + |index|] == index
    ensures ReadIndex(f, info, file) == Some(metas)
  {
    hide Sound, BlocksOK, EncodeIndex, DecodeIndex, IndexFits, Flatten;
    MetasFit(f.codec, groups, metas, parts, len, all);
    IndexRoundTrip(f, metas);
  }

  lemma InfoPart(f: Format, info: Info, file: Bytes, all: seq<RowEntry>, at: nat)
    requires Sound(f) && Packable(|file|, all) && |file| < TWO32
    requires info.firstKey == if all == [] then [] else all[0].key
    requires info.filterOffset <= |file| && info.filterLen <= |file|
    requires info.indexOffset <= |file| && info.indexLen <= |file|
    requires at <= |file| - 4 && file[at..|file| - 4] == EncodeInfo(f, info)
    requires file[|file| - 4..] == BigEndian(at % TWO32, 4)
    ensures ReadInfo(f, file) == Some(info)
  {
    hide Sound, BigEndian, Number, EncodeInfo, DecodeInfo;
    Widths();
    NumberRoundTrip(at, 4);
    InfoRoundTrip(f, info);
  }

  lemma TailLaidOut(f: Format, info: Info, metas: seq<BlockMeta>, a: Bytes, filterBytes: Bytes, index: Bytes)
    requires index == EncodeIndex(f, metas)
    requires info.filterOffset == |a| && info.filterLen == |filterBytes|
    requires info.indexOffset == |a| + |filterBytes| && info.indexLen == |index|
    ensures var m := BigEndian((info.indexOffset + info.indexLen) % TWO32, 4);
      FileTail(f, a + (filterBytes + index + EncodeInfo(f, info) + m), info, metas)
  {
    hide BigEndian, EncodeIndex, EncodeInfo;
    var e, m := EncodeInfo(f, info), BigEndian((info.indexOffset + info.indexLen) % TWO32, 4);
    var file := a + (filterBytes + index + e + m);
    assert file == (a + filterBytes) + (index + (e + m));
    ThreePieces(a + filterBytes, index, e + m);
  }

  lemma ThreePieces(a: Bytes, b: Bytes, c: Bytes)
    ensures (a + (b + c))[|a|..|a| + |b|] == b && (a + (b + c))[|a| + |b|..] == c
  {
  }

  lemma SoundCodec(f: Format)
    requires Sound(f)
    ensures Lossless(f.codec)
  {
  }

  /** An index of packable entries within a packable file fits its fields. */
  lemma MetasFit(c: Codec, groups: seq<seq<RowEntry>>, metas: seq<BlockMeta>, parts: seq<Bytes>, len: nat,
                 all: seq<RowEntry>)
    requires BlocksOK(c, groups, metas, parts, len) && all == Flatten(groups) && len < TWO64
    requires |all| < TWO32 && forall i :: 0 <= i < |all| ==> |all[i].key| < TWO32
    ensures IndexFits(metas)
  {
    hide RowsBytes, EncodedBlock, Packed, BlockOf, Flatten;
    GroupCount(groups);
    forall i | 0 <= i < |metas| ensures metas[i].offset < TWO64 && |metas[i].firstKey| < TWO32 {
      PartSlice(parts, i, |parts|);
      assert parts[..|parts|] == parts;
      FlattenMember(groups, i, groups[i][0]);
      var j :| 0 <= j < |all| && all[j] == groups[i][0];
    }
  }

  lemma {:induction false} GroupCount(groups: seq<seq<RowEntry>>)
    requires NoneEmpty(groups)
    ensures |groups| <= |Flatten(groups)|
  {
    if groups != [] {
      GroupCount(groups[..|groups| - 1]);
    }
  }

  lemma FivePieces(a: Bytes, b: Bytes, c: Bytes, d: Bytes, e: Bytes)
    ensures var file, n := a + (b + c + d + e), |a| + |b|;
      && file[|a|..n] == b && file[n..n + |c|] == c
      && file[n + |c|..|file| - |e|] == d && file[|file| - |e|..] == e && a <= file
  {
    var file, n := a + (b + c + d + e), |a| + |b|;
    assert file[|a|..n] == b;
    assert file[n..n + |c|] == c;
    assert file[n + |c|..|file| - |e|] == d;
    assert file[|file| - |e|..] == e;
  }

  lemma BlocksLaidOut(c: Codec, groups: seq<seq<RowEntry>>, metas: seq<BlockMeta>, parts: seq<Bytes>, len: nat,
                      info: Info, file: Bytes)
    requires BlocksOK(c, groups, metas, parts, len) && info.filterOffset == len && Flatten(parts) <= file
    ensures LaidOut(file, info, metas, parts)
  {
    hide Flatten, Packed, EncodedBlock;
    assert parts[..|parts|] == parts;
  }

  lemma MoveLast<T>(a: seq<T>, b: seq<T>, e: T)
    ensures a + (b + [e]) == (a + b) + [e]
  {
  }

  lemma MoveFirst(a: seq<Bytes>, b: seq<Bytes>)
    requires b != []
    ensures a + b == (a + [b[0]]) + b[1..]
  {
  }

  lemma HashesSnoc(f: Format, s: seq<RowEntry>, e: RowEntry)
    ensures Hashes(f, s + [e]) == Hashes(f, s) + [f.hash(e.key)]
  {
  }

  function Hashes(f: Format, s: seq<RowEntry>): seq<Hash> {
    seq<Hash>(|s|, i requires 0 <= i < |s| => f.hash(s[i].key))
  }
}
