/** The default configuration meets what the table readers and writers assume: no compression, any
    32-bit checksum and any hash. For the FlatBuffers packing of index and info a fixed-width one stands
    in, with 64-bit offsets and 32-bit key lengths. */
module Formats {
  import opened Types
  import opened RowCodec
  import opened Blocks
  import opened Bloom
  import opened SSTables

  /** CodecNone: the bytes are stored as they are. */
  function NoCompression(checksum: Bytes -> nat): Codec {
    Codec((b: Bytes) => b, (b: Bytes) => Some(b), checksum)
  }

  lemma NoCompressionIsLossless(checksum: Bytes -> nat)
    requires forall b: Bytes :: checksum(b) < TWO32
    ensures Lossless(NoCompression(checksum))
  {
  }

  // ---- fixed-width fields

  function ReadField(b: Bytes, w: nat): Option<(nat, Bytes)> {
    if |b| < w then None else Some((Number(b[..w]), b[w..]))
  }

  lemma FieldReads(n: nat, w: nat, rest: Bytes)
    requires n < Pow256(w)
    ensures ReadField(BigEndian(n, w) + rest, w) == Some((n, rest))
  {
    hide BigEndian, Number;
    NumberRoundTrip(n, w);
    Cut(BigEndian(n, w), rest);
  }

  function PackKey(k: Key): Bytes {
    BigEndian(|k| % TWO32, 4) + k
  }

  function ReadKey(b: Bytes): Option<(Key, Bytes)> {
    var n := ReadField(b, 4);
    if n.None? || n.value.0 > |n.value.1| then None
    else Some((n.value.1[..n.value.0], n.value.1[n.value.0..]))
  }

  lemma KeyReads(k: Key, rest: Bytes)
    requires |k| < TWO32
    ensures ReadKey(PackKey(k) + rest) == Some((k, rest))
  {
    hide BigEndian, ReadField;
    Widths();
    FieldReads(|k|, 4, k + rest);
    assert PackKey(k) + rest == BigEndian(|k|, 4) + (k + rest);
    Cut(k, rest);
  }

  // ---- the index

  function PackIndex(metas: seq<BlockMeta>): (b: Bytes)
    ensures |b| >= 2
  {
    if metas == [] then [0, 0]
    else [1] + (BigEndian(metas[0].offset % TWO64, 8) + (PackKey(metas[0].firstKey) + PackIndex(metas[1..])))
  }

  function UnpackIndex(b: Bytes): Option<seq<BlockMeta>>
    decreases |b|
  {
    if b == [] then None
    else if b[0] == 0 then Some([])
    else
      var offset := ReadField(b[1..], 8);
      if offset.None? then None else
        var key := ReadKey(offset.value.1);
        if key.None? || |key.value.1| >= |b| then None else
          var rest := UnpackIndex(key.value.1);
          if rest.None? then None else Some([BlockMeta(offset.value.0, key.value.0)] + rest.value)
  }

  lemma {:induction false} IndexReads(metas: seq<BlockMeta>)
    requires forall i :: 0 <= i < |metas| ==> metas[i].offset < TWO64 && |metas[i].firstKey| < TWO32
    ensures UnpackIndex(PackIndex(metas)) == Some(metas)
  {
    if metas != [] {
      IndexReads(metas[1..]);
      FirstMetaReads(metas);
      hide PackIndex, BigEndian, ReadField, ReadKey, PackKey;
      assert [metas[0]] + metas[1..] == metas;
    }
  }

  lemma FirstMetaReads(metas: seq<BlockMeta>)
    requires metas != [] && metas[0].offset < TWO64 && |metas[0].firstKey| < TWO32
    ensures var b, tail := PackIndex(metas), PackIndex(metas[1..]);
      && b[0] == 1 && |tail| < |b|
      && ReadField(b[1..], 8) == Some((metas[0].offset, PackKey(metas[0].firstKey) + tail))
      && ReadKey(PackKey(metas[0].firstKey) + tail) == Some((metas[0].firstKey, tail))
  {
    hide BigEndian, ReadField, ReadKey, PackKey;
    Widths();
    var tail := PackIndex(metas[1..]);
    var key := PackKey(metas[0].firstKey) + tail;
    assert PackIndex(metas)[1..] == BigEndian(metas[0].offset, 8) + key;
    FieldReads(metas[0].offset, 8, key);
    KeyReads(metas[0].firstKey, tail);
  }

  // ---- the info

  function PackInfo(i: Info): (b: Bytes)
    ensures |b| >= 2
  {
    PackKey(i.firstKey) + (BigEndian(i.indexOffset % TWO64, 8) + (BigEndian(i.indexLen % TWO64, 8)
      + (BigEndian(i.filterOffset % TWO64, 8) + (BigEndian(i.filterLen % TWO64, 8) + []))))
  }

  function UnpackInfo(b: Bytes): Option<Info> {
    var k := ReadKey(b);
    if k.None? then None else
      var o := ReadField(k.value.1, 8);
      if o.None? then None else
        var l := ReadField(o.value.1, 8);
        if l.None? then None else
          var fo := ReadField(l.value.1, 8);
          if fo.None? then None else
            var fl := ReadField(fo.value.1, 8);
            if fl.None? then None else Some(Info(k.value.0, o.value.0, l.value.0, fo.value.0, fl.value.0))
  }

  lemma InfoReads(i: Info)
    requires InfoFits(i)
    ensures UnpackInfo(PackInfo(i)) == Some(i)
  {
    hide BigEndian, ReadField, ReadKey, PackKey;
    Widths();
    var d := BigEndian(i.filterLen, 8) + [];
    var c := BigEndian(i.filterOffset, 8) + d;
    var b := BigEndian(i.indexLen, 8) + c;
    var a := BigEndian(i.indexOffset, 8) + b;
    KeyReads(i.firstKey, a);
    FieldReads(i.indexOffset, 8, b);
    FieldReads(i.indexLen, 8, c);
    FieldReads(i.filterOffset, 8, d);
    FieldReads(i.filterLen, 8, []);
  }

  // ---- the format

  function DefaultFormat(checksum: Bytes -> nat, hash: Key -> Hash): Format {
    Format(NoCompression(checksum), hash, PackIndex, UnpackIndex, PackInfo, UnpackInfo)
  }

  lemma DefaultFormatIsSound(checksum: Bytes -> nat, hash: Key -> Hash)
    requires forall b: Bytes :: checksum(b) < TWO32
    ensures Sound(DefaultFormat(checksum, hash))
  {
    hide PackIndex, UnpackIndex, PackInfo, UnpackInfo, InfoFits;
    NoCompressionIsLossless(checksum);
    forall x | IndexFits(x) ensures UnpackIndex(PackIndex(x)) == Some(x) { IndexReads(x); }
    forall x | InfoFits(x) ensures UnpackInfo(PackInfo(x)) == Some(x) { InfoReads(x); }
  }
}
