/** Blocks of prefix-compressed rows with 16-bit offsets (internal/sstable/block/block.go). */
module Blocks {
  import opened Types
  import opened RowCodec

  // ---- the rows of a block

  /** The row the builder makes of the i-th entry: the first key in full, every other key without
      what it shares with the first. */
  function EntryRow(s: seq<RowEntry>, i: nat): Row
    requires i < |s|
  {
    var p := if i == 0 then 0 else PrefixLen(s[0].key, s[i].key);
    Row(0, ZeroTime, ZeroTime, s[i].value, p, s[i].key[p..])
  }

  /** Each row but the first leaves out exactly what its key shares with the first key, as far as 16 bits
      count it, and keeps the rest. */
  lemma RowDropsPrefix(s: seq<RowEntry>, i: nat)
    requires i < |s|
    ensures var r, a, b := EntryRow(s, i), s[0].key, s[i].key;
      && r.value == s[i].value && r.prefixLen <= |b| && r.suffix == b[r.prefixLen..]
      && (i == 0 ==> r.prefixLen == 0)
      && (i > 0 && |a| < TWO16 ==>
            && r.prefixLen <= |a| && a[..r.prefixLen] == b[..r.prefixLen]
            && (r.prefixLen == |a| || r.prefixLen == |b| || a[r.prefixLen] != b[r.prefixLen]))
  {
    LcpSplits(s[0].key, s[i].key);
  }

  /** computePrefixLen: the common prefix, its length truncated to 16 bits. */
  function PrefixLen(first: Key, key: Key): (p: nat)
    ensures p <= |key| && p <= |first| && p < TWO16
  {
    LcpSplits(first, key);
    ModAtMost(Lcp(first, key));
    Lcp(first, key) % TWO16
  }

  lemma ModAtMost(n: nat)
    ensures n % TWO16 <= n
  {
  }

  function RowsBytes(s: seq<RowEntry>): Bytes {
    if s == [] then [] else RowsBytes(s[..|s| - 1]) + Encode(EntryRow(s, |s| - 1))
  }

  /** Where the i-th row starts. */
  function RowStart(s: seq<RowEntry>, i: nat): nat
    requires i <= |s|
  {
    |RowsBytes(s[..i])|
  }

  /** The row bytes from the i-th row on: that row, then more. */
  lemma {:induction false} RowsFrom(s: seq<RowEntry>, i: nat) returns (rest: Bytes)
    requires i < |s|
    ensures RowStart(s, i) <= |RowsBytes(s)| && RowsBytes(s)[RowStart(s, i)..] == Encode(EntryRow(s, i)) + rest
  {
    hide Encode;
    var n := |s| - 1;
    var init := s[..n];
    var last := Encode(EntryRow(s, n));
    if i == n {
      rest := [];
      assert RowsBytes(s)[|RowsBytes(init)|..] == last == last + [];
    } else {
      var r := RowsFrom(init, i);
      rest := r + last;
      assert init[..i] == s[..i];
      assert EntryRow(init, i) == EntryRow(s, i);
      var a, b := RowsBytes(init), RowStart(s, i);
      assert (a + last)[b..] == a[b..] + last;
      assert Encode(EntryRow(s, i)) + r + last == Encode(EntryRow(s, i)) + (r + last);
    }
  }

  /** Keys are not empty and every length fits its field. */
  ghost predicate EntriesFit(s: seq<RowEntry>) {
    forall i :: 0 <= i < |s| ==> Storable(s[i])
  }

  /** Every entry can be read at its row start: the key through PeekAtKey and the whole row through
      Decode, both with the full key restored from the first one. */
  lemma RowReads(s: seq<RowEntry>, i: nat)
    requires i < |s| && EntriesFit(s)
    ensures RowStart(s, i) <= |RowsBytes(s)|
    ensures var data, row := RowsBytes(s)[RowStart(s, i)..], EntryRow(s, i);
      && PeekAtKey(data, s[0].key) == Ok(Peeked(row.prefixLen, row.suffix))
      && Decode(data, s[0].key) == Ok(row)
      && FullKey(row.prefixLen, row.suffix, s[0].key) == s[i].key
      && (i == 0 ==> PeekAtKey(data, []) == Ok(Peeked(0, s[0].key)) && Decode(data, []) == Ok(row))
  {
    hide Encode, PeekAtKey, Decode, RowsBytes;
    var rest := RowsFrom(s, i);
    var row := EntryRow(s, i);
    RowFits(s, i);
    hide EntryRow, EntriesFit;
    PeekRoundTrip(row, rest, s[0].key);
    RowRoundTrip(row, rest, s[0].key);
    if i == 0 {
      PeekRoundTrip(row, rest, []);
      RowRoundTrip(row, rest, []);
    }
  }

  lemma RowFits(s: seq<RowEntry>, i: nat)
    requires i < |s| && EntriesFit(s)
    ensures var row := EntryRow(s, i);
      && Fits(row) && StoredTime(row.expireAt) == row.expireAt && StoredTime(row.createdAt) == row.createdAt
      && row.prefixLen <= |s[0].key| % TWO16 && row.prefixLen <= |s[0].key|
      && FullKey(row.prefixLen, row.suffix, s[0].key) == s[i].key
      && (i == 0 ==> row.prefixLen == 0 && row.suffix == s[0].key)
  {
    assert Storable(s[0]) && Storable(s[i]);
    hide EntriesFit, Lcp;
    LcpSplits(s[0].key, s[i].key);
    var p := EntryRow(s, i).prefixLen;
    assert s[0].key[..p] == s[i].key[..p];
    assert s[i].key[..p] + s[i].key[p..] == s[i].key;
  }

  // ---- blocks

  datatype Block = Block(firstKey: Key, data: Bytes, offsets: seq<nat>)

  /** The block has the rows of the entries, and no offset was truncated. */
  ghost predicate Packed(b: Block, s: seq<RowEntry>) {
    && s != [] && (forall i :: 0 <= i < |s| ==> s[i].key != [])
    && b.data == RowsBytes(s)
    && |b.offsets| == |s| < TWO16
    && (|s| > 1 ==> |b.data| < TWO16)
    && forall i :: 0 <= i < |s| ==> b.offsets[i] == RowStart(s, i) < TWO16
  }

  /** A row that does not fit its fields is alone in its block. */
  lemma AloneIfLong(b: Block, s: seq<RowEntry>)
    requires Packed(b, s) && |s| > 1
    ensures EntriesFit(s)
  {
    hide RowsBytes, Encode;
    forall i | 0 <= i < |s| ensures Storable(s[i]) {
      RowSizes(s, 0);
      RowSizes(s, i);
      FirstStart(s);
      if i > 0 { StartsAfterFirst(s, i); }
    }
  }

  /** The i-th row ends within the data. */
  lemma RowSizes(s: seq<RowEntry>, i: nat)
    requires i < |s|
    ensures RowStart(s, i) + Size(EntryRow(s, i)) <= |RowsBytes(s)|
  {
    var rest := RowsFrom(s, i);
  }

  lemma {:induction false} StartsAfterFirst(s: seq<RowEntry>, i: nat)
    requires 0 < i <= |s|
    ensures RowStart(s, i) >= Size(EntryRow(s, 0))
  {
    hide Encode;
    var t := s[..i];
    assert t[..i - 1] == s[..i - 1];
    assert EntryRow(t, i - 1) == EntryRow(s, i - 1);
    if i > 1 {
      StartsAfterFirst(s, i - 1);
    } else {
      assert RowsBytes(t[..0]) == [];
    }
  }

  class Builder {
    const blockSize: nat
    var offsets: seq<nat>
    var data: Bytes
    var firstKey: Key
    ghost var entries: seq<RowEntry>

    ghost predicate Valid()
      reads this
    {
      && data == RowsBytes(entries)
      && |offsets| == |entries|
      && (forall i :: 0 <= i < |entries| ==> offsets[i] == RowStart(entries, i) % TWO16)
      && firstKey == (if entries == [] then [] else entries[0].key)
      && (forall i :: 0 <= i < |entries| ==> entries[i].key != [])
      && (|entries| > 1 ==> CurBlockSize() <= blockSize)
    }

    function CurBlockSize(): nat
      reads this
    {
      2 + |offsets| * 2 + |data|
    }

    /** The block is empty, or the entry still fits. */
    ghost predicate Accepts(key: Key, value: Value)
      reads this
    {
      entries == [] || CurBlockSize() + 2 + Size(EntryRow(entries + [RowEntry(key, value)], |entries|)) <= blockSize
    }

    constructor (blockSize: nat)
      ensures Valid() && entries == [] && this.blockSize == blockSize
    {
      this.blockSize, offsets, data, firstKey, entries := blockSize, [], [], [], [];
    }

    /** Refuses an entry exactly when the block is not empty and, with the entry, would take more bytes than
        its size before compression. */
    method Add(key: Key, value: Value) returns (added: bool)
      requires Valid() && key != []
      modifies this
      ensures Valid()
      ensures added <==> old(Accepts(key, value))
      ensures entries == if added then old(entries) + [RowEntry(key, value)] else old(entries)
      ensures added <==> old(entries) == [] || |RawBlock(old(entries) + [RowEntry(key, value)])| <= blockSize
    {
      hide Encode, RowsBytes;
      ghost var s := entries + [RowEntry(key, value)];
      var p := ComputePrefixChunks(firstKey, key, 128);
      LcpSplits(firstKey, key);
      ModAtMost(Lcp(firstKey, key));
      var row := Row(0, ZeroTime, ZeroTime, value, p, key[p..]);
      assert row == EntryRow(s, |entries|);
      AppendRow(entries, RowEntry(key, value));
      RawSize(s);
      if CurBlockSize() + 2 + Size(row) > blockSize && |offsets| != 0 {
        return false;
      }
      offsets := offsets + [|data| % TWO16];
      data := data + Encode(row);
      if firstKey == [] {
        firstKey := key;
      }
      entries := s;
      return true;
    }

    /** An empty value is added as a tombstone. */
    method AddValue(key: Key, value: Bytes) returns (added: bool)
      requires Valid() && key != []
      modifies this
      ensures Valid()
      ensures added <==> old(Accepts(key, Persist(KeyValue(value))))
      ensures entries == if added then old(entries) + [RowEntry(key, Persist(KeyValue(value)))] else old(entries)
    {
      if |value| == 0 {
        added := Add(key, Tombstone);
      } else {
        added := Add(key, KeyValue(value));
      }
    }

    /** With a block size of at most 65535, only a block of one row can exceed it, so no offset and
        no count is truncated. */
    method Build() returns (b: Option<Block>)
      requires Valid()
      ensures b.None? <==> entries == []
      ensures b.Some? && blockSize < TWO16 ==> Packed(b.value, entries)
      ensures b.Some? ==> b.value.firstKey == entries[0].key
    {
      hide RowsBytes;
      if |offsets| == 0 {
        return None;
      }
      b := Some(Block(firstKey, data, offsets));
      if blockSize < TWO16 {
        StartsFit(entries, blockSize);
      }
    }
  }

  /** The bytes of a block of the entries before compression. */
  function RawBlock(s: seq<RowEntry>): Bytes {
    BlockBytes(Block([], RowsBytes(s), seq(|s|, i requires 0 <= i < |s| => RowStart(s, i) % TWO16)))
  }

  lemma RawSize(s: seq<RowEntry>)
    ensures |RawBlock(s)| == |RowsBytes(s)| + 2 * |s| + 2
  {
    hide RowsBytes, BigEndian;
  }

  lemma AppendRow(s: seq<RowEntry>, e: RowEntry)
    ensures RowsBytes(s + [e]) == RowsBytes(s) + Encode(EntryRow(s + [e], |s|))
    ensures forall i :: 0 <= i <= |s| ==> RowStart(s + [e], i) == RowStart(s, i)
    ensures RowStart(s, |s|) == |RowsBytes(s)|
  {
    hide Encode;
    assert (s + [e])[..|s|] == s && s[..|s|] == s;
    forall i | 0 <= i <= |s| ensures RowStart(s + [e], i) == RowStart(s, i) {
      assert (s + [e])[..i] == s[..i];
    }
  }

  lemma {:induction false} StartsRise(s: seq<RowEntry>, i: nat)
    requires i <= |s|
    ensures RowStart(s, i) + 13 * (|s| - i) <= |RowsBytes(s)|
    decreases |s| - i
  {
    assert s[..|s|] == s;
    if i < |s| {
      StartsRise(s, i + 1);
      assert s[..i + 1][..i] == s[..i];
      assert EntryRow(s[..i + 1], i) == EntryRow(s, i);
    }
  }

  lemma StartsFit(s: seq<RowEntry>, blockSize: nat)
    requires s != [] && blockSize < TWO16
    requires |s| > 1 ==> 2 + |s| * 2 + |RowsBytes(s)| <= blockSize
    ensures |s| < TWO16 && forall i :: 0 <= i < |s| ==> RowStart(s, i) < TWO16
  {
    forall i | 0 <= i < |s| ensures RowStart(s, i) < TWO16 {
      StartsRise(s, i);
      if |s| == 1 { assert s[..0] == []; }
    }
  }

  // ---- encoding

  /** The compression codec and the checksum, which are not part of this model. */
  datatype Codec = Codec(compress: Bytes -> Bytes, decompress: Bytes -> Option<Bytes>, checksum: Bytes -> nat)

  ghost predicate Lossless(c: Codec) {
    && (forall b: Bytes :: c.decompress(c.compress(b)) == Some(b))
    && (forall b: Bytes :: |b| >= 2 ==> |c.compress(b)| >= 2)
    && (forall b: Bytes :: c.checksum(b) < TWO32)
  }

  function OffsetBytes(offsets: seq<nat>): (b: Bytes)
    ensures |b| == 2 * |offsets|
  {
    if offsets == [] then [] else OffsetBytes(offsets[..|offsets| - 1]) + BigEndian(offsets[|offsets| - 1], 2)
  }

  function BlockBytes(b: Block): Bytes {
    b.data + OffsetBytes(b.offsets) + BigEndian(|b.offsets| % TWO16, 2)
  }

  function Sealed(c: Codec, raw: Bytes): Bytes {
    c.compress(raw) + BigEndian(c.checksum(c.compress(raw)), 4)
  }

  function EncodedBlock(c: Codec, b: Block): Bytes {
    Sealed(c, BlockBytes(b))
  }

  method EncodeBlock(c: Codec, b: Block) returns (out: Bytes)
    ensures out == EncodedBlock(c, b)
  {
    var buf := b.data;
    for i := 0 to |b.offsets|
      invariant buf == b.data + OffsetBytes(b.offsets[..i])
    {
      assert b.offsets[..i + 1][..i] == b.offsets[..i];
      buf := buf + BigEndian(b.offsets[i], 2);
    }
    assert b.offsets[..|b.offsets|] == b.offsets;
    buf := buf + BigEndian(|b.offsets| % TWO16, 2);
    var compressed := c.compress(buf);
    out := compressed + BigEndian(c.checksum(compressed), 4);
  }

  /** The checksum is compared and the payload decompressed. */
  function Unsealed(c: Codec, input: Bytes): Option<Bytes>
    requires |input| >= 4
  {
    var z := input[..|input| - 4];
    if Number(input[|input| - 4..]) != c.checksum(z) then None else c.decompress(z)
  }

  lemma SealRoundTrip(c: Codec, raw: Bytes)
    requires Lossless(c) && |raw| >= 2
    ensures |Sealed(c, raw)| >= 6 && Unsealed(c, Sealed(c, raw)) == Some(raw)
  {
    hide BigEndian, Number;
    var z := c.compress(raw);
    assert c.checksum(z) < TWO32 && |z| >= 2;
    Widths();
    NumberRoundTrip(c.checksum(z), 4);
    Cut(z, BigEndian(c.checksum(z), 4));
  }

  /** The offset of the i-th row in a block's decompressed bytes. */
  function OffsetAt(buf: Bytes, start: nat, i: nat): nat
    requires start + 2 * i + 2 <= |buf|
  {
    Number(buf[start + 2 * i..start + 2 * i + 2])
  }

  /** The first key is read with the prefix-length field for its length; the sums are 16-bit. */
  function WithFirstKey(data: Bytes, offsets: seq<nat>): Decoded<Block>
    requires offsets != []
  {
    var o := offsets[0];
    if |data| < o + 2 then Panic else
      var keyLen := Number(data[o..o + 2]);
      var lo, hi := (o + 2) % TWO16, (o + 2 + keyLen) % TWO16;
      if lo <= hi <= |data| then Ok(Block(data[lo..hi], data, offsets)) else Panic
  }

  /** A first row at offset 65534 has its first key looked for at the start of the data. */
  lemma FirstKeySumsWrap(data: Bytes, offsets: seq<nat>)
    requires offsets != [] && offsets[0] == 65534 && |data| >= 65536
    ensures var n := Number(data[65534..65536]); n <= |data| ==>
      WithFirstKey(data, offsets) == Ok(Block(data[..n], data, offsets))
  {
    Widths();
    NumberBound(data[65534..65536]);
    assert data[0..Number(data[65534..65536])] == data[..Number(data[65534..65536])];
  }

  /** Splits decompressed bytes into rows and offsets. */
  function ParsedBlock(buf: Bytes): Decoded<Block> {
    if |buf| < 2 then Corrupt else
      var count := Number(buf[|buf| - 2..]);
      var start: int := |buf| - 2 - count * 2;
      if start <= 0 then Corrupt else
        var offsets := seq(count, i requires 0 <= i < count => OffsetAt(buf, start, i));
        if exists i :: 0 <= i < count && offsets[i] > start % TWO16 then Corrupt
        else if count == 0 then Corrupt
        else WithFirstKey(buf[..start], offsets)
  }

  function DecodedBlock(c: Codec, input: Bytes): Decoded<Block> {
    if |input| < 6 then Corrupt else
      match Unsealed(c, input)
      case None => Corrupt
      case Some(buf) => ParsedBlock(buf)
  }

  method DecodeBlock(c: Codec, input: Bytes) returns (r: Decoded<Block>)
    ensures r == DecodedBlock(c, input)
  {
    hide Number, WithFirstKey, Unsealed;
    if |input| < 6 {
      return Corrupt;
    }
    var unsealed := Unsealed(c, input);
    if unsealed.None? {
      return Corrupt;
    }
    var buf := unsealed.value;
    if |buf| < 2 {
      return Corrupt;
    }
    var count := Number(buf[|buf| - 2..]);
    var start: int := |buf| - 2 - count * 2;
    if start <= 0 {
      return Corrupt;
    }
    var offsets: seq<nat> := [];
    for i := 0 to count
      invariant |offsets| == i
      invariant forall j :: 0 <= j < i ==> offsets[j] == OffsetAt(buf, start, j) <= start % TWO16
    {
      var offset := OffsetAt(buf, start, i);
      ghost var all := seq(count, j requires 0 <= j < count => OffsetAt(buf, start, j));
      assert all[i] == offset;
      if offset > start % TWO16 {
        return Corrupt;
      }
      offsets := offsets + [offset];
    }
    assert offsets == seq(count, j requires 0 <= j < count => OffsetAt(buf, start, j));
    if |offsets| == 0 {
      return Corrupt;
    }
    r := WithFirstKey(buf[..start], offsets);
  }

  // ---- round trip

  lemma {:induction false} OffsetBytesAt(offsets: seq<nat>, i: nat)
    requires i < |offsets|
    ensures OffsetBytes(offsets)[2 * i..2 * i + 2] == BigEndian(offsets[i], 2)
  {
    var n := |offsets| - 1;
    if i < n {
      OffsetBytesAt(offsets[..n], i);
    }
  }

  lemma OffsetReads(b: Block, i: nat)
    requires i < |b.offsets| && b.offsets[i] < TWO16
    ensures OffsetAt(BlockBytes(b), |b.data|, i) == b.offsets[i]
  {
    hide OffsetBytes, BigEndian, Number;
    OffsetBytesAt(b.offsets, i);
    var n := |b.data| + 2 * i;
    assert BlockBytes(b)[n..n + 2] == OffsetBytes(b.offsets)[2 * i..2 * i + 2];
    Widths();
    NumberRoundTrip(b.offsets[i], 2);
  }

  lemma FirstKeyIsLost(b: Block, s: seq<RowEntry>)
    requires Packed(b, s)
    ensures WithFirstKey(b.data, b.offsets) == Ok(Block([], b.data, b.offsets))
  {
    hide RowsBytes, Number, PeekAtKey, Encode;
    FirstPeek(s);
    assert b.offsets[0] == 0 by { assert s[..0] == []; FirstStart(s); }
    PeekZero(b.data, KeptSuffix(s[0].key));
    assert b.data[2..2] == [];
  }

  /** The first row has no prefix; peeking gives its key, as far as the length field covers it. */
  lemma FirstPeek(s: seq<RowEntry>)
    requires s != []
    ensures forall first :: PeekAtKey(RowsBytes(s), first) == Ok(Peeked(0, KeptSuffix(s[0].key)))
  {
    hide RowsBytes, PeekAtKey, Encode;
    var rest := RowsFrom(s, 0);
    FirstStart(s);
    assert RowsBytes(s)[0..] == RowsBytes(s);
    assert s[0].key[0..] == s[0].key;
    forall first ensures PeekAtKey(RowsBytes(s), first) == Ok(Peeked(0, KeptSuffix(s[0].key))) {
      PeekAny(EntryRow(s, 0), rest, first);
    }
  }

  lemma FirstStart(s: seq<RowEntry>)
    requires s != []
    ensures RowStart(s, 0) == 0
  {
  }

  lemma PeekZero(data: Bytes, suffix: Key)
    requires PeekAtKey(data, []) == Ok(Peeked(0, suffix))
    ensures |data| >= 4 && Number(data[0..2]) == 0
  {
    assert data[..2] == data[0..2];
  }

  /** A block of any entries reads back with the same rows and offsets. Its first key does not: the
      decoder takes the prefix length of the first row, which is zero, for the key's length. */
  lemma BlockRoundTrip(c: Codec, b: Block, s: seq<RowEntry>)
    requires Lossless(c) && Packed(b, s)
    ensures DecodedBlock(c, EncodedBlock(c, b)) == Ok(b.(firstKey := []))
    ensures Packed(b.(firstKey := []), s)
  {
    hide BigEndian, Number, OffsetBytes, WithFirstKey, Unsealed, Sealed, RowsBytes, RowStart, EntriesFit, Lossless,
         OffsetAt;
    SealRoundTrip(c, BlockBytes(b));
    var buf, n := BlockBytes(b), |s|;
    Widths();
    NumberRoundTrip(n, 2);
    assert buf[|buf| - 2..] == BigEndian(n, 2);
    assert buf[..|b.data|] == b.data;
    assert |b.data| > 0 by { SomeBytes(s); }
    var offsets := seq(n, i requires 0 <= i < n => OffsetAt(buf, |b.data|, i));
    forall i | 0 <= i < n ensures offsets[i] == b.offsets[i] && b.offsets[i] <= |b.data| % TWO16 {
      OffsetReads(b, i);
      if n == 1 { FirstStart(s); } else { StartInData(s, i); }
    }
    assert offsets == b.offsets;
    FirstKeyIsLost(b, s);
  }

  lemma SomeBytes(s: seq<RowEntry>)
    requires s != []
    ensures |RowsBytes(s)| > 0
  {
  }

  lemma StartInData(s: seq<RowEntry>, i: nat)
    requires i < |s|
    ensures RowStart(s, i) <= |RowsBytes(s)|
  {
    StartsRise(s, i);
  }
}
