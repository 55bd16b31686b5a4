/** Iterating over a block and seeking in it (internal/sstable/block/iterator.go). Blocks may have rows
    whose lengths do not fit their fields; what is read then is whatever the truncated lengths say. */
module BlockIterators {
  import opened Types
  import opened Keys
  import opened RowCodec
  import opened Scans
  import opened Blocks

  function Head(s: seq<RowEntry>): Option<RowEntry> {
    if s == [] then None else Some(s[0])
  }

  /** The first key as the block's iterators see it. */
  function FirstOf(s: seq<RowEntry>): Key
    requires s != []
  {
    KeptSuffix(s[0].key)
  }

  // ---- the iterator

  class BlockIterator {
    const block: Block
    var offsetIndex: nat
    var firstKey: Key  // empty until the first row was read
    ghost const entries: seq<RowEntry>

    ghost predicate Valid()
      reads this
    {
      && Packed(block, entries)
      && offsetIndex <= |entries|
      && (firstKey == FirstOf(entries) || (firstKey == [] && offsetIndex == 0))
    }

    /** What the rows from the current one on read as. */
    ghost function Remaining(): seq<RowEntry>
      reads this
      requires Valid()
    {
      Scanned(entries[offsetIndex..])
    }

    /** NewIterator: starts at the first row. */
    constructor (block: Block, ghost s: seq<RowEntry>)
      requires Packed(block, s)
      ensures Valid() && Remaining() == Scanned(s) && entries == s && this.block == block
    {
      this.block, offsetIndex, firstKey, entries := block, 0, [], s;
      assert s[0..] == s;
    }

    constructor At(block: Block, ghost s: seq<RowEntry>, index: nat, firstKey: Key)
      requires Packed(block, s) && index <= |s| && firstKey == FirstOf(s)
      ensures Valid() && Remaining() == Scanned(s[index..]) && entries == s && this.block == block
    {
      this.block, offsetIndex, this.firstKey, entries := block, index, firstKey, s;
    }

    /** Yields what the rows read as, one by one, keys in full. An error ends the block; the decoder never
        runs out of bounds. */
    method NextEntry() returns (r: Option<RowEntry>)
      requires Valid()
      modifies this
      ensures Valid() && r == Head(old(Remaining()))
      ensures r.Some? ==> Remaining() == old(Remaining())[1..]
    {
      hide RowsBytes, Decode, RowStart, EntriesFit, Packed, Scanned, KeptSuffix;
      PackedParts(block, entries);
      if offsetIndex >= |block.offsets| {
        assert entries[offsetIndex..] == [];
        ScannedNone();
        return None;
      }
      var offset := block.offsets[offsetIndex];
      DecodedRow(block, entries, offsetIndex, firstKey);
      match Decode(block.data[offset..], firstKey) {
        case Ok(row) =>
          if firstKey == [] {
            firstKey := FullKey(row.prefixLen, row.suffix, []);
          }
          r := Some(RowEntry(FullKey(row.prefixLen, row.suffix, firstKey), row.value));
          offsetIndex := offsetIndex + 1;
        case Corrupt =>
          r := None;
        case Panic =>
          assert false;
      }
    }
  }

  lemma ScannedNone()
    ensures Scanned([]) == []
  {
  }

  lemma PackedParts(b: Block, s: seq<RowEntry>)
    requires Packed(b, s)
    ensures |b.offsets| == |s| > 0 && s[0].key != []
    ensures !EntriesFit(s) ==> |s| == 1
  {
    if |s| > 1 { AloneIfLong(b, s); }
  }

  /** The entry of a decoded row. */
  function Restored(s: seq<RowEntry>, row: Row): RowEntry
    requires s != []
  {
    RowEntry(FullKey(if row.prefixLen <= |FirstOf(s)| then row.prefixLen else 0, row.suffix, FirstOf(s)), row.value)
  }

  /** What decoding row i gives, and what is left after it. */
  lemma DecodedRow(b: Block, s: seq<RowEntry>, i: nat, first: Key)
    requires Packed(b, s) && i < |s| && (first == FirstOf(s) || (first == [] && i == 0))
    ensures i < |b.offsets| && b.offsets[i] <= |b.data|
    ensures var d := Decode(b.data[b.offsets[i]..], first);
      && !d.Panic?
      && Scanned(s[i..]) == (if d.Ok? then [Restored(s, d.value)] + Scanned(s[i + 1..]) else [])
      && (d.Ok? ==> d.value.prefixLen <= |first| && d.value.prefixLen <= |FirstOf(s)|)
      && (d.Ok? && first == [] ==> d.value.prefixLen == 0 && d.value.suffix == FirstOf(s))
  {
    hide RowsBytes, Decode, PeekAtKey, RowStart, Storable, Scanned;
    PackedParts(b, s);
    if EntriesFit(s) {
      FitRow(b, s, i, first);
    } else {
      LongRowDecodes(b, s, first);
      assert s[0..] == s == [s[0]] && s[1..] == [];
      ScannedOne(s[0]);
      ScannedNone();
      var d := Decode(RowsBytes(s), []);
      if d.Ok? {
        assert Restored(s, d.value) == RowEntry(d.value.suffix, d.value.value);
      }
    }
  }

  lemma FitRow(b: Block, s: seq<RowEntry>, i: nat, first: Key)
    requires Packed(b, s) && EntriesFit(s) && i < |s| && (first == FirstOf(s) || (first == [] && i == 0))
    ensures i < |b.offsets| && b.offsets[i] <= |b.data| && FirstOf(s) == s[0].key != []
    ensures var d := Decode(b.data[b.offsets[i]..], first);
      && d.Ok? && d.value.prefixLen <= |s[0].key|
      && s[i] == RowEntry(FullKey(d.value.prefixLen, d.value.suffix, s[0].key), d.value.value)
      && (i == 0 ==> d.value.prefixLen == 0 && d.value.suffix == s[0].key)
    ensures Scanned(s[i..]) == [s[i]] + Scanned(s[i + 1..])
  {
    hide RowsBytes, Decode, PeekAtKey, RowStart, Scanned;
    RowReads(s, i);
    assert s[i..] == [s[i]] + s[i + 1..];
    ScannedFit(s[i..]);
    ScannedFit(s[i + 1..]);
    assert Storable(s[0]);
    RowFits(s, i);
  }

  /** A lone row decodes the same with either first key, and never out of bounds. */
  lemma LongRowDecodes(b: Block, s: seq<RowEntry>, first: Key)
    requires Packed(b, s) && |s| == 1
    ensures |b.offsets| == 1 && b.offsets[0] == 0 <= |b.data| && b.data[0..] == RowsBytes(s)
    ensures RowsBytes(s) == Encode(LoneRow(s[0]))
    ensures Decode(RowsBytes(s), first) == Decode(RowsBytes(s), []) && !Decode(RowsBytes(s), []).Panic?
    ensures var d := Decode(RowsBytes(s), []); d.Ok? ==> d.value.prefixLen == 0 && d.value.suffix == FirstOf(s)
  {
    hide Encode;
    FirstStart(s);
    assert b.offsets[0] == RowStart(s, 0);
    LoneBytes(s);
    LonePeek(s[0]);
    FirstPeek(s);
    hide PeekAtKey, RowsBytes;
    assert PeekAtKey(RowsBytes(s), first) == PeekAtKey(RowsBytes(s), []) == Ok(Peeked(0, FirstOf(s)));
    if Decode(RowsBytes(s), []).Ok? {
      DecodedFits(RowsBytes(s), []);
    }
  }

  lemma LoneBytes(s: seq<RowEntry>)
    requires |s| == 1
    ensures RowsBytes(s) == Encode(LoneRow(s[0]))
  {
    hide Encode;
    assert s[..0] == [] && s[0].key[0..] == s[0].key;
    assert [] + Encode(LoneRow(s[0])) == Encode(LoneRow(s[0]));
  }

  // ---- seeking

  /** firstFullKey: the first row with no prefix, which is row 0. */
  method FirstFullKey(block: Block, ghost s: seq<RowEntry>) returns (key: Key, index: nat)
    requires Packed(block, s)
    ensures key == FirstOf(s) && index == 0
  {
    hide RowsBytes, PeekAtKey, RowStart;
    FirstPeek(s);
    FirstStart(s);
    assert block.data[0..] == block.data;
    for i := 0 to |block.offsets|
      invariant i == 0
    {
      match PeekAtKey(block.data[block.offsets[i]..], []) {
        case Ok(p) =>
          if p.prefixLen == 0 {
            return p.suffix, i;
          }
        case _ =>
      }
    }
    assert false;
  }

  /** The key of row i, peeked at. The bound on the offset is compared in 16 bits. */
  function KeyAt(block: Block, first: Key, i: nat): Key {
    if i < |block.offsets| && block.offsets[i] <= |block.data| % TWO16 then
      match PeekAtKey(block.data[block.offsets[i]..], first)
      case Ok(p) => if p.prefixLen <= |first| then FullKey(p.prefixLen, p.suffix, first) else []
      case _ => []
    else []
  }

  /** The key by which the search skips row i. */
  ghost function SeekKey(s: seq<RowEntry>, i: nat): Key
    requires i < |s|
  {
    if EntriesFit(s) then s[i].key else FirstOf(s)
  }

  lemma KeyAtReads(block: Block, s: seq<RowEntry>, i: nat)
    requires Packed(block, s) && i < |s|
    ensures KeyAt(block, FirstOf(s), i) == SeekKey(s, i)
  {
    hide RowsBytes, PeekAtKey, RowStart, Storable;
    PackedParts(block, s);
    if |s| == 1 { FirstStart(s); } else { StartInData(s, i); }
    assert block.offsets[i] == RowStart(s, i) <= |block.data| % TWO16;
    if EntriesFit(s) {
      RowReads(s, i);
      FitRow(block, s, i, FirstOf(s));
    } else {
      FirstPeek(s);
      assert block.data[0..] == block.data;
    }
  }

  /** NewIteratorAtKey: a binary search over the rows by their peeked keys. The iterator yields exactly
      what the block reads as at or above the key, whether or not it is in the block. */
  method NewIteratorAtKey(block: Block, key: Key, ghost s: seq<RowEntry>) returns (iter: BlockIterator)
    requires Packed(block, s) && Sorted(s)
    ensures fresh(iter) && iter.Valid() && iter.entries == s && iter.Remaining() == AtOrAbove(Scanned(s), key)
  {
    hide Less, Packed, AtOrAbove, KeyAt, EntriesFit, Scanned;
    KeyOrder();
    PackedParts(block, s);
    var first, idx := FirstFullKey(block, s);
    if first == key {
      SeekFirst(s);
      FoundRows(s, key, 0);
      iter := new BlockIterator.At(block, s, 0, first);
      return;
    }
    var lo, hi := 0, |block.offsets|;
    while lo < hi
      invariant 0 <= lo <= hi <= |s|
      invariant lo > 0 ==> Less(SeekKey(s, lo - 1), key)
      invariant hi < |s| ==> !Less(SeekKey(s, hi), key)
    {
      var mid := (lo + hi) / 2;
      KeyAtReads(block, s, mid);
      if !Less(KeyAt(block, first, mid), key) {
        hi := mid;
      } else {
        lo := mid + 1;
      }
    }
    FoundRows(s, key, lo);
    iter := new BlockIterator.At(block, s, lo, first);
  }

  lemma SeekFirst(s: seq<RowEntry>)
    requires s != []
    ensures SeekKey(s, 0) == FirstOf(s)
  {
    if EntriesFit(s) { assert Storable(s[0]); }
  }

  /** The rows from the place that the search finds on. */
  lemma FoundRows(s: seq<RowEntry>, key: Key, i: nat)
    requires s != [] && Sorted(s) && i <= |s| && (!EntriesFit(s) ==> |s| == 1)
    requires i > 0 ==> Less(SeekKey(s, i - 1), key)
    requires i < |s| ==> !Less(SeekKey(s, i), key)
    ensures Scanned(s[i..]) == AtOrAbove(Scanned(s), key)
  {
    hide Less, AtOrAbove, Scanned, ReadRow, Storable, KeptSuffix;
    if EntriesFit(s) {
      ScannedFit(s);
      ScannedFit(s[i..]);
      SortedSuffix(s, key, i);
    } else {
      assert s == [s[0]];
      ScannedOne(s[0]);
      ReadRowFits(s[0]);
      var r := ReadRow(s[0]);
      if i == 0 {
        assert s[0..] == s;
        forall x | 0 <= x < |r| ensures !Less(r[x].key, key) { assert r[x] in r; }
        AtOrAboveAll(r, key);
      } else {
        assert s[1..] == [];
        ScannedNone();
        forall x | 0 <= x < |r| ensures Less(r[x].key, key) { assert r[x] in r; }
        AtOrAboveNone(r, key);
      }
    }
  }
}
