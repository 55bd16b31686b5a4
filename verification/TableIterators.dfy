/** Iterating over an SSTable and seeking in it by a binary search on the block index
    (internal/sstable/iterator.go). */
module TableIterators {
  import opened Types
  import opened History
  import opened Keys
  import opened Scans
  import opened Blocks
  import opened BlockIterators
  import opened SSTables

  // ---- blocks of a sorted table

  lemma SplitAt(groups: seq<seq<RowEntry>>, i: nat)
    requires i < |groups|
    ensures Flatten(groups) == Flatten(groups[..i]) + (groups[i] + Flatten(groups[i + 1..]))
    ensures Flatten(groups[i..]) == groups[i] + Flatten(groups[i + 1..])
  {
    hide Flatten;
    assert groups == groups[..i] + groups[i..] && groups[i..] == [groups[i]] + groups[i + 1..];
    FlattenConcat(groups[..i], groups[i..]);
    FlattenConcat([groups[i]], groups[i + 1..]);
    FlattenSnoc([], groups[i]);
    assert [groups[i]] == [] + [groups[i]];
    assert Flatten([groups[i]]) == groups[i] by { FlattenOne(groups[i]); }
  }

  lemma FlattenOne<T>(s: seq<T>)
    ensures Flatten([s]) == s
  {
    assert [s][..0] == [];
  }

  lemma SortedParts(a: seq<RowEntry>, b: seq<RowEntry>, c: seq<RowEntry>)
    requires Sorted(a + (b + c))
    ensures Sorted(a) && Sorted(b) && Sorted(c)
    ensures forall i, j :: 0 <= i < |a| && 0 <= j < |b| ==> Less(a[i].key, b[j].key)
  {
    hide Less;
    var s := a + (b + c);
    forall i, j | 0 <= i < j < |a| ensures Less(a[i].key, a[j].key) { assert s[i] == a[i] && s[j] == a[j]; }
    forall i, j | 0 <= i < j < |b| ensures Less(b[i].key, b[j].key) { assert s[|a| + i] == b[i] && s[|a| + j] == b[j]; }
    forall i, j | 0 <= i < j < |c| ensures Less(c[i].key, c[j].key) {
      assert s[|a| + |b| + i] == c[i] && s[|a| + |b| + j] == c[j];
    }
    forall i, j | 0 <= i < |a| && 0 <= j < |b| ensures Less(a[i].key, b[j].key) {
      assert s[i] == a[i] && s[|a| + j] == b[j];
    }
  }

  lemma GroupSorted(groups: seq<seq<RowEntry>>, i: nat)
    requires Sorted(Flatten(groups)) && i < |groups|
    ensures Sorted(groups[i])
  {
    hide Sorted, Flatten;
    SplitAt(groups, i);
    SortedParts(Flatten(groups[..i]), groups[i], Flatten(groups[i + 1..]));
  }

  /** Nothing before a block whose first key is at most the key is at or above it. */
  lemma SkipBlocks(groups: seq<seq<RowEntry>>, b: nat, k: Key)
    requires Sorted(Flatten(groups)) && b < |groups| && groups[b] != []
    requires b > 0 ==> AtMost(groups[b][0].key, k)
    ensures AtOrAbove(Flatten(groups), k) == AtOrAbove(Flatten(groups[b..]), k)
  {
    hide Less, Flatten, AtOrAbove;
    KeyOrder();
    SplitAt(groups, b);
    if b > 0 {
      var before, after := Flatten(groups[..b]), Flatten(groups[b..]);
      assert after == groups[b] + Flatten(groups[b + 1..]);
      SortedParts(before, groups[b], Flatten(groups[b + 1..]));
      AtOrAboveNone(before, k);
      AtOrAboveConcat(before, after, k);
    } else {
      assert groups[0..] == groups;
    }
  }

  lemma FirstKeysRise(groups: seq<seq<RowEntry>>, i: nat, j: nat)
    requires Sorted(Flatten(groups)) && i < j < |groups| && groups[i] != [] && groups[j] != []
    ensures Less(groups[i][0].key, groups[j][0].key)
  {
    hide Less, Flatten;
    SplitAt(groups, j);
    SplitAt(groups[..j], i);
    var before := Flatten(groups[..j]);
    SortedParts(before, groups[j], Flatten(groups[j + 1..]));
    assert before[|Flatten(groups[..j][..i])|] == groups[i][0];
  }

  // ---- the search in the index

  /** The last block whose first key is at most the key, or the first block. */
  method FirstBlockIncludingOrAfterKey(metas: seq<BlockMeta>, key: Key) returns (b: nat)
    requires forall i, j :: 0 <= i < j < |metas| ==> Less(metas[i].firstKey, metas[j].firstKey)
    ensures if metas == [] then b == 0 else b < |metas|
    ensures b > 0 ==> AtMost(metas[b].firstKey, key)
    ensures forall i :: b < i < |metas| ==> Less(key, metas[i].firstKey)
  {
    hide Less;
    KeyOrder();
    var low, high := 0, |metas| - 1;
    b := 0;
    while low <= high
      invariant 0 <= low <= high + 1 <= |metas|
      invariant if metas == [] then b == 0 else b < |metas|
      invariant low > 0 ==> b == low - 1 && Less(metas[b].firstKey, key)
      invariant low == 0 ==> b == 0
      invariant forall i :: high < i < |metas| ==> Less(key, metas[i].firstKey)
      decreases high - low
    {
      var mid := low + (high - low) / 2;
      var midKey := metas[mid].firstKey;
      if Less(midKey, key) {
        low := mid + 1;
        b := mid;
      } else if midKey != key {
        if mid > 0 {
          high := mid - 1;
        } else {
          break;
        }
      } else {
        return mid;
      }
    }
  }

  // ---- what a table reads as

  /** The block in which a seek starts: the last one whose first key is at most the key, or the first. */
  ghost function StartBlock(groups: seq<seq<RowEntry>>, from: Option<Key>): (b: nat)
    requires NoneEmpty(groups)
    ensures b <= |groups| && (groups != [] ==> b < |groups|)
  {
    if from.None? || |groups| <= 1 then 0 else
      var n := |groups| - 1;
      if AtMost(groups[n][0].key, from.value) then n else StartBlock(groups[..n], from)
  }

  lemma {:induction false} StartUnique(groups: seq<seq<RowEntry>>, k: Key, b: nat)
    requires NoneEmpty(groups) && b < |groups|
    requires b > 0 ==> AtMost(groups[b][0].key, k)
    requires forall i :: b < i < |groups| ==> Less(k, groups[i][0].key)
    ensures StartBlock(groups, Some(k)) == b
  {
    hide Less;
    KeyOrder();
    if |groups| > 1 && b < |groups| - 1 {
      StartUnique(groups[..|groups| - 1], k, b);
    }
  }

  /** What a table reads as: in full, or from the block on in which the seek for a key starts, what is
      at or above the key. */
  ghost function Sought(groups: seq<seq<RowEntry>>, from: Option<Key>): seq<RowEntry>
    requires NoneEmpty(groups)
  {
    From(Scanned(Flatten(groups[StartBlock(groups, from)..])), from)
  }

  /** A table whose rows fit reads as all its entries, or exactly those at or above the key. */
  lemma FitSought(groups: seq<seq<RowEntry>>, from: Option<Key>)
    requires NoneEmpty(groups) && EntriesFit(Flatten(groups)) && Sorted(Flatten(groups))
    ensures Sought(groups, from) == From(Flatten(groups), from)
  {
    hide AtOrAbove, Flatten, Less, Scanned, Storable;
    var b := StartBlock(groups, from);
    if groups != [] {
      SplitAt(groups, b);
      var before, after := Flatten(groups[..b]), Flatten(groups[b..]);
      forall i | 0 <= i < |after| ensures Storable(after[i]) {
        assert Flatten(groups)[|before| + i] == after[i];
      }
      ScannedFit(after);
      if from.Some? {
        StartAtMost(groups, from.value);
        SkipBlocks(groups, b, from.value);
      } else {
        assert groups[b..] == groups;
      }
    } else {
      assert groups[b..] == groups;
      ScannedFit(Flatten(groups));
    }
  }

  /** A full scan does not depend on where the blocks start. */
  lemma FullScan(groups: seq<seq<RowEntry>>)
    requires NoneEmpty(groups)
    ensures Sought(groups, None) == Scanned(Flatten(groups))
  {
    assert groups[0..] == groups;
  }

  /** Whatever a table reads as is among what a scan of it yields. */
  lemma SoughtInScan(groups: seq<seq<RowEntry>>, k: Key, x: RowEntry)
    requires NoneEmpty(groups) && x in Sought(groups, Some(k))
    ensures x in Scanned(Flatten(groups)) && !Less(x.key, k)
  {
    hide Less, Flatten, Scanned, AtOrAbove;
    var b := StartBlock(groups, Some(k));
    var after := Scanned(Flatten(groups[b..]));
    var i :| 0 <= i < |AtOrAbove(after, k)| && AtOrAbove(after, k)[i] == x;
    AtOrAboveMember(after, k, i);
    assert groups == groups[..b] + groups[b..];
    FlattenConcat(groups[..b], groups[b..]);
    ScannedConcat(Flatten(groups[..b]), Flatten(groups[b..]));
  }

  lemma {:induction false} StartAtMost(groups: seq<seq<RowEntry>>, k: Key)
    requires NoneEmpty(groups) && groups != []
    ensures var b := StartBlock(groups, Some(k)); b > 0 ==> AtMost(groups[b][0].key, k)
  {
    hide Less;
    if |groups| > 1 {
      StartAtMost(groups[..|groups| - 1], k);
    }
  }

  lemma FlatFit(groups: seq<seq<RowEntry>>)
    requires EntriesFit(Flatten(groups))
    ensures forall i :: 0 <= i < |groups| ==> EntriesFit(groups[i])
  {
    hide Storable, Flatten;
    forall i, j | 0 <= i < |groups| && 0 <= j < |groups[i]| ensures Storable(groups[i][j]) {
      FlattenMember(groups, i, groups[i][j]);
    }
  }

  // ---- the iterator

  class TableIterator {
    const f: Format
    const file: Bytes
    const info: Info
    const metas: seq<BlockMeta>
    const fromKey: Option<Key>
    var nextBlock: nat
    var blockIter: BlockIterator?
    ghost const groups: seq<seq<RowEntry>>

    ghost predicate Valid()
      reads this, blockIter
    {
      && Lossless(f.codec) && TableOK(f, file, info, metas, groups) && Sorted(Flatten(groups))
      && nextBlock <= |groups|
      && (blockIter != null ==> blockIter.Valid())
    }

    ghost function Remaining(): seq<RowEntry>
      reads this, blockIter
      requires Valid()
    {
      (if blockIter == null then [] else blockIter.Remaining()) + Later(groups, nextBlock, fromKey)
    }

    /** NewIterator and NewIteratorAtKey. If all rows fit, FitSought says that these are all entries,
        or exactly those at or above the key. */
    constructor (f: Format, file: Bytes, info: Info, metas: seq<BlockMeta>, fromKey: Option<Key>,
                 ghost groups: seq<seq<RowEntry>>)
      requires Lossless(f.codec) && TableOK(f, file, info, metas, groups) && Sorted(Flatten(groups))
      ensures Valid() && blockIter == null && Remaining() == Sought(groups, fromKey)
    {
      hide Less, Flatten, LaidOut, ReadIndex, Packed, Lossless, Scanned, AtOrAbove;
      this.f, this.file, this.info, this.metas, this.fromKey, this.groups := f, file, info, metas, fromKey, groups;
      blockIter := null;
      nextBlock := 0;
      new;
      if fromKey.Some? {
        forall i, j | 0 <= i < j < |metas| ensures Less(metas[i].firstKey, metas[j].firstKey) {
          FirstKeysRise(groups, i, j);
        }
        nextBlock := FirstBlockIncludingOrAfterKey(metas, fromKey.value);
        if metas != [] {
          StartUnique(groups, fromKey.value, nextBlock);
        }
      }
      assert [] + Later(groups, nextBlock, fromKey) == Later(groups, nextBlock, fromKey);
    }

    /** nextBlockIter: opens the next block, at the key if there is one; null after the last block. */
    method NextBlockIter() returns (it: BlockIterator?)
      requires Valid()
      modifies this
      ensures unchanged(`blockIter) && (it == null <==> old(nextBlock) == |groups|)
      ensures it == null ==> nextBlock == old(nextBlock)
      ensures it != null ==>
        && fresh(it) && it.Valid() && nextBlock == old(nextBlock) + 1
        && it.Remaining() == From(Scanned(groups[old(nextBlock)]), fromKey)
    {
      hide Less, Flatten, LaidOut, ReadIndex, Packed, Lossless, EncodedBlocks, Sorted, Scanned, AtOrAbove;
      if nextBlock >= |metas| {
        return null;
      }
      var blocks := ReadBlocks(f, info, metas, nextBlock, nextBlock + 1, file, groups);
      var b := blocks.value[0];
      assert Packed(b, groups[nextBlock + 0]);
      nextBlock := nextBlock + 1;
      if fromKey.Some? {
        GroupSorted(groups, nextBlock - 1);
        it := NewIteratorAtKey(b, fromKey.value, groups[nextBlock - 1]);
      } else {
        it := new BlockIterator(b, groups[nextBlock - 1]);
      }
    }

    /** Makes the next block current; there is none exactly when nothing remains to be read. */
    method OpenBlock() returns (found: bool)
      requires Valid() && blockIter == null
      modifies this
      ensures Valid() && Remaining() == old(Remaining())
      ensures found ==> blockIter != null && fresh(blockIter) && nextBlock == old(nextBlock) + 1
      ensures !found ==> blockIter == null && Remaining() == []
    {
      hide Less, Flatten, TableOK, Packed, Lossless, Sorted, Scanned, AtOrAbove, Later;
      ghost var n := nextBlock;
      var it := NextBlockIter();
      if it == null {
        NoneLater(groups, fromKey);
        return false;
      }
      LaterSplit(groups, n, fromKey);
      blockIter := it;
      return true;
    }

    /** Yields what the table reads as, one by one, block after block. */
    method NextEntry() returns (r: Option<RowEntry>)
      requires Valid()
      modifies this, blockIter
      ensures Valid() && (blockIter == null || blockIter == old(blockIter) || fresh(blockIter))
      ensures r == Head(old(Remaining()))
      ensures Remaining() == if r.Some? then old(Remaining())[1..] else []
    {
      hide Less, Flatten, TableOK, Packed, Lossless, Sorted, Scanned, AtOrAbove, Later;
      while true
        invariant Valid() && (blockIter == null || blockIter == old(blockIter) || fresh(blockIter))
        invariant Remaining() == old(Remaining())
        decreases |groups| - nextBlock, if blockIter == null then 0 else 1
      {
        if blockIter == null {
          var found := OpenBlock();
          if !found {
            return None;
          }
        }
        ghost var current, later := blockIter.Remaining(), Later(groups, nextBlock, fromKey);
        r := blockIter.NextEntry();
        if r.Some? {
          HeadTail(current, later);
          return;
        }
        blockIter := null;
        assert current + later == [] + later;
      }
    }
  }

  lemma TableNotEmpty(f: Format, file: Bytes, info: Info, metas: seq<BlockMeta>, groups: seq<seq<RowEntry>>)
    requires TableOK(f, file, info, metas, groups)
    ensures NoneEmpty(groups)
  {
  }

  lemma HeadTail(a: seq<RowEntry>, b: seq<RowEntry>)
    requires a != []
    ensures (a + b)[0] == a[0] && (a + b)[1..] == a[1..] + b
  {
  }

  /** What the blocks from the n-th on read as. */
  ghost function Later(groups: seq<seq<RowEntry>>, n: nat, k: Option<Key>): seq<RowEntry>
    requires n <= |groups|
  {
    From(Scanned(Flatten(groups[n..])), k)
  }

  lemma NoneLater(groups: seq<seq<RowEntry>>, k: Option<Key>)
    ensures Later(groups, |groups|, k) == []
  {
    assert groups[|groups|..] == [];
  }

  lemma LaterSplit(groups: seq<seq<RowEntry>>, n: nat, k: Option<Key>)
    requires n < |groups|
    ensures Later(groups, n, k) == From(Scanned(groups[n]), k) + Later(groups, n + 1, k)
  {
    hide Flatten, AtOrAbove, Scanned;
    SplitAt(groups, n);
    ScannedConcat(groups[n], Flatten(groups[n + 1..]));
    if k.Some? {
      AtOrAboveConcat(Scanned(groups[n]), Scanned(Flatten(groups[n + 1..])), k.value);
    }
  }
}
