/** Sorted runs: tables with rising keys, searched by their first keys
    (slatedb/compacted/sortedrun.go). */
module SortedRuns {
  import opened Types
  import opened History
  import opened Keys
  import opened Blocks
  import opened BlockIterators
  import opened SSTables
  import opened TableIterators

  /** A table in the object store with its info and index. */
  datatype Stored = Stored(file: Bytes, info: Info, metas: seq<BlockMeta>)

  /** The table was written with the entries. */
  ghost predicate FileOK(f: Format, t: Stored, groups: seq<seq<RowEntry>>, entries: seq<RowEntry>) {
    && TableOK(f, t.file, t.info, t.metas, groups)
    && Flatten(groups) == entries
    && (if entries == [] then t.info.firstKey == [] else t.info.firstKey == entries[0].key != [])
  }

  /** The table was written with the entries, which are sorted. */
  ghost predicate StoredOK(f: Format, t: Stored, groups: seq<seq<RowEntry>>, entries: seq<RowEntry>) {
    FileOK(f, t, groups, entries) && Sorted(entries)
  }

  /** A run: tables that are not empty, whose rows fit, and whose concatenation is sorted. A compaction
      writes what it read from tables, and that always fits. */
  ghost predicate RunOK(f: Format, tables: seq<Stored>, groups: seq<seq<seq<RowEntry>>>, entries: seq<seq<RowEntry>>) {
    && |tables| == |groups| == |entries|
    && (forall i :: 0 <= i < |tables| ==> StoredOK(f, tables[i], groups[i], entries[i]) && EntriesFit(entries[i]))
    && NoneEmpty(entries)
    && Sorted(Flatten(entries))
  }

  lemma FirstKey(f: Format, tables: seq<Stored>, groups: seq<seq<seq<RowEntry>>>, entries: seq<seq<RowEntry>>, i: nat)
    requires RunOK(f, tables, groups, entries) && i < |tables|
    ensures entries[i] != [] && tables[i].info.firstKey == entries[i][0].key
  {
    hide TableOK, Sorted, Flatten;
    assert StoredOK(f, tables[i], groups[i], entries[i]);
  }

  /** The last table whose first key is at most the key. */
  method IndexOfSSTWithKey(f: Format, tables: seq<Stored>, key: Key,
                           ghost groups: seq<seq<seq<RowEntry>>>, ghost entries: seq<seq<RowEntry>>)
    returns (r: Option<nat>)
    requires RunOK(f, tables, groups, entries)
    ensures r.Some? ==> r.value < |tables| && AtMost(entries[r.value][0].key, key)
    ensures forall i :: (if r.Some? then r.value < i else 0 <= i) && i < |tables| ==> Less(key, entries[i][0].key)
  {
    hide Less, RunOK;
    KeyOrder();
    assert |entries| == |tables| && NoneEmpty(entries) by { RunLengths(f, tables, groups, entries); }
    forall i, j | 0 <= i < j < |entries| ensures Less(entries[i][0].key, entries[j][0].key) {
      RunLengths(f, tables, groups, entries);
      FirstKeysRise(entries, i, j);
    }
    var lo, hi := 0, |tables|;
    while lo < hi
      invariant 0 <= lo <= hi <= |tables|
      invariant lo > 0 ==> !Less(key, entries[lo - 1][0].key)
      invariant hi < |tables| ==> Less(key, entries[hi][0].key)
    {
      var mid := (lo + hi) / 2;
      FirstKey(f, tables, groups, entries, mid);
      if Less(key, tables[mid].info.firstKey) {
        hi := mid;
      } else {
        lo := mid + 1;
      }
    }
    r := if lo > 0 then Some(lo - 1) else None;
  }

  lemma RunLengths(f: Format, tables: seq<Stored>, groups: seq<seq<seq<RowEntry>>>, entries: seq<seq<RowEntry>>)
    requires RunOK(f, tables, groups, entries)
    ensures |tables| == |groups| == |entries| && NoneEmpty(entries) && Sorted(Flatten(entries))
  {
  }

  /** The entries at or above a key: those of table i from the key on, then the later tables whole. */
  lemma SeekSplit(entries: seq<seq<RowEntry>>, i: nat, k: Key)
    requires Sorted(Flatten(entries)) && NoneEmpty(entries) && i < |entries|
    requires i > 0 ==> AtMost(entries[i][0].key, k)
    requires forall j :: i < j < |entries| ==> Less(k, entries[j][0].key)
    ensures AtOrAbove(Flatten(entries), k) == AtOrAbove(entries[i], k) + Flatten(entries[i + 1..])
  {
    hide Less, Flatten, AtOrAbove, NoneEmpty;
    KeyOrder();
    assert entries[i] != [] by { assert NoneEmpty(entries); NotEmptyAt(entries, i); }
    SkipBlocks(entries, i, k);
    SplitAt(entries, i);
    var later := Flatten(entries[i + 1..]);
    AtOrAboveConcat(entries[i], later, k);
    SortedParts(Flatten(entries[..i]), entries[i], later);
    if i + 1 < |entries| {
      NotEmptyAt(entries, i + 1);
      SplitAt(entries, i + 1);
      assert later[0] == entries[i + 1][0];
      forall x | 0 <= x < |later| ensures !Less(later[x].key, k) {
        assert x > 0 ==> Less(later[0].key, later[x].key);
      }
    } else {
      assert entries[i + 1..] == [];
      assert later == [] by { FlattenNone(entries[i + 1..]); }
    }
    AtOrAboveAll(later, k);
  }

  lemma NotEmptyAt(entries: seq<seq<RowEntry>>, i: nat)
    requires NoneEmpty(entries) && i < |entries|
    ensures entries[i] != []
  {
  }

  lemma FlattenNone<T>(s: seq<seq<T>>)
    requires s == []
    ensures Flatten(s) == []
  {
  }

  // ---- the iterator

  class SortedRunIterator {
    const f: Format
    const tables: seq<Stored>
    var current: nat              // position of the table list iterator
    var iter: TableIterator?
    ghost const groups: seq<seq<seq<RowEntry>>>
    ghost const entries: seq<seq<RowEntry>>

    ghost predicate Valid()
      reads this, iter, if iter == null then {} else {iter.blockIter}
    {
      && Lossless(f.codec) && RunOK(f, tables, groups, entries)
      && current <= |tables|
      && (iter != null ==> iter.Valid())
      && (iter == null ==> current == |tables|)
    }

    ghost function Remaining(): seq<RowEntry>
      reads this, iter, if iter == null then {} else {iter.blockIter}
      requires Valid()
    {
      (if iter == null then [] else iter.Remaining()) + Flatten(entries[current..])
    }

    /** NewSortedRunIterator and NewSortedRunIteratorFromKey: the search picks the first table, which
        is opened at the key; the later tables are read whole. */
    constructor (f: Format, tables: seq<Stored>, fromKey: Option<Key>,
                 ghost groups: seq<seq<seq<RowEntry>>>, ghost entries: seq<seq<RowEntry>>)
      requires Lossless(f.codec) && RunOK(f, tables, groups, entries)
      ensures Valid() && Remaining() == From(Flatten(entries), fromKey)
      ensures iter != null ==> fresh(iter) && iter.blockIter == null
    {
      hide Less, Flatten, AtOrAbove, TableOK, Lossless, Sorted, RunOK, From, TableIterator.Valid,
           TableIterator.Remaining, NoneEmpty;
      hide Sought;
      this.f, this.tables, this.groups, this.entries := f, tables, groups, entries;
      current, iter := 0, null;
      new;
      RunLengths(f, tables, groups, entries);
      if fromKey.Some? {
        var i := IndexOfSSTWithKey(f, tables, fromKey.value, groups, entries);
        if i.Some? {
          current := i.value;
        }
      }
      if current < |tables| {
        StoredAt(f, tables, groups, entries, current);
        var t := tables[current];
        iter := new TableIterator(f, t.file, t.info, t.metas, fromKey, groups[current]);
        current := current + 1;
        FirstTable(entries, current - 1, fromKey);
        StoredItems(f, tables, groups, entries, current - 1, fromKey);
      } else {
        NoTables(entries, fromKey);
      }
    }

    /** Opens the next table from its first entry. */
    method OpenTable()
      requires Valid() && iter != null && iter.Remaining() == [] && current < |tables|
      modifies this
      ensures Valid() && Remaining() == old(Remaining()) && current == old(current) + 1
      ensures iter != null && fresh(iter) && iter.blockIter == null
    {
      hide Less, Flatten, AtOrAbove, TableOK, Lossless, Sorted, RunOK, TableIterator.Valid, TableIterator.Remaining,
           Sought;
      StoredAt(f, tables, groups, entries, current);
      SplitAt(entries, current);
      var t := tables[current];
      current := current + 1;
      iter := new TableIterator(f, t.file, t.info, t.metas, None, groups[current - 1]);
      StoredItems(f, tables, groups, entries, current - 1, None);
      assert iter.Remaining() == entries[current - 1];
      assert iter.Remaining() + Flatten(entries[current..]) == [] + Flatten(entries[current - 1..]);
    }

    /** Yields the remaining entries one by one, table after table. */
    method NextEntry() returns (r: Option<RowEntry>)
      requires Valid()
      modifies this, iter, if iter == null then {} else {iter.blockIter}
      ensures Valid() && r == Head(old(Remaining()))
      ensures Remaining() == if r.Some? then old(Remaining())[1..] else []
    {
      hide Less, Flatten, AtOrAbove, TableOK, Lossless, Sorted, RunOK, From, TableIterator.Valid,
           TableIterator.Remaining;
      RunLengths(f, tables, groups, entries);
      while true
        invariant Valid() && Remaining() == old(Remaining())
        invariant iter != null ==>
          && (iter == old(iter) || fresh(iter))
          && (|| iter.blockIter == null || fresh(iter.blockIter)
              || (old(iter) != null && iter.blockIter == old(iter.blockIter)))
        decreases |tables| - current
      {
        if iter == null {
          NothingAfter(entries);
          return None;
        }
        ghost var rest, later := iter.Remaining(), Flatten(entries[current..]);
        r := iter.NextEntry();
        if r.Some? {
          HeadTail(rest, later);
          return;
        }
        assert rest + later == [] + later;
        if current >= |tables| {
          NothingAfter(entries);
          return None;
        }
        OpenTable();
      }
    }
  }

  lemma NothingAfter(entries: seq<seq<RowEntry>>)
    ensures [] + Flatten(entries[|entries|..]) == []
  {
    assert entries[|entries|..] == [];
  }

  /** Each table of a run reads as its entries. */
  lemma StoredItems(f: Format, tables: seq<Stored>, groups: seq<seq<seq<RowEntry>>>, entries: seq<seq<RowEntry>>,
                    i: nat,
                    from: Option<Key>)
    requires RunOK(f, tables, groups, entries) && i < |tables|
    ensures NoneEmpty(groups[i]) && Sought(groups[i], from) == From(entries[i], from)
  {
    hide TableOK, Sorted, Flatten, EntriesFit, Sought, AtOrAbove;
    assert StoredOK(f, tables[i], groups[i], entries[i]) && EntriesFit(entries[i]);
    TableNotEmpty(f, tables[i].file, tables[i].info, tables[i].metas, groups[i]);
    FitSought(groups[i], from);
  }

  lemma StoredAt(f: Format, tables: seq<Stored>, groups: seq<seq<seq<RowEntry>>>, entries: seq<seq<RowEntry>>, i: nat)
    requires RunOK(f, tables, groups, entries) && i < |tables|
    ensures |tables| == |groups| == |entries|
    ensures var t := tables[i];
      TableOK(f, t.file, t.info, t.metas, groups[i]) && Flatten(groups[i]) == entries[i] && Sorted(Flatten(groups[i]))
  {
    hide TableOK, Sorted, Flatten;
    assert StoredOK(f, tables[i], groups[i], entries[i]);
  }

  lemma FirstTable(entries: seq<seq<RowEntry>>, i: nat, k: Option<Key>)
    requires Sorted(Flatten(entries)) && NoneEmpty(entries) && i < |entries|
    requires k.None? ==> i == 0
    requires k.Some? ==> (i > 0 ==> AtMost(entries[i][0].key, k.value))
    requires k.Some? ==> forall j :: i < j < |entries| ==> Less(k.value, entries[j][0].key)
    ensures From(entries[i], k) + Flatten(entries[i + 1..]) == From(Flatten(entries), k)
  {
    hide Less, Flatten, AtOrAbove, Sorted;
    if k.Some? {
      SeekSplit(entries, i, k.value);
    } else {
      SplitAt(entries, 0);
      assert entries[0..] == entries;
    }
  }

  lemma NoTables(entries: seq<seq<RowEntry>>, k: Option<Key>)
    requires entries == []
    ensures [] + Flatten(entries[0..]) == From(Flatten(entries), k)
  {
    assert entries[0..] == [];
  }
}
