/** Writing an immutable WAL or memtable as a table, and reading a table in full (slatedb/flush.go,
    slatedb/db.go). */
module Flushes {
  import opened Types
  import opened History
  import opened Keys
  import opened Scans
  import opened Blocks
  import opened BlockIterators
  import opened SSTables
  import opened TableIterators
  import opened TableWriters
  import opened SortedRuns
  import opened Gets

  // ---- flushImmTable and WriteSST

  /** Writes the entries of an immutable table as an SSTable, its empty values turned into tombstones.
      Keys and values may be of any length. If they fit, what Get reads from the file is exactly the
      table (FitReadsAs); otherwise an entry is read exactly if and only if it fits (TableGetExact). It
      panics exactly if there is an empty key or the filter cannot be built. */
  method FlushImmTable(f: Format, entries: seq<RowEntry>, blockSize: nat, minFilterKeys: nat, bitsPerKey: nat)
    returns (r: Option<TableRef>, ghost groups: seq<seq<RowEntry>>)
    requires Sound(f) && blockSize < TWO16 && bitsPerKey < TWO32
    requires Sorted(entries)
    ensures r.None? <==> [] in Apply(entries) || FilterPanics(|entries|, minFilterKeys, bitsPerKey)
    ensures r.Some? && Packable(|r.value.stored.file|, entries) ==>
      && RefOK(f, r.value, groups, PersistEntries(entries))
      && FilterOK(f, r.value.filter, PersistEntries(entries), minFilterKeys, bitsPerKey)
      && (|r.value.stored.file| < TWO32 ==> ReadInfo(f, r.value.stored.file) == Some(r.value.stored.info))
    ensures Apply(PersistEntries(entries)) == PersistRows(Apply(entries))
  {
    hide Sound, TableOK, FilterOK, FilterPanics, Flatten, Sorted, Apply, PersistRows, ReadFilter, ReadInfo, Packable;
    hide TableBuilder.Valid, TableBuilder.All;
    ghost var persisted := PersistEntries(entries);
    PersistApply(entries);
    PersistSorted(entries);
    var b := new TableBuilder(f, blockSize, minFilterKeys, bitsPerKey);
    var ok := AddAll(b, entries);
    SortedLookup(entries, []);
    if !ok {
      return None, [];
    }
    assert [] + persisted == persisted;
    ghost var file;
    var t;
    t, file := b.Build();
    groups := b.groups;
    if t.None? {
      return None, groups;
    }
    var bytes := AppendAll([], t.value.blocks);
    assert bytes == file by { EmptyDrained(); }
    var ref := TableRef(Stored(bytes, t.value.info, b.metas), t.value.filter);
    assert Packable(|bytes|, entries) ==> Packable(|bytes|, persisted) by { PersistPackable(|bytes|, entries); }
    if Packable(|bytes|, entries) {
      FirstKeyKept(entries);
      BuiltTableReads(f, ref, groups, persisted, minFilterKeys, bitsPerKey);
    }
    return Some(ref), groups;
  }

  lemma PersistPackable(len: nat, s: seq<RowEntry>)
    ensures Packable(len, s) ==> Packable(len, PersistEntries(s))
  {
  }

  lemma FirstKeyKept(s: seq<RowEntry>)
    requires forall i :: 0 <= i < |s| ==> s[i].key != []
    ensures s != [] ==> PersistEntries(s)[0].key == s[0].key != []
  {
  }

  /** Adds the entries; an empty key fails the builder's assertion. */
  method AddAll(b: TableBuilder, entries: seq<RowEntry>) returns (ok: bool)
    requires b.Valid()
    modifies b, b.blockBuilder
    ensures ok <==> forall i :: 0 <= i < |entries| ==> entries[i].key != []
    ensures b.Valid() && (b.blockBuilder == old(b.blockBuilder) || fresh(b.blockBuilder))
    ensures ok ==> b.All() == old(b.All()) + PersistEntries(entries) && b.drained == old(b.drained)
  {
    hide TableBuilder.Valid, TableBuilder.All;
    ghost var persisted := PersistEntries(entries);
    assert b.All() == old(b.All()) + persisted[..0];
    for i := 0 to |entries|
      invariant b.Valid() && (b.blockBuilder == old(b.blockBuilder) || fresh(b.blockBuilder))
      invariant b.All() == old(b.All()) + persisted[..i] && b.drained == old(b.drained)
      invariant forall j :: 0 <= j < i ==> entries[j].key != []
    {
      if |entries[i].key| == 0 {
        return false;
      }
      if entries[i].value.Tombstone? || |entries[i].value.bytes| == 0 {
        b.Add(entries[i].key, Tombstone);
      } else {
        b.Add(entries[i].key, entries[i].value);
      }
      assert persisted[..i + 1] == persisted[..i] + [persisted[i]];
    }
    assert persisted[..|entries|] == persisted;
    return true;
  }

  lemma EmptyDrained()
    ensures Flatten<Byte>([]) == []
  {
  }

  // ---- reading a table in full

  /** Reads all of a table, as replay and compaction do. */
  method ReadTable(f: Format, t: Stored, ghost groups: seq<seq<RowEntry>>, ghost entries: seq<RowEntry>)
    returns (list: seq<RowEntry>)
    requires Lossless(f.codec) && StoredOK(f, t, groups, entries)
    ensures NoneEmpty(groups) && list == Sought(groups, None) == Scanned(entries)
  {
    hide TableOK, Lossless, Flatten, Sorted, Sought, Scanned, TableIterator.Valid, TableIterator.Remaining, GroupsOK,
         Later,
         From, NoneEmpty;
    TableNotEmpty(f, t.file, t.info, t.metas, groups);
    FullScan(groups);
    var iter := new TableIterator(f, t.file, t.info, t.metas, None, groups);
    list := [];
    ghost var all := iter.Remaining();
    while true
      invariant iter.Valid() && fresh(iter) && (iter.blockIter == null || fresh(iter.blockIter))
      invariant list + iter.Remaining() == all
      decreases |iter.Remaining()|
    {
      ghost var rest := iter.Remaining();
      var next := iter.NextEntry();
      if next.None? {
        return;
      }
      MoveHead(list, rest);
      list := list + [next.value];
    }
  }

  lemma MoveHead<T>(a: seq<T>, b: seq<T>)
    requires b != []
    ensures a + b == (a + [b[0]]) + b[1..]
  {
  }

  /** Every entry read fits, unless its key is empty. If all rows of the table fit, the entries read are
      exactly those written. */
  lemma ScanReadsBack(f: Format, t: Stored, groups: seq<seq<RowEntry>>, entries: seq<RowEntry>)
    requires StoredOK(f, t, groups, entries) && NoneEmpty(groups)
    ensures forall x :: x in Sought(groups, None) ==> |x.key| < TWO16 && (x.key != [] ==> Storable(x))
    ensures EntriesFit(entries) ==> Sought(groups, None) == entries
  {
    hide TableOK, Flatten, Sorted, Storable, Scanned, Sought;
    FullScan(groups);
    forall x | x in Scanned(entries) ensures |x.key| < TWO16 && (x.key != [] ==> Storable(x)) {
      ScannedStorable(entries, x);
    }
    if EntriesFit(entries) {
      ScannedFit(entries);
    }
  }
}
