/** DB.Get down to the bytes of the tables (slatedb/db.go): the layers are searched newest first, each
    table behind its first key and its bloom filter. */
module Gets {
  import opened Types
  import opened History
  import opened Keys
  import opened CoreState
  import opened DbStates
  import opened MemChain
  import opened Views
  import opened RowCodec
  import opened Scans
  import opened Blocks
  import opened Bloom
  import opened BlockIterators
  import opened SSTables
  import opened TableIterators
  import opened SortedRuns

  /** A table with its filter, if it has one. */
  datatype TableRef = TableRef(stored: Stored, filter: Option<Filter>)

  /** The table was written with the entries, and its filter, if any, has every one of their keys. */
  ghost predicate RefOK(f: Format, t: TableRef, groups: seq<seq<RowEntry>>, entries: seq<RowEntry>) {
    && StoredOK(f, t.stored, groups, entries)
    && FilterHas(f, t.filter, entries)
  }

  ghost predicate FilterHas(f: Format, filter: Option<Filter>, entries: seq<RowEntry>) {
    filter.Some? ==>
      && SmallFilter(filter.value)
      && forall i :: 0 <= i < |entries| ==> HasHash(filter.value, f.hash(entries[i].key))
  }

  /** A table as the builder leaves it is readable by Get. */
  lemma BuiltTableReads(f: Format, t: TableRef, groups: seq<seq<RowEntry>>, entries: seq<RowEntry>, minFilterKeys: nat,
                        bitsPerKey: nat)
    requires TableOK(f, t.stored.file, t.stored.info, t.stored.metas, groups)
    requires Flatten(groups) == entries
    requires if entries == [] then t.stored.info.firstKey == [] else t.stored.info.firstKey == entries[0].key != []
    requires FilterOK(f, t.filter, entries, minFilterKeys, bitsPerKey)
    ensures FileOK(f, t.stored, groups, entries) && FilterHas(f, t.filter, entries)
    ensures Sorted(entries) ==> RefOK(f, t, groups, entries)
  {
    hide TableOK, Flatten, Sorted, HasHash, BuiltFrom;
    if t.filter.Some? {
      forall i | 0 <= i < |entries| ensures HasHash(t.filter.value, f.hash(entries[i].key)) {
        assert Hashes(f, entries)[i] == f.hash(entries[i].key);
      }
    }
  }

  /** The filter lets every stored key through. */
  method PassesFilter(f: Format, filter: Option<Filter>, key: Key, ghost entries: seq<RowEntry>) returns (r: bool)
    requires FilterHas(f, filter, entries)
    ensures r <==> filter.None? || HasHash(filter.value, f.hash(key))
    ensures (exists i :: 0 <= i < |entries| && entries[i].key == key) ==> r
  {
    hide HasHash;
    if filter.None? {
      return true;
    }
    r := HasKey(filter.value, f.hash(key));
  }

  /** The first entry at or above the key decides: it has the key, or the table does not. */
  lemma FirstDecides(s: seq<RowEntry>, k: Key)
    requires Sorted(s)
    ensures var a := AtOrAbove(s, k);
      Lookup(Apply(s), k) == if a != [] && a[0].key == k then Some(a[0].value) else None
  {
    hide Less, Apply, AtOrAbove;
    KeyOrder();
    SortedLookup(s, k);
    var i := FirstFrom(s, k, 0);
    SortedSuffix(s, k, i);
    if k in Apply(s) {
      var x :| 0 <= x < |s| && s[x].key == k;
      assert x == i;
    }
  }

  lemma {:induction false} FirstFrom(s: seq<RowEntry>, k: Key, n: nat) returns (i: nat)
    requires n <= |s| && (n > 0 ==> Less(s[n - 1].key, k))
    ensures n <= i <= |s| && (i > 0 ==> Less(s[i - 1].key, k)) && (i < |s| ==> !Less(s[i].key, k))
    decreases |s| - n
  {
    hide Less;
    i := n;
    if n < |s| && Less(s[n].key, k) {
      i := FirstFrom(s, k, n + 1);
    }
  }

  /** What looking a key up in a table gives: nothing outside its range or filter, and otherwise what
      the first row at or above the key says. */
  ghost function TableGet(f: Format, t: TableRef, groups: seq<seq<RowEntry>>, key: Key): Option<Value>
    requires NoneEmpty(groups)
  {
    if t.stored.info.firstKey == [] || Less(key, t.stored.info.firstKey) then None
    else if t.filter.Some? && !HasHash(t.filter.value, f.hash(key)) then None
    else match Head(Sought(groups, Some(key)))
         case Some(e) => if e.key == key then Some(e.value) else None
         case None => None
  }

  /** One L0 table: the range check, the filter, and a seek. */
  method GetFromTable(f: Format, t: TableRef, key: Key, ghost groups: seq<seq<RowEntry>>, ghost entries: seq<RowEntry>)
    returns (r: Option<Value>)
    requires Lossless(f.codec) && RefOK(f, t, groups, entries)
    ensures NoneEmpty(groups) && r == TableGet(f, t, groups, key)
    ensures t.stored.info.firstKey == [] || Less(key, t.stored.info.firstKey) ==> r.None?
    ensures t.filter.Some? && !HasHash(t.filter.value, f.hash(key)) ==> r.None?
  {
    hide Less, Apply, TableOK, Lossless, Flatten, HasHash, Sorted, Sought;
    TableNotEmpty(f, t.stored.file, t.stored.info, t.stored.metas, groups);
    if t.stored.info.firstKey == [] || Less(key, t.stored.info.firstKey) {
      return None;
    }
    var may := PassesFilter(f, t.filter, key, entries);
    if !may {
      return None;
    }
    var iter := new TableIterator(f, t.stored.file, t.stored.info, t.stored.metas, Some(key), groups);
    var next := iter.NextEntry();
    r := if next.Some? && next.value.key == key then Some(next.value.value) else None;
  }

  /** If all rows fit, a lookup gives exactly the table's row of the key. */
  lemma FitTableGet(f: Format, t: TableRef, groups: seq<seq<RowEntry>>, entries: seq<RowEntry>, key: Key)
    requires RefOK(f, t, groups, entries) && EntriesFit(entries)
    ensures NoneEmpty(groups) && TableGet(f, t, groups, key) == Lookup(Apply(entries), key)
  {
    hide Less, Apply, AtOrAbove, TableOK, Flatten, HasHash, Sorted, Sought, EntriesFit;
    KeyOrder();
    TableNotEmpty(f, t.stored.file, t.stored.info, t.stored.metas, groups);
    SortedLookup(entries, key);
    FirstDecides(entries, key);
    FitSought(groups, Some(key));
    if t.stored.info.firstKey == [] || Less(key, t.stored.info.firstKey) {
      NotBelowFirst(entries, key);
    }
  }

  /** Whatever the table was written with, a row that a lookup finds is one that a scan yields, and fits. */
  lemma TableGetFits(f: Format, t: TableRef, groups: seq<seq<RowEntry>>, entries: seq<RowEntry>, key: Key)
    requires RefOK(f, t, groups, entries)
    ensures NoneEmpty(groups)
    ensures var r := TableGet(f, t, groups, key);
      r.Some? ==> RowEntry(key, r.value) in Scanned(entries) && Storable(RowEntry(key, r.value))
  {
    hide TableOK, Flatten, HasHash, Sorted, Storable, Scanned, Sought;
    TableNotEmpty(f, t.stored.file, t.stored.info, t.stored.metas, groups);
    var r := TableGet(f, t, groups, key);
    if r.Some? {
      var e := Sought(groups, Some(key))[0];
      SoughtInScan(groups, key, e);
      ScannedStorable(entries, e);
      assert key != [] by { BelowAll(t.stored.info.firstKey); }
    }
  }

  lemma BelowAll(k: Key)
    ensures k == [] || Less([], k)
  {
  }

  /** For every entry a table was written with whose key fits, whatever else is in the table: a lookup
      of its key gives its value, cut to what the value's length field says. */
  lemma ShortKeyGet(f: Format, t: TableRef, groups: seq<seq<RowEntry>>, entries: seq<RowEntry>, i: nat)
    requires RefOK(f, t, groups, entries) && i < |entries| && |entries[i].key| < TWO16
    ensures NoneEmpty(groups)
    ensures TableGet(f, t, groups, entries[i].key) == Some(KeptValue(entries[i].value))
  {
    hide Less, Apply, AtOrAbove, TableOK, Flatten, HasHash, Sorted, Sought, EntriesFit, Storable, KeptValue;
    KeyOrder();
    TableNotEmpty(f, t.stored.file, t.stored.info, t.stored.metas, groups);
    assert !Less(entries[i].key, entries[0].key) by { NotBefore(entries, i); }
    assert GroupsOK(groups) by { TableGroups(f, t.stored.file, t.stored.info, t.stored.metas, groups); }
    HeadIsEntry(groups, i);
  }

  /** For every entry a table was written with, of any length: a lookup of its key gives its value if
      and only if the lengths fit. */
  lemma TableGetExact(f: Format, t: TableRef, groups: seq<seq<RowEntry>>, entries: seq<RowEntry>, i: nat)
    requires RefOK(f, t, groups, entries) && i < |entries|
    ensures NoneEmpty(groups)
    ensures TableGet(f, t, groups, entries[i].key) == Some(entries[i].value) <==> Storable(entries[i])
  {
    hide RefOK, TableGet, Scanned;
    TableGetFits(f, t, groups, entries, entries[i].key);
    if |entries[i].key| < TWO16 {
      ShortKeyGet(f, t, groups, entries, i);
    }
  }

  lemma TableGroups(f: Format, file: Bytes, info: Info, metas: seq<BlockMeta>, groups: seq<seq<RowEntry>>)
    requires TableOK(f, file, info, metas, groups)
    ensures GroupsOK(groups)
  {
  }

  lemma NotBefore(s: seq<RowEntry>, i: nat)
    requires Sorted(s) && i < |s|
    ensures !Less(s[i].key, s[0].key)
  {
    hide Less;
    KeyOrder();
  }

  /** A seek for an entry whose key fits finds it first, whatever else is in the table. */
  lemma HeadIsEntry(groups: seq<seq<RowEntry>>, i: nat)
    requires NoneEmpty(groups) && GroupsOK(groups) && Sorted(Flatten(groups))
    requires i < |Flatten(groups)| && |Flatten(groups)[i].key| < TWO16
    ensures var e := Flatten(groups)[i];
      Head(Sought(groups, Some(e.key))) == Some(RowEntry(e.key, KeptValue(e.value)))
  {
    hide Less, AtOrAbove, Flatten, Sorted, GroupsOK, Scanned, Storable, KeptValue;
    var e := Flatten(groups)[i];
    var b, j := InGroup(groups, i);
    GroupOf(groups, b, j, e.key);
    StartUnique(groups, e.key, b);
    GroupSorted(groups, b);
    BlockHead(groups, b, j);
    LaterSplit(groups, b, Some(e.key));
  }

  lemma {:induction false} InGroup(groups: seq<seq<RowEntry>>, i: nat) returns (b: nat, j: nat)
    requires i < |Flatten(groups)|
    ensures b < |groups| && j < |groups[b]| && groups[b][j] == Flatten(groups)[i]
  {
    var n := |groups| - 1;
    if i < |Flatten(groups[..n])| {
      b, j := InGroup(groups[..n], i);
    } else {
      b, j := n, i - |Flatten(groups[..n])|;
    }
  }

  /** The block of an entry is the last one whose first key is at most its key. */
  lemma GroupOf(groups: seq<seq<RowEntry>>, b: nat, j: nat, k: Key)
    requires NoneEmpty(groups) && Sorted(Flatten(groups)) && b < |groups| && j < |groups[b]| && groups[b][j].key == k
    ensures AtMost(groups[b][0].key, k)
    ensures forall c :: b < c < |groups| ==> Less(k, groups[c][0].key)
  {
    hide Less, Flatten, Sorted;
    KeyOrder();
    GroupSorted(groups, b);
    NotBefore(groups[b], j);
    forall c | b < c < |groups| ensures Less(k, groups[c][0].key) {
      SplitAt(groups, c);
      SplitAt(groups[..c], b);
      var before := Flatten(groups[..c]);
      SortedParts(before, groups[c], Flatten(groups[c + 1..]));
      assert before[|Flatten(groups[..c][..b])| + j] == groups[b][j];
    }
  }

  lemma BlockHead(groups: seq<seq<RowEntry>>, b: nat, j: nat)
    requires NoneEmpty(groups) && GroupsOK(groups)
    requires b < |groups| && j < |groups[b]| && Sorted(groups[b]) && |groups[b][j].key| < TWO16
    ensures var e := groups[b][j];
      Head(AtOrAbove(Scanned(groups[b]), e.key)) == Some(RowEntry(e.key, KeptValue(e.value)))
  {
    hide Less, AtOrAbove, Packed, Scanned, KeptValue;
    KeyOrder();
    var s := groups[b];
    assert Packed(BlockOf(s), s);
    PackedParts(BlockOf(s), s);
    if EntriesFit(s) {
      ScannedFit(s);
      SortedSuffix(s, s[j].key, j);
      assert Storable(s[j]);
    } else {
      assert s == [s[0]];
      ScannedOne(s[0]);
      ShortKeyReads(s[0]);
      AtOrAboveAll(Scanned(s), s[0].key);
    }
  }

  lemma NotBelowFirst(s: seq<RowEntry>, k: Key)
    requires Sorted(s) && (s == [] || Less(k, s[0].key))
    ensures k !in Apply(s)
  {
    hide Less, Apply;
    KeyOrder();
    SortedLookup(s, k);
  }

  // ---- runs

  ghost predicate RunRefOK(f: Format, refs: seq<TableRef>, groups: seq<seq<seq<RowEntry>>>,
                           entries: seq<seq<RowEntry>>) {
    && RunOK(f, Tables(refs), groups, entries)
    && forall i :: 0 <= i < |refs| ==> FilterHas(f, refs[i].filter, entries[i])
  }

  function Tables(refs: seq<TableRef>): (t: seq<Stored>)
    ensures |t| == |refs|
  {
    seq(|refs|, i requires 0 <= i < |refs| => refs[i].stored)
  }

  /** A key of a run can only be in the last table whose first key is at most it. */
  lemma OnlyInTable(entries: seq<seq<RowEntry>>, i: nat, k: Key)
    requires Sorted(Flatten(entries)) && NoneEmpty(entries) && i < |entries|
    requires i > 0 ==> AtMost(entries[i][0].key, k)
    requires forall j :: i < j < |entries| ==> Less(k, entries[j][0].key)
    ensures Lookup(Apply(Flatten(entries)), k) == Lookup(Apply(entries[i]), k)
  {
    hide Less, Apply, AtOrAbove, Flatten, NoneEmpty;
    KeyOrder();
    FirstDecides(Flatten(entries), k);
    GroupSorted(entries, i);
    FirstDecides(entries[i], k);
    SeekSplit(entries, i, k);
    var a, later := AtOrAbove(entries[i], k), Flatten(entries[i + 1..]);
    if a == [] && later != [] {
      assert i + 1 < |entries| by {
        if i + 1 == |entries| {
          FlattenNone(entries[i + 1..]);
        }
      }
      NotEmptyAt(entries, i + 1);
      SplitAt(entries, i + 1);
      assert (a + later)[0] == entries[i + 1][0];
    }
  }

  lemma BelowRun(entries: seq<seq<RowEntry>>, k: Key)
    requires Sorted(Flatten(entries)) && NoneEmpty(entries) && (entries != [] ==> Less(k, entries[0][0].key))
    ensures k !in Apply(Flatten(entries))
  {
    hide Less, Apply, Flatten, NoneEmpty;
    if entries == [] {
      FlattenNone(entries);
    } else {
      NotEmptyAt(entries, 0);
      SplitAt(entries, 0);
      assert entries[0..] == entries;
    }
    NotBelowFirst(Flatten(entries), k);
  }

  /** One sorted run: the search by first keys, that table's filter, and a seek through the run. */
  method GetFromRun(f: Format, refs: seq<TableRef>, key: Key,
                    ghost groups: seq<seq<seq<RowEntry>>>, ghost entries: seq<seq<RowEntry>>)
    returns (r: Option<Value>)
    requires Lossless(f.codec) && RunRefOK(f, refs, groups, entries)
    ensures r == Lookup(Apply(Flatten(entries)), key)
  {
    hide Less, Apply, AtOrAbove, Lossless, Flatten, HasHash, RunOK, Sorted, NoneEmpty, FilterHas;
    var tables := Tables(refs);
    RunLengths(f, tables, groups, entries);
    var i := IndexOfSSTWithKey(f, tables, key, groups, entries);
    if i.None? {
      BelowRun(entries, key);
      return None;
    }
    OnlyInTable(entries, i.value, key);
    var may := PassesFilter(f, refs[i.value].filter, key, entries[i.value]);
    if !may {
      GroupSorted(entries, i.value);
      SortedLookup(entries[i.value], key);
      return None;
    }
    var iter := new SortedRunIterator(f, tables, Some(key), groups, entries);
    FirstDecides(Flatten(entries), key);
    var next := iter.NextEntry();
    r := if next.Some? && next.value.key == key then Some(next.value.value) else None;
  }

  // ---- the whole search

  /** Every lookup in the table gives what the rows say. */
  ghost predicate ReadsAs(f: Format, t: TableRef, groups: seq<seq<RowEntry>>, rows: Rows)
    requires NoneEmpty(groups)
  {
    forall k :: TableGet(f, t, groups, k) == Lookup(rows, k)
  }

  /** What lookups in the table find. */
  ghost function LookupRows(f: Format, t: TableRef, groups: seq<seq<RowEntry>>): Rows
    requires NoneEmpty(groups)
  {
    map k | k in Apply(Scanned(Flatten(groups))) && TableGet(f, t, groups, k).Some? :: TableGet(f, t, groups, k).value
  }

  lemma {:induction false} ApplyHas(s: seq<RowEntry>, x: RowEntry)
    requires x in s
    ensures x.key in Apply(s)
  {
    if x != s[|s| - 1] {
      ApplyHas(s[..|s| - 1], x);
    }
  }

  lemma FoundReadsAs(f: Format, t: TableRef, groups: seq<seq<RowEntry>>, entries: seq<RowEntry>)
    requires RefOK(f, t, groups, entries)
    ensures NoneEmpty(groups) && ReadsAs(f, t, groups, LookupRows(f, t, groups))
  {
    hide TableOK, FilterHas, TableGet, Scanned, Sorted, Apply, Flatten;
    TableNotEmpty(f, t.stored.file, t.stored.info, t.stored.metas, groups);
    forall k ensures TableGet(f, t, groups, k) == Lookup(LookupRows(f, t, groups), k) {
      TableGetFits(f, t, groups, entries, k);
      var r := TableGet(f, t, groups, k);
      if r.Some? {
        ApplyHas(Scanned(entries), RowEntry(k, r.value));
      }
    }
  }

  /** Whatever a table was written with, it reads back as the protocol says: lookups find what Finds
      allows, and a scan yields exactly ScanOf. */
  lemma WrittenReadsBack(f: Format, t: TableRef, groups: seq<seq<RowEntry>>, entries: seq<RowEntry>, rows: Rows)
    requires RefOK(f, t, groups, entries) && Apply(entries) == PersistRows(rows)
    ensures NoneEmpty(groups) && ReadsAs(f, t, groups, LookupRows(f, t, groups))
    ensures Finds(rows, LookupRows(f, t, groups)) && Sought(groups, None) == ScanOf(rows)
  {
    hide TableOK, FilterHas, TableGet, Apply, PersistRows, Sorted, Scanned, KeptValue, LookupRows, Flatten,
         WrittenEntries,
         Sought;
    FoundReadsAs(f, t, groups, entries);
    SortedUnique(entries, WrittenEntries(rows));
    FullScan(groups);
    var found := LookupRows(f, t, groups);
    forall k | k in rows && 0 < |k| < TWO16 ensures Lookup(found, k) == Some(KeptValue(Persist(rows[k]))) {
      WrittenAt(rows, k);
      var i :| 0 <= i < |entries| && entries[i] == RowEntry(k, Persist(rows[k]));
      ShortKeyGet(f, t, groups, entries, i);
      assert TableGet(f, t, groups, k) == Lookup(found, k);
    }
    forall k | k in found ensures k != [] && RowEntry(k, found[k]) in Scanned(entries) {
      assert TableGet(f, t, groups, k) == Lookup(found, k);
      TableGetFits(f, t, groups, entries, k);
    }
  }

  /** The stored L0 tables and runs read as the state says. */
  ghost predicate L0Stored(f: Format, l0: seq<Sst>, refs: seq<TableRef>,
                           groups: seq<seq<seq<RowEntry>>>, entries: seq<seq<RowEntry>>)
  {
    && |l0| == |refs| == |groups| == |entries|
    && forall i :: 0 <= i < |l0| ==> SstStored(f, l0[i], refs[i], groups[i], entries[i])
  }

  ghost predicate SstStored(f: Format, t: Sst, ref: TableRef, groups: seq<seq<RowEntry>>, entries: seq<RowEntry>) {
    && RefOK(f, ref, groups, entries) && NoneEmpty(groups)
    && ReadsAs(f, ref, groups, t.rows) && Sought(groups, None) == t.scan
  }

  /** A table whose rows fit reads as these. */
  lemma FitReadsAs(f: Format, t: TableRef, groups: seq<seq<RowEntry>>, entries: seq<RowEntry>)
    requires RefOK(f, t, groups, entries) && EntriesFit(entries)
    ensures NoneEmpty(groups) && ReadsAs(f, t, groups, Apply(entries))
  {
    hide RefOK, EntriesFit, TableGet, Apply;
    FitTableGet(f, t, groups, entries, []);
    forall k ensures TableGet(f, t, groups, k) == Lookup(Apply(entries), k) {
      FitTableGet(f, t, groups, entries, k);
    }
  }

  ghost predicate RunsStored(f: Format, runs: seq<SortedRun>, refs: seq<seq<TableRef>>,
                             groups: seq<seq<seq<seq<RowEntry>>>>, entries: seq<seq<seq<RowEntry>>>)
  {
    && |runs| == |refs| == |groups| == |entries|
    && forall i :: 0 <= i < |runs| ==>
         RunRefOK(f, refs[i], groups[i], entries[i]) && Apply(Flatten(entries[i])) == runs[i].rows
  }

  method SearchImmWals(imms: seq<ImmWal>, key: Key) returns (r: Option<Value>)
    ensures r == Lookup(ImmWalRows(imms), key)
  {
    for i := 0 to |imms|
      invariant Lookup(ImmWalRows(imms), key) == Lookup(ImmWalRows(imms[i..]), key)
    {
      assert imms[i..][1..] == imms[i + 1..];
      if key in imms[i].rows {
        return Some(imms[i].rows[key]);
      }
    }
    return None;
  }

  method SearchImmMems(imms: seq<ImmMem>, key: Key) returns (r: Option<Value>)
    ensures r == Lookup(ImmRows(imms), key)
  {
    for i := 0 to |imms|
      invariant Lookup(ImmRows(imms), key) == Lookup(ImmRows(imms[i..]), key)
    {
      assert imms[i..][1..] == imms[i + 1..];
      if key in imms[i].rows {
        return Some(imms[i].rows[key]);
      }
    }
    return None;
  }

  method SearchL0(f: Format, refs: seq<TableRef>, key: Key, ghost l0: seq<Sst>,
                  ghost groups: seq<seq<seq<RowEntry>>>, ghost entries: seq<seq<RowEntry>>)
    returns (r: Option<Value>)
    requires Lossless(f.codec) && L0Stored(f, l0, refs, groups, entries)
    ensures r == Lookup(L0Rows(l0), key)
  {
    hide RefOK, Lossless, Apply, TableGet, Sought;
    for i := 0 to |refs|
      invariant Lookup(L0Rows(l0), key) == Lookup(L0Rows(l0[i..]), key)
    {
      assert l0[i..][1..] == l0[i + 1..];
      assert SstStored(f, l0[i], refs[i], groups[i], entries[i]);
      var v := GetFromTable(f, refs[i], key, groups[i], entries[i]);
      assert v == Lookup(l0[i].rows, key);
      if v.Some? {
        return v;
      }
    }
    return None;
  }

  method SearchRuns(f: Format, refs: seq<seq<TableRef>>, key: Key, ghost runs: seq<SortedRun>,
                    ghost groups: seq<seq<seq<seq<RowEntry>>>>, ghost entries: seq<seq<seq<RowEntry>>>)
    returns (r: Option<Value>)
    requires Lossless(f.codec) && RunsStored(f, runs, refs, groups, entries)
    ensures r == Lookup(RunRows(runs), key)
  {
    hide RunRefOK, Lossless, Apply, Flatten;
    for i := 0 to |refs|
      invariant Lookup(RunRows(runs), key) == Lookup(RunRows(runs[i..]), key)
    {
      assert runs[i..][1..] == runs[i + 1..];
      var v := GetFromRun(f, refs[i], key, groups[i], entries[i]);
      if v.Some? {
        return v;
      }
    }
    return None;
  }

  /** GetWithOptions on a snapshot: stops at the first layer that has the key, tombstones included, and
      so answers for the union of all layers in which the newest wins. */
  method GetWithOptions(f: Format, st: State, uncommitted: bool, key: Key, l0: seq<TableRef>, runs: seq<seq<TableRef>>,
                        ghost l0Groups: seq<seq<seq<RowEntry>>>, ghost l0Entries: seq<seq<RowEntry>>,
                        ghost runGroups: seq<seq<seq<seq<RowEntry>>>>, ghost runEntries: seq<seq<seq<RowEntry>>>)
    returns (r: Answer)
    requires Lossless(f.codec)
    requires L0Stored(f, st.core.l0, l0, l0Groups, l0Entries)
    requires RunsStored(f, st.core.compacted, runs, runGroups, runEntries)
    ensures r == CheckValue(Lookup(if uncommitted then UncommittedRows(st) else CommittedRows(st), key))
    ensures Tells(Lookup(if uncommitted then UncommittedRows(st) else CommittedRows(st), key), r)
  {
    hide Lossless, L0Stored, RunsStored, ImmRows, ImmWalRows, L0Rows, RunRows;
    var v: Option<Value>;
    if uncommitted {
      if key in st.wal {
        return CheckValue(Some(st.wal[key]));
      }
      v := SearchImmWals(st.immWals, key);
      if v.Some? {
        return CheckValue(v);
      }
    }
    if key in st.memtable.rows {
      return CheckValue(Some(st.memtable.rows[key]));
    }
    v := SearchImmMems(st.immMems, key);
    if v.Some? {
      return CheckValue(v);
    }
    v := SearchL0(f, l0, key, st.core.l0, l0Groups, l0Entries);
    if v.Some? {
      return CheckValue(v);
    }
    v := SearchRuns(f, runs, key, st.core.compacted, runGroups, runEntries);
    return CheckValue(v);
  }
}
