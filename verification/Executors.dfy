/** Running a compaction job: the merged stream is cut into output tables
    (slatedb/compaction/executor.go). */
module Executors {
  import opened Types
  import opened History
  import opened Keys
  import opened Scans
  import opened Cuts
  import opened Blocks
  import opened BlockIterators
  import opened SSTables
  import opened TableIterators
  import opened TableWriters
  import opened SortedRuns
  import opened Gets
  import opened Flushes
  import opened MergeSorts
  import opened CoreState
  import opened CompactorStates
  import opened Protocol

  // ---- what a compaction writes

  /** The tables that a compaction of sources, newest first, must write: the sources merged, empty values
      turned into tombstones, cut at the limit. */
  ghost function Compacted(sources: seq<seq<RowEntry>>, limit: nat): seq<seq<RowEntry>> {
    CutFrom(PersistEntries(Merge(sources, [])), [], limit)
  }

  /** They are cut as promised, and concatenated they are the merge. For sorted sources that is the one
      sorted sequence that holds the union of the sources, the newest row of each key winning. */
  lemma CompactedTables(sources: seq<seq<RowEntry>>, limit: nat)
    ensures var tables := Compacted(sources, limit);
      && Flatten(tables) == PersistEntries(Merge(sources, [])) && WellCut(tables, limit)
      && (AllSorted(sources) ==>
            && Sorted(Flatten(tables))
            && Apply(Flatten(tables)) == PersistRows(MergeSorts.Above(UnionRows(sources), [])))
  {
    hide MergeSorts.Above, UnionRows, PersistRows, Sorted, Apply, Flatten, WellCut, TableBytes, Listing, CutFrom, Merge;
    var all := PersistEntries(Merge(sources, []));
    NoBytes();
    CutFromIsWellCut(all, [], limit);
    assert [] + all == all;
    if AllSorted(sources) {
      NoneBelowFirst(sources);
      SortedMerge(sources, []);
      PersistSorted(Merge(sources, []));
      PersistApply(Merge(sources, []));
    }
  }

  ghost predicate EmptyKeyIn(s: seq<RowEntry>) {
    exists e :: e in s && e.key == []
  }

  lemma EmptyKeyHead(s: seq<RowEntry>)
    requires s != []
    ensures EmptyKeyIn(s) <==> s[0].key == [] || EmptyKeyIn(s[1..])
  {
    assert s == [s[0]] + s[1..];
  }

  /** Some table of the output is one whose filter cannot be built. */
  ghost predicate SomePanics(tables: seq<seq<RowEntry>>, c: Config) {
    exists i :: 0 <= i < |tables| && FilterPanics(|tables[i]|, c.minFilterKeys, c.bitsPerKey)
  }

  ghost predicate NonePanics(tables: seq<seq<RowEntry>>, c: Config) {
    forall i :: 0 <= i < |tables| ==> !FilterPanics(|tables[i]|, c.minFilterKeys, c.bitsPerKey)
  }

  lemma PanicsAt(tables: seq<seq<RowEntry>>, i: nat, c: Config)
    requires i < |tables| && FilterPanics(|tables[i]|, c.minFilterKeys, c.bitsPerKey)
    ensures SomePanics(tables, c)
  {
  }

  lemma PanicCases(tables: seq<seq<RowEntry>>, t: seq<RowEntry>, c: Config)
    ensures NonePanics([], c) && !SomePanics([], c)
    ensures NonePanics(tables, c) <==> !SomePanics(tables, c)
    ensures NonePanics(tables, c) && !FilterPanics(|t|, c.minFilterKeys, c.bitsPerKey) ==> NonePanics(tables + [t], c)
  {
    hide FilterPanics;
  }

  /** The state of the loop: the closed tables, the current one, and what remains to be merged. */
  ghost predicate Cutting(all: seq<seq<RowEntry>>, tables: seq<seq<RowEntry>>, current: seq<RowEntry>, size: nat,
                          limit: nat, remaining: seq<RowEntry>)
  {
    && all == tables + CutFrom(PersistEntries(remaining), current, limit)
    && (forall i :: 0 <= i < |current| ==> current[i].key != [])
    && size == TableBytes(current) <= limit
  }

  lemma CuttingStarts(sources: seq<seq<RowEntry>>, limit: nat)
    ensures Cutting(Compacted(sources, limit), [], [], 0, limit, Merge(sources, []))
  {
    hide CutFrom, Merge;
    assert [] + Compacted(sources, limit) == Compacted(sources, limit);
  }

  /** The next entry goes into the current table, which is closed if it exceeds the limit then. */
  lemma CuttingNext(all: seq<seq<RowEntry>>, tables: seq<seq<RowEntry>>, current: seq<RowEntry>, size: nat,
                    limit: nat, remaining: seq<RowEntry>)
    requires Cutting(all, tables, current, size, limit, remaining) && remaining != [] && remaining[0].key != []
    ensures var e := RowEntry(remaining[0].key, Persist(remaining[0].value));
      var t, rest := current + [e], remaining[1..];
      && t[0].key != [] && size + EntryBytes(e) == TableBytes(t)
      && (TableBytes(t) <= limit ==> Cutting(all, tables, t, size + EntryBytes(e), limit, rest))
      && (TableBytes(t) > limit ==>
            |tables| < |all| && all[|tables|] == t && Cutting(all, tables + [t], [], 0, limit, rest))
  {
    hide TableBytes, CutFrom, Persist;
    var e, list := RowEntry(remaining[0].key, Persist(remaining[0].value)), PersistEntries(remaining[1..]);
    var t := current + [e];
    assert PersistEntries(remaining) == [e] + list;
    CutStep(e, list, current, limit);
    BytesSnoc(current, e);
    NoBytes();
    if TableBytes(t) > limit {
      assert all == (tables + [t]) + CutFrom(list, [], limit);
      assert all[|tables|] == t;
    }
  }

  lemma CutStep(e: RowEntry, list: seq<RowEntry>, current: seq<RowEntry>, limit: nat)
    ensures CutFrom([e] + list, current, limit) ==
      var t := current + [e];
      if TableBytes(t) > limit then [t] + CutFrom(list, [], limit) else CutFrom(list, t, limit)
  {
    assert ([e] + list)[1..] == list;
  }

  /** At the end the current table, if it has rows, is the last one. */
  lemma CuttingEnds(all: seq<seq<RowEntry>>, tables: seq<seq<RowEntry>>, current: seq<RowEntry>, size: nat, limit: nat)
    requires Cutting(all, tables, current, size, limit, [])
    ensures all == if size > 0 then tables + [current] else tables
    ensures size > 0 ==> current != [] && current[0].key != []
  {
    hide TableBytes;
    BytesIffRows(current);
    assert PersistEntries([]) == [];
  }

  // ---- the output tables

  datatype Config = Config(blockSize: nat, minFilterKeys: nat, bitsPerKey: nat)

  predicate ConfigOK(c: Config) {
    c.blockSize < TWO16 && c.bitsPerKey < TWO32
  }

  /** The table was written with the entries, unless it is too large for its index. */
  ghost predicate WrittenTable(f: Format, c: Config, t: TableRef, groups: seq<seq<RowEntry>>, entries: seq<RowEntry>) {
    Packable(|t.stored.file|, entries) ==>
      && FileOK(f, t.stored, groups, entries) && FilterHas(f, t.filter, entries)
      && FilterOK(f, t.filter, entries, c.minFilterKeys, c.bitsPerKey)
  }

  ghost predicate WrittenTables(f: Format, c: Config, refs: seq<TableRef>, groups: seq<seq<seq<RowEntry>>>,
                                tables: seq<seq<RowEntry>>) {
    && |refs| == |groups| == |tables|
    && forall i :: 0 <= i < |refs| ==> WrittenTable(f, c, refs[i], groups[i], tables[i])
  }

  /** The writer of the current table, which has the entries. */
  ghost predicate Writing(w: EncodedSSTableWriter, f: Format, c: Config, entries: seq<RowEntry>)
    reads w, w.builder, w.builder.blockBuilder
  {
    && w.Valid() && w.builder.f == f && w.builder.All() == entries
    && w.builder.minFilterKeys == c.minFilterKeys && w.builder.bitsPerKey == c.bitsPerKey
  }

  /** Closes the writer of an output table. */
  method CloseTable(w: EncodedSSTableWriter, f: Format, c: Config, ghost entries: seq<RowEntry>)
    returns (r: Option<TableRef>, ghost groups: seq<seq<RowEntry>>)
    requires Writing(w, f, c, entries) && Sound(f)
    requires entries != [] && entries[0].key != []
    modifies w, w.builder
    ensures r.None? <==> FilterPanics(|entries|, c.minFilterKeys, c.bitsPerKey)
    ensures r.Some? ==> WrittenTable(f, c, r.value, groups, entries)
  {
    hide EncodedSSTableWriter.Valid, Sound, TableOK, FilterOK, FilterPanics, Flatten, Sorted, ReadFilter, ReadInfo,
         Packable, RefOK, FileOK, FilterHas;
    var t, file := w.Close();
    groups := w.builder.groups;
    if t.None? {
      return None, groups;
    }
    var ref := TableRef(Stored(file, t.value.info, w.builder.metas), t.value.filter);
    if Packable(|file|, entries) {
      BuiltTableReads(f, ref, groups, entries, c.minFilterKeys, c.bitsPerKey);
    }
    return Some(ref), groups;
  }

  method NewWriter(f: Format, c: Config) returns (w: EncodedSSTableWriter)
    requires ConfigOK(c)
    ensures fresh(w) && fresh(w.builder) && fresh(w.builder.blockBuilder) && Writing(w, f, c, [])
  {
    w := new EncodedSSTableWriter(f, c.blockSize, c.minFilterKeys, c.bitsPerKey);
  }

  /** Adds an entry of the merged stream to the current table. */
  method AddEntry(w: EncodedSSTableWriter, f: Format, c: Config, kv: RowEntry, ghost entries: seq<RowEntry>)
    requires Writing(w, f, c, entries) && kv.key != []
    modifies w, w.builder, w.builder.blockBuilder
    ensures Writing(w, f, c, entries + [RowEntry(kv.key, Persist(kv.value))])
    ensures w.builder.blockBuilder == old(w.builder.blockBuilder) || fresh(w.builder.blockBuilder)
  {
    hide EncodedSSTableWriter.Valid, TableBuilder.All;
    w.Add(kv.key, if kv.value.KeyValue? then Some(kv.value.bytes) else None);
  }

  /** executeCompaction for a job whose iterators yield `sources`, newest first, in any order: the files
      are tables written with exactly what the compaction must write. It panics exactly if it comes to a
      row for the empty key or one of the filters cannot be built. */
  method ExecuteCompaction(f: Format, c: Config, sources: seq<seq<RowEntry>>, maxSstSize: nat)
    returns (r: Option<seq<TableRef>>, ghost groups: seq<seq<seq<RowEntry>>>)
    requires Sound(f) && ConfigOK(c)
    ensures r.None? <==> EmptyKeyIn(Merge(sources, [])) || SomePanics(Compacted(sources, maxSstSize), c)
    ensures r.Some? ==> WrittenTables(f, c, r.value, groups, Compacted(sources, maxSstSize))
  {
    hide Cutting, TableBytes, Compacted, Merge, EmptyKeyIn,
         Writing, WrittenTables, Sound, FilterPanics, SomePanics, NonePanics, Persist, EntryBytes, ConfigOK;
    hide MergeSort.Valid, MergeSort.Remaining;
    var ms := new MergeSort(sources);
    ghost var all, tables := Compacted(sources, maxSstSize), [];
    var refs: seq<TableRef> := [];
    groups := [];
    var writer := NewWriter(f, c);
    var currentSize: nat := 0;
    ghost var current: seq<RowEntry> := [];
    CuttingStarts(sources, maxSstSize);
    NothingWritten(f, c);
    PanicCases([], [], c);
    while true
      invariant ms.Valid() && fresh(ms) && fresh(writer) && fresh(writer.builder) && fresh(writer.builder.blockBuilder)
      invariant Writing(writer, f, c, current)
      invariant Cutting(all, tables, current, currentSize, maxSstSize, ms.Remaining())
      invariant EmptyKeyIn(Merge(sources, [])) <==> EmptyKeyIn(ms.Remaining())
      invariant WrittenTables(f, c, refs, groups, tables) && NonePanics(tables, c)
      decreases |ms.Remaining()|
    {
      ghost var remaining := ms.Remaining();
      var kv, ok := ms.NextEntry();
      if !ok {
        break;
      }
      EmptyKeyHead(remaining);
      if |kv.key| == 0 {
        return None, groups;
      }
      ghost var t := current + [RowEntry(kv.key, Persist(kv.value))];
      CuttingNext(all, tables, current, currentSize, maxSstSize, remaining);
      AddEntry(writer, f, c, kv, current);
      currentSize := currentSize + EntryBytes(RowEntry(kv.key, Persist(kv.value)));
      if currentSize > maxSstSize {
        var closed, g := FinishTable(writer, f, c, refs, groups, tables, t);
        if closed.None? {
          PanicsAt(all, |tables|, c);
          return None, groups;
        }
        PanicCases(tables, t, c);
        refs, groups, tables := closed.value, g, tables + [t];
        writer := NewWriter(f, c);
        t, currentSize := [], 0;
      }
      current := t;
    }
    CuttingEnds(all, tables, current, currentSize, maxSstSize);
    assert !EmptyKeyIn([]) by { NoKeys(); }
    if currentSize > 0 {
      var closed, g := FinishTable(writer, f, c, refs, groups, tables, current);
      if closed.None? {
        PanicsAt(all, |tables|, c);
        return None, groups;
      }
      PanicCases(tables, current, c);
      refs, groups := closed.value, g;
    }
    PanicCases(all, [], c);
    return Some(refs), groups;
  }

  lemma NoKeys()
    ensures !EmptyKeyIn([])
  {
  }

  /** Closes the current table and adds it to the output. */
  method FinishTable(w: EncodedSSTableWriter, f: Format, c: Config, refs: seq<TableRef>,
                     ghost groups: seq<seq<seq<RowEntry>>>,
                     ghost tables: seq<seq<RowEntry>>, ghost current: seq<RowEntry>)
    returns (r: Option<seq<TableRef>>, ghost groups': seq<seq<seq<RowEntry>>>)
    requires Writing(w, f, c, current) && Sound(f) && current != [] && current[0].key != []
    requires WrittenTables(f, c, refs, groups, tables)
    modifies w, w.builder
    ensures r.None? <==> FilterPanics(|current|, c.minFilterKeys, c.bitsPerKey)
    ensures r.Some? ==> WrittenTables(f, c, r.value, groups', tables + [current])
  {
    hide Writing, Sound, FilterPanics, WrittenTable;
    var ref, g := CloseTable(w, f, c, current);
    groups' := groups + [g];
    r := if ref.None? then None else Some(refs + [ref.value]);
  }

  lemma NothingWritten(f: Format, c: Config)
    ensures WrittenTables(f, c, [], [], [])
  {
  }

  // ---- a whole job

  lemma MergedEntry(list: seq<RowEntry>, i: nat)
    requires i < |list| && (list[i].key != [] ==> Storable(list[i]))
    ensures PersistEntries(list)[i].key != [] ==> Storable(PersistEntries(list)[i])
  {
  }

  /** What a job over stored tables writes fits, up to the empty key. */
  lemma JobOutFits(f: Format, job: Job, refs: seq<TableRef>, groups: seq<seq<seq<RowEntry>>>,
                   entries: seq<seq<RowEntry>>)
    requires L0Stored(f, job.ssts, refs, groups, entries) && job.runs == [] && !JobPanics(job)
    ensures EntriesFit(JobOut(job)) && StorableRows(Apply(JobOut(job)))
  {
    hide RefOK, ReadsAs, Merge, Storable, Apply, Sought, Scanned;
    var out := Merge(JobSources(job), []);
    forall i | 0 <= i < |out| ensures Storable(JobOut(job)[i]) {
      var j := MergedFrom(JobSources(job), [], out[i]);
      assert SstStored(f, job.ssts[j], refs[j], groups[j], entries[j]);
      FullScanFits(f, refs[j], groups[j], entries[j], out[i]);
      MergedEntry(out, i);
      assert JobOut(job)[i] in JobOut(job);
    }
    forall e | e in JobOut(job) ensures Storable(e) {}
    ApplyStorable(JobOut(job));
  }

  lemma FullScanFits(f: Format, t: TableRef, groups: seq<seq<RowEntry>>, entries: seq<RowEntry>, x: RowEntry)
    requires RefOK(f, t, groups, entries) && NoneEmpty(groups) && x in Sought(groups, None)
    ensures x.key != [] ==> Storable(x)
  {
    hide TableOK, FilterHas, Storable, Sought;
    ScanReadsBack(f, t.stored, groups, entries);
  }

  /** A job over stored L0 tables, whatever they were written with. The tables are read through their
      iterators, merged and written as the protocol says. If the rows come in order and the tables fit
      their indexes, the output tables form a run in which Get finds exactly these rows. */
  method RunJob(f: Format, c: Config, job: Job, refs: seq<TableRef>, maxSstSize: nat,
                ghost inGroups: seq<seq<seq<RowEntry>>>, ghost inEntries: seq<seq<RowEntry>>)
    returns (r: Option<seq<TableRef>>, ghost groups: seq<seq<seq<RowEntry>>>)
    requires Sound(f) && ConfigOK(c) && BranchOf(job) == OnlySsts
    requires L0Stored(f, job.ssts, refs, inGroups, inEntries)
    ensures r.None? <==> JobPanics(job) || SomePanics(Compacted(JobSources(job), maxSstSize), c)
    ensures r.Some? ==> WrittenTables(f, c, r.value, groups, Compacted(JobSources(job), maxSstSize))
    ensures Flatten(Compacted(JobSources(job), maxSstSize)) == JobOut(job)
    ensures WellCut(Compacted(JobSources(job), maxSstSize), maxSstSize)
    ensures r.Some? && Sorted(JobOut(job)) ==> RunFinds(job, Apply(JobOut(job)))
    ensures r.Some? && Sorted(JobOut(job)) && AllPackable(r.value, Compacted(JobSources(job), maxSstSize)) ==>
      RunRefOK(f, r.value, groups, Compacted(JobSources(job), maxSstSize))
  {
    hide Sound, Sorted, Apply, Flatten, EntriesFit, WellCut, SomePanics, Compacted, L0Stored, Merge, StorableRows,
         WrittenTables, AllPackable, RunRefOK, ConfigOK;
    assert Lossless(f.codec) by { SoundCodec(f); }
    var sources := ReadSources(f, refs, job.ssts, inGroups, inEntries);
    assert sources == JobSources(job);
    r, groups := ExecuteCompaction(f, c, sources, maxSstSize);
    CompactedTables(sources, maxSstSize);
    PanicsAlike(Merge(sources, []));
    if r.Some? && Sorted(JobOut(job)) {
      JobOutFits(f, job, refs, inGroups, inEntries);
      if AllPackable(r.value, Compacted(sources, maxSstSize)) {
        OutputRun(f, c, r.value, groups, Compacted(sources, maxSstSize), maxSstSize);
      }
    }
  }

  lemma PanicsAlike(out: seq<RowEntry>)
    ensures EmptyKeyIn(out) <==> EmptyKeyIn(PersistEntries(out))
  {
    var p := PersistEntries(out);
    if e :| e in out && e.key == [] {
      var i :| 0 <= i < |out| && out[i] == e;
      assert p[i] in p && p[i].key == [];
    }
    if e :| e in p && e.key == [] {
      var i :| 0 <= i < |p| && p[i] == e;
      assert out[i] in out && out[i].key == [];
    }
  }

  /** Every table fits its index. */
  ghost predicate AllPackable(refs: seq<TableRef>, tables: seq<seq<RowEntry>>) {
    |refs| == |tables| && forall i :: 0 <= i < |tables| ==> Packable(|refs[i].stored.file|, tables[i])
  }

  lemma OutputRun(f: Format, c: Config, refs: seq<TableRef>, groups: seq<seq<seq<RowEntry>>>,
                  tables: seq<seq<RowEntry>>,
                  limit: nat)
    requires WrittenTables(f, c, refs, groups, tables) && WellCut(tables, limit) && Sorted(Flatten(tables))
    requires EntriesFit(Flatten(tables)) && AllPackable(refs, tables)
    ensures RunRefOK(f, refs, groups, tables)
  {
    hide Sorted, Flatten, EntriesFit, Packable, FileOK, FilterHas, FilterOK, JustOver, TableBytes;
    FlatFit(tables);
    forall i | 0 <= i < |tables|
      ensures StoredOK(f, Tables(refs)[i], groups[i], tables[i]) && FilterHas(f, refs[i].filter, tables[i])
    {
      assert WrittenTable(f, c, refs[i], groups[i], tables[i]);
      GroupSorted(tables, i);
    }
  }

  /** Reads the tables of a job, in order. */
  method ReadSources(f: Format, refs: seq<TableRef>, ghost ssts: seq<Sst>,
                     ghost groups: seq<seq<seq<RowEntry>>>, ghost entries: seq<seq<RowEntry>>)
    returns (sources: seq<seq<RowEntry>>)
    requires Lossless(f.codec) && L0Stored(f, ssts, refs, groups, entries)
    ensures |sources| == |ssts| && forall i :: 0 <= i < |ssts| ==> sources[i] == ssts[i].scan
  {
    hide Lossless, Sorted, Flatten, FileOK, FilterHas, Sought, ReadsAs, Scanned;
    sources := [];
    for i := 0 to |refs|
      invariant |sources| == i && forall j :: 0 <= j < i ==> sources[j] == ssts[j].scan
    {
      assert SstStored(f, ssts[i], refs[i], groups[i], entries[i]);
      var list := ReadTable(f, refs[i].stored, groups[i], entries[i]);
      sources := sources + [list];
    }
  }
}
