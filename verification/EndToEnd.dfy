/** From the bytes of the tables to the client's history: runs of the protocol whose steps carry the files
    they write. In every state of such a run the files hold what the state says, and a Get that reads
    them answers with the last write. */
module EndToEnd {
  import opened Types
  import opened History
  import opened Keys
  import opened Scans
  import opened CoreState
  import opened Manifests
  import opened KVTables
  import opened WalLists
  import opened DbStates
  import opened CompactorStates
  import opened Protocol
  import opened Coverage
  import opened Invariants
  import opened ManifestSteps
  import opened Recovery
  import opened Safety
  import opened Views
  import opened Theorems
  import opened Answers
  import opened Blocks
  import opened SSTables
  import opened TableIterators
  import opened SortedRuns
  import opened Gets

  // ---- files

  /** A stored table, and the entries and blocks it was written with. */
  datatype TableFile = TableFile(ref: TableRef, groups: seq<seq<RowEntry>>, entries: seq<RowEntry>)

  datatype RunFile = RunFile(refs: seq<TableRef>, groups: seq<seq<seq<RowEntry>>>, entries: seq<seq<RowEntry>>)

  /** The file of each L0 table, by its id, and the files of each run. */
  datatype Files = Files(tables: map<nat, TableFile>, runs: map<SortedRun, RunFile>)

  /** A step that writes no table; a flush with the table it writes; the end of a job with its tables. */
  datatype FileStep = Bare(step: Step) | Flushed(id: nat, table: TableFile) | Finished(tables: RunFile)

  datatype World = World(s: Sys, files: Files)

  const NewWorld := World(Start, Files(map[], map[]))

  /** The running job comes to a row for the empty key. */
  ghost predicate JobFails(s: Sys) {
    s.compactor.Some? && s.compactor.value.running != [] && JobPanics(s.compactor.value.running[0])
  }

  /** A flush or a job that does not panic writes tables. */
  ghost predicate Writes(s: Sys, step: Step) {
    (step.FlushMem? && !FlushPanics(s, step)) || (step.FinishJob? && step.ok && !JobFails(s))
  }

  /** The table was written with the oldest immutable memtable. */
  ghost predicate FlushFits(f: Format, s: Sys, id: nat, t: TableFile) {
    && s.writer.Some? && s.writer.value.st.immMems != [] && id !in s.usedIds
    && var imms := s.writer.value.st.immMems;
    && [] !in imms[|imms| - 1].rows
    && RefOK(f, t.ref, t.groups, t.entries) && NoneEmpty(t.groups)
    && Apply(t.entries) == PersistRows(imms[|imms| - 1].rows)
  }

  /** The tables were written with what the running job writes, in order. */
  ghost predicate RunFits(f: Format, s: Sys, t: RunFile) {
    && s.compactor.Some? && s.compactor.value.running != [] && !JobFails(s)
    && RunRefOK(f, t.refs, t.groups, t.entries)
    && Flatten(t.entries) == JobOut(s.compactor.value.running[0])
    && StorableRows(Apply(Flatten(t.entries)))
  }

  ghost function RunOf(job: Job): SortedRun {
    SortedRun(job.destination, Apply(JobOut(job)), Ids(job.ssts))
  }

  ghost function DoFile(f: Format, w: World, step: FileStep): World {
    match step
    case Bare(step) => if Writes(w.s, step) then w else World(Do(w.s, step), w.files)
    case Flushed(id, t) =>
      if !FlushFits(f, w.s, id, t) then w
      else World(Do(w.s, FlushMem(id, LookupRows(f, t.ref, t.groups))), w.files.(tables := w.files.tables[id := t]))
    case Finished(t) =>
      if !RunFits(f, w.s, t) then w
      else
        var job := w.s.compactor.value.running[0];
        World(Do(w.s, FinishJob(true, Apply(JobOut(job)))), w.files.(runs := w.files.runs[RunOf(job) := t]))
  }

  ghost function RunFiles(f: Format, steps: seq<FileStep>): World {
    if steps == [] then NewWorld else DoFile(f, RunFiles(f, steps[..|steps| - 1]), steps[|steps| - 1])
  }

  /** A run with files is a run of the protocol. */
  lemma {:induction false} FilesAreARun(f: Format, steps: seq<FileStep>) returns (bare: seq<Step>)
    ensures RunFiles(f, steps).s == Run(bare)
  {
    hide Do, Writes, FlushFits, RunFits, JobOut, LookupRows;
    bare := [];
    if steps != [] {
      var init := FilesAreARun(f, steps[..|steps| - 1]);
      var w, t := RunFiles(f, steps[..|steps| - 1]), RunFiles(f, steps);
      bare := init;
      if t.s != w.s {
        var step :| t.s == Do(w.s, step);
        bare := init + [step];
        assert bare[..|bare| - 1] == init;
      }
    }
  }

  // ---- every table is in the store

  ghost predicate TableKnown(f: Format, t: Sst, tables: map<nat, TableFile>) {
    t.id in tables && var file := tables[t.id]; SstStored(f, t, file.ref, file.groups, file.entries)
  }

  ghost predicate RunFileOK(f: Format, run: SortedRun, t: RunFile) {
    RunRefOK(f, t.refs, t.groups, t.entries) && Apply(Flatten(t.entries)) == run.rows
  }

  ghost predicate AllIn(runs: seq<SortedRun>, known: set<SortedRun>) {
    forall r :: r in runs ==> r in known
  }

  /** Every run that a manifest, a process or a result names is known. */
  ghost predicate RunsKnown(s: Sys, known: set<SortedRun>) {
    && (forall i :: 0 <= i < |s.log| ==> AllIn(s.log[i].core.compacted, known))
    && (s.writer.Some? ==> AllIn(s.writer.value.st.core.compacted, known))
    && (s.compactor.Some? ==>
          && AllIn(s.compactor.value.st.db.compacted, known)
          && forall i :: 0 <= i < |s.compactor.value.results| && s.compactor.value.results[i].Success? ==>
               s.compactor.value.results[i].run in known)
  }

  ghost predicate FilesOK(f: Format, w: World) {
    && Inv(w.s)
    && w.files.tables.Keys <= w.s.usedIds
    && (forall i :: 0 <= i < |AllFlushes(w.s)| ==> TableKnown(f, AllFlushes(w.s)[i].sst, w.files.tables))
    && (forall r :: r in w.files.runs ==> RunFileOK(f, r, w.files.runs[r]))
    && RunsKnown(w.s, w.files.runs.Keys)
  }

  // ---- runs

  lemma SplicedIn(st: CState, run: SortedRun, known: set<SortedRun>)
    requires AllIn(st.db.compacted, known) && run in known
    ensures AllIn(WithFinished(st, run).db.compacted, known)
  {
    hide Splice;
    if run.id in st.compactions && st.compactions[run.id].sources != [] {
      var c := st.compactions[run.id];
      forall r | r in WithFinished(st, run).db.compacted ensures r in known {
        SpliceMember(st.db.compacted, run, RunIds(c.sources) + {c.destination}, r);
      }
    }
  }

  lemma OpenKeepsKnown(s: Sys, limit: nat, known: set<SortedRun>)
    requires Inv(s) && RunsKnown(s, known)
    ensures RunsKnown(Do(s, OpenWriter(limit)), known)
  {
    hide LogOK, CompactorOK, FlushOK, UniqueIds, WriterOK, Replaced, Replay, IdsAbove, Readable, AllIn,
         HoldingPersisted;
    LogNonEmpty(s.log, s.marks, s.flushed);
    StoreOK(s);
    LastStored(s);
    var core := s.log[|s.log| - 1].core;
    ReplayAssertion(core, s.wals, s.frozen, s.durable, limit);
    ReplayIds(core, s.wals, s.durable, limit);
  }

  lemma LastStored(s: Sys)
    requires Inv(s) && s.log != []
    ensures s.log[|s.log| - 1].core.lastCompactedWal <= s.durable
    ensures s.log[|s.log| - 1].core.lastCompactedWal < s.log[|s.log| - 1].core.nextWal
  {
    hide LogOK, CompactorOK, FlushOK, UniqueIds, WriterOK, WalsOK;
    FlushPrefix(s.flushed, AllFlushes(s), s.frozen, s.durable);
    LastCore(s.log, s.marks, s.flushed, s.frozen, s.durable);
  }

  lemma StepKeepsKnown(s: Sys, step: Step, known: set<SortedRun>)
    requires Inv(s) && RunsKnown(s, known)
    requires step.FinishJob? && step.ok && !JobFails(s) && s.compactor.Some? && s.compactor.value.running != [] ==>
      SortedRun(s.compactor.value.running[0].destination, step.rows, Ids(s.compactor.value.running[0].ssts)) in known
    ensures RunsKnown(Do(s, step), known)
  {
    hide LogOK, WriterOK, CompactorOK, FlushOK, UniqueIds, WalsOK, Replaced, AllIn, DoOpenWriter;
    hide WithFinished, Schedule, Accepts, JobFor, JobPanics, RunFinds, InIdOrder, TakeUntil, RowsSize, Replays, Finds,
         ScanOf;
    LogNonEmpty(s.log, s.marks, s.flushed);
    match step
    case OpenWriter(limit) => OpenKeepsKnown(s, limit, known);
    case TakeResult =>
      if s.compactor.Some? && s.compactor.value.results != [] && s.compactor.value.results[0].Success? {
        SplicedIn(s.compactor.value.st, s.compactor.value.results[0].run, known);
      }
    case ZombiePublish(z, core) => if z in s.zombies { ReplacedCannotLand(z, s.log); }
    case _ =>
  }

  // ---- tables

  /** No other step adds a flush. */
  lemma OtherFlushes(s: Sys, step: Step)
    requires Inv(s) && (step.FlushMem? ==> FlushPanics(s, step))
    ensures AllFlushes(Do(s, step)) <= AllFlushes(s) && s.usedIds <= Do(s, step).usedIds
  {
    hide LogOK, WriterOK, CompactorOK, FlushOK, UniqueIds, WalsOK, Replaced;
    hide WithManifest, WithWriterState, WithFinished, Replay, Schedule, Accepts, JobFor, JobPanics, RunFinds, InIdOrder,
         WithWalFrozen, Readable, IdsAbove, Replays, Finds, ScanOf;
  }

  lemma BareKeeps(f: Format, w: World, step: Step)
    requires FilesOK(f, w) && !Writes(w.s, step)
    ensures FilesOK(f, World(Do(w.s, step), w.files))
  {
    hide Inv, Do, TableKnown, RunFileOK, RunsKnown, FlushPanics, JobFails;
    DoKeeps(w.s, step);
    OtherFlushes(w.s, step);
    StepKeepsKnown(w.s, step, w.files.runs.Keys);
  }

  /** The state after a flush whose table reads back as the protocol says. */
  lemma FlushTakes(f: Format, s: Sys, id: nat, t: TableFile)
    requires FlushFits(f, s, id, t)
    ensures var imms := s.writer.value.st.immMems;
      var sst := Sst(id, LookupRows(f, t.ref, t.groups), ScanOf(imms[|imms| - 1].rows));
      var s' := Do(s, FlushMem(id, sst.rows));
      && SstStored(f, sst, t.ref, t.groups, t.entries)
      && AllFlushes(s') == AllFlushes(s) + [Flush(sst, imms[|imms| - 1].lastWal)]
      && s'.usedIds == s.usedIds + {id}
      && s'.writer.Some? && s'.writer.value.st.core.l0 == [sst] + s.writer.value.st.core.l0
  {
    hide RefOK, Apply, PersistRows, LookupRows, ReadsAs, ScanOf, Finds, Sought;
    var imms := s.writer.value.st.immMems;
    WrittenReadsBack(f, t.ref, t.groups, t.entries, imms[|imms| - 1].rows);
  }

  lemma FlushedKeeps(f: Format, w: World, id: nat, t: TableFile)
    requires FilesOK(f, w) && FlushFits(f, w.s, id, t)
    ensures FilesOK(f, World(Do(w.s, FlushMem(id, LookupRows(f, t.ref, t.groups))),
                             w.files.(tables := w.files.tables[id := t])))
  {
    hide Inv, Do, RunFileOK, RunsKnown, FlushFits, LookupRows, ScanOf, AllFlushes, TableKnown, SstStored;
    FitsParts(f, w.s, id, t);
    FlushTakes(f, w.s, id, t);
    var imms := w.s.writer.value.st.immMems;
    var sst := Sst(id, LookupRows(f, t.ref, t.groups), ScanOf(imms[|imms| - 1].rows));
    var step := FlushMem(id, sst.rows);
    DoKeeps(w.s, step);
    StepKeepsKnown(w.s, step, w.files.runs.Keys);
    var F, F' := AllFlushes(w.s), AllFlushes(Do(w.s, step));
    forall i | 0 <= i < |F'| ensures TableKnown(f, F'[i].sst, w.files.tables[id := t]) {
      if i < |F| {
        StillKnown(f, F[i].sst, w.files.tables, id, t);
      } else {
        NowKnown(f, sst, w.files.tables, t);
      }
    }
  }

  lemma FitsParts(f: Format, s: Sys, id: nat, t: TableFile)
    requires FlushFits(f, s, id, t)
    ensures s.writer.Some? && s.writer.value.st.immMems != [] && id !in s.usedIds && NoneEmpty(t.groups)
  {
    hide RefOK, PersistRows, Apply;
  }

  lemma StillKnown(f: Format, sst: Sst, tables: map<nat, TableFile>, id: nat, t: TableFile)
    requires TableKnown(f, sst, tables) && id !in tables
    ensures TableKnown(f, sst, tables[id := t])
  {
    hide SstStored;
  }

  lemma NowKnown(f: Format, sst: Sst, tables: map<nat, TableFile>, t: TableFile)
    requires SstStored(f, sst, t.ref, t.groups, t.entries)
    ensures TableKnown(f, sst, tables[sst.id := t])
  {
    hide SstStored;
  }

  lemma FinishedKeeps(f: Format, w: World, t: RunFile)
    requires FilesOK(f, w) && RunFits(f, w.s, t)
    ensures FilesOK(f, DoFile(f, w, Finished(t)))
  {
    hide Inv, Do, TableKnown, RunsKnown, RunRefOK, Apply, Flatten, JobOut, JobPanics, StorableRows, FlushPanics;
    var job := w.s.compactor.value.running[0];
    var step := FinishJob(true, Apply(JobOut(job)));
    DoKeeps(w.s, step);
    OtherFlushes(w.s, step);
    var runs := w.files.runs[RunOf(job) := t];
    MoreKnown(w.s, w.files.runs.Keys, runs.Keys);
    StepKeepsKnown(w.s, step, runs.Keys);
  }

  lemma MoreKnown(s: Sys, known: set<SortedRun>, more: set<SortedRun>)
    requires RunsKnown(s, known) && known <= more
    ensures RunsKnown(s, more)
  {
  }

  /** In every run with files, every table and every run that the state names is in the store and reads
      as the state says. */
  lemma {:induction false} RunKeepsFiles(f: Format, steps: seq<FileStep>)
    ensures FilesOK(f, RunFiles(f, steps))
  {
    hide FilesOK, Do, Writes, FlushFits, RunFits, LookupRows, JobOut;
    if steps == [] {
      NewWorldOK(f);
    } else {
      var n := |steps| - 1;
      RunKeepsFiles(f, steps[..n]);
      var w := RunFiles(f, steps[..n]);
      match steps[n]
      case Bare(step) => if !Writes(w.s, step) { BareKeeps(f, w, step); }
      case Flushed(id, t) => if FlushFits(f, w.s, id, t) { FlushedKeeps(f, w, id, t); }
      case Finished(t) => if RunFits(f, w.s, t) { FinishedKeeps(f, w, t); }
    }
  }

  lemma NewWorldOK(f: Format)
    ensures FilesOK(f, NewWorld)
  {
    hide Inv;
    StartOK();
  }

  // ---- the code's writers make these steps

  /** What FlushImmTable returns for the oldest immutable memtable is a table with which the flush step is
      taken, whatever the lengths of keys and values. */
  lemma FlushIsStored(f: Format, w: World, id: nat, ref: TableRef, groups: seq<seq<RowEntry>>, entries: seq<RowEntry>)
    requires w.s.writer.Some? && w.s.writer.value.st.immMems != [] && id !in w.s.usedIds
    requires var imms := w.s.writer.value.st.immMems; Apply(entries) == imms[|imms| - 1].rows && [] !in Apply(entries)
    requires RefOK(f, ref, groups, PersistEntries(entries))
    ensures var l0, file := w.s.writer.value.st.core.l0, TableFile(ref, groups, PersistEntries(entries));
      var t := DoFile(f, w, Flushed(id, file));
      && t.s.writer.Some? && t.files.tables == w.files.tables[id := file]
      && t.s.writer.value.st.core.l0 == [Sst(id, LookupRows(f, ref, groups), ScanOf(Apply(entries)))] + l0
  {
    hide TableOK, FilterHas, Apply, PersistRows, ScanOf, Do, LookupRows, Sorted, Flatten;
    PersistApply(entries);
    TableNotEmpty(f, ref.stored.file, ref.stored.info, ref.stored.metas, groups);
    FlushTakes(f, w.s, id, TableFile(ref, groups, PersistEntries(entries)));
  }

  function Refs(l0: seq<Sst>, files: Files): seq<TableRef>
    requires forall i :: 0 <= i < |l0| ==> l0[i].id in files.tables
  {
    seq(|l0|, i requires 0 <= i < |l0| => files.tables[l0[i].id].ref)
  }

  function Groups(l0: seq<Sst>, files: Files): seq<seq<seq<RowEntry>>>
    requires forall i :: 0 <= i < |l0| ==> l0[i].id in files.tables
  {
    seq(|l0|, i requires 0 <= i < |l0| => files.tables[l0[i].id].groups)
  }

  function Written(l0: seq<Sst>, files: Files): seq<seq<RowEntry>>
    requires forall i :: 0 <= i < |l0| ==> l0[i].id in files.tables
  {
    seq(|l0|, i requires 0 <= i < |l0| => files.tables[l0[i].id].entries)
  }

  lemma MatchedStored(f: Format, l0: seq<Sst>, F: seq<Flush>, lo: nat, hi: nat, files: Files)
    requires L0Matches(l0, F, lo, hi) && forall i :: 0 <= i < |F| ==> TableKnown(f, F[i].sst, files.tables)
    ensures forall i :: 0 <= i < |l0| ==> l0[i].id in files.tables
    ensures L0Stored(f, l0, Refs(l0, files), Groups(l0, files), Written(l0, files))
  {
    hide SstStored;
    forall i | 0 <= i < |l0| ensures TableKnown(f, l0[i], files.tables) {
      assert l0[i] == F[hi - 1 - i].sst;
    }
  }

  /** In every run with files, the tables of a running job are stored, so that RunJob can read them. */
  lemma JobIsStored(f: Format, steps: seq<FileStep>)
    requires var s := RunFiles(f, steps).s; s.compactor.Some? && s.compactor.value.running != []
    ensures var w := RunFiles(f, steps);
      var job := w.s.compactor.value.running[0];
      && BranchOf(job) == OnlySsts
      && (forall i :: 0 <= i < |job.ssts| ==> job.ssts[i].id in w.files.tables)
      && L0Stored(f, job.ssts, Refs(job.ssts, w.files), Groups(job.ssts, w.files), Written(job.ssts, w.files))
  {
    RunKeepsFiles(f, steps);
    var w := RunFiles(f, steps);
    var bare := FilesAreARun(f, steps);
    OneCompactionAtATime(bare);
    hide RunFiles, L0Stored, TableKnown;
    KnownPrefix(f, w);
    var lo, hi := JobMatches(w.s);
    MatchedStored(f, w.s.compactor.value.running[0].ssts, w.s.flushed, lo, hi, w.files);
  }

  lemma KnownPrefix(f: Format, w: World)
    requires FilesOK(f, w)
    ensures forall i :: 0 <= i < |w.s.flushed| ==> TableKnown(f, w.s.flushed[i].sst, w.files.tables)
  {
    hide Inv, TableKnown;
    forall i | 0 <= i < |w.s.flushed| ensures TableKnown(f, w.s.flushed[i].sst, w.files.tables) {
      assert AllFlushes(w.s)[i] == w.s.flushed[i];
    }
  }

  lemma JobMatches(s: Sys) returns (lo: nat, hi: nat)
    requires Inv(s) && s.compactor.Some? && s.compactor.value.running != []
    ensures L0Matches(s.compactor.value.running[0].ssts, s.flushed, lo, hi)
  {
    hide LogOK, WriterOK, FlushOK, UniqueIds, WalsOK, Replaced, CoreOK, Live, L0Matches, SourcesMatch, IdsMatch,
         RunHolds;
    RegisteredJob(s);
    var c := s.compactor.value;
    lo, hi := c.covered, c.covered + |c.st.compactions[|c.st.db.compacted|].sources|;
  }

  /** What RunJob returns for the running job is a run with which the job's end is a step, if its rows come
      in order and its tables fit their indexes. */
  lemma RunIsStored(f: Format, w: World, refs: seq<TableRef>, groups: seq<seq<seq<RowEntry>>>,
                    tables: seq<seq<RowEntry>>)
    requires w.s.compactor.Some? && w.s.compactor.value.running != []
    requires var job := w.s.compactor.value.running[0];
      !JobPanics(job) && Flatten(tables) == JobOut(job) && RunRefOK(f, refs, groups, tables)
    ensures var c, job := w.s.compactor.value, w.s.compactor.value.running[0];
      var t := DoFile(f, w, Finished(RunFile(refs, groups, tables)));
      && t.s.compactor == Some(c.(running := c.running[1..], results := c.results + [Success(RunOf(job))]))
      && t.files.runs == w.files.runs[RunOf(job) := RunFile(refs, groups, tables)]
  {
    hide JobOut, JobPanics, Apply, Flatten, RunRefOK, StorableRows, Sorted;
    RunRowsFit(f, refs, groups, tables);
  }

  lemma RunRowsFit(f: Format, refs: seq<TableRef>, groups: seq<seq<seq<RowEntry>>>, tables: seq<seq<RowEntry>>)
    requires RunRefOK(f, refs, groups, tables)
    ensures StorableRows(Apply(Flatten(tables))) && Sorted(Flatten(tables))
  {
    hide FileOK, FilterHas, Sorted, Storable, Flatten, Apply, StorableRows;
    forall e | e in Flatten(tables) ensures Storable(e) {
      var x :| 0 <= x < |Flatten(tables)| && Flatten(tables)[x] == e;
      var b, j := InGroup(tables, x);
      assert EntriesFit(tables[b]);
    }
    ApplyStorable(Flatten(tables));
  }

  // ---- Get

  function RunRefs(runs: seq<SortedRun>, files: Files): seq<seq<TableRef>>
    requires AllIn(runs, files.runs.Keys)
  {
    seq(|runs|, i requires 0 <= i < |runs| => files.runs[runs[i]].refs)
  }

  function RunGroups(runs: seq<SortedRun>, files: Files): seq<seq<seq<seq<RowEntry>>>>
    requires AllIn(runs, files.runs.Keys)
  {
    seq(|runs|, i requires 0 <= i < |runs| => files.runs[runs[i]].groups)
  }

  function RunEntries(runs: seq<SortedRun>, files: Files): seq<seq<seq<RowEntry>>>
    requires AllIn(runs, files.runs.Keys)
  {
    seq(|runs|, i requires 0 <= i < |runs| => files.runs[runs[i]].entries)
  }

  lemma WriterStored(f: Format, w: World)
    requires FilesOK(f, w) && w.s.writer.Some?
    ensures var core := w.s.writer.value.st.core;
      && (forall i :: 0 <= i < |core.l0| ==> core.l0[i].id in w.files.tables)
      && L0Stored(f, core.l0, Refs(core.l0, w.files), Groups(core.l0, w.files), Written(core.l0, w.files))
      && AllIn(core.compacted, w.files.runs.Keys)
      && RunsStored(f, core.compacted, RunRefs(core.compacted, w.files), RunGroups(core.compacted, w.files),
                    RunEntries(core.compacted, w.files))
  {
    hide L0Stored, TableKnown, RunRefOK;
    var core := w.s.writer.value.st.core;
    var lo := WriterMatches(w.s);
    hide Inv;
    MatchedStored(f, core.l0, AllFlushes(w.s), lo, |AllFlushes(w.s)|, w.files);
    forall i | 0 <= i < |core.compacted|
      ensures RunFileOK(f, core.compacted[i], w.files.runs[core.compacted[i]])
    {
      assert core.compacted[i] in core.compacted;
    }
  }

  lemma WriterMatches(s: Sys) returns (lo: nat)
    requires Inv(s) && s.writer.Some?
    ensures L0Matches(s.writer.value.st.core.l0, AllFlushes(s), lo, |AllFlushes(s)|)
  {
    hide LogOK, CompactorOK, FlushOK, UniqueIds, WalsOK, Covered, WalOK, L0Matches;
    LiveInLog(s.writer.value.handle, WriterEpoch, s.log);
    lo := s.marks[s.writer.value.handle.id - 1].compacted;
  }

  /** Get in any state of any run with files: a committed read answers with the last write that reached
      the memtable and, with no WAL in hand, an uncommitted one with the last write, for every key whose
      write is not an empty value. The merged writes must fit a table. */
  method GetInRun(ghost steps: seq<FileStep>, f: Format, st: State, files: Files, uncommitted: bool, key: Key)
    returns (r: Answer)
    requires Lossless(f.codec) && RunFiles(f, steps).files == files
    requires RunFiles(f, steps).s.writer.Some? && RunFiles(f, steps).s.writer.value.st == st
    ensures var s := RunFiles(f, steps).s;
      var w := s.writer.value;
      && 0 <= Merged(w.st, w.popped) <= |s.frozen|
      && (AllStorable(CommittedOps(s)) && !uncommitted && LastWrite(CommittedOps(s), key) != Some(KeyValue([])) ==>
            Tells(LastWrite(CommittedOps(s), key), r))
      && (AllStorable(CommittedOps(s)) && uncommitted && w.popped.None?
            && LastWrite(AllOps(s), key) != Some(KeyValue([])) ==>
            Tells(LastWrite(AllOps(s), key), r))
  {
    hide Run, RunFiles, Lossless, L0Stored, RunsStored, CommittedRows, UncommittedRows, AllStorable, CommittedOps,
         AllOps,
         Merged, FilesOK, AllIn;
    RunKeepsFiles(f, steps);
    WriterStored(f, RunFiles(f, steps));
    ghost var bare := FilesAreARun(f, steps);
    GetAnswers(bare, key);
    r := GetWithOptions(f, st, uncommitted, key, Refs(st.core.l0, files), RunRefs(st.core.compacted, files),
                        Groups(st.core.l0, files), Written(st.core.l0, files),
                        RunGroups(st.core.compacted, files), RunEntries(st.core.compacted, files));
  }
}
