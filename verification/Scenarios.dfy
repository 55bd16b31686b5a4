/** Runs that reach a compaction: four tables, one write each. A job that fails there wedges the
    compactor, and a write whose key does not fit changes the answer for another key. */
module Scenarios {
  import opened Types
  import opened History
  import opened Keys
  import opened RowCodec
  import opened Scans
  import opened CoreState
  import opened Manifests
  import opened KVTables
  import opened DbStates
  import opened CompactorStates
  import MergeSorts
  import WalLists
  import opened Protocol
  import opened Coverage
  import opened MemChain
  import opened Invariants
  import opened ManifestSteps
  import opened Safety
  import opened Views
  import opened Reopening
  import opened Answers
  import opened WriterLoops
  import opened Progress

  lemma RunCons(s: Sys, step: Step, rest: seq<Step>)
    ensures RunFrom(s, [step] + rest) == RunFrom(Do(s, step), rest)
  {
    hide Do, RunFrom;
    RunAppend(s, [step], rest);
    RunOne(s, step);
  }

  // ---- one write, one table

  /** Everything the client wrote is in L0. */
  predicate Quiet(s: Sys) {
    s.writer.Some? && var w := s.writer.value;
    && w.popped.None? && s.tail == [] && w.st.wal == map[] && w.st.immWals == []
    && w.st.immMems == [] && w.st.memtable == Memtable(map[], None)
  }

  function One(e: RowEntry): Rows {
    map[e.key := e.value]
  }

  lemma OneSize(e: RowEntry)
    ensures RowsSize(One(e)) != 0
  {
    assert e.key in One(e);
    SizeZeroIffEmpty(One(e));
  }

  /** Put, and flush the WAL into the memtable. */
  lemma OneWrite(s: Sys, e: RowEntry)
    requires Quiet(s) && e.key != []
    ensures var t := Do(Do(Do(Do(Do(s, Put(e)), FreezeWal), UploadWal(true)), PopWal), MergeWal);
      var w, v := s.writer.value, t.writer;
      && v == Some(w.(st := w.st.(memtable := Memtable(One(e), Some(w.st.core.nextWal)),
                                  core := w.st.core.(nextWal := w.st.core.nextWal + 1))))
      && t.tail == [] && t.frozen == s.frozen + [[e]]
      && t.log == s.log && t.compactor == s.compactor && t.usedIds == s.usedIds
  {
    hide Replays, RowsSize;
    OneSize(e);
    var w := s.writer.value;
    var s1 := Do(s, Put(e));
    assert s1.writer.value.st.wal == One(e) && s1.tail == [e];
    var s2 := Do(s1, FreezeWal);
    assert s2.writer.value.st.immWals == [ImmWal(w.st.core.nextWal, One(e))];
    var s3 := Do(s2, UploadWal(true));
    assert w.st.core.nextWal in s3.wals;
    var s4 := Do(s3, PopWal);
    assert s4.writer.value.popped == Some(ImmWal(w.st.core.nextWal, One(e))) && s4.writer.value.st.immWals == [];
    assert s4.frozen == s.frozen + [[e]];
    assert map[] + One(e) == One(e);
  }

  /** One more table in L0. */
  lemma OneTable(s: Sys, e: RowEntry, found: Rows) returns (more: seq<Step>, id: nat)
    requires Quiet(s) && e.key != [] && Finds(One(e), found)
    ensures var t := RunFrom(s, more);
      && Quiet(t) && t.log == s.log && t.compactor == s.compactor
      && t.frozen == s.frozen + [[e]]
      && t.writer.value.handle == s.writer.value.handle
      && t.writer.value.st.core.l0 == [Sst(id, found, ScanOf(One(e)))] + s.writer.value.st.core.l0
      && t.writer.value.st.core.compacted == s.writer.value.st.core.compacted
      && t.writer.value.st.core.l0LastCompacted == s.writer.value.st.core.l0LastCompacted
  {
    OneWrite(s, e);
    id := FreshId(s.usedIds);
    var flush := FlushMem(id, found);
    var t1 := Do(Do(Do(Do(Do(s, Put(e)), FreezeWal), UploadWal(true)), PopWal), MergeWal);
    FlushOne(t1, id, e, found);
    hide Do, RunFrom, Finds, ScanOf;
    var s1 := Do(s, Put(e));
    var s2 := Do(s1, FreezeWal);
    var s3 := Do(s2, UploadWal(true));
    var s4 := Do(s3, PopWal);
    RunCons(s, Put(e), [FreezeWal] + ([UploadWal(true)] + ([PopWal] + ([MergeWal] + ([FreezeMem] + [flush])))));
    RunCons(s1, FreezeWal, [UploadWal(true)] + ([PopWal] + ([MergeWal] + ([FreezeMem] + [flush]))));
    RunCons(s2, UploadWal(true), [PopWal] + ([MergeWal] + ([FreezeMem] + [flush])));
    RunCons(s3, PopWal, [MergeWal] + ([FreezeMem] + [flush]));
    RunCons(s4, MergeWal, [FreezeMem] + [flush]);
    RunCons(t1, FreezeMem, [flush]);
    RunOne(Do(t1, FreezeMem), flush);
    more := [Put(e)] + ([FreezeWal] + ([UploadWal(true)] + ([PopWal] + ([MergeWal] + ([FreezeMem] + [flush])))));
  }

  lemma FlushOne(s: Sys, id: nat, e: RowEntry, found: Rows)
    requires s.writer.Some? && id !in s.usedIds && e.key != [] && Finds(One(e), found)
    requires s.writer.value.st.memtable.lastWal.Some? && s.writer.value.st.memtable.rows == One(e)
    requires s.writer.value.st.immMems == []
    ensures var t := Do(Do(s, FreezeMem), FlushMem(id, found));
      var w, last := s.writer.value, s.writer.value.st.memtable.lastWal.value;
      && t.writer.Some? && t.writer.value.popped == w.popped && t.writer.value.handle == w.handle
      && t.writer.value.st == w.st.(memtable := Memtable(map[], None),
           core := w.st.core.(l0 := [Sst(id, found, ScanOf(One(e)))] + w.st.core.l0, lastCompactedWal := last))
      && t.log == s.log && t.compactor == s.compactor && t.tail == s.tail && t.frozen == s.frozen
  {
    hide Finds, ScanOf;
    assert s.writer.value.st.immMems + [] == [];
  }

  // ---- four writes, four tables

  /** A new database whose L0 has one table for each of the writes, newest first. */
  ghost predicate Filled(s: Sys, es: seq<RowEntry>, found: seq<Rows>)
    requires |es| == |found|
  {
    && Inv(s) && Quiet(s) && s.compactor.None? && |s.log| == 2 && s.log[1].core == NewCore
    && var core := s.writer.value.st.core;
    && core.compacted == [] && core.l0LastCompacted == None && |core.l0| == |es|
    && (forall i :: 0 <= i < |es| ==>
          core.l0[i].rows == found[|es| - 1 - i] && core.l0[i].scan == ScanOf(One(es[|es| - 1 - i])))
    && AllOps(s) == es
  }

  lemma {:induction false} Fill(es: seq<RowEntry>, found: seq<Rows>) returns (steps: seq<Step>)
    requires |es| == |found| && forall i :: 0 <= i < |es| ==> es[i].key != [] && Finds(One(es[i]), found[i])
    ensures Filled(Run(steps), es, found)
  {
    hide Inv, Do, Finds, ScanOf, AllOps;
    if es == [] {
      steps := [OpenWriter(1)];
      NewDatabase();
    } else {
      var n := |es| - 1;
      var init := Fill(es[..n], found[..n]);
      var more, id := OneTable(Run(init), es[n], found[n]);
      steps := init + more;
      RunAppend(Start, init, more);
      RunKeeps(steps);
      MoreOps(Run(init), Run(steps), es[n]);
      assert es[..n] + [es[n]] == es;
      var l0, older := Run(steps).writer.value.st.core.l0, Run(init).writer.value.st.core.l0;
      forall i | 0 <= i < |es|
        ensures l0[i].rows == found[n - i] && l0[i].scan == ScanOf(One(es[n - i]))
      {
        if i > 0 { assert l0[i] == older[i - 1]; }
      }
    }
  }

  lemma MoreOps(s: Sys, t: Sys, e: RowEntry)
    requires s.tail == t.tail == [] && t.frozen == s.frozen + [[e]]
    ensures AllOps(t) == AllOps(s) + [e]
  {
    FlattenSnoc(s.frozen, [e]);
  }

  lemma NewDatabase()
    ensures Filled(Run([OpenWriter(1)]), [], [])
  {
    hide Inv;
    StartOK();
    OpenOutcome(Start, 1);
    RunOne(Start, OpenWriter(1));
    RunKeeps([OpenWriter(1)]);
    OpenStart();
  }

  lemma OpenStart()
    ensures var t := Do(Start, OpenWriter(1));
      && |t.log| == 2 && t.log[1].core == NewCore && t.compactor.None? && t.frozen == [] && t.tail == []
      && (t.writer.Some? ==> t.writer.value == Writer(t.writer.value.handle, NewState(NewCore), None, []))
  {
    assert Start.wals.Keys == {};
    assert WalLists.IdsAbove({}, 0) == [];
  }

  // ---- publishing the tables and opening a compactor

  lemma {:induction false} TakeAll(l0: seq<Sst>)
    ensures TakeUntil(l0, None) == l0
  {
    if l0 != [] { TakeAll(l0[1..]); }
  }

  /** The compactor that is opened after these tables were published sees them. */
  lemma Prepared(s: Sys, es: seq<RowEntry>, found: seq<Rows>)
    requires |es| == |found| && Filled(s, es, found)
    ensures var t := Do(Do(Do(s, LoadWriter), PublishWriter), OpenCompactor);
      && t.writer.Some? && t.writer.value.st == s.writer.value.st && t.compactor.Some?
      && t.compactor.value.st == CState(s.writer.value.st.core, map[])
      && t.frozen == s.frozen && t.tail == s.tail && Quiet(t)
  {
    hide LogOK, FlushOK, UniqueIds, WalsOK, CoreOK, MemOK, WalOK, Live, EpochsRise, TakeUntil, AllOps;
    TakeAll(s.writer.value.st.core.l0);
    LogNonEmpty(s.log, s.marks, s.flushed);
    LivePasses(s.writer.value.handle, WriterEpoch, s.log);
    var s1 := Do(s, LoadWriter);
    assert s1.writer.value.st == s.writer.value.st;
    LogLengths(s);
  }

  lemma LogLengths(s: Sys)
    requires Inv(s)
    ensures |s.log| == |s.marks| > 0
  {
  }

  /** A run after which the compactor is idle, with the four tables in its L0. */
  lemma BeforeCompaction(es: seq<RowEntry>, found: seq<Rows>) returns (fill: seq<Step>, more: seq<Step>)
    requires |es| == |found| == 4 && forall i :: 0 <= i < |es| ==> es[i].key != [] && Finds(One(es[i]), found[i])
    ensures Filled(Run(fill), es, found)
    ensures more == [LoadWriter] + ([PublishWriter] + [OpenCompactor])
    ensures var s, t := Run(fill), Run(fill + more);
      && t.writer.Some? && t.writer.value.st == s.writer.value.st && t.compactor.Some?
      && t.compactor.value.st == CState(s.writer.value.st.core, map[])
      && AllOps(t) == AllOps(s) && Quiet(t)
  {
    hide Do, Filled, Finds, AllOps;
    fill := Fill(es, found);
    more := [LoadWriter] + ([PublishWriter] + [OpenCompactor]);
    var s := Run(fill);
    Prepared(s, es, found);
    assert s.writer.Some? by { FilledParts(s, es, found); }
    RunCons(s, LoadWriter, [PublishWriter] + [OpenCompactor]);
    RunCons(Do(s, LoadWriter), PublishWriter, [OpenCompactor]);
    RunOne(Do(Do(s, LoadWriter), PublishWriter), OpenCompactor);
    RunAppend(Start, fill, more);
    SameOps(Run(fill + more), s);
  }

  lemma FilledParts(s: Sys, es: seq<RowEntry>, found: seq<Rows>)
    requires |es| == |found| && Filled(s, es, found)
    ensures Inv(s) && Quiet(s) && s.writer.Some?
    ensures var core := s.writer.value.st.core;
      && core.compacted == [] && |core.l0| == |es|
      && (forall i :: 0 <= i < |es| ==>
            core.l0[i].rows == found[|es| - 1 - i] && core.l0[i].scan == ScanOf(One(es[|es| - 1 - i])))
      && AllOps(s) == es
  {
    hide Inv, AllOps;
  }

  // ---- a job that fails

  /** For every write that fits a table: a run in which a job is running, so that its failure wedges the
      compactor. */
  lemma FailureIsReachable(e: RowEntry) returns (steps: seq<Step>)
    requires Storable(e)
    ensures Run(steps).compactor.Some? && Run(steps).compactor.value.running != []
    ensures Wedged(Run(steps + [FinishJob(false, map[]), TakeResult]))
  {
    hide Do, Filled, Finds, Wedged, AllOps, JobFor, Schedule;
    ShortRowsFound(One(e));
    var found := ShortRows(One(e));
    var fill, more := BeforeCompaction([e, e, e, e], [found, found, found, found]);
    FilledParts(Run(fill), [e, e, e, e], [found, found, found, found]);
    var before := fill + more;
    RunKeeps(before);
    PlanStarts(Run(before));
    steps := before + [Plan];
    assert steps[..|steps| - 1] == before;
    FailureWedges(steps);
  }

  // ---- a write that changes the answer for another key

  /** A write whose key does not fit, and that scans as a row for `k`. */
  predicate Disguised(e: RowEntry, k: Key, x: Value) {
    |e.key| >= TWO16 && k != [] && ReadRow(RowEntry(e.key, Persist(e.value))) == [RowEntry(k, x)]
  }

  lemma OneWritten(e: RowEntry)
    ensures WrittenEntries(One(e)) == [RowEntry(e.key, Persist(e.value))]
    ensures ScanOf(One(e)) == ReadRow(RowEntry(e.key, Persist(e.value)))
  {
    hide ReadRow, Persist, WrittenEntries;
    var p := RowEntry(e.key, Persist(e.value));
    assert [p][..0] == [];
    assert Apply([]) == map[];
    assert Apply([p]) == PersistRows(One(e));
    SortedUnique(WrittenEntries(One(e)), [p]);
    ScannedOne(p);
  }

  lemma ShortWritten(k: Key, v: Bytes)
    requires 0 < |k| < TWO16 && 0 < |v| < TWO32
    ensures ScanOf(One(RowEntry(k, KeyValue(v)))) == [RowEntry(k, KeyValue(v))]
    ensures Finds(One(RowEntry(k, KeyValue(v))), map[k := KeyValue(v)])
  {
    hide ReadRow, ScanOf;
    OneWritten(RowEntry(k, KeyValue(v)));
    ShortKeyReads(RowEntry(k, KeyValue(v)));
  }

  lemma LongWritten(e: RowEntry)
    requires |e.key| >= TWO16
    ensures Finds(One(e), map[])
  {
  }

  /** What the job over the four tables writes: the disguised row, since it is newer. */
  lemma DisguisedJob(job: Job, k: Key, x: Value, v: Bytes)
    requires job.runs == [] && |job.ssts| == 4 && k != []
    requires forall i :: 0 <= i < 3 ==> job.ssts[i].scan == [RowEntry(k, x)]
    requires job.ssts[3].scan == [RowEntry(k, KeyValue(v))]
    ensures JobOut(job) == [RowEntry(k, Persist(x))]
  {
    hide MergeSorts.Merge, MergeSorts.UnionRows, MergeSorts.Above, Listing, Persist;
    var lists := JobSources(job);
    assert |lists| == 4 && lists[0] == [RowEntry(k, x)];
    assert forall i :: 0 <= i < 4 ==> lists[i] == job.ssts[i].scan && |lists[i]| == 1 && lists[i][0].key == k;
    MergeSorts.NoneBelowFirst(lists);
    MergeSorts.SortedMerge(lists, []);
    UnionOfOne(lists, k, x);
    SingleRow(k, x);
    SortedUnique(Listing(map[k := x]), [RowEntry(k, x)]);
    assert JobOut(job) == PersistEntries([RowEntry(k, x)]);
  }

  lemma SingleRow(k: Key, x: Value)
    ensures Apply([RowEntry(k, x)]) == map[k := x]
  {
    assert [RowEntry(k, x)][..0] == [];
  }

  lemma UnionOfOne(lists: seq<seq<RowEntry>>, k: Key, x: Value)
    requires |lists| > 0 && lists[0] == [RowEntry(k, x)] && k != []
    requires forall i :: 0 <= i < |lists| ==> |lists[i]| == 1 && lists[i][0].key == k
    ensures MergeSorts.Above(MergeSorts.UnionRows(lists), []) == map[k := x]
  {
    hide MergeSorts.UnionRows;
    SingleRow(k, x);
    MergeSorts.UnionFirst(lists, 0, k);
    forall j | j in MergeSorts.UnionRows(lists) ensures j == k {
      MergeSorts.UnionKeys(lists, j);
      var i :| 0 <= i < |lists| && j in Apply(lists[i]);
      assert lists[i] == [RowEntry(k, lists[i][0].value)];
      SingleRow(k, lists[i][0].value);
    }
    assert MergeSorts.UnionRows(lists) == map[k := x];
  }

  /** The compactor's steps. */
  predicate Compacts(step: Step) {
    step.Plan? || step.FinishJob? || step.TakeResult? || step.LoadCompactor? || step.PublishCompactor?
  }

  lemma {:induction false} CompactsKeeps(s: Sys, steps: seq<Step>)
    requires forall i :: 0 <= i < |steps| ==> Compacts(steps[i])
    ensures var t := RunFrom(s, steps); t.writer == s.writer && t.frozen == s.frozen && t.tail == s.tail
  {
    if steps != [] {
      CompactsKeeps(s, steps[..|steps| - 1]);
      hide RunFrom;
      CompactStepKeeps(RunFrom(s, steps[..|steps| - 1]), steps[|steps| - 1]);
    }
  }

  lemma CompactStepKeeps(s: Sys, step: Step)
    requires Compacts(step)
    ensures var t := Do(s, step); t.writer == s.writer && t.frozen == s.frozen && t.tail == s.tail
  {
    hide WithWriterState, WithFinished, Schedule, Accepts, JobFor, JobPanics, RunFinds, InIdOrder;
  }

  /** The writer takes over the compactor's run, and drops the tables in it. */
  lemma TakesRun(s: Sys)
    requires Inv(s) && Quiet(s) && s.log != [] && s.writer.value.st.core.l0 != []
    requires s.log[|s.log| - 1].core.l0LastCompacted == Some(s.writer.value.st.core.l0[0].id)
    ensures var t := Do(s, LoadWriter);
      && t.writer.Some? && t.frozen == s.frozen && t.tail == s.tail
      && CommittedRows(t.writer.value.st) == UncommittedRows(t.writer.value.st)
         == RunRows(s.log[|s.log| - 1].core.compacted)
  {
    hide LogOK, FlushOK, UniqueIds, WalsOK, CoreOK, MemOK, WalOK, CompactorOK, Live, EpochsRise, RunRows;
    LogNonEmpty(s.log, s.marks, s.flushed);
    LivePasses(s.writer.value.handle, WriterEpoch, s.log);
    var t := Do(s, LoadWriter);
    assert t.writer.value.st.core.l0 == [];
    assert CoreRows(t.writer.value.st.core) == RunRows(s.log[|s.log| - 1].core.compacted);
  }

  lemma QuietRows(s: Sys)
    requires Quiet(s) && s.writer.value.st.core.compacted == []
    ensures CommittedRows(s.writer.value.st) == UncommittedRows(s.writer.value.st) == L0Rows(s.writer.value.st.core.l0)
  {
    hide L0Rows;
  }

  lemma FourRows(l0: seq<Sst>, k: Key, v: Value)
    requires |l0| == 4 && l0[3].rows == map[k := v] && forall i :: 0 <= i < 3 ==> l0[i].rows == map[]
    ensures L0Rows(l0) == map[k := v]
  {
    assert l0[3..][1..] == [];
    assert L0Rows(l0[3..]) == map[k := v];
    assert l0[2..][1..] == l0[3..] && l0[1..][1..] == l0[2..];
    assert L0Rows(l0[2..]) == map[k := v] && L0Rows(l0[1..]) == map[k := v];
  }

  lemma DisguisedFits(e: RowEntry, k: Key, x: Value)
    requires Disguised(e, k, x)
    ensures 0 < |k| < TWO16 && Storable(RowEntry(k, Persist(x)))
  {
    hide ReadRow;
    var p := RowEntry(e.key, Persist(e.value));
    ReadRowFits(p);
    assert RowEntry(k, x) in ReadRow(p);
  }

  /** One compaction of all of L0, published, and taken over by the writer: what it reads is the run. */
  lemma CompactAll(a: seq<Step>, rows: Rows) returns (more: seq<Step>)
    requires Quiet(Run(a)) && Run(a).compactor.Some?
    requires var core := Run(a).writer.value.st.core;
      && Run(a).compactor.value.st == CState(core, map[]) && |core.l0| >= 4 && core.compacted == []
      && RunFinds(JobFor(core, Schedule(core)[0]), rows) && !JobPanics(JobFor(core, Schedule(core)[0]))
    ensures forall i :: 0 <= i < |more| ==> Background(more[i])
    ensures var s, t := Run(a), Run(a + more);
      && t.writer.Some? && AllOps(t) == AllOps(s)
      && CommittedRows(t.writer.value.st) == UncommittedRows(t.writer.value.st) == rows
  {
    hide Do, AllOps, JobFor, CommittedRows, UncommittedRows, JobPanics, RunFinds, Inv, RunFrom;
    var work, publish := [Plan] + [FinishJob(true, rows)] + [TakeResult], [LoadCompactor] + [PublishCompactor];
    CompactionTakesL0(a, rows);
    RunOnto(a, work);
    CompactionReachesManifest(a + work);
    RunOnto(a + work, publish);
    CompactsKeeps(Run(a), work);
    CompactsKeeps(Run(a + work), publish);
    var b := a + work + publish;
    RunKeeps(b);
    TakesRun(Run(b));
    RunOnto(b, [LoadWriter]);
    RunOne(Run(b), LoadWriter);
    more := work + publish + [LoadWriter];
    assert a + more == b + [LoadWriter];
    SameOps(Run(b + [LoadWriter]), Run(a));
    OneRun(Run(b).log[|Run(b).log| - 1].core.compacted);
  }

  /** L0 has a table of the short key's row below three tables of the disguised one. */
  ghost predicate DisguisedL0(l0: seq<Sst>, e: RowEntry, short: RowEntry) {
    && |l0| == 4 && l0[3].rows == One(short) && l0[3].scan == ScanOf(One(short))
    && forall i :: 0 <= i < 3 ==> l0[i].rows == map[] && l0[i].scan == ScanOf(One(e))
  }

  lemma DisguisedCompaction(s: Sys, e: RowEntry, k: Key, x: Value, v: Bytes)
    requires Inv(s) && s.compactor.Some? && Disguised(e, k, x) && 0 < |v| < TWO32
    requires var c := s.compactor.value.st;
      c.compactions == map[] && DisguisedL0(c.db.l0, e, RowEntry(k, KeyValue(v)))
    ensures var core := s.compactor.value.st.db;
      && |Schedule(core)| == 1
      && RunFinds(JobFor(core, Schedule(core)[0]), map[k := Persist(x)])
      && !JobPanics(JobFor(core, Schedule(core)[0]))
  {
    hide Do, JobFor, Schedule, JobPanics, RunFinds, Inv, ScanOf, Disguised, Persist;
    DisguisedFits(e, k, x);
    PlanStarts(s);
    var core := s.compactor.value.st.db;
    Due(core);
    var job := JobFor(core, Schedule(core)[0]);
    ScansOfFour(job, e, k, x, v);
    DisguisedRun(job, k, x, v);
  }

  /** The four tables of the short key and the disguised one, ready to be compacted. */
  lemma DisguisedTables(e: RowEntry, k: Key, x: Value, v: Bytes) returns (steps: seq<Step>, more: seq<Step>)
    requires Disguised(e, k, x) && 0 < |v| < TWO32
    ensures forall i :: 0 <= i < |more| ==> Background(more[i])
    ensures var s, t := Run(steps), Run(steps + more);
      && s.writer.Some? && t.writer.Some? && AllOps(t) == AllOps(s) && LastWrite(AllOps(s), k) == Some(KeyValue(v))
      && CommittedRows(s.writer.value.st) == UncommittedRows(s.writer.value.st) == map[k := KeyValue(v)]
      && Quiet(t) && t.compactor.Some?
      && var core := t.writer.value.st.core;
      && t.compactor.value.st == CState(core, map[]) && core.compacted == []
      && DisguisedL0(core.l0, e, RowEntry(k, KeyValue(v)))
  {
    hide Run, Filled, Finds, AllOps, CommittedRows, UncommittedRows, Inv, ScanOf, Disguised, LastWrite, L0Rows;
    DisguisedFits(e, k, x);
    DisguisedLong(e, k, x);
    var short := RowEntry(k, KeyValue(v));
    var es, found := [short, e, e, e], [One(short), map[], map[], map[]];
    ShortWritten(k, v);
    LongWritten(e);
    steps, more := BeforeCompaction(es, found);
    FilledParts(Run(steps), es, found);
    QuietRows(Run(steps));
    FourRows(Run(steps).writer.value.st.core.l0, k, KeyValue(v));
    LastOfFour(short, e);
  }

  /** A write whose key does not fit can change what another key reads as, with no further put: before
      the compaction a Get of `k` answers with its last write, and after it with what the long key's row
      scans as. */
  lemma OtherKeyChanges(e: RowEntry, k: Key, x: Value, v: Bytes) returns (steps: seq<Step>, more: seq<Step>)
    requires Disguised(e, k, x) && 0 < |v| < TWO32
    ensures forall i :: 0 <= i < |more| ==> Background(more[i])
    ensures var s, t := Run(steps), Run(steps + more);
      && s.writer.Some? && t.writer.Some? && AllOps(t) == AllOps(s)
      && LastWrite(AllOps(s), k) == Some(KeyValue(v))
      && Lookup(CommittedRows(s.writer.value.st), k) == Lookup(UncommittedRows(s.writer.value.st), k)
         == Some(KeyValue(v))
      && Lookup(CommittedRows(t.writer.value.st), k) == Lookup(UncommittedRows(t.writer.value.st), k)
         == Some(Persist(x))
  {
    hide Run, AllOps, JobFor, Schedule, CommittedRows, UncommittedRows, JobPanics, RunFinds, Disguised, Persist, Inv,
         ScanOf;
    var prep;
    steps, prep := DisguisedTables(e, k, x, v);
    RunKeeps(steps + prep);
    DisguisedCompaction(Run(steps + prep), e, k, x, v);
    var rest := CompactAll(steps + prep, map[k := Persist(x)]);
    more := prep + rest;
    assert steps + more == steps + prep + rest;
  }

  /** There are such writes: a key that starts with `k`, of 65536 bytes more, all 1, reads back as a
      delete of `k`. */
  lemma LongKeyDeletes(k: Key, v: Value)
    requires 0 < |k| < TWO16
    ensures Disguised(RowEntry(k + seq(TWO16, _ => 1), v), k, Tombstone)
  {
    hide EncodeTail, Number, Encode, PeekAtKey;
    var e := RowEntry(k + seq(TWO16, _ => 1), Persist(v));
    LonePeek(e);
    assert KeptSuffix(e.key) == k;
    LoneTail(e);
    var data := Encode(LoneRow(e))[4 + |k|..];
    assert data == e.key[|k|..] + EncodeTail(LoneRow(e));
    assert data[8] == 1;
  }

  lemma LoneTail(e: RowEntry)
    ensures |Encode(LoneRow(e))| >= 13
    ensures |KeptSuffix(e.key)| <= |e.key| && 4 + |KeptSuffix(e.key)| <= |Encode(LoneRow(e))|
    ensures Encode(LoneRow(e))[4 + |KeptSuffix(e.key)|..] == e.key[|KeptSuffix(e.key)|..] + EncodeTail(LoneRow(e))
  {
    hide Encode, EncodeTail;
    EncodedParts(e);
    LoneLength(e);
    var n := |KeptSuffix(e.key)|;
    var data, tail := Encode(LoneRow(e)), EncodeTail(LoneRow(e));
    assert data[4..] == e.key + tail;
    assert data[4 + n..] == data[4..][n..];
  }

  lemma Due(db: Core)
    requires |db.l0| >= 4
    ensures |Schedule(db)| == 1
  {
  }

  lemma RunOnto(steps: seq<Step>, more: seq<Step>)
    ensures Run(steps + more) == RunFrom(Run(steps), more)
  {
    RunAppend(Start, steps, more);
  }

  lemma DisguisedLong(e: RowEntry, k: Key, x: Value)
    requires Disguised(e, k, x)
    ensures |e.key| >= TWO16
  {
  }

  lemma LastOfFour(a: RowEntry, b: RowEntry)
    requires a.key != b.key
    ensures LastWrite([a, b, b, b], a.key) == Some(a.value)
  {
    assert [a, b, b, b][..3] == [a, b, b] && [a, b, b][..2] == [a, b] && [a, b][..1] == [a];
    assert LastWrite([a], a.key) == Some(a.value);
    assert LastWrite([a, b], a.key) == Some(a.value);
  }

  lemma ScansOfFour(job: Job, e: RowEntry, k: Key, x: Value, v: Bytes)
    requires |job.ssts| == 4 && Disguised(e, k, x) && 0 < |k| < TWO16 && 0 < |v| < TWO32
    requires forall i :: 0 <= i < 4 ==>
      job.ssts[i].scan == ScanOf(One([RowEntry(k, KeyValue(v)), e, e, e][3 - i]))
    ensures forall i :: 0 <= i < 3 ==> job.ssts[i].scan == [RowEntry(k, x)]
    ensures job.ssts[3].scan == [RowEntry(k, KeyValue(v))]
  {
    hide ReadRow, ScanOf;
    OneWritten(e);
    ShortWritten(k, v);
  }

  /** What lookups in the run find. */
  lemma DisguisedRun(job: Job, k: Key, x: Value, v: Bytes)
    requires job.runs == [] && |job.ssts| == 4 && Storable(RowEntry(k, Persist(x)))
    requires forall i :: 0 <= i < 3 ==> job.ssts[i].scan == [RowEntry(k, x)]
    requires job.ssts[3].scan == [RowEntry(k, KeyValue(v))]
    ensures RunFinds(job, map[k := Persist(x)]) && !JobPanics(job)
  {
    hide JobOut;
    DisguisedJob(job, k, x, v);
    SingleRow(k, Persist(x));
  }

  lemma OneRun(runs: seq<SortedRun>)
    requires |runs| == 1
    ensures RunRows(runs) == runs[0].rows
  {
    assert runs[1..] == [];
  }
}
