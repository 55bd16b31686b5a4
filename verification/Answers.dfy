/** Which steps can change what a client reads, and what the compactor may be doing meanwhile. */
module Answers {
  import opened Types
  import opened History
  import opened Scans
  import opened CoreState
  import opened Manifests
  import opened WalLists
  import opened DbStates
  import opened CompactorStates
  import opened Protocol
  import opened Coverage
  import opened MemChain
  import opened Invariants
  import opened WriterSteps
  import opened ManifestSteps
  import opened CompactorSteps
  import opened Safety
  import opened Views
  import opened Theorems
  import opened Reopening

  // ---- Get refines a plain map

  /** In every reachable state a committed Get answers with the last write that reached the memtable
      and, with no WAL in hand, an uncommitted one with the last write, unless that write put an
      empty value. The merged writes must fit a table. */
  lemma GetAnswers(steps: seq<Step>, k: Key)
    requires Run(steps).writer.Some?
    ensures var s := Run(steps);
      var w := s.writer.value;
      && 0 <= Merged(w.st, w.popped) <= |s.frozen|
      && (AllStorable(CommittedOps(s)) && LastWrite(CommittedOps(s), k) != Some(KeyValue([])) ==>
            Tells(LastWrite(CommittedOps(s), k), CheckValue(Lookup(CommittedRows(w.st), k))))
      && (AllStorable(CommittedOps(s)) && w.popped.None? && LastWrite(AllOps(s), k) != Some(KeyValue([])) ==>
            Tells(LastWrite(AllOps(s), k), CheckValue(Lookup(UncommittedRows(w.st), k))))
  {
    hide Run, CommittedRows, UncommittedRows, Stands, AllOps, CommittedOps, DurableOps, Merged, AllStorable;
    var s := Run(steps);
    var w := s.writer.value;
    CommittedReads(steps);
    if AllStorable(CommittedOps(s)) {
      StandsLookup(CommittedOps(s), CommittedRows(w.st), k);
      if w.popped.None? {
        UncommittedReads(steps);
        StandsLookup(AllOps(s), UncommittedRows(w.st), k);
      }
    }
  }

  /** After any run and a successful open, either kind of Get answers with the last write among those
      in the object store, unless that write put an empty value. The stored writes must fit a table. */
  lemma RecoveredAnswers(steps: seq<Step>, limit: nat, k: Key)
    requires Run(steps + [OpenWriter(limit)]).writer.Some?
    ensures var s, t := Run(steps), Run(steps + [OpenWriter(limit)]);
      && s.durable <= |s.frozen|
      && (AllStorable(DurableOps(s)) && LastWrite(DurableOps(s), k) != Some(KeyValue([])) ==>
            && Tells(LastWrite(DurableOps(s), k), CheckValue(Lookup(CommittedRows(t.writer.value.st), k)))
            && Tells(LastWrite(DurableOps(s), k), CheckValue(Lookup(UncommittedRows(t.writer.value.st), k))))
  {
    hide Run, CommittedRows, UncommittedRows, Stands, DurableOps, Opens, Readable, ReplayedIds, AllStorable;
    var s, t := Run(steps), Run(steps + [OpenWriter(limit)]);
    Recovers(steps, limit);
    if AllStorable(DurableOps(s)) {
      StandsLookup(DurableOps(s), CommittedRows(t.writer.value.st), k);
      StandsLookup(DurableOps(s), UncommittedRows(t.writer.value.st), k);
    }
  }

  // ---- background steps are invisible

  /** Freezing, uploading, flushing, loading, publishing, compacting, and anything a replaced process
      does. */
  predicate Background(step: Step) {
    match step
    case Put(_) => false
    case PopWal => false
    case MergeWal => false
    case CrashWriter => false
    case OpenWriter(_) => false
    case _ => true
  }

  lemma FreezeKeepsOps(s: Sys, w: Writer)
    requires s.writer == Some(w)
    ensures var t := DoFreezeWal(s, w);
      && t.writer.Some? && t.writer.value.popped == w.popped
      && Merged(t.writer.value.st, w.popped) == Merged(w.st, w.popped)
      && s.frozen <= t.frozen && AllOps(t) == AllOps(s)
  {
    var t := DoFreezeWal(s, w);
    if t != s {
      assert t.frozen[..|s.frozen|] == s.frozen;
      assert Flatten(t.frozen) + [] == Flatten(s.frozen) + s.tail;
    }
  }

  /** A flush of a memtable that has a row for the empty key. */
  predicate FlushPanics(s: Sys, step: Step) {
    && step.FlushMem? && s.writer.Some? && step.id !in s.usedIds
    && var imms := s.writer.value.st.immMems; imms != [] && [] in imms[|imms| - 1].rows
  }

  lemma PanicIsDirty(s: Sys, step: Step)
    requires FlushPanics(s, step)
    ensures !Clean(s.writer.value.st)
  {
  }

  lemma PanicEnds(s: Sys, step: Step)
    requires Inv(s) && FlushPanics(s, step)
    ensures Do(s, step).writer.None?
  {
    hide LogOK, CompactorOK, FlushOK, UniqueIds, WriterOK;
  }

  /** No memtable has a row for the empty key. */
  ghost predicate CleanImms(imms: seq<ImmMem>) {
    forall i :: 0 <= i < |imms| ==> [] !in imms[i].rows
  }

  ghost predicate Clean(st: State) {
    [] !in st.memtable.rows && CleanImms(st.immMems)
  }

  /** If the merged writes fit, no memtable has a row for the empty key. */
  lemma FitIsClean(s: Sys)
    requires Inv(s) && s.writer.Some?
    ensures 0 <= Merged(s.writer.value.st, s.writer.value.popped) <= |s.frozen|
    ensures AllStorable(CommittedOps(s)) ==> Clean(s.writer.value.st)
  {
    hide LogOK, CompactorOK, FlushOK, UniqueIds, WalsOK, CoreOK, Live, AllStorable, Stands, WalRows, Merged;
    var w := s.writer.value;
    var imms, base, m := w.st.immMems, w.st.core.lastCompactedWal, Merged(w.st, w.popped);
    if AllStorable(CommittedOps(s)) {
      forall i | 0 <= i < |imms| ensures [] !in imms[i].rows {
        assert ImmAt(imms, base, s.frozen, m, i);
        HeldIsClean(s.frozen, m, Lo(imms, base, i), imms[i].lastWal, imms[i].rows);
      }
      HeldIsClean(s.frozen, m, Top(imms, base), m, w.st.memtable.rows);
    }
  }

  lemma HeldIsClean(frozen: seq<seq<RowEntry>>, n: nat, lo: nat, hi: nat, rows: Rows)
    requires lo <= hi <= n <= |frozen| && AllStorable(Flatten(frozen[..n])) && Holding(frozen, lo, hi, rows)
    ensures [] !in rows
  {
    hide AllStorable, Stands, WalRows;
    FlattenStorable(frozen, n, lo, hi);
    WalRowsStorable(frozen, lo, hi);
    StandsStorable(WalRows(frozen, lo, hi), rows);
    NoEmptyKey(rows);
  }

  lemma BackgroundKeepsOps(s: Sys, step: Step)
    requires Inv(s) && s.writer.Some? && Background(step) && !FlushPanics(s, step)
    ensures var t := Do(s, step);
      && t.writer.Some? && t.writer.value.popped == s.writer.value.popped
      && Merged(t.writer.value.st, t.writer.value.popped) == Merged(s.writer.value.st, s.writer.value.popped)
      && s.frozen <= t.frozen && AllOps(t) == AllOps(s)
  {
    hide Inv, Flatten, DoFreezeWal;
    hide WithWriterState, WithFinished, Schedule, Accepts, JobFor, JobPanics, RunFinds, InIdOrder, TakeUntil, Replays,
         ScanOf, Finds;
    if step == FreezeWal {
      FreezeKeepsOps(s, s.writer.value);
    }
  }

  /** No background step changes the answer of a committed read whose last merged write is not an
      empty value, nor, with no WAL in hand, that of an uncommitted read whose last write is not. The
      merged writes must fit a table; otherwise a flush may panic. */
  lemma BackgroundInvisible(steps: seq<Step>, step: Step, k: Key)
    requires Run(steps).writer.Some? && Background(step)
    ensures var s, t := Run(steps), Run(steps + [step]);
      && (t.writer.None? <==> FlushPanics(s, step))
      && 0 <= Merged(s.writer.value.st, s.writer.value.popped) <= |s.frozen|
      && (AllStorable(CommittedOps(s)) ==> t.writer.Some?)
      && (AllStorable(CommittedOps(s)) && LastWrite(CommittedOps(s), k) != Some(KeyValue([])) ==>
            Lookup(CommittedRows(t.writer.value.st), k) == Lookup(CommittedRows(s.writer.value.st), k))
      && (AllStorable(CommittedOps(s)) && s.writer.value.popped.None?
            && LastWrite(AllOps(s), k) != Some(KeyValue([])) ==>
            Lookup(UncommittedRows(t.writer.value.st), k) == Lookup(UncommittedRows(s.writer.value.st), k))
  {
    hide Do, Inv, CommittedRows, UncommittedRows, Stands, AllOps, Merged, AllStorable, FlushPanics, Clean;
    RunKeeps(steps);
    var s, more := Run(steps), steps + [step];
    assert more[..|more| - 1] == steps;
    FitIsClean(s);
    if FlushPanics(s, step) {
      PanicEnds(s, step);
      assert !Clean(s.writer.value.st) by { PanicIsDirty(s, step); }
      return;
    }
    BackgroundKeepsOps(s, step);
    var t := Run(more);
    CommittedReads(steps);
    CommittedReads(more);
    var m := Merged(s.writer.value.st, s.writer.value.popped);
    assert t.frozen[..m] == s.frozen[..m];
    assert CommittedOps(t) == CommittedOps(s);
    if AllStorable(CommittedOps(s)) {
      SameAnswer(CommittedOps(s), CommittedRows(s.writer.value.st), CommittedRows(t.writer.value.st), k);
      if s.writer.value.popped.None? {
        UncommittedReads(steps);
        UncommittedReads(more);
        SameAnswer(AllOps(s), UncommittedRows(s.writer.value.st), UncommittedRows(t.writer.value.st), k);
      }
    }
  }

  lemma SameAnswer(ops: seq<RowEntry>, a: Rows, b: Rows, k: Key)
    requires Stands(Apply(ops), a) && Stands(Apply(ops), b)
    ensures LastWrite(ops, k) != Some(KeyValue([])) ==> Lookup(a, k) == Lookup(b, k) == LastWrite(ops, k)
  {
    StandsLookup(ops, a, k);
    StandsLookup(ops, b, k);
  }

  // ---- the compactor

  /** In every run at most one compaction is under way. Its destination is the top run id plus one,
      every running job reads L0 tables only, and a worker that is about to send its result finds
      the capacity-1 channel empty. */
  lemma OneCompactionAtATime(steps: seq<Step>)
    requires Run(steps).compactor.Some?
    ensures var c := Run(steps).compactor.value;
      && |c.st.compactions| <= 1
      && |c.running| + |c.results| <= 1
      && (c.running != [] ==> c.results == [] && BranchOf(c.running[0]) == OnlySsts)
      && (forall d :: d in c.st.compactions ==>
            d == if c.st.db.compacted == [] then 0 else c.st.db.compacted[0].id + 1)
  {
    hide Run, LogOK, WriterOK, FlushOK, UniqueIds, WalsOK, Replaced, EpochsRise, Live, FlushRows;
    RunKeeps(steps);
    var s := Run(steps);
    var c := s.compactor.value;
    LiveInLog(c.handle, CompactorEpoch, s.log);
    CoveredIds(c.st.db.compacted, s.flushed, c.covered);
    var d := |c.st.db.compacted|;
    assert |c.st.compactions.Keys| <= 1 by {
      if c.st.compactions.Keys != {} { assert c.st.compactions.Keys == {d}; }
    }
    if c.running != [] {
      assert c.st.compactions.Keys != {} && d in c.st.compactions;
      assert c.running[0].ssts != [];
    }
  }

  /** In every run, taking a result and finishing its compaction changes no lookup through the
      compactor's L0 and runs, tombstones included, even if newer tables were loaded while it ran. The
      writes in these tables must fit, since a compaction scans them, and a row that does not fit may
      scan as one for another key. */
  lemma CompactionKeepsLookups(steps: seq<Step>, k: Key)
    requires Run(steps).compactor.Some? && Run(steps + [TakeResult]).compactor.Some?
    ensures var s, t := Run(steps), Run(steps + [TakeResult]);
      && s.durable <= |s.frozen|
      && (AllStorable(DurableOps(s)) ==>
            Lookup(CoreRows(t.compactor.value.st.db), k) == Lookup(CoreRows(s.compactor.value.st.db), k))
  {
    hide Do, Inv, CoreRows, AllStorable;
    RunKeeps(steps);
    var s, more := Run(steps), steps + [TakeResult];
    assert more[..|more| - 1] == steps;
    RunKeeps(more);
    var t := Run(more);
    assert t == Do(s, TakeResult);
    TakeResultLocal(s);
    CompactorRows(s);
    CompactorRows(t);
  }

  lemma TakeResultLocal(s: Sys)
    requires s.compactor.Some? && Do(s, TakeResult).compactor.Some?
    ensures var t := Do(s, TakeResult);
      && t.frozen == s.frozen && t.durable == s.durable && t.flushed == s.flushed && t.marks == s.marks
      && t.compactor.value.handle == s.compactor.value.handle
  {
  }

  /** The compactor's rows are those of the flushes in the last manifest it read or wrote. */
  lemma CompactorRows(s: Sys)
    requires Inv(s) && s.compactor.Some?
    ensures var c := s.compactor.value;
      && 1 <= c.handle.id <= |s.marks| && s.marks[c.handle.id - 1].published <= |s.flushed|
      && s.durable <= |s.frozen|
      && (AllStorable(DurableOps(s)) ==>
            CoreRows(c.st.db) == FlushRows(s.flushed, 0, s.marks[c.handle.id - 1].published))
  {
    hide LogOK, WriterOK, FlushOK, UniqueIds, WalsOK, Replaced, CoreOK, Live, JobsOK, CoreRows, FlushRows, Covered;
    hide AllStorable, PersistRows, WalRows;
    var c := s.compactor.value;
    StoreOK(s);
    LiveInLog(c.handle, CompactorEpoch, s.log);
    FlushPrefix(s.flushed, AllFlushes(s), s.frozen, s.durable);
    CoreMeaning(c.st.db, s.flushed, s.frozen, s.durable, c.covered, s.marks[c.handle.id - 1].published);
    if AllStorable(DurableOps(s)) {
      FlattenStorable(s.frozen, s.durable, 0, c.st.db.lastCompactedWal);
    }
  }

  // ---- a failed compaction

  /** A compaction is registered that nobody works on any more. */
  ghost predicate Wedged(s: Sys) {
    Inv(s) && s.compactor.Some? && var c := s.compactor.value;
    |c.st.db.compacted| in c.st.compactions && c.running == [] && c.results == []
  }

  /** The scheduler's next compaction has the same destination, so it is refused. */
  lemma WedgedRefuses(s: Sys)
    requires Wedged(s)
    ensures DoPlan(s, s.compactor.value) == s
  {
    hide LogOK, WriterOK, FlushOK, UniqueIds, WalsOK, Replaced, Live, JobsOK, L0Sources;
    var c := s.compactor.value;
    LiveInLog(c.handle, CompactorEpoch, s.log);
    CoveredIds(c.st.db.compacted, s.flushed, c.covered);
    hide Covered, L0Matches;
  }

  lemma StepKeepsWedged(s: Sys, step: Step)
    requires Wedged(s) && !step.CrashCompactor? && !step.OpenCompactor?
    ensures Wedged(Do(s, step))
    ensures Do(s, step).compactor.value.st.db.compacted == s.compactor.value.st.db.compacted
  {
    hide LogOK, WriterOK, FlushOK, UniqueIds, WalsOK, Replaced, CoreOK, JobsOK, EpochsRise, Live, DoPlan;
    hide Replay, IdsAbove, Readable, Replays, ScanOf, Finds, RunFinds, JobPanics, WithManifest, WithWalFrozen,
         TakeUntil;
    DoKeeps(s, step);
    LogNonEmpty(s.log, s.marks, s.flushed);
    LivePasses(s.compactor.value.handle, CompactorEpoch, s.log);
    WedgedRefuses(s);
  }

  /** Once a job has failed, this compactor never adds a run again, whatever steps follow, until it is
      stopped or replaced. */
  lemma {:induction false} WedgedForever(s: Sys, steps: seq<Step>)
    requires Wedged(s) && forall i :: 0 <= i < |steps| ==> !steps[i].CrashCompactor? && !steps[i].OpenCompactor?
    ensures Wedged(RunFrom(s, steps))
    ensures RunFrom(s, steps).compactor.value.st.db.compacted == s.compactor.value.st.db.compacted
  {
    hide Wedged, Do;
    assert s.compactor.Some? by { WedgedSome(s); }
    if steps != [] {
      var n := |steps| - 1;
      WedgedForever(s, steps[..n]);
      var t := RunFrom(s, steps[..n]);
      WedgedSome(t);
      StepKeepsWedged(t, steps[n]);
    }
  }

  lemma WedgedSome(s: Sys)
    requires Wedged(s)
    ensures s.compactor.Some?
  {
  }

  /** A running job that fails leads there. */
  lemma FailureWedges(steps: seq<Step>)
    requires Run(steps).compactor.Some? && Run(steps).compactor.value.running != []
    ensures Wedged(Run(steps + [FinishJob(false, map[]), TakeResult]))
  {
    hide Inv;
    RunKeeps(steps);
    OneCompactionAtATime(steps);
    var s := Run(steps);
    RegisteredJob(s);
    var a, b := steps + [FinishJob(false, map[])], steps + [FinishJob(false, map[]), TakeResult];
    assert a[..|a| - 1] == steps && b[..|b| - 1] == a;
    RunKeeps(b);
    assert Run(a) == Do(s, FinishJob(false, map[])) && Run(b) == Do(Run(a), TakeResult);
    FailedJob(s);
  }

  lemma FailedJob(s: Sys)
    requires s.compactor.Some? && |s.compactor.value.running| == 1 && s.compactor.value.results == []
    ensures var c, t := s.compactor.value, Do(Do(s, FinishJob(false, map[])), TakeResult).compactor;
      t.Some? && t.value.st == c.st && t.value.running == [] && t.value.results == []
  {
    hide JobPanics, RunFinds;
  }

  lemma RegisteredJob(s: Sys)
    requires Inv(s) && s.compactor.Some? && s.compactor.value.running != []
    ensures |s.compactor.value.st.db.compacted| in s.compactor.value.st.compactions
  {
    hide LogOK, WriterOK, FlushOK, UniqueIds, WalsOK, Replaced, CoreOK, L0Matches, SourcesMatch, IdsMatch, Live;
    var c := s.compactor.value;
    assert c.st.compactions.Keys != {};
  }
}
