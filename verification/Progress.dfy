/** The background work gets somewhere: flushing commits every write, flushing the memtable puts it
    into the latest manifest, and a compaction that is due takes L0 into a new run. */
module Progress {
  import opened Types
  import opened History
  import opened CoreState
  import opened Manifests
  import opened Scans
  import opened KVTables
  import opened WalLists
  import opened DbStates
  import opened CompactorStates
  import opened Protocol
  import opened Coverage
  import opened MemChain
  import opened Invariants
  import opened ManifestSteps
  import opened CompactorSteps
  import opened Safety
  import opened Views
  import opened Theorems
  import opened Answers
  import opened WriterLoops

  // ---- FlushWAL

  lemma {:induction false} DrainedAll(st: State, limit: nat)
    ensures Drained(st, limit).immWals == [] && Drained(st, limit).core == st.core
    decreases |st.immWals|
  {
    hide RowsSize;
    if st.immWals != [] {
      DrainedAll(DrainOne(st, limit), limit);
    }
  }

  lemma FreezeEmpties(s: Sys, w: Writer)
    requires s.writer == Some(w) && w.st.wal == Apply(s.tail)
    ensures DoFreezeWal(s, w).tail == []
  {
    SizeZeroIffEmpty(w.st.wal);
    if s.tail != [] {
      assert s.tail[|s.tail| - 1].key in Apply(s.tail);
    }
  }

  lemma AllMerged(t: Sys)
    requires Inv(t) && t.writer.Some? && t.writer.value.popped.None? && t.writer.value.st.immWals == [] && t.tail == []
    ensures Merged(t.writer.value.st, None) == |t.frozen| == t.durable
    ensures CommittedOps(t) == AllOps(t) == DurableOps(t)
  {
    hide LogOK, CompactorOK, FlushOK, UniqueIds, WalsOK, CoreOK, MemOK, Live, Flatten;
    assert t.frozen[..|t.frozen|] == t.frozen;
    assert Flatten(t.frozen) + [] == Flatten(t.frozen);
  }

  /** FlushWAL from any reachable state with no WAL in hand: freezing and draining commits, and makes
      durable, every write the client has made, whether or not the uploaded WALs can be read. */
  lemma FlushCommitsAll(steps: seq<Step>, limit: nat, held: map<nat, Option<Rows>>) returns (more: seq<Step>)
    requires Run(steps).writer.Some? && Run(steps).writer.value.popped.None?
    requires ReadsOK(held, WithWalFrozen(Run(steps).writer.value.st).immWals)
    ensures var s, t := Run(steps), RunFrom(Run(steps), more);
      && t.writer.Some? && t.durable <= |t.frozen|
      && 0 <= Merged(t.writer.value.st, t.writer.value.popped) <= |t.frozen|
      && CommittedOps(t) == DurableOps(t) == AllOps(t) == AllOps(s)
      && t.log == s.log
  {
    hide Inv, Merged, Drained, AllOps, DoFreezeWal, Uploaded, ReadsOK, WithWalFrozen;
    RunKeeps(steps);
    var s := Run(steps);
    var w := s.writer.value;
    WalIsTail(s);
    FreezeKeepsOps(s, w);
    FreezeEmpties(s, w);
    RunOne(s, FreezeWal);
    var s1 := RunFrom(s, [FreezeWal]);
    assert s1 == DoFreezeWal(s, w);
    FreezeParts(s, w);
    var drain := DrainIsARun(s1, limit, held);
    DrainedAll(s1.writer.value.st, limit);
    RunAppend(s, [FreezeWal], drain);
    more := [FreezeWal] + drain;
    RunFromKeeps(s, more);
    var t := RunFrom(s, more);
    AllMerged(t);
    assert AllOps(t) == AllOps(s1) by { SameOps(t, s1); }
  }

  lemma FreezeParts(s: Sys, w: Writer)
    requires s.writer == Some(w)
    ensures DoFreezeWal(s, w).log == s.log && DoFreezeWal(s, w).writer == Some(w.(st := WithWalFrozen(w.st)))
  {
  }

  lemma SameOps(s: Sys, t: Sys)
    requires s.frozen == t.frozen && s.tail == t.tail
    ensures AllOps(s) == AllOps(t)
  {
  }

  lemma WalIsTail(s: Sys)
    requires Inv(s) && s.writer.Some?
    ensures s.writer.value.st.wal == Apply(s.tail)
  {
    hide LogOK, CompactorOK, FlushOK, UniqueIds, WalsOK, CoreOK, MemOK, Live;
  }

  // ---- flushImmMemtablesToL0

  lemma FreshId(used: set<nat>) returns (id: nat)
    ensures id !in used
  {
    id := 0;
    var left := used;
    while id in left
      invariant forall i: nat :: i < id ==> i !in left
      invariant left <= used && forall i :: i in used && i !in left ==> i < id
      decreases left
    {
      left := left - {id};
      id := id + 1;
    }
  }

  /** What lookups find in the tables written with these memtables. */
  ghost predicate TablesOK(rows: seq<Rows>, imms: seq<ImmMem>) {
    |rows| == |imms| && forall i :: 0 <= i < |imms| ==> Finds(imms[i].rows, rows[i])
  }

  /** Flushing the immutable memtables one by one, each under a new id, succeeds if and only if none has
      a row for the empty key; otherwise the process panics. */
  lemma {:induction false} FlushAll(s: Sys, rows: seq<Rows>) returns (more: seq<Step>)
    requires s.writer.Some? && TablesOK(rows, s.writer.value.st.immMems) && s.durable <= |s.frozen|
    ensures var w, t := s.writer.value, RunFrom(s, more);
      && (t.writer.Some? <==> CleanImms(w.st.immMems)) && t.log == s.log
      && (CleanImms(w.st.immMems) ==>
            && t.writer.value.st.immMems == []
            && t.writer.value.st.core.lastCompactedWal == Top(w.st.immMems, w.st.core.lastCompactedWal)
            && t.writer.value.popped == w.popped && t.writer.value.st.memtable == w.st.memtable
            && t.writer.value.st.wal == w.st.wal && t.writer.value.st.immWals == w.st.immWals
            && t.writer.value.st.core.nextWal == w.st.core.nextWal
            && t.frozen == s.frozen && t.tail == s.tail && t.durable == s.durable)
    ensures forall i :: 0 <= i < |more| ==> !more[i].Put?
    decreases |s.writer.value.st.immMems|
  {
    hide Finds, ScanOf;
    var w := s.writer.value;
    if w.st.immMems == [] {
      more := [];
    } else {
      var id := FreshId(s.usedIds);
      var n := |rows| - 1;
      var flush := FlushMem(id, rows[n]);
      var t := Do(s, flush);
      RunOne(s, flush);
      if [] in w.st.immMems[n].rows {
        more := [flush];
        return;
      }
      assert t.writer.value.st.immMems == w.st.immMems[..n];
      assert CleanImms(w.st.immMems) <==> CleanImms(w.st.immMems[..n]) by { CleanInit(w.st.immMems); }
      hide Do, CleanImms;
      var rest := FlushAll(t, rows[..n]);
      RunAppend(s, [flush], rest);
      more := [flush] + rest;
    }
  }

  lemma CleanInit(imms: seq<ImmMem>)
    requires imms != []
    ensures CleanImms(imms) <==> CleanImms(imms[..|imms| - 1]) && [] !in imms[|imms| - 1].rows
  {
  }

  /** A flush of the memtable and of every immutable memtable, and one round of loading and publishing,
      whatever lookups in the tables find. The latest manifest then covers every WAL that was merged, if
      and only if no memtable had a row for the empty key; otherwise the process panics and writes no
      manifest. */
  lemma FlushReachesManifest(steps: seq<Step>, rows: seq<Rows>) returns (more: seq<Step>)
    requires Run(steps).writer.Some? && Run(steps).writer.value.st.memtable.lastWal.Some?
    requires var st := Run(steps).writer.value.st;
      TablesOK(rows, WithMemtableFrozen(st, st.memtable.lastWal.value).immMems)
    ensures var s, t := Run(steps), RunFrom(Run(steps), more);
      if Clean(s.writer.value.st) then
        && s.log < t.log && t.writer.Some?
        && t.log[|t.log| - 1].core.lastCompactedWal == Merged(s.writer.value.st, s.writer.value.popped)
      else t.log == s.log && t.writer.None?
  {
    hide Inv, Merged, Top, Do, TablesOK, WithMemtableFrozen, CleanImms;
    RunKeeps(steps);
    var s := Run(steps);
    var s1 := Do(s, FreezeMem);
    DoKeeps(s, FreezeMem);
    StoreOK(s1);
    RunOne(s, FreezeMem);
    FrozenTop(s);
    var flush := FlushAll(s1, rows);
    RunAppend(s, [FreezeMem], flush);
    var s2 := RunFrom(s, [FreezeMem] + flush);
    RunFromKeeps(s, [FreezeMem] + flush);
    CleanFrozen(s.writer.value.st, s.writer.value.st.memtable.lastWal.value);
    if !Clean(s.writer.value.st) {
      more := [FreezeMem] + flush;
      return;
    }
    Published(s2);
    RunOne(s2, LoadWriter);
    RunAppend(s2, [LoadWriter], [PublishWriter]);
    RunOne(Do(s2, LoadWriter), PublishWriter);
    more := [FreezeMem] + flush + ([LoadWriter] + [PublishWriter]);
    RunAppend(s, [FreezeMem] + flush, [LoadWriter] + [PublishWriter]);
    LogGrows(s, [FreezeMem] + flush);
  }

  lemma CleanFrozen(st: State, id: nat)
    ensures CleanImms(WithMemtableFrozen(st, id).immMems) <==> Clean(st)
  {
    var imms := WithMemtableFrozen(st, id).immMems;
    assert imms[0].rows == st.memtable.rows;
    assert forall i :: 0 < i < |imms| ==> imms[i] == st.immMems[i - 1];
    assert forall i :: 0 <= i < |st.immMems| ==> st.immMems[i] == imms[i + 1];
  }

  lemma FrozenTop(s: Sys)
    requires Inv(s) && s.writer.Some? && s.writer.value.st.memtable.lastWal.Some?
    ensures var t := Do(s, FreezeMem);
      && t.writer.Some? && t.log == s.log
      && t.writer.value.st == WithMemtableFrozen(s.writer.value.st, s.writer.value.st.memtable.lastWal.value)
      && Top(t.writer.value.st.immMems, t.writer.value.st.core.lastCompactedWal)
         == Merged(s.writer.value.st, s.writer.value.popped)
  {
    hide LogOK, CompactorOK, FlushOK, UniqueIds, WalsOK, CoreOK, Live, WalOK, Holding;
  }

  lemma Published(s: Sys)
    requires Inv(s) && s.writer.Some?
    ensures var t := Do(Do(s, LoadWriter), PublishWriter);
      && t.log != [] && t.log[|t.log| - 1].core.lastCompactedWal == s.writer.value.st.core.lastCompactedWal
      && s.log < t.log && t.writer.Some?
  {
    hide LogOK, FlushOK, UniqueIds, WalsOK, Replaced, CoreOK, MemOK, WalOK, CompactorOK, Live, EpochsRise, TakeUntil;
    LogNonEmpty(s.log, s.marks, s.flushed);
    LivePasses(s.writer.value.handle, WriterEpoch, s.log);
  }

  lemma {:induction false} LogGrows(s: Sys, steps: seq<Step>)
    ensures s.log <= RunFrom(s, steps).log
  {
    if steps != [] {
      LogGrows(s, steps[..|steps| - 1]);
      hide RunFrom;
      LogGrowsOne(RunFrom(s, steps[..|steps| - 1]), steps[|steps| - 1]);
    }
  }

  lemma LogGrowsOne(s: Sys, step: Step)
    ensures s.log <= Do(s, step).log
  {
    hide WithManifest, WithWriterState, WithFinished, Replay, Schedule, Accepts, JobFor, JobPanics, RunFinds, InIdOrder,
         WithWalFrozen;
    hide Replays, ScanOf, Finds, Readable, IdsAbove;
  }

  // ---- compaction

  /** Whatever a compactor was doing, a failed job included, stopping it and opening another leaves no
      process behind and an idle compactor that sees what the latest manifest has. */
  lemma CompactorRestarts(steps: seq<Step>)
    requires Run(steps).log != []
    ensures var s, t := Run(steps), Do(Do(Run(steps), CrashCompactor), OpenCompactor);
      && t.compactor.Some?
      && t.compactor.value.st == CState(s.log[|s.log| - 1].core, map[])
      && t.compactor.value.running == [] && t.compactor.value.results == []
      && |t.log| == |s.log| + 1 && t.log[|s.log|].core == s.log[|s.log| - 1].core
      && t.zombies == s.zombies && t.writer == s.writer && t.wals == s.wals
  {
    hide Run, WriterOK, CompactorOK, FlushOK, UniqueIds, WalsOK, Replaced, CoreOK;
    RunKeeps(steps);
  }

  /** A compactor that is idle and sees four or more L0 tables: planning, running and finishing one
      compaction takes all of them into one new run on top, and leaves its L0 empty. The one exception
      is a job that comes to write a row for the empty key, and panics. */
  lemma CompactionTakesL0(steps: seq<Step>, rows: Rows)
    requires Run(steps).compactor.Some?
    requires var c := Run(steps).compactor.value;
      && c.st.compactions == map[] && |c.st.db.l0| >= 4 && |c.st.db.compacted| < MAX_UINT32
      && RunFinds(JobFor(c.st.db, Schedule(c.st.db)[0]), rows)
    ensures var c, more := Run(steps).compactor.value, [Plan] + [FinishJob(true, rows)] + [TakeResult];
      var t := RunFrom(Run(steps), more);
      && (t.compactor.None? <==> JobPanics(JobFor(c.st.db, Schedule(c.st.db)[0])))
      && (t.compactor.Some? ==>
            && t.compactor.value.st.db.l0 == [] && t.compactor.value.st.compactions == map[]
            && |t.compactor.value.st.db.compacted| == |c.st.db.compacted| + 1
            && t.compactor.value.st.db.compacted[0] == SortedRun(|c.st.db.compacted|, rows, Ids(c.st.db.l0))
            && t.compactor.value.st.db.compacted[1..] == c.st.db.compacted
            && t.compactor.value.st.db.l0LastCompacted == Some(c.st.db.l0[0].id))
  {
    hide Inv, Do, JobPanics, RunFinds;
    RunKeeps(steps);
    var s, finish := Run(steps), FinishJob(true, rows);
    var s1 := Do(s, Plan);
    DoKeeps(s, Plan);
    PlanStarts(s);
    var s2 := Do(s1, finish);
    DoKeeps(s1, finish);
    JobEnds(s1, rows);
    var s3 := Do(s2, TakeResult);
    RunOne(s, Plan);
    RunAppend(s, [Plan], [finish]);
    RunOne(s1, finish);
    RunAppend(s, [Plan] + [finish], [TakeResult]);
    RunOne(s2, TakeResult);
    if s2.compactor.Some? {
      ResultTaken(s2, s.compactor.value.st.db);
    } else {
      NoCompactor(s2);
    }
  }

  lemma NoCompactor(s: Sys)
    requires s.compactor.None?
    ensures Do(s, TakeResult) == s
  {
  }

  /** Loading and publishing with no other manifest write in between puts the compactor's runs into
      the latest manifest. */
  lemma CompactionReachesManifest(steps: seq<Step>)
    requires Run(steps).compactor.Some?
    ensures var c, t := Run(steps).compactor.value, RunFrom(Run(steps), [LoadCompactor] + [PublishCompactor]);
      && Run(steps).log < t.log && t.log[|t.log| - 1].core.compacted == c.st.db.compacted
      && t.log[|t.log| - 1].core.l0LastCompacted == c.st.db.l0LastCompacted
  {
    hide Inv, Do;
    RunKeeps(steps);
    var s := Run(steps);
    RunOne(s, LoadCompactor);
    RunAppend(s, [LoadCompactor], [PublishCompactor]);
    RunOne(Do(s, LoadCompactor), PublishCompactor);
    RunsPublished(s);
  }

  lemma RunsPublished(s: Sys)
    requires Inv(s) && s.compactor.Some?
    ensures var c, t := s.compactor.value, Do(Do(s, LoadCompactor), PublishCompactor);
      && s.log < t.log && t.log[|t.log| - 1].core.compacted == c.st.db.compacted
      && t.log[|t.log| - 1].core.l0LastCompacted == c.st.db.l0LastCompacted
  {
    hide LogOK, FlushOK, UniqueIds, WalsOK, Replaced, CoreOK, MemOK, WalOK, WriterOK, JobsOK, Live, EpochsRise,
         TakeUntil;
    LogNonEmpty(s.log, s.marks, s.flushed);
    LivePasses(s.compactor.value.handle, CompactorEpoch, s.log);
  }

  lemma IdleAccepts(st: CState, F: seq<Flush>, covered: nat, p: nat)
    requires CoreOK(st.db, F, covered, p) && UniqueIds(F) && st.compactions == map[] && |st.db.l0| >= 4
    ensures Accepts(st, Schedule(st.db)[0]) && Schedule(st.db)[0].destination == |st.db.compacted|
    ensures DistinctIds(st.db.l0)
  {
    hide FlushRows, EndWal, LastId;
    CoveredIds(st.db.compacted, F, covered);
    MatchesDistinct(st.db.l0, F, covered, p);
    hide Covered, L0Matches, UniqueIds, L0Sources;
  }

  lemma IdleHasNoJobs(st: CState, running: seq<Job>, results: seq<Outcome>, covered: nat, F: seq<Flush>, p: nat)
    requires JobsOK(st, running, results, covered, F, p) && st.compactions == map[]
    ensures running == [] && results == []
  {
  }

  lemma PlanStarts(s: Sys)
    requires Inv(s) && s.compactor.Some?
    requires var c := s.compactor.value; c.st.compactions == map[] && |c.st.db.l0| >= 4
    ensures var c, t := s.compactor.value, Do(s, Plan);
      && t.compactor.Some? && t.compactor.value.st.db == c.st.db && t.compactor.value.results == []
      && t.compactor.value.running == [JobFor(c.st.db, Schedule(c.st.db)[0])]
      && JobFor(c.st.db, Schedule(c.st.db)[0]).ssts == c.st.db.l0 && JobFor(c.st.db, Schedule(c.st.db)[0]).runs == []
      && JobFor(c.st.db, Schedule(c.st.db)[0]).destination == |c.st.db.compacted|
      && t.compactor.value.st.compactions == map[|c.st.db.compacted| := Schedule(c.st.db)[0]]
      && Schedule(c.st.db)[0].destination == |c.st.db.compacted|
  {
    hide LogOK, WriterOK, FlushOK, UniqueIds, WalsOK, Replaced, Live, JobFor, CoreOK, JobsOK, Accepts, DistinctIds,
         L0Sources;
    var c := s.compactor.value;
    LiveInLog(c.handle, CompactorEpoch, s.log);
    UniquePrefix(s.flushed, AllFlushes(s));
    var p := s.marks[c.handle.id - 1].published;
    IdleHasNoJobs(c.st, c.running, c.results, c.covered, s.flushed, p);
    IdleAccepts(c.st, s.flushed, c.covered, p);
    ScheduledJobReadsL0(c.st.db, Schedule(c.st.db)[0]);
    JobGoesTo(c.st.db, Schedule(c.st.db)[0]);
    var job := JobFor(c.st.db, Schedule(c.st.db)[0]);
    assert c.running + [job] == [job];
  }

  /** In every run, planning starts a compaction if and only if the compactor sees four or more L0 tables
      and has none under way. */
  lemma PlanIff(steps: seq<Step>)
    requires Run(steps).compactor.Some?
    ensures var s := Run(steps);
      var c := s.compactor.value;
      && (Do(s, Plan) != s <==> |c.st.db.l0| >= 4 && c.st.compactions == map[])
      && (Do(s, Plan) != s ==> Do(s, Plan).compactor.Some? && |Do(s, Plan).compactor.value.running| == 1)
  {
    hide Run, LogOK, WriterOK, FlushOK, UniqueIds, WalsOK, Replaced, Live, JobFor, CoreOK, JobsOK, Accepts, DistinctIds,
         L0Sources;
    RunKeeps(steps);
    var s := Run(steps);
    var c := s.compactor.value;
    if |c.st.db.l0| >= 4 {
      if c.st.compactions == map[] {
        PlanStarts(s);
        assert |c.st.db.compacted| in Do(s, Plan).compactor.value.st.compactions;
      } else if Accepts(c.st, Schedule(c.st.db)[0]) {
        LiveInLog(c.handle, CompactorEpoch, s.log);
        PlanOnlyWhenIdle(c.st, c.running, c.results, c.covered, s.flushed, s.marks[c.handle.id - 1].published);
        assert false;
      }
    }
  }

  lemma JobGoesTo(db: Core, c: Compaction)
    ensures JobFor(db, c).destination == c.destination
  {
  }

  lemma JobEnds(s: Sys, rows: Rows)
    requires s.compactor.Some? && |s.compactor.value.running| == 1 && s.compactor.value.results == []
    requires RunFinds(s.compactor.value.running[0], rows)
    ensures var c, t := s.compactor.value, Do(s, FinishJob(true, rows));
      && (t.compactor.None? <==> JobPanics(c.running[0]))
      && (t.compactor.Some? ==>
            && t.compactor.value.st == c.st && t.compactor.value.running == []
            && t.compactor.value.results
               == [Success(SortedRun(c.running[0].destination, rows, Ids(c.running[0].ssts)))])
  {
    hide JobPanics, RunFinds;
  }

  lemma ResultTaken(s: Sys, db: Core)
    requires Inv(s) && s.compactor.Some? && s.compactor.value.st.db == db
    requires |s.compactor.value.results| == 1 && s.compactor.value.results[0].Success?
    requires |db.compacted| < MAX_UINT32 && s.compactor.value.results[0].run.sources == Ids(db.l0)
    ensures var t := Do(s, TakeResult);
      && t.compactor.Some? && t.compactor.value.st.db.l0 == [] && t.compactor.value.st.compactions == map[]
      && t.compactor.value.st.db.compacted == [s.compactor.value.results[0].run] + db.compacted
      && db.l0 != [] && t.compactor.value.st.db.l0LastCompacted == Some(db.l0[0].id)
  {
    hide LogOK, WriterOK, FlushOK, WalsOK, Replaced, Live, Covered, UniqueIds, FlushRows, L0Matches, IdsMatch,
         SourcesMatch, WithFinished, RunHolds, JobsOK, CoreOK, EndWal;
    var c := s.compactor.value;
    LiveInLog(c.handle, CompactorEpoch, s.log);
    var p := s.marks[c.handle.id - 1].published;
    UniquePrefix(s.flushed, AllFlushes(s));
    OneResult(c.st, c.running, c.results, c.covered, s.flushed, p);
    ResultMatches(c.st, c.running, c.results, c.covered, s.flushed, p);
    CoreParts(c.st.db, s.flushed, c.covered, p);
    var run := c.results[0].run;
    assert |db.l0| == p - c.covered by { L0Size(db.l0, s.flushed, c.covered, p); }
    FinishedSplice(c.st, c.st.compactions[run.id], run, s.flushed, c.covered, c.covered + |run.sources|, p);
    assert db.l0[0] == s.flushed[p - 1].sst by { NewestTable(db.l0, s.flushed, c.covered, p); }
    CoveredIds(db.compacted, s.flushed, c.covered);
    var runs := [run] + db.compacted;
    assert forall i :: 0 <= i < |runs| ==> runs[i].id == |runs| - 1 - i;
  }

  lemma NewestTable(l0: seq<Sst>, F: seq<Flush>, lo: nat, hi: nat)
    requires L0Matches(l0, F, lo, hi) && lo < hi
    ensures l0 != [] && l0[0] == F[hi - 1].sst
  {
  }

  lemma L0Size(l0: seq<Sst>, F: seq<Flush>, lo: nat, hi: nat)
    requires L0Matches(l0, F, lo, hi)
    ensures |l0| == hi - lo
  {
  }
}
