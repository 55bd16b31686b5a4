/** Planning, running and finishing compactions keeps the invariant. */
module CompactorSteps {
  import opened Types
  import opened History
  import opened Keys
  import opened Scans
  import opened CoreState
  import opened Manifests
  import opened CompactorStates
  import MergeSorts
  import opened Protocol
  import opened Coverage
  import opened Invariants
  import opened ManifestSteps

  /** Run ids are their positions from the bottom, so the list strictly decreases. */
  lemma {:induction false} CoveredIds(runs: seq<SortedRun>, F: seq<Flush>, n: nat)
    requires Covered(runs, F, n)
    ensures forall i :: 0 <= i < |runs| ==> runs[i].id == |runs| - 1 - i
    decreases |runs|
  {
    if runs != [] {
      CoveredIds(runs[1..], F, n - |runs[0].sources|);
      forall i | 1 <= i < |runs| ensures runs[i].id == |runs| - 1 - i {
        assert runs[i] == runs[1..][i - 1];
      }
    }
  }

  lemma PlannedJob(st: CState, covered: nat, F: seq<Flush>, p: nat)
    requires CoreOK(st.db, F, covered, p) && UniqueIds(F)
    requires JobsOK(st, [], [], covered, F, p)
    requires Schedule(st.db) != [] && Accepts(st, Schedule(st.db)[0])
    ensures var n := Schedule(st.db)[0];
      JobsOK(WithCompaction(st, n), [JobFor(st.db, n)], [], covered, F, p)
  {
    hide Covered, Accepts;
    var n := Schedule(st.db)[0];
    CoveredIds(st.db.compacted, F, covered);
    assert n.destination == |st.db.compacted|;
    MatchesDistinct(st.db.l0, F, covered, p);
    ScheduledJobReadsL0(st.db, n);
    assert n.destination !in st.compactions by { AcceptsFree(st, n); }
    assert st.compactions.Keys == {};
    assert st.compactions == map[];
  }

  lemma AcceptsFree(st: CState, n: Compaction)
    requires Accepts(st, n)
    ensures n.destination !in st.compactions
  {
  }

  /** While a compaction is registered, the scheduler's next one has the same destination and is refused. */
  lemma PlanOnlyWhenIdle(st: CState, running: seq<Job>, results: seq<Outcome>, covered: nat, F: seq<Flush>, p: nat)
    requires CoreOK(st.db, F, covered, p) && JobsOK(st, running, results, covered, F, p)
    requires Schedule(st.db) != [] && Accepts(st, Schedule(st.db)[0])
    ensures st.compactions == map[] && running == [] && results == []
  {
    hide Covered, L0Matches, SourcesMatch, IdsMatch, LastId, EndWal, FlushRows;
    CoveredIds(st.db.compacted, F, covered);
    assert Schedule(st.db)[0].destination == |st.db.compacted|;
    assert st.compactions.Keys == {};
  }

  lemma PlanKeeps(s: Sys, c: Compactor)
    requires Inv(s) && s.compactor == Some(c)
    ensures Inv(DoPlan(s, c))
  {
    hide LogOK, WriterOK, FlushOK, UniqueIds, WalsOK, Replaced, CoreOK, Live, JobsOK, Accepts;
    if Schedule(c.st.db) != [] && Accepts(c.st, Schedule(c.st.db)[0]) {
      LiveInLog(c.handle, CompactorEpoch, s.log);
      var p := s.marks[c.handle.id - 1].published;
      UniquePrefix(s.flushed, AllFlushes(s));
      PlanOnlyWhenIdle(c.st, c.running, c.results, c.covered, s.flushed, p);
      PlannedJob(c.st, c.covered, s.flushed, p);
      assert c.running + [JobFor(c.st.db, Schedule(c.st.db)[0])] == [JobFor(c.st.db, Schedule(c.st.db)[0])];
    }
    assert AllFlushes(DoPlan(s, c)) == AllFlushes(s);
  }

  // ---- what a job writes

  lemma {:induction false} UnionOfScans(lists: seq<seq<RowEntry>>, ssts: seq<Sst>)
    requires |lists| == |ssts| && forall i :: 0 <= i < |ssts| ==> Apply(lists[i]) == ssts[i].rows
    ensures MergeSorts.UnionRows(lists) == L0Rows(ssts)
  {
    if ssts != [] {
      UnionOfScans(lists[1..], ssts[1..]);
    }
  }

  lemma {:induction false} NoEmptyKeys(ssts: seq<Sst>)
    requires forall i :: 0 <= i < |ssts| ==> [] !in ssts[i].rows
    ensures [] !in L0Rows(ssts)
  {
    if ssts != [] {
      NoEmptyKeys(ssts[1..]);
    }
  }

  lemma AllAbove(m: Rows)
    requires [] !in m
    ensures MergeSorts.Above(m, []) == m
  {
  }

  /** A job over tables in which lookups and scans agree writes, in order, exactly the rows that lookups
      through them find. */
  lemma PlainJob(job: Job)
    requires job.runs == [] && forall i :: 0 <= i < |job.ssts| ==> Plain(job.ssts[i])
    ensures Sorted(JobOut(job)) && Apply(JobOut(job)) == PersistRows(L0Rows(job.ssts)) && !JobPanics(job)
  {
    hide Sorted, Apply, MergeSorts.Merge, MergeSorts.UnionRows, MergeSorts.Above, Listing, L0Rows, PersistRows;
    var lists := JobSources(job);
    assert |lists| == |job.ssts|;
    assert forall i :: 0 <= i < |lists| ==> lists[i] == job.ssts[i].scan;
    UnionOfScans(lists, job.ssts);
    NoEmptyKeys(job.ssts);
    AllAbove(L0Rows(job.ssts));
    MergeSorts.NoneBelowFirst(lists);
    MergeSorts.SortedMerge(lists, []);
    PersistSorted(MergeSorts.Merge(lists, []));
    PersistApply(MergeSorts.Merge(lists, []));
    NoneEmptyKey(JobOut(job), L0Rows(job.ssts));
  }

  lemma NoneEmptyKey(out: seq<RowEntry>, rows: Rows)
    requires Sorted(out) && Apply(out) == PersistRows(rows) && [] !in rows
    ensures forall e :: e in out ==> e.key != []
  {
    hide Less, Apply;
    forall e | e in out ensures e.key != [] {
      SortedLookup(out, e.key);
      assert e.key in PersistRows(rows);
    }
  }

  lemma JobHolds(job: Job, rows: Rows, F: seq<Flush>, lo: nat, hi: nat)
    requires L0Matches(job.ssts, F, lo, hi) && job.runs == [] && RunFinds(job, rows)
    ensures RunHolds(rows, F, lo, hi)
  {
    hide Plain, JobOut, Sorted, Apply, StorableRows, PersistRows, FlushRows, JobPanics;
    if AllPlain(F, lo, hi) {
      forall i | 0 <= i < |job.ssts| ensures Plain(job.ssts[i]) { assert job.ssts[i] == F[hi - 1 - i].sst; }
      PlainJob(job);
      L0RowsMatch(job.ssts, F, lo, hi);
    }
  }

  lemma FinishedJob(st: CState, running: seq<Job>, results: seq<Outcome>, covered: nat, F: seq<Flush>, p: nat,
                    r: Outcome)
    requires JobsOK(st, running, results, covered, F, p) && running != []
    requires r.Success? ==>
      RunFinds(running[0], r.run.rows) && r.run == SortedRun(running[0].destination, r.run.rows, Ids(running[0].ssts))
    ensures JobsOK(st, running[1..], results + [r], covered, F, p)
  {
    hide RunFinds, RunHolds;
    var d := |st.db.compacted|;
    assert |st.compactions| > 0;
    assert d in st.compactions by { assert st.compactions.Keys != {}; }
    assert |st.compactions| <= 1 by { assert st.compactions.Keys == {d}; assert |st.compactions.Keys| == 1; }
    if r.Success? {
      JobHolds(running[0], r.run.rows, F, covered, covered + |st.compactions[d].sources|);
    }
  }

  lemma FinishJobKeeps(s: Sys, c: Compactor, ok: bool, rows: Rows)
    requires Inv(s) && s.compactor == Some(c)
    ensures Inv(DoFinishJob(s, c, ok, rows))
  {
    hide LogOK, WriterOK, FlushOK, UniqueIds, WalsOK, Replaced, CoreOK, Live, JobsOK, JobPanics, RunFinds;
    if c.running != [] {
      LiveInLog(c.handle, CompactorEpoch, s.log);
      var job, p := c.running[0], s.marks[c.handle.id - 1].published;
      FinishedJob(c.st, c.running, c.results, c.covered, s.flushed, p, Failure);
      if RunFinds(job, rows) {
        FinishedJob(c.st, c.running, c.results, c.covered, s.flushed, p,
                    Success(SortedRun(job.destination, rows, Ids(job.ssts))));
      }
    }
    assert AllFlushes(DoFinishJob(s, c, ok, rows)) == AllFlushes(s);
  }

  /** The splice a successful result causes, in terms of the flush history. */
  lemma FinishedSplice(st: CState, comp: Compaction, run: SortedRun, F: seq<Flush>, lo: nat, hi: nat, p: nat)
    requires L0Matches(st.db.l0, F, lo, p) && UniqueIds(F) && lo < hi <= p
    requires Covered(st.db.compacted, F, lo)
    requires st.compactions == map[run.id := comp] && run.id == |st.db.compacted|
    requires comp.destination == run.id && SourcesMatch(comp.sources, F, lo, hi)
    ensures L0Matches(st.db.l0[..p - hi], F, hi, p)
    ensures WithFinished(st, run) ==
      CState(st.db.(l0 := st.db.l0[..p - hi], compacted := [run] + st.db.compacted, l0LastCompacted := LastId(F, hi)),
             map[])
  {
    hide Covered;
    var newer, older := st.db.l0[..p - hi], st.db.l0[p - hi..];
    SplitL0(st.db.l0, F, lo, hi, p);
    MatchesDistinct(st.db.l0, F, lo, p);
    CoveredIds(st.db.compacted, F, lo);
    assert comp.sources == L0Sources(older);
    FinishScheduled(st, newer, older, run);
    assert older[0] == F[hi - 1].sst;
    assert st.compactions - {run.id} == map[];
  }

  /** Taking a successful result moves the cut between L0 and the runs over exactly the job's sources. */
  lemma Finished(st: CState, running: seq<Job>, results: seq<Outcome>, covered: nat, F: seq<Flush>, p: nat)
    requires CoreOK(st.db, F, covered, p) && UniqueIds(F)
    requires JobsOK(st, running, results, covered, F, p)
    requires results != [] && results[0].Success?
    ensures var run := results[0].run;
      var st' := WithFinished(st, run);
      && run.id in st.compactions
      && (InIdOrder(st'.db.compacted) ==> CoreOK(st'.db, F, covered + |run.sources|, p))
      && JobsOK(st', running, results[1..], covered + |run.sources|, F, p)
  {
    hide *;
    OneResult(st, running, results, covered, F, p);
    ResultMatches(st, running, results, covered, F, p);
    CoreParts(st.db, F, covered, p);
    var run := results[0].run;
    var hi := covered + |run.sources|;
    FinishedSplice(st, st.compactions[run.id], run, F, covered, hi, p);
    var st' := WithFinished(st, run);
    IdleJobs(st', hi, F, p);
    assert running == [] && results[1..] == [];
    if InIdOrder(st'.db.compacted) {
      CoveredCons(run, st.db.compacted, F, covered, hi);
      OrderBound(st'.db.compacted);
      CoreOf(st'.db, F, hi, p);
    }
  }

  lemma CoreParts(core: Core, F: seq<Flush>, c: nat, p: nat)
    requires CoreOK(core, F, c, p)
    ensures c <= p <= |F| && L0Matches(core.l0, F, c, p) && Covered(core.compacted, F, c)
    ensures core.lastCompactedWal == EndWal(F, p) < core.nextWal
  {
  }

  lemma CoreOf(core: Core, F: seq<Flush>, c: nat, p: nat)
    requires c <= p <= |F| && L0Matches(core.l0, F, c, p) && Covered(core.compacted, F, c)
    requires |core.compacted| <= MAX_UINT32
    requires core.l0LastCompacted == LastId(F, c) && core.lastCompactedWal == EndWal(F, p) < core.nextWal
    ensures CoreOK(core, F, c, p)
  {
  }

  lemma IdleJobs(st: CState, covered: nat, F: seq<Flush>, p: nat)
    requires st.compactions == map[]
    ensures JobsOK(st, [], [], covered, F, p)
  {
  }

  lemma ResultMatches(st: CState, running: seq<Job>, results: seq<Outcome>, covered: nat, F: seq<Flush>, p: nat)
    requires JobsOK(st, running, results, covered, F, p)
    requires results != [] && results[0].Success? && |st.db.compacted| in st.compactions
    ensures var run, comp := results[0].run, st.compactions[|st.db.compacted|];
      var hi := covered + |run.sources|;
      && run.id == comp.destination == |st.db.compacted| && covered < hi <= p
      && SourcesMatch(comp.sources, F, covered, hi) && IdsMatch(run.sources, F, covered, hi)
      && RunHolds(run.rows, F, covered, hi)
  {
  }

  /** A waiting result means its compaction is the only one registered and no worker runs. */
  lemma OneResult(st: CState, running: seq<Job>, results: seq<Outcome>, covered: nat, F: seq<Flush>, p: nat)
    requires JobsOK(st, running, results, covered, F, p) && results != []
    ensures var d := |st.db.compacted|;
      d in st.compactions && st.compactions == map[d := st.compactions[d]] && running == [] && |results| == 1
  {
    hide L0Matches, SourcesMatch, IdsMatch, FlushRows;
    var d := |st.db.compacted|;
    assert |st.compactions.Keys| == |st.compactions| > 0;
    assert st.compactions.Keys == {d};
    assert |{d}| == 1;
  }

  lemma OrderBound(runs: seq<SortedRun>)
    requires InIdOrder(runs) && runs != []
    ensures runs[0].id < MAX_UINT32
  {
  }

  lemma CoveredCons(run: SortedRun, runs: seq<SortedRun>, F: seq<Flush>, lo: nat, hi: nat)
    requires Covered(runs, F, lo) && IdsMatch(run.sources, F, lo, hi) && lo < hi
    requires run.id == |runs| && RunHolds(run.rows, F, lo, hi)
    ensures Covered([run] + runs, F, hi)
  {
    assert ([run] + runs)[1..] == runs;
  }

  lemma TakeResultKeeps(s: Sys, c: Compactor)
    requires Inv(s) && s.compactor == Some(c)
    ensures Inv(DoTakeResult(s, c))
  {
    hide LogOK, WriterOK, FlushOK, UniqueIds, WalsOK, Replaced, CoreOK, Live, JobsOK, InIdOrder;
    if c.results != [] {
      LiveInLog(c.handle, CompactorEpoch, s.log);
      var p := s.marks[c.handle.id - 1].published;
      UniquePrefix(s.flushed, AllFlushes(s));
      if c.results[0].Success? {
        Finished(c.st, c.running, c.results, c.covered, s.flushed, p);
      } else {
        DroppedFailure(c.st, c.running, c.results, c.covered, s.flushed, p);
      }
    }
    assert AllFlushes(DoTakeResult(s, c)) == AllFlushes(s);
  }

  lemma DroppedFailure(st: CState, running: seq<Job>, results: seq<Outcome>, covered: nat, F: seq<Flush>, p: nat)
    requires JobsOK(st, running, results, covered, F, p) && results != []
    ensures JobsOK(st, running, results[1..], covered, F, p)
  {
    OneResult(st, running, results, covered, F, p);
  }
}
