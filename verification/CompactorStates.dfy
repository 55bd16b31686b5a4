/** The compactor's state, its scheduler and the splice that finishes a compaction
    (slatedb/compaction/state.go, size_tiered_compaction.go, orchestrator.go). */
module CompactorStates {
  import opened Types
  import opened CoreState

  datatype SourceId = SstSource(id: nat) | RunSource(id: nat)
  datatype Compaction = Compaction(sources: seq<SourceId>, destination: nat)
  datatype CState = CState(db: Core, compactions: map<nat, Compaction>)

  const MAX_UINT32: nat := 0xFFFF_FFFF

  // ---- submitting

  /** No compaction is under way for the destination, and an existing run there is one of the sources. */
  ghost predicate Accepts(s: CState, c: Compaction) {
    && c.destination !in s.compactions
    && ((exists i :: 0 <= i < |s.db.compacted| && s.db.compacted[i].id == c.destination) ==>
          RunSource(c.destination) in c.sources)
  }

  ghost function WithCompaction(s: CState, c: Compaction): CState {
    if Accepts(s, c) then s.(compactions := s.compactions[c.destination := c]) else s
  }

  // ---- refreshing

  /** The compactor takes the writer's newer L0 tables and WAL counters and keeps its own runs. */
  function WithWriterState(s: CState, writer: Core): CState {
    s.(db := s.db.(l0 := TakeUntil(writer.l0, s.db.l0LastCompacted),
                   lastCompactedWal := writer.lastCompactedWal,
                   nextWal := writer.nextWal))
  }

  // ---- finishing

  function SstIds(sources: seq<SourceId>): set<nat> {
    set i | 0 <= i < |sources| && sources[i].SstSource? :: sources[i].id
  }

  function RunIds(sources: seq<SourceId>): set<nat> {
    set i | 0 <= i < |sources| && sources[i].RunSource? :: sources[i].id
  }

  function DropSsts(l0: seq<Sst>, ids: set<nat>): seq<Sst> {
    if l0 == [] then []
    else DropSsts(l0[..|l0| - 1], ids) + if l0[|l0| - 1].id in ids then [] else [l0[|l0| - 1]]
  }

  function DropRuns(runs: seq<SortedRun>, ids: set<nat>): seq<SortedRun> {
    if runs == [] then []
    else DropRuns(runs[..|runs| - 1], ids) + if runs[|runs| - 1].id in ids then [] else [runs[|runs| - 1]]
  }

  /** The number of leading runs with an id above `id`. */
  function Above(runs: seq<SortedRun>, id: nat): nat
    ensures Above(runs, id) <= |runs|
  {
    if runs == [] || id >= runs[0].id then 0 else 1 + Above(runs[1..], id)
  }

  /** The output run goes before the first run that does not have a greater id. */
  function Splice(runs: seq<SortedRun>, out: SortedRun, drop: set<nat>): seq<SortedRun> {
    var n := Above(runs, out.id);
    DropRuns(runs[..n], drop) + [out] + DropRuns(runs[n..], drop)
  }

  function WithFinished(s: CState, out: SortedRun): CState {
    if out.id !in s.compactions || s.compactions[out.id].sources == [] then s else
      var c := s.compactions[out.id];
      CState(s.db.(l0 := DropSsts(s.db.l0, SstIds(c.sources)),
                   compacted := Splice(s.db.compacted, out, RunIds(c.sources) + {c.destination}),
                   l0LastCompacted := if c.sources[0].SstSource? then Some(c.sources[0].id) else s.db.l0LastCompacted),
             s.compactions - {out.id})
  }

  /** Run ids strictly decrease. */
  ghost predicate Decreasing(runs: seq<SortedRun>) {
    forall i, j :: 0 <= i < j < |runs| ==> runs[i].id > runs[j].id
  }

  /** What assertCompactedSRsInIDOrder demands. */
  ghost predicate InIdOrder(runs: seq<SortedRun>) {
    Decreasing(runs) && (runs != [] ==> runs[0].id < MAX_UINT32)
  }

  // ---- what dropping and splicing do

  lemma {:induction false} DropSstsMember(l0: seq<Sst>, ids: set<nat>, t: Sst)
    ensures t in DropSsts(l0, ids) <==> t in l0 && t.id !in ids
  {
    if l0 != [] {
      DropSstsMember(l0[..|l0| - 1], ids, t);
      assert l0 == l0[..|l0| - 1] + [l0[|l0| - 1]];
    }
  }

  lemma {:induction false} DropRunsMember(runs: seq<SortedRun>, ids: set<nat>, r: SortedRun)
    ensures r in DropRuns(runs, ids) <==> r in runs && r.id !in ids
  {
    if runs != [] {
      DropRunsMember(runs[..|runs| - 1], ids, r);
      assert runs == runs[..|runs| - 1] + [runs[|runs| - 1]];
    }
  }

  lemma {:induction false} DropRunsDecreasing(runs: seq<SortedRun>, ids: set<nat>)
    requires Decreasing(runs)
    ensures Decreasing(DropRuns(runs, ids))
  {
    if runs != [] {
      var init := runs[..|runs| - 1];
      DropRunsDecreasing(init, ids);
      forall i | 0 <= i < |DropRuns(init, ids)|
        ensures DropRuns(init, ids)[i].id > runs[|runs| - 1].id
      {
        DropRunsMember(init, ids, DropRuns(init, ids)[i]);
      }
    }
  }

  lemma {:induction false} AboveSplits(runs: seq<SortedRun>, id: nat)
    requires Decreasing(runs)
    ensures forall i :: 0 <= i < Above(runs, id) ==> runs[i].id > id
    ensures forall i :: Above(runs, id) <= i < |runs| ==> runs[i].id <= id
  {
    if runs != [] && id < runs[0].id {
      AboveSplits(runs[1..], id);
      forall i | Above(runs, id) <= i < |runs| ensures runs[i].id <= id {
        assert runs[i] == runs[1..][i - 1];
      }
    }
  }

  lemma SpliceMember(runs: seq<SortedRun>, out: SortedRun, drop: set<nat>, r: SortedRun)
    ensures r in Splice(runs, out, drop) <==> r == out || (r in runs && r.id !in drop)
  {
    var n := Above(runs, out.id);
    assert runs == runs[..n] + runs[n..];
    DropRunsMember(runs[..n], drop, r);
    DropRunsMember(runs[n..], drop, r);
  }

  lemma DecreasingAround(hi: seq<SortedRun>, out: SortedRun, lo: seq<SortedRun>)
    requires Decreasing(hi) && Decreasing(lo)
    requires forall i :: 0 <= i < |hi| ==> hi[i].id > out.id
    requires forall i :: 0 <= i < |lo| ==> lo[i].id < out.id
    ensures Decreasing(hi + [out] + lo)
  {
    var all, n := hi + [out] + lo, |hi|;
    forall i, j | 0 <= i < j < |all| ensures all[i].id > all[j].id {
      assert i < n ==> all[i] == hi[i];
      assert i > n ==> all[i] == lo[i - n - 1];
      assert j < n ==> all[j] == hi[j];
      assert j > n ==> all[j] == lo[j - n - 1];
    }
  }

  /** Whatever is dropped, the spliced list is in strictly decreasing order of id, as long as a run
      with the output's own id is dropped. */
  lemma SpliceKeepsOrder(runs: seq<SortedRun>, out: SortedRun, drop: set<nat>)
    requires Decreasing(runs) && out.id in drop
    ensures Decreasing(Splice(runs, out, drop))
  {
    hide Above, DropRuns;
    var n := Above(runs, out.id);
    var hi, lo := DropRuns(runs[..n], drop), DropRuns(runs[n..], drop);
    AboveSplits(runs, out.id);
    DropRunsDecreasing(runs[..n], drop);
    DropRunsDecreasing(runs[n..], drop);
    forall i | 0 <= i < |hi| ensures hi[i].id > out.id { DropRunsMember(runs[..n], drop, hi[i]); }
    forall i | 0 <= i < |lo| ensures lo[i].id < out.id { DropRunsMember(runs[n..], drop, lo[i]); }
    DecreasingAround(hi, out, lo);
  }

  // ---- the scheduler and the jobs it starts

  /** All of L0 goes into one new run above the others once there are four tables. */
  function Schedule(db: Core): seq<Compaction> {
    if |db.l0| < 4 then []
    else [Compaction(L0Sources(db.l0), if db.compacted == [] then 0 else (db.compacted[0].id + 1) % (MAX_UINT32 + 1))]
  }

  function L0Sources(l0: seq<Sst>): seq<SourceId> {
    seq(|l0|, i requires 0 <= i < |l0| => SstSource(l0[i].id))
  }

  /** Nothing below four L0 tables; from four on, all of them into the run above the top one, whose 32-bit
      id wraps around. */
  method MaybeScheduleCompaction(db: Core) returns (compactions: seq<Compaction>)
    ensures compactions == Schedule(db)
    ensures |db.l0| < 4 ==> compactions == []
    ensures |db.l0| >= 4 ==>
      && |compactions| == 1 && |compactions[0].sources| == |db.l0|
      && (forall i :: 0 <= i < |db.l0| ==> compactions[0].sources[i] == SstSource(db.l0[i].id))
      && (db.compacted == [] ==> compactions[0].destination == 0)
      && (db.compacted != [] && db.compacted[0].id < 0xFFFF_FFFF ==>
            compactions[0].destination == db.compacted[0].id + 1)
      && (db.compacted != [] && db.compacted[0].id == 0xFFFF_FFFF ==> compactions[0].destination == 0)
  {
    compactions := [];
    if |db.l0| >= 4 {
      var sources: seq<SourceId> := [];
      for i := 0 to |db.l0|
        invariant sources == L0Sources(db.l0[..i])
      {
        sources := sources + [SstSource(db.l0[i].id)];
      }
      assert db.l0[..|db.l0|] == db.l0;
      var next := 0;
      if |db.compacted| > 0 {
        next := (db.compacted[0].id + 1) % (MAX_UINT32 + 1);
      }
      compactions := [Compaction(sources, next)];
    }
  }

  datatype Job = Job(destination: nat, ssts: seq<Sst>, runs: seq<SortedRun>)

  function FindSst(l0: seq<Sst>, id: nat): seq<Sst> {
    if l0 == [] then [] else if l0[0].id == id then [l0[0]] else FindSst(l0[1..], id)
  }

  function FindRun(runs: seq<SortedRun>, id: nat): seq<SortedRun> {
    if runs == [] then [] else if runs[0].id == id then [runs[0]] else FindRun(runs[1..], id)
  }

  /** The job for a compaction: the tables and the runs that its sources name, in their order. */
  function JobFor(db: Core, c: Compaction): Job {
    Job(c.destination, JobSsts(db.l0, c.sources), JobRuns(db.compacted, c.sources))
  }

  function JobSsts(l0: seq<Sst>, sources: seq<SourceId>): seq<Sst> {
    if sources == [] then []
    else JobSsts(l0, sources[..|sources| - 1]) +
         if sources[|sources| - 1].SstSource? then FindSst(l0, sources[|sources| - 1].id) else []
  }

  function JobRuns(runs: seq<SortedRun>, sources: seq<SourceId>): seq<SortedRun> {
    if sources == [] then []
    else JobRuns(runs, sources[..|sources| - 1]) +
         if sources[|sources| - 1].RunSource? then FindRun(runs, sources[|sources| - 1].id) else []
  }

  lemma {:induction false} FindSstSnoc(l0: seq<Sst>, t: Sst, id: nat)
    ensures FindSst(l0 + [t], id) == if FindSst(l0, id) != [] then FindSst(l0, id) else if t.id == id then [t] else []
  {
    if l0 != [] {
      assert (l0 + [t])[1..] == l0[1..] + [t];
      FindSstSnoc(l0[1..], t, id);
    }
  }

  lemma {:induction false} FindRunSnoc(runs: seq<SortedRun>, r: SortedRun, id: nat)
    ensures FindRun(runs + [r], id)
         == if FindRun(runs, id) != [] then FindRun(runs, id) else if r.id == id then [r] else []
  {
    if runs != [] {
      assert (runs + [r])[1..] == runs[1..] + [r];
      FindRunSnoc(runs[1..], r, id);
    }
  }

  lemma {:induction false} FindSstMisses(l0: seq<Sst>, id: nat)
    requires forall i :: 0 <= i < |l0| ==> l0[i].id != id
    ensures FindSst(l0, id) == []
  {
    if l0 != [] { FindSstMisses(l0[1..], id); }
  }

  lemma {:induction false} FindRunMisses(runs: seq<SortedRun>, id: nat)
    requires forall i :: 0 <= i < |runs| ==> runs[i].id != id
    ensures FindRun(runs, id) == []
  {
    if runs != [] { FindRunMisses(runs[1..], id); }
  }

  lemma {:induction false} FindSstMember(l0: seq<Sst>, id: nat, t: Sst)
    requires DistinctIds(l0)
    ensures t in FindSst(l0, id) <==> t in l0 && t.id == id
  {
    if l0 != [] {
      FindSstMember(l0[1..], id, t);
      assert l0 == [l0[0]] + l0[1..];
    }
  }

  lemma {:induction false} FindRunMember(runs: seq<SortedRun>, id: nat, r: SortedRun)
    requires Decreasing(runs)
    ensures r in FindRun(runs, id) <==> r in runs && r.id == id
  {
    if runs != [] {
      FindRunMember(runs[1..], id, r);
      assert runs == [runs[0]] + runs[1..];
    }
  }

  /** A job has exactly the tables and the runs that its sources name. */
  lemma {:induction false} JobMembers(db: Core, sources: seq<SourceId>, t: Sst, r: SortedRun)
    requires DistinctIds(db.l0) && Decreasing(db.compacted)
    ensures t in JobSsts(db.l0, sources) <==> t in db.l0 && SstSource(t.id) in sources
    ensures r in JobRuns(db.compacted, sources) <==> r in db.compacted && RunSource(r.id) in sources
  {
    hide DistinctIds, Decreasing, FindSst, FindRun;
    if sources != [] {
      var n := |sources| - 1;
      JobMembers(db, sources[..n], t, r);
      assert sources == sources[..n] + [sources[n]];
      FindSstMember(db.l0, sources[n].id, t);
      FindRunMember(db.compacted, sources[n].id, r);
    }
  }

  method IndexSsts(l0: seq<Sst>) returns (byId: map<nat, Sst>)
    requires DistinctIds(l0)
    ensures forall id :: FindSst(l0, id) == if id in byId then [byId[id]] else []
  {
    byId := map[];
    for n := 0 to |l0|
      invariant forall id :: FindSst(l0[..n], id) == if id in byId then [byId[id]] else []
    {
      assert l0[..n + 1] == l0[..n] + [l0[n]];
      FindSstMisses(l0[..n], l0[n].id);
      forall id {
        FindSstSnoc(l0[..n], l0[n], id);
      }
      byId := byId[l0[n].id := l0[n]];
    }
    assert l0[..|l0|] == l0;
  }

  method IndexRuns(runs: seq<SortedRun>) returns (byId: map<nat, SortedRun>)
    requires Decreasing(runs)
    ensures forall id :: FindRun(runs, id) == if id in byId then [byId[id]] else []
  {
    byId := map[];
    for n := 0 to |runs|
      invariant forall id :: FindRun(runs[..n], id) == if id in byId then [byId[id]] else []
    {
      assert runs[..n + 1] == runs[..n] + [runs[n]];
      FindRunMisses(runs[..n], runs[n].id);
      forall id {
        FindRunSnoc(runs[..n], runs[n], id);
      }
      byId := byId[runs[n].id := runs[n]];
    }
    assert runs[..|runs|] == runs;
  }

  /** startCompaction: indexes the tables and the runs by id and picks those that the sources name. */
  method StartCompaction(db: Core, c: Compaction) returns (job: Job)
    requires DistinctIds(db.l0) && Decreasing(db.compacted)
    ensures job == JobFor(db, c)
  {
    hide DistinctIds, Decreasing, FindSst, FindRun;
    var sstsById := IndexSsts(db.l0);
    var runsById := IndexRuns(db.compacted);
    var ssts: seq<Sst> := [];
    var runs: seq<SortedRun> := [];
    for n := 0 to |c.sources|
      invariant ssts == JobSsts(db.l0, c.sources[..n]) && runs == JobRuns(db.compacted, c.sources[..n])
    {
      assert c.sources[..n + 1][..n] == c.sources[..n];
      var id := c.sources[n].id;
      if c.sources[n].SstSource? {
        if id in sstsById {
          ssts := ssts + [sstsById[id]];
        }
      } else if id in runsById {
        runs := runs + [runsById[id]];
      }
    }
    assert c.sources[..|c.sources|] == c.sources;
    job := Job(c.destination, ssts, runs);
  }

  /** The branches of loadIterators; the last one hands two nil iterators to the merge. */
  datatype Branch = NoSources | OnlySsts | OnlyRuns | NilIterators

  function BranchOf(job: Job): Branch {
    if job.ssts == [] && job.runs == [] then NoSources
    else if job.runs == [] then OnlySsts
    else if job.ssts == [] then OnlyRuns
    else NilIterators
  }

  ghost predicate DistinctIds(l0: seq<Sst>) {
    forall i, j :: 0 <= i < j < |l0| ==> l0[i].id != l0[j].id
  }

  lemma {:induction false} FindSstAt(l0: seq<Sst>, i: nat)
    requires i < |l0| && DistinctIds(l0)
    ensures FindSst(l0, l0[i].id) == [l0[i]]
  {
    if i > 0 {
      FindSstAt(l0[1..], i - 1);
    }
  }

  lemma {:induction false} JobOfL0Sources(l0: seq<Sst>, runs: seq<SortedRun>, n: nat)
    requires n <= |l0| && DistinctIds(l0)
    ensures JobSsts(l0, L0Sources(l0[..n])) == l0[..n] && JobRuns(runs, L0Sources(l0[..n])) == []
  {
    if n > 0 {
      JobOfL0Sources(l0, runs, n - 1);
      FindSstAt(l0, n - 1);
      assert L0Sources(l0[..n])[..n - 1] == L0Sources(l0[..n - 1]);
    }
  }

  /** A scheduled job reads exactly the L0 tables and no run, so it never reaches the nil iterators. */
  lemma ScheduledJobReadsL0(db: Core, c: Compaction)
    requires c in Schedule(db) && DistinctIds(db.l0)
    ensures JobFor(db, c).ssts == db.l0 && JobFor(db, c).runs == []
    ensures BranchOf(JobFor(db, c)) == OnlySsts
  {
    assert db.l0[..|db.l0|] == db.l0;
    JobOfL0Sources(db.l0, db.compacted, |db.l0|);
  }

  // ---- compaction preserves meaning

  lemma {:induction false} L0RowsConcat(newer: seq<Sst>, older: seq<Sst>)
    ensures L0Rows(newer + older) == L0Rows(older) + L0Rows(newer)
  {
    if newer == [] {
      assert newer + older == older;
    } else {
      L0RowsConcat(newer[1..], older);
      assert (newer + older)[1..] == newer[1..] + older;
    }
  }

  lemma {:induction false} DropConcat(a: seq<Sst>, b: seq<Sst>, ids: set<nat>)
    ensures DropSsts(a + b, ids) == DropSsts(a, ids) + DropSsts(b, ids)
  {
    if b == [] {
      assert a + b == a;
    } else {
      DropConcat(a, b[..|b| - 1], ids);
      assert (a + b)[..|a + b| - 1] == a + b[..|b| - 1];
    }
  }

  lemma {:induction false} DropOnly(l0: seq<Sst>, ids: set<nat>)
    ensures (forall i :: 0 <= i < |l0| ==> l0[i].id !in ids) ==> DropSsts(l0, ids) == l0
    ensures (forall i :: 0 <= i < |l0| ==> l0[i].id in ids) ==> DropSsts(l0, ids) == []
  {
    if l0 != [] {
      var n := |l0| - 1;
      DropOnly(l0[..n], ids);
      assert forall i :: 0 <= i < n ==> l0[..n][i] == l0[i];
      assert l0 == l0[..n] + [l0[n]];
    }
  }

  lemma DropOlder(newer: seq<Sst>, older: seq<Sst>, ids: set<nat>)
    requires forall i :: 0 <= i < |newer| ==> newer[i].id !in ids
    requires forall i :: 0 <= i < |older| ==> older[i].id in ids
    ensures DropSsts(newer + older, ids) == newer
  {
    hide DropSsts;
    DropConcat(newer, older, ids);
    DropOnly(newer, ids);
    DropOnly(older, ids);
  }

  lemma {:induction false} DropNone(runs: seq<SortedRun>, ids: set<nat>)
    requires forall i :: 0 <= i < |runs| ==> runs[i].id !in ids
    ensures DropRuns(runs, ids) == runs
  {
    if runs != [] {
      DropNone(runs[..|runs| - 1], ids);
    }
  }

  /** A scheduler-made compaction of `older`, finished after the tables `newer` arrived, puts its
      run on top of the others and removes exactly `older`. */
  lemma FinishScheduled(s: CState, newer: seq<Sst>, older: seq<Sst>, out: SortedRun)
    requires s.db.l0 == newer + older && older != [] && DistinctIds(s.db.l0)
    requires out.id in s.compactions && s.compactions[out.id] == Compaction(L0Sources(older), out.id)
    requires forall i :: 0 <= i < |s.db.compacted| ==> s.db.compacted[i].id < out.id
    ensures WithFinished(s, out) ==
      CState(s.db.(l0 := newer, compacted := [out] + s.db.compacted, l0LastCompacted := Some(older[0].id)),
             s.compactions - {out.id})
  {
    var sources := L0Sources(older);
    var ids := SstIds(sources);
    forall i | 0 <= i < |older| ensures older[i].id in ids {
      assert sources[i] == SstSource(older[i].id);
    }
    forall i | 0 <= i < |newer| ensures newer[i].id !in ids {
      assert newer[i] == s.db.l0[i];
      assert forall j :: 0 <= j < |older| ==> older[j] == s.db.l0[|newer| + j];
    }
    DropOlder(newer, older, ids);
    assert RunIds(sources) + {out.id} == {out.id};
    DropNone(s.db.compacted, {out.id});
    assert Above(s.db.compacted, out.id) == 0 && s.db.compacted[0..] == s.db.compacted;
    assert Splice(s.db.compacted, out, {out.id}) == [out] + s.db.compacted;
  }

  /** Finishing a scheduler-made compaction leaves every lookup through L0 and the runs as it was,
      tombstones included. */
  lemma FinishPreservesMeaning(s: CState, newer: seq<Sst>, older: seq<Sst>, out: SortedRun)
    requires s.db.l0 == newer + older && older != [] && DistinctIds(s.db.l0)
    requires out.id in s.compactions && s.compactions[out.id] == Compaction(L0Sources(older), out.id)
    requires forall i :: 0 <= i < |s.db.compacted| ==> s.db.compacted[i].id < out.id
    requires out.rows == L0Rows(older)
    ensures CoreRows(WithFinished(s, out).db) == CoreRows(s.db)
  {
    FinishScheduled(s, newer, older, out);
    L0RowsConcat(newer, older);
    assert ([out] + s.db.compacted)[1..] == s.db.compacted;
    UnionAssoc(RunRows(s.db.compacted), L0Rows(older), L0Rows(newer));
  }
}
