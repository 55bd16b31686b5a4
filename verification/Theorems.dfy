/** The guarantees of the protocol, for every run. */
module Theorems {
  import opened Types
  import opened History
  import opened CoreState
  import opened Manifests
  import opened Scans
  import opened KVTables
  import opened WalLists
  import opened DbStates
  import opened CompactorStates
  import opened Protocol
  import opened Coverage
  import opened MemChain
  import opened Invariants
  import opened ManifestSteps
  import opened Safety
  import opened Views

  // ---- no flushed table is lost, duplicated or resurrected

  /** The table is among the sources of one of the runs. */
  ghost predicate InRuns(id: nat, runs: seq<SortedRun>) {
    exists r :: 0 <= r < |runs| && id in runs[r].sources
  }

  /** The table is one of the first n flushes. */
  ghost predicate Among(id: nat, F: seq<Flush>, n: nat)
    requires n <= |F|
  {
    exists i :: 0 <= i < n && F[i].sst.id == id
  }

  /** The runs' sources are exactly the first n flushes. */
  lemma {:induction false} CoveredSources(runs: seq<SortedRun>, F: seq<Flush>, n: nat, id: nat)
    requires Covered(runs, F, n)
    ensures InRuns(id, runs) <==> Among(id, F, n)
    decreases |runs|
  {
    if runs != [] {
      var k := |runs[0].sources|;
      CoveredSources(runs[1..], F, n - k, id);
      if InRuns(id, runs) {
        var r :| 0 <= r < |runs| && id in runs[r].sources;
        if r == 0 {
          var i :| 0 <= i < k && runs[0].sources[i] == id;
          assert F[n - 1 - i].sst.id == id;
        } else {
          assert id in runs[1..][r - 1].sources;
        }
      }
      if Among(id, F, n) {
        var i :| 0 <= i < n && F[i].sst.id == id;
        if i < n - k {
          var r :| 0 <= r < |runs[1..]| && id in runs[1..][r].sources;
          assert id in runs[r + 1].sources;
        } else {
          assert runs[0].sources[n - 1 - i] == id;
        }
      }
    }
  }

  /** No table is a source of two runs, or twice of one. */
  ghost predicate EachSourceOnce(runs: seq<SortedRun>) {
    forall r, x, q, y ::
      (&& 0 <= r < |runs| && 0 <= x < |runs[r].sources| && 0 <= q < |runs| && 0 <= y < |runs[q].sources|
       && runs[r].sources[x] == runs[q].sources[y]) ==> r == q && x == y
  }

  /** Which flush a source is: each run reads the stretch below that of the run before it. */
  function Position(runs: seq<SortedRun>, n: nat, r: nat, x: nat): int
    requires r < |runs| && x < |runs[r].sources|
    decreases r
  {
    if r == 0 then n - 1 - x else
      var m: int := n - |runs[0].sources|;
      if m < 0 then -1 else Position(runs[1..], m, r - 1, x)
  }

  lemma {:induction false} PositionReads(runs: seq<SortedRun>, F: seq<Flush>, n: nat, r: nat, x: nat)
    requires Covered(runs, F, n) && r < |runs| && x < |runs[r].sources|
    ensures 0 <= Position(runs, n, r, x) < n <= |F| && F[Position(runs, n, r, x)].sst.id == runs[r].sources[x]
    decreases r
  {
    hide FlushRows;
    if r > 0 {
      PositionReads(runs[1..], F, n - |runs[0].sources|, r - 1, x);
    }
  }

  lemma {:induction false} PositionsDiffer(runs: seq<SortedRun>, F: seq<Flush>, n: nat, r: nat, x: nat, q: nat, y: nat)
    requires Covered(runs, F, n) && r < |runs| && x < |runs[r].sources| && q < |runs| && y < |runs[q].sources|
    requires Position(runs, n, r, x) == Position(runs, n, q, y)
    ensures r == q && x == y
    decreases r
  {
    hide FlushRows;
    var m := n - |runs[0].sources|;
    if r > 0 {
      PositionReads(runs[1..], F, m, r - 1, x);
    }
    if q > 0 {
      PositionReads(runs[1..], F, m, q - 1, y);
    }
    if r > 0 && q > 0 {
      PositionsDiffer(runs[1..], F, m, r - 1, x, q - 1, y);
    }
  }

  lemma CoveredOnce(runs: seq<SortedRun>, F: seq<Flush>, n: nat)
    requires Covered(runs, F, n) && UniqueIds(F)
    ensures EachSourceOnce(runs)
  {
    hide Covered, Position;
    forall r, x, q, y | 0 <= r < |runs| && 0 <= x < |runs[r].sources| && 0 <= q < |runs| && 0 <= y < |runs[q].sources|
      && runs[r].sources[x] == runs[q].sources[y] ensures r == q && x == y
    {
      PositionReads(runs, F, n, r, x);
      PositionReads(runs, F, n, q, y);
      assert F[Position(runs, n, r, x)].sst.id == F[Position(runs, n, q, y)].sst.id;
      PositionsDiffer(runs, F, n, r, x, q, y);
    }
  }

  /** For any two manifests of any run, the later one keeps the first `kept` L0 tables of the
      earlier one, in order, as the end of its own L0 list, and has the others in runs whose jobs
      read them and no longer in L0; a table in the earlier one's runs stays out of L0 and in the
      runs for good. No manifest lists a table twice. */
  lemma TablesAreKept(steps: seq<Step>, i: nat, j: nat) returns (kept: nat)
    requires i <= j < |Run(steps).log|
    ensures var a, b := Run(steps).log[i].core, Run(steps).log[j].core;
      && kept <= |a.l0|
      && (exists newer :: b.l0 == newer + a.l0[..kept])
      && (forall x :: kept <= x < |a.l0| ==> InRuns(a.l0[x].id, b.compacted) && a.l0[x].id !in Ids(b.l0))
      && (forall id :: InRuns(id, a.compacted) ==> InRuns(id, b.compacted) && id !in Ids(b.l0))
      && DistinctIds(b.l0) && EachSourceOnce(b.compacted)
  {
    hide EachSourceOnce, DistinctIds;
    hide Run, WriterOK, CompactorOK, FlushOK, WalsOK, Covered, EpochsRise;
    RunKeeps(steps);
    var s := Run(steps);
    var a, b, F := s.log[i].core, s.log[j].core, s.flushed;
    var ma, mb := s.marks[i], s.marks[j];
    MarksRiseAt(s.marks, i, j);
    UniquePrefix(F, AllFlushes(s));
    assert CoreOK(a, F, ma.compacted, ma.published) && CoreOK(b, F, mb.compacted, mb.published);
    kept := KeptTables(a.l0, b.l0, F, ma, mb);
    MatchesDistinct(b.l0, F, mb.compacted, mb.published);
    CoveredOnce(b.compacted, F, mb.compacted);
    forall id | Among(id, F, mb.compacted)
      ensures InRuns(id, b.compacted) && id !in Ids(b.l0)
    {
      CoveredSources(b.compacted, F, mb.compacted, id);
      var x :| 0 <= x < mb.compacted && F[x].sst.id == id;
      NotInL0(b.l0, F, mb.compacted, mb.published, x);
    }
    forall id | InRuns(id, a.compacted) ensures InRuns(id, b.compacted) && id !in Ids(b.l0) {
      CoveredSources(a.compacted, F, ma.compacted, id);
    }
  }

  lemma NotInL0(l0: seq<Sst>, F: seq<Flush>, lo: nat, hi: nat, x: nat)
    requires L0Matches(l0, F, lo, hi) && UniqueIds(F) && x < lo
    ensures F[x].sst.id !in Ids(l0)
  {
  }

  lemma KeptTables(a: seq<Sst>, b: seq<Sst>, F: seq<Flush>, ma: Mark, mb: Mark) returns (kept: nat)
    requires L0Matches(a, F, ma.compacted, ma.published) && L0Matches(b, F, mb.compacted, mb.published)
    requires ma.compacted <= mb.compacted && ma.published <= mb.published
    ensures kept <= |a| && exists newer :: b == newer + a[..kept]
    ensures forall x :: kept <= x < |a| ==> Among(a[x].id, F, mb.compacted)
  {
    if mb.compacted <= ma.published {
      kept := ma.published - mb.compacted;
      var n := mb.published - ma.published;
      assert b == b[..n] + b[n..];
      assert b[n..] == a[..kept];
      forall x | kept <= x < |a| ensures Among(a[x].id, F, mb.compacted) {
        assert F[ma.published - 1 - x].sst.id == a[x].id;
      }
    } else {
      kept := 0;
      assert b == b + a[..0];
      forall x | 0 <= x < |a| ensures Among(a[x].id, F, mb.compacted) {
        assert F[ma.published - 1 - x].sst.id == a[x].id;
      }
    }
  }

  /** Lookup through L0 and then the runs of any manifest ever written is newest-wins over the
      flushes it knows, and last-write-wins over the WALs up to its last compacted one, provided that
      the writes in these fit a table. */
  lemma ManifestLookup(steps: seq<Step>, i: nat, k: Key)
    requires i < |Run(steps).log|
    ensures var s := Run(steps);
      var core := s.log[i].core;
      && i < |s.marks| && s.marks[i].published <= |s.flushed| && core.lastCompactedWal <= |s.frozen|
      && (AllStorable(Flatten(s.frozen[..core.lastCompactedWal])) ==>
            && CoreRows(core) == FlushRows(s.flushed, 0, s.marks[i].published)
            && StandsFor(LastWrite(Flatten(s.frozen[..core.lastCompactedWal]), k), Lookup(CoreRows(core), k)))
  {
    hide Run, WriterOK, CompactorOK, FlushOK, Covered, EpochsRise, UniqueIds, WalsOK, AllStorable, Stands, StandsFor;
    RunKeeps(steps);
    var s := Run(steps);
    var core := s.log[i].core;
    assert CoreOK(core, s.flushed, s.marks[i].compacted, s.marks[i].published);
    FlushPrefix(s.flushed, AllFlushes(s), s.frozen, s.durable);
    CoreMeaning(core, s.flushed, s.frozen, s.durable, s.marks[i].compacted, s.marks[i].published);
    assert s.durable <= |s.frozen| by { StoreOK(s); }
    PrefixRows(s.frozen, core.lastCompactedWal);
    StandsPersisted(WalRows(s.frozen, 0, core.lastCompactedWal));
    if AllStorable(Flatten(s.frozen[..core.lastCompactedWal])) {
      FlattenStorable(s.frozen, core.lastCompactedWal, 0, core.lastCompactedWal);
      StandsLookup(Flatten(s.frozen[..core.lastCompactedWal]), CoreRows(core), k);
    }
  }

  // ---- WAL ids

  /** WAL ids are partitioned without gaps: those up to the last compacted id are in L0 or runs, then
      the immutable memtables take consecutive non-empty ranges, then the memtable, the popped WAL and
      the immutable WALs up to the next id less one. */
  lemma WalIdsPartitioned(steps: seq<Step>)
    requires Run(steps).writer.Some?
    ensures var s := Run(steps);
      var w := s.writer.value;
      var st := w.st;
      var merged := Merged(st, w.popped);
      && st.core.lastCompactedWal <= Top(st.immMems, st.core.lastCompactedWal) <= merged <= s.durable <= merged + 1
      && s.durable < st.core.nextWal == |s.frozen| + 1
      && (forall i :: 0 <= i < |st.immMems| ==> Lo(st.immMems, st.core.lastCompactedWal, i) < st.immMems[i].lastWal)
      && (w.popped.Some? ==> w.popped.value.id == merged + 1 == s.durable)
      && (forall i :: 0 <= i < |st.immWals| ==> st.immWals[i].id == st.core.nextWal - 1 - i)
  {
    hide Run, LogOK, CompactorOK, FlushOK, UniqueIds, CoreOK, Holding, HoldingPersisted;
    RunKeeps(steps);
    var w, st := Run(steps).writer.value, Run(steps).writer.value.st;
    var base, merged := st.core.lastCompactedWal, Merged(st, w.popped);
    ImmMeaning(st.immMems, base, Run(steps).frozen, merged);
    forall i | 0 <= i < |st.immMems| ensures Lo(st.immMems, base, i) < st.immMems[i].lastWal {
      assert ImmAt(st.immMems, base, Run(steps).frozen, merged, i);
    }
  }

  /** FreezeWAL leaves the WAL alone exactly when the client wrote nothing since the last freeze. */
  lemma FreezeSkipsOnlyEmpty(steps: seq<Step>)
    requires Run(steps).writer.Some?
    ensures Do(Run(steps), FreezeWal) == Run(steps) <==> Run(steps).tail == []
  {
    hide Run, LogOK, CompactorOK, FlushOK, UniqueIds, CoreOK, MemOK, WalsOK;
    RunKeeps(steps);
    var s := Run(steps);
    SizeZeroIffEmpty(s.writer.value.st.wal);
    assert s.writer.value.st.wal == Apply(s.tail);
    if s.tail != [] {
      assert s.tail[|s.tail| - 1].key in Apply(s.tail);
    } else {
      assert Apply([]) == map[];
    }
  }

  /** The last compacted WAL id never goes down along manifest ids. */
  lemma LastCompactedRises(steps: seq<Step>, i: nat, j: nat)
    requires i <= j < |Run(steps).log|
    ensures Run(steps).log[i].core.lastCompactedWal <= Run(steps).log[j].core.lastCompactedWal
  {
    hide Run, WriterOK, CompactorOK, FlushOK, Covered, EpochsRise, UniqueIds;
    RunKeeps(steps);
    var s := Run(steps);
    MarksRiseAt(s.marks, i, j);
    FlushPrefix(s.flushed, AllFlushes(s), s.frozen, s.durable);
    assert CoreOK(s.log[i].core, s.flushed, s.marks[i].compacted, s.marks[i].published);
    assert CoreOK(s.log[j].core, s.flushed, s.marks[j].compacted, s.marks[j].published);
    EndWalRises(s.flushed, s.frozen, s.durable, s.marks[i].published, s.marks[j].published);
  }

  lemma ZombieReplaced(s: Sys, z: Handle)
    requires Inv(s) && z in s.zombies
    ensures Replaced(z, s.log) && EpochsRise(s.log) && s.log != []
  {
    hide WriterOK, CompactorOK, FlushOK, UniqueIds, WalsOK;
    LogNonEmpty(s.log, s.marks, s.flushed);
  }

  lemma ReplacedSteps(s: Sys, z: Handle, core: Core)
    requires z in s.zombies && Replaced(z, s.log) && EpochsRise(s.log) && s.log != []
    ensures RefreshHandle(z, s.log) in Do(s, ZombieRefresh(z)).zombies
    ensures CheckEpoch(RefreshHandle(z, s.log)) == ErrFenced
    ensures Do(s, ZombiePublish(z, core)) == s
  {
    ReplacedCannotLand(z, s.log);
  }

  /** In every run a replaced process that refreshes sees the latest manifest and is fenced, and whatever it
      tries to publish changes nothing. */
  lemma ReplacedIsFenced(steps: seq<Step>, z: Handle, core: Core)
    requires z in Run(steps).zombies
    ensures var s := Run(steps);
      && s.log != [] && RefreshHandle(z, s.log) in Do(s, ZombieRefresh(z)).zombies
      && CheckEpoch(RefreshHandle(z, s.log)) == ErrFenced
      && Do(s, ZombiePublish(z, core)) == s
  {
    hide *;
    RunKeeps(steps);
    var s := Run(steps);
    ZombieReplaced(s, z);
    ReplacedSteps(s, z, core);
  }

  // ---- durability and recovery

  lemma StepKeepsDurable(s: Sys, step: Step)
    requires Inv(s)
    ensures s.durable <= |s.frozen| && Do(s, step).durable <= |Do(s, step).frozen|
    ensures s.frozen[..s.durable] <= Do(s, step).frozen[..Do(s, step).durable]
    ensures s.log <= Do(s, step).log
  {
    hide LogOK, WriterOK, CompactorOK, FlushOK, UniqueIds, Replaced, Inv;
    hide WithWalFrozen, WithPut, WithManifest, WithWriterState, WithFinished, Replay, IdsAbove, Schedule, Accepts,
         Replays,
         Finds, ScanOf, JobPanics, RunFinds;
    DoKeeps(s, step);
    assert WalsOK(s.wals, s.frozen, s.durable) && WalsOK(Do(s, step).wals, Do(s, step).frozen, Do(s, step).durable) by {
      StoreOK(s);
      StoreOK(Do(s, step));
    }
    if s.durable <= |Do(s, step).frozen| {
      assert s.durable <= Do(s, step).durable;
    }
  }

  lemma StoreOK(s: Sys)
    requires Inv(s)
    ensures WalsOK(s.wals, s.frozen, s.durable) && s.durable <= |s.frozen|
  {
  }

  /** Nothing in the object store is ever lost: along any run, crashes and replacements included,
      the durable writes only grow and the manifest log only grows. */
  lemma {:induction false} DurableForever(s: Sys, steps: seq<Step>)
    requires Inv(s)
    ensures var t := RunFrom(s, steps);
      && s.durable <= |s.frozen| && t.durable <= |t.frozen|
      && s.frozen[..s.durable] <= t.frozen[..t.durable]
      && DurableOps(s) <= DurableOps(t)
      && s.log <= t.log
  {
    hide Inv, Do;
    StoreOK(s);
    if steps != [] {
      var init := steps[..|steps| - 1];
      DurableForever(s, init);
      RunFromKeeps(s, init);
      StepKeepsDurable(RunFrom(s, init), steps[|steps| - 1]);
    }
    var t := RunFrom(s, steps);
    FlattenPrefix(s.frozen[..s.durable], t.frozen[..t.durable]);
  }
}
