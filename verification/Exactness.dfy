/** For which writes reads stay exact, whatever happens later: exactly those that fit a table and do not
    put an empty value, and all deletes. */
module Exactness {
  import opened Types
  import opened History
  import opened CoreState
  import opened Manifests
  import opened Scans
  import opened KVTables
  import opened WalLists
  import opened DbStates
  import opened CompactorStates
  import opened Protocol
  import opened Coverage
  import opened MemChain
  import opened Invariants
  import opened ManifestSteps
  import opened Safety
  import opened Views
  import opened Theorems
  import opened Reopening
  import opened Answers
  import opened WriterLoops
  import opened Progress

  // ---- no table ever yields a row that does not fit

  ghost predicate FlushesStorable(F: seq<Flush>) {
    forall i :: 0 <= i < |F| ==> StorableRows(F[i].sst.rows)
  }

  /** What replay yields: rows that fit, except that a key may be empty. */
  ghost predicate Replayable(m: Rows) {
    forall k :: k in m ==> |k| < TWO16 && (k != [] ==> Storable(RowEntry(k, m[k])))
  }

  ghost predicate TablesStorable(s: Sys) {
    && FlushesStorable(AllFlushes(s))
    && forall id :: id in s.wals && s.wals[id].Some? ==> Replayable(s.wals[id].value)
  }

  lemma {:induction false} ApplyReplayable(list: seq<RowEntry>)
    requires forall x :: x in list ==> |x.key| < TWO16 && (x.key != [] ==> Storable(x))
    ensures Replayable(Apply(list))
  {
    if list != [] {
      var n := |list| - 1;
      ApplyReplayable(list[..n]);
      assert list[n] in list;
      forall k | k in Apply(list) ensures |k| < TWO16 && (k != [] ==> Storable(RowEntry(k, Apply(list)[k]))) {
        if k == list[n].key { assert RowEntry(k, Apply(list)[k]) == list[n]; }
      }
    }
  }

  lemma ReplaysFit(rows: Rows)
    ensures Replayable(Replays(rows))
  {
    hide WrittenEntries, Scanned, Replayable, Apply, Storable;
    forall x | x in ScanOf(rows) ensures |x.key| < TWO16 && (x.key != [] ==> Storable(x)) {
      ScannedStorable(WrittenEntries(rows), x);
    }
    ApplyReplayable(ScanOf(rows));
  }

  lemma StepKeepsTables(s: Sys, step: Step)
    requires TablesStorable(s)
    ensures TablesStorable(Do(s, step))
  {
    hide StorableRows, WithManifest, WithWriterState, WithFinished, Replay, Schedule, Accepts, JobFor, JobPanics,
         RunFinds, InIdOrder, WithWalFrozen, Readable, IdsAbove, PersistRows, Replays, Finds, ScanOf, Replayable;
    var t := Do(s, step);
    if step.UploadWal? && s.writer.Some? && s.writer.value.st.immWals != [] {
      var imms := s.writer.value.st.immWals;
      ReplaysFit(imms[|imms| - 1].rows);
    }
    if step.FlushMem? && t != s && t.writer.Some? {
      var imms := s.writer.value.st.immMems;
      FoundFits(imms[|imms| - 1].rows, step.rows);
      assert AllFlushes(t) == AllFlushes(s) + [t.writer.value.pending[|t.writer.value.pending| - 1]];
    } else {
      assert AllFlushes(t) <= AllFlushes(s);
    }
  }

  lemma {:induction false} RunKeepsTables(steps: seq<Step>)
    ensures TablesStorable(Run(steps))
  {
    hide Do, TablesStorable;
    if steps == [] {
      StartStorable();
    } else {
      RunKeepsTables(steps[..|steps| - 1]);
      StepKeepsTables(Run(steps[..|steps| - 1]), steps[|steps| - 1]);
    }
  }

  lemma StartStorable()
    ensures TablesStorable(Start)
  {
  }

  lemma {:induction false} FlushRowsStorable(F: seq<Flush>, lo: nat, hi: nat)
    requires FlushesStorable(F) && lo <= hi <= |F|
    ensures StorableRows(FlushRows(F, lo, hi))
    decreases hi
  {
    hide Storable;
    if lo < hi {
      FlushRowsStorable(F, lo, hi - 1);
      StorableUnion(FlushRows(F, lo, hi - 1), F[hi - 1].sst.rows);
    }
  }

  lemma {:induction false} RunRowsStorable(runs: seq<SortedRun>, F: seq<Flush>, n: nat)
    requires Covered(runs, F, n)
    ensures StorableRows(RunRows(runs))
    decreases |runs|
  {
    hide StorableRows, PersistRows, AllPlain;
    if runs != [] {
      RunRowsStorable(runs[1..], F, n - |runs[0].sources|);
      StorableUnion(RunRows(runs[1..]), runs[0].rows);
    } else {
      NoRowsStorable();
    }
  }

  lemma NoRowsStorable()
    ensures StorableRows(map[])
  {
  }

  lemma CoreStorable(core: Core, F: seq<Flush>, c: nat, p: nat)
    requires CoreOK(core, F, c, p) && FlushesStorable(F)
    ensures StorableRows(CoreRows(core))
  {
    hide StorableRows, Covered, FlushesStorable;
    RunRowsStorable(core.compacted, F, c);
    L0RowsMatch(core.l0, F, c, p);
    FlushRowsStorable(F, c, p);
    StorableUnion(RunRows(core.compacted), L0Rows(core.l0));
  }

  /** What a lookup finds in L0 and the runs of the writer always fits a table. */
  lemma WriterCoreStorable(s: Sys)
    requires Inv(s) && TablesStorable(s) && s.writer.Some?
    ensures StorableRows(CoreRows(s.writer.value.st.core))
  {
    hide LogOK, CompactorOK, UniqueIds, WalsOK, Live, MemOK, CoreOK, FlushOK, StorableRows, CoreRows, WalOK;
    var w := s.writer.value;
    LiveInLog(w.handle, WriterEpoch, s.log);
    CoreStorable(w.st.core, AllFlushes(s), s.marks[w.handle.id - 1].compacted, |AllFlushes(s)|);
  }

  // ---- flushing everything

  /** After draining, the memtable ends with the newest WAL, or was frozen with it. */
  lemma {:induction false} DrainedEnds(st: State, limit: nat)
    requires st.immWals != []
    ensures var d, last := Drained(st, limit), st.immWals[0].id;
      && d.wal == st.wal
      && (d.memtable.lastWal == Some(last)
          || (d.memtable == Memtable(map[], None) && d.immMems != [] && d.immMems[0].lastWal == last))
    decreases |st.immWals|
  {
    hide RowsSize;
    if |st.immWals| > 1 {
      DrainedEnds(DrainOne(st, limit), limit);
    }
  }

  /** Nothing is left in memory. */
  ghost predicate InL0(s: Sys) {
    s.writer.Some? && var w := s.writer.value;
    && w.popped.None? && w.st.immWals == [] && w.st.immMems == []
    && w.st.memtable == Memtable(map[], None) && s.tail == []
    && w.st.core.lastCompactedWal == |s.frozen|
  }

  lemma FlushedRows(s: Sys)
    requires Inv(s) && InL0(s)
    ensures CommittedRows(s.writer.value.st) == UncommittedRows(s.writer.value.st) == CoreRows(s.writer.value.st.core)
    ensures AllStorable(AllOps(s)) ==> CoreRows(s.writer.value.st.core) == PersistRows(Apply(AllOps(s)))
  {
    hide LogOK, CompactorOK, UniqueIds, WalsOK, Live, MemOK, CoreOK, FlushOK, CoreRows, WalRows, Flatten, PersistRows,
         AllStorable;
    var w := s.writer.value;
    assert w.st.wal == map[];
    LiveInLog(w.handle, WriterEpoch, s.log);
    CoreMeaning(w.st.core, AllFlushes(s), s.frozen, s.durable, s.marks[w.handle.id - 1].compacted, |AllFlushes(s)|);
    PrefixRows(s.frozen, |s.frozen|);
    assert s.frozen[..|s.frozen|] == s.frozen;
    assert Flatten(s.frozen) + [] == Flatten(s.frozen);
    if AllStorable(AllOps(s)) {
      FlattenStorable(s.frozen, |s.frozen|, 0, |s.frozen|);
    }
  }

  /** The memtable is ready to be frozen, or was frozen after the last merge. */
  ghost predicate Ready(w: Writer) {
    && w.popped.None? && w.st.immWals == []
    && (w.st.memtable.lastWal.Some?
        || (&& w.st.memtable == Memtable(map[], None)
            && w.st.immMems != [] && w.st.immMems[0].lastWal + 1 == w.st.core.nextWal))
  }

  lemma FrozenEnds(s: Sys)
    requires Inv(s) && s.writer.Some? && Ready(s.writer.value)
    ensures var t := Do(s, FreezeMem);
      && t.writer.Some? && t.frozen == s.frozen && t.tail == s.tail && t.writer.value.st.wal == s.writer.value.st.wal
      && t.writer.value.popped.None? && t.writer.value.st.immWals == []
      && t.writer.value.st.memtable == Memtable(map[], None)
      && Top(t.writer.value.st.immMems, t.writer.value.st.core.lastCompactedWal) == |s.frozen|
  {
    hide LogOK, CompactorOK, FlushOK, UniqueIds, WalsOK, CoreOK, Live, Holding, ImmAt;
  }

  lemma FrozenWal(s: Sys)
    requires Inv(s) && s.writer.Some? && (s.tail != [] || s.writer.value.st.immWals != [])
    ensures var t := Do(s, FreezeWal);
      && t.writer.Some? && t.writer.value.popped == s.writer.value.popped && t.tail == [] && AllOps(t) == AllOps(s)
      && t.writer.value.st.immWals != [] && t.writer.value.st.immWals[0].id + 1 == t.writer.value.st.core.nextWal
      && (forall i, j :: 0 <= i < j < |t.writer.value.st.immWals| ==>
            t.writer.value.st.immWals[i].id != t.writer.value.st.immWals[j].id)
  {
    hide LogOK, CompactorOK, FlushOK, UniqueIds, WalsOK, CoreOK, Live, MemOK, AllOps;
    FreezeKeepsOps(s, s.writer.value);
    FreezeEmpties(s, s.writer.value);
    SizeZeroIffEmpty(s.writer.value.st.wal);
  }

  lemma {:induction false} ApplyKeys(ops: seq<RowEntry>, k: Key)
    requires k in Apply(ops)
    ensures exists e :: e in ops && e.key == k
  {
    if ops[|ops| - 1].key != k {
      ApplyKeys(ops[..|ops| - 1], k);
    }
  }

  /** No immutable WAL has a row for the empty key. */
  lemma WalsAreClean(s: Sys)
    requires Inv(s) && s.writer.Some? && forall e :: e in AllOps(s) ==> e.key != []
    ensures forall i :: 0 <= i < |s.writer.value.st.immWals| ==> [] !in s.writer.value.st.immWals[i].rows
  {
    hide LogOK, CompactorOK, FlushOK, UniqueIds, WalsOK, CoreOK, MemOK, Live, Apply, Flatten;
    var st := s.writer.value.st;
    forall i | 0 <= i < |st.immWals| ensures [] !in st.immWals[i].rows {
      var n := st.core.nextWal - 2 - i;
      if [] in Apply(s.frozen[n]) {
        ApplyKeys(s.frozen[n], []);
        var e :| e in s.frozen[n] && e.key == [];
        FlattenMember(s.frozen, n, e);
        assert false;
      }
    }
  }

  lemma {:induction false} DrainedClean(st: State, limit: nat)
    requires forall i :: 0 <= i < |st.immWals| ==> [] !in st.immWals[i].rows
    ensures Clean(Drained(st, limit)) <==> Clean(st)
    decreases |st.immWals|
  {
    hide RowsSize, Clean;
    if st.immWals != [] {
      var d := DrainOne(st, limit);
      DrainOneClean(st, limit);
      DrainedClean(d, limit);
    }
  }

  lemma DrainOneClean(st: State, limit: nat)
    requires st.immWals != [] && [] !in st.immWals[|st.immWals| - 1].rows
    ensures Clean(DrainOne(st, limit)) <==> Clean(st)
  {
    hide RowsSize;
    var w := st.immWals[|st.immWals| - 1];
    var merged := WithWalMerged(WithWalPopped(st), w);
    assert Clean(merged) <==> Clean(st);
    CleanFrozen(merged, w.id);
  }

  /** From any reachable state with an unmerged WAL and none in hand: flushing everything puts every
      write into L0, if and only if no memtable has a row for the empty key; otherwise the process
      panics. Once everything is in L0, both kinds of read see only rows that fit a table, and if all
      writes do, they see exactly the last writes, empty values turned into tombstones. */
  lemma FlushEverything(steps: seq<Step>, limit: nat) returns (more: seq<Step>)
    requires Run(steps).writer.Some? && Run(steps).writer.value.popped.None?
    requires Run(steps).tail != [] || Run(steps).writer.value.st.immWals != []
    ensures forall i :: 0 <= i < |more| ==> !more[i].Put?
    ensures var s, t := Run(steps), RunFrom(Run(steps), more);
      if Clean(s.writer.value.st) then
        && InL0(t) && AllOps(t) == AllOps(s)
        && CommittedRows(t.writer.value.st) == UncommittedRows(t.writer.value.st)
        && StorableRows(UncommittedRows(t.writer.value.st))
        && (AllStorable(AllOps(s)) ==> UncommittedRows(t.writer.value.st) == PersistRows(Apply(AllOps(s))))
      else t.writer.None?
  {
    hide Inv, Do, AllOps, Top, CommittedRows, UncommittedRows, PersistRows, Apply;
    hide TablesOK, StorableRows, AllStorable, TablesStorable, CoreRows, Clean, CleanImms;
    RunKeeps(steps);
    var s := Run(steps);
    var s2, start := DrainedState(steps, limit);
    FrozenEnds(s2);
    RunOne(s2, FreezeMem);
    var s3 := Do(s2, FreezeMem);
    DoKeeps(s2, FreezeMem);
    RunAppend(s, start, [FreezeMem]);
    FrozenClean(s2);
    var rows := SomeTables(s3.writer.value.st.immMems);
    StoreOK(s3);
    var flush := FlushAll(s3, rows);
    RunAppend(s, start + [FreezeMem], flush);
    more := start + [FreezeMem] + flush;
    if Clean(s.writer.value.st) {
      RunFromKeeps(s3, flush);
      var t := RunFrom(s3, flush);
      SameOps(t, s2);
      FlushedRows(t);
      RunOn(steps, more);
      RunKeepsTables(steps + more);
      WriterCoreStorable(t);
    }
  }

  lemma FrozenClean(s: Sys)
    requires s.writer.Some? && Ready(s.writer.value) && Do(s, FreezeMem).writer.Some?
    ensures CleanImms(Do(s, FreezeMem).writer.value.st.immMems) <==> Clean(s.writer.value.st)
  {
    var st := s.writer.value.st;
    if st.memtable.lastWal.Some? {
      CleanFrozen(st, st.memtable.lastWal.value);
    }
  }

  /** Freezing the WAL and draining all immutable WALs. */
  lemma DrainedState(steps: seq<Step>, limit: nat) returns (t: Sys, more: seq<Step>)
    requires Run(steps).writer.Some? && Run(steps).writer.value.popped.None?
    requires Run(steps).tail != [] || Run(steps).writer.value.st.immWals != []
    ensures t == RunFrom(Run(steps), more) && Inv(t) && t.tail == [] && AllOps(t) == AllOps(Run(steps))
    ensures t.writer.Some? && Ready(t.writer.value)
    ensures Clean(t.writer.value.st) <==> Clean(Run(steps).writer.value.st)
    ensures forall i :: 0 <= i < |more| ==> !more[i].Put?
  {
    hide Inv, Do, Drained, Uploaded, AllOps, ReadsOK, Clean;
    RunKeeps(steps);
    var s := Run(steps);
    FrozenWal(s);
    RunOne(s, FreezeWal);
    DoKeeps(s, FreezeWal);
    var s1 := Do(s, FreezeWal);
    forall e | e in AllOps(s1) ensures e.key != [] { OpsWerePut(steps, e); }
    WalsAreClean(s1);
    DrainedClean(s1.writer.value.st, limit);
    var held := SomeHeld(s1.writer.value.st.immWals);
    var drain := DrainIsARun(s1, limit, held);
    DrainedAll(s1.writer.value.st, limit);
    DrainedEnds(s1.writer.value.st, limit);
    t := RunFrom(s1, drain);
    RunFromKeeps(s1, drain);
    RunAppend(s, [FreezeWal], drain);
    more := [FreezeWal] + drain;
    SameOps(t, s1);
    FrozenKeepsMem(s);
  }

  lemma FrozenKeepsMem(s: Sys)
    requires s.writer.Some? && Do(s, FreezeWal).writer.Some?
    ensures Clean(Do(s, FreezeWal).writer.value.st) <==> Clean(s.writer.value.st)
  {
  }

  lemma SomeTables(imms: seq<ImmMem>) returns (rows: seq<Rows>)
    ensures TablesOK(rows, imms)
  {
    hide Finds;
    rows := seq(|imms|, i requires 0 <= i < |imms| => ShortRows(imms[i].rows));
    forall i | 0 <= i < |imms| ensures Finds(imms[i].rows, rows[i]) { ShortRowsFound(imms[i].rows); }
  }

  lemma RunOn(steps: seq<Step>, more: seq<Step>)
    ensures Run(steps + more) == RunFrom(Run(steps), more)
  {
    RunAppend(Start, steps, more);
  }

  // ---- every write in the history was put

  ghost predicate WasPut(e: RowEntry, steps: seq<Step>) {
    exists i :: 0 <= i < |steps| && steps[i] == Put(e)
  }

  lemma StepOps(s: Sys, step: Step, e: RowEntry)
    requires e in AllOps(Do(s, step))
    ensures e in AllOps(s) || (step == Put(e) && e.key != [])
  {
    hide WithManifest, WithWriterState, WithFinished, Replay, Schedule, Accepts, JobFor, JobPanics, RunFinds, InIdOrder,
         WithWalFrozen, Readable, IdsAbove, PersistRows, Replays, Finds, ScanOf;
    match step
    case FreezeWal => if s.writer.Some? { FreezeKeepsOps(s, s.writer.value); }
    case CrashWriter => DroppedOps(s, e);
    case OpenWriter(limit) => DroppedOps(s, e);
    case FlushMem(id, rows) => DroppedOps(s, e);
    case _ =>
  }

  lemma DroppedOps(s: Sys, e: RowEntry)
    ensures e in AllOps(DropWriter(s)) ==> e in AllOps(s)
  {
    if s.writer.Some? && s.durable <= |s.frozen| {
      FlattenPrefix(s.frozen[..s.durable], s.frozen);
      assert Flatten(s.frozen[..s.durable]) + [] == Flatten(s.frozen[..s.durable]);
    }
  }

  lemma {:induction false} OpsWerePut(steps: seq<Step>, e: RowEntry)
    requires e in AllOps(Run(steps))
    ensures WasPut(e, steps) && e.key != []
  {
    hide Do, AllOps;
    if steps == [] {
      NoOps(e);
    } else {
      var n := |steps| - 1;
      StepOps(Run(steps[..n]), steps[n], e);
      if e in AllOps(Run(steps[..n])) {
        OpsWerePut(steps[..n], e);
        var i :| 0 <= i < n && steps[..n][i] == Put(e);
        assert steps[i] == Put(e);
      }
    }
  }

  lemma NoOps(e: RowEntry)
    ensures e !in AllOps(Start)
  {
  }

  // ---- deletes of keys that do not fit

  /** If the table has a row for the key, it is a tombstone. */
  predicate Silent(m: Rows, k: Key) {
    k in m ==> m[k] == Tombstone
  }

  ghost predicate SilentState(st: State, k: Key) {
    && Silent(st.wal, k) && Silent(st.memtable.rows, k)
    && (forall i :: 0 <= i < |st.immWals| ==> Silent(st.immWals[i].rows, k))
    && (forall i :: 0 <= i < |st.immMems| ==> Silent(st.immMems[i].rows, k))
  }

  ghost predicate SilentWriter(s: Sys, k: Key) {
    s.writer.Some? ==>
      && SilentState(s.writer.value.st, k)
      && (s.writer.value.popped.Some? ==> Silent(s.writer.value.popped.value.rows, k))
  }

  lemma {:induction false} ReplaySilent(st: State, wals: map<nat, Option<Rows>>, ids: seq<nat>, limit: nat, k: Key)
    requires SilentState(st, k) && |k| >= TWO16
    requires forall id :: id in wals && wals[id].Some? ==> Replayable(wals[id].value)
    ensures SilentState(Replay(st, wals, ids, limit), k)
  {
    hide SilentState, ReplayOne, Storable;
    if ids != [] {
      var n := |ids| - 1;
      ReplaySilent(st, wals, ids[..n], limit, k);
      var rows := if ids[n] in wals && wals[ids[n]].Some? then wals[ids[n]].value else map[];
      ReplayOneSilent(Replay(st, wals, ids[..n], limit), ids[n], rows, limit, k);
    }
  }

  lemma ReplayOneSilent(st: State, id: nat, rows: Rows, limit: nat, k: Key)
    requires SilentState(st, k) && k !in rows
    ensures SilentState(ReplayOne(st, id, rows, limit), k)
  {
    hide RowsSize;
  }

  lemma StepKeepsSilent(s: Sys, step: Step, k: Key)
    requires SilentWriter(s, k) && TablesStorable(s) && |k| >= TWO16
    requires step.Put? && step.entry.key == k ==> step.entry.value == Tombstone
    ensures SilentWriter(Do(s, step), k)
  {
    hide Replay, WithWriterState, WithFinished, Schedule, Accepts, JobFor, JobPanics, RunFinds, InIdOrder, Readable,
         IdsAbove, PersistRows, StorableRows, TakeUntil, RowsSize, Replays, Finds, ScanOf;
    match step
    case OpenWriter(limit) =>
      if s.log != [] {
        var core := s.log[|s.log| - 1].core;
        ReplaySilent(NewState(core), s.wals, IdsAbove(s.wals.Keys, core.lastCompactedWal), limit, k);
      }
    case _ =>
  }

  lemma {:induction false} RunKeepsSilent(steps: seq<Step>, k: Key)
    requires |k| >= TWO16
    requires forall i :: 0 <= i < |steps| && steps[i].Put? && steps[i].entry.key == k ==>
      steps[i].entry.value == Tombstone
    ensures SilentWriter(Run(steps), k)
  {
    hide Do, SilentState, TablesStorable;
    if steps != [] {
      var n := |steps| - 1;
      RunKeepsSilent(steps[..n], k);
      RunKeepsTables(steps[..n]);
      StepKeepsSilent(Run(steps[..n]), steps[n], k);
    }
  }

  lemma {:induction false} SilentImms(imms: seq<ImmMem>, k: Key)
    requires forall i :: 0 <= i < |imms| ==> Silent(imms[i].rows, k)
    ensures Silent(ImmRows(imms), k)
  {
    if imms != [] { SilentImms(imms[1..], k); }
  }

  lemma {:induction false} SilentWals(imms: seq<ImmWal>, k: Key)
    requires forall i :: 0 <= i < |imms| ==> Silent(imms[i].rows, k)
    ensures Silent(ImmWalRows(imms), k)
  {
    if imms != [] { SilentWals(imms[1..], k); }
  }

  lemma SilentAnswers(steps: seq<Step>, k: Key)
    requires |k| >= TWO16 && Run(steps).writer.Some?
    requires forall i :: 0 <= i < |steps| && steps[i].Put? && steps[i].entry.key == k ==>
      steps[i].entry.value == Tombstone
    ensures var st := Run(steps).writer.value.st;
      CheckValue(Lookup(UncommittedRows(st), k)) == CheckValue(Lookup(CommittedRows(st), k)) == NotFound
  {
    hide Run, Inv, TablesStorable, CoreRows, ImmRows, ImmWalRows;
    RunKeeps(steps);
    RunKeepsTables(steps);
    RunKeepsSilent(steps, k);
    WriterCoreStorable(Run(steps));
    var st := Run(steps).writer.value.st;
    SilentImms(st.immMems, k);
    SilentWals(st.immWals, k);
    assert k !in CoreRows(st.core);
  }

  // ---- the exact condition

  /** Every other write of the run fits a table. A put of the empty key is refused. */
  ghost predicate OthersFit(e: RowEntry, steps: seq<Step>) {
    forall i :: 0 <= i < |steps| && steps[i].Put? ==>
      steps[i].entry == e || steps[i].entry.key == [] || Storable(steps[i].entry)
  }

  /** If the write is the last one of its key, a Get answers with it. */
  ghost predicate ExactIn(e: RowEntry, s: Sys) {
    s.writer.Some? ==>
      var w := s.writer.value;
      && 0 <= Merged(w.st, w.popped) <= |s.frozen|
      && (LastWrite(CommittedOps(s), e.key) == Some(e.value) ==>
            Tells(Some(e.value), CheckValue(Lookup(CommittedRows(w.st), e.key))))
      && (w.popped.None? && LastWrite(AllOps(s), e.key) == Some(e.value) ==>
            Tells(Some(e.value), CheckValue(Lookup(UncommittedRows(w.st), e.key))))
  }

  /** It does so in every reachable state of every run whose other writes fit a table. */
  ghost predicate AlwaysExact(e: RowEntry) {
    forall steps :: OthersFit(e, steps) ==> ExactIn(e, Run(steps))
  }

  /** Reads are exact for a write, whatever happens later, if and only if it is a delete, or it fits a
      table and does not put an empty value. */
  lemma ExactIffStorable(e: RowEntry)
    requires e.key != []
    ensures AlwaysExact(e) <==> e.value.Tombstone? || (Storable(e) && e.value != KeyValue([]))
  {
    hide Run, ExactIn;
    if e.value.Tombstone? || (Storable(e) && e.value != KeyValue([])) {
      forall steps | OthersFit(e, steps) ensures ExactIn(e, Run(steps)) {
        if Storable(e) {
          StorableIsExact(e, steps);
        } else {
          DeleteIsExact(e, steps);
        }
      }
    } else {
      var steps := PutIsLost(e);
      assert OthersFit(e, steps) && !ExactIn(e, Run(steps));
    }
  }

  lemma StorableIsExact(e: RowEntry, steps: seq<Step>)
    requires e.key != [] && Storable(e) && e.value != KeyValue([]) && OthersFit(e, steps)
    ensures ExactIn(e, Run(steps))
  {
    hide Run, Storable, AllOps, UncommittedRows, CommittedRows, CommittedOps, DurableOps, Merged, Stands;
    var s := Run(steps);
    if s.writer.Some? {
      GetAnswers(steps, e.key);
      CommittedReads(steps);
      forall x | x in CommittedOps(s) ensures Storable(x) {
        assert x in AllOps(s);
        OpsWerePut(steps, x);
        var i :| 0 <= i < |steps| && steps[i] == Put(x);
        assert steps[i].entry == x;
      }
    }
  }

  lemma DeleteIsExact(e: RowEntry, steps: seq<Step>)
    requires e.key != [] && !Storable(e) && e.value.Tombstone? && OthersFit(e, steps)
    ensures ExactIn(e, Run(steps))
  {
    hide Run, AllOps, UncommittedRows, CommittedRows, CommittedOps, DurableOps, Merged, Stands, AllStorable;
    if Run(steps).writer.Some? {
      CommittedReads(steps);
      SilentAnswers(steps, e.key);
    }
  }

  lemma PutIsLost(e: RowEntry) returns (steps: seq<Step>)
    requires e.key != [] && e.value.KeyValue? && (!Storable(e) || e.value.bytes == [])
    ensures OthersFit(e, steps) && !ExactIn(e, Run(steps))
  {
    hide Do, Run, UncommittedRows, CommittedRows, AllOps, PersistRows, Apply, LastWrite, StorableRows, Merged,
         CommittedOps, Clean;
    var start := [OpenWriter(0), Put(e)];
    WindowIsReachable(0, e);
    OnlyOp(Run(start), e);
    OnlyWrite(e);
    NothingCommitted(start);
    var more := FlushEverything(start, 0);
    steps := start + more;
    RunOn(start, more);
    var rows := UncommittedRows(Run(steps).writer.value.st);
    StorableLookup(rows, e.key);
    if Storable(e) {
      assert rows == PersistRows(Apply([e])) by { OneStorable(e); }
    }
  }

  lemma NothingCommitted(steps: seq<Step>)
    requires Run(steps).writer.Some? && Run(steps).frozen == []
    ensures Clean(Run(steps).writer.value.st)
  {
    hide Run, Inv, Clean, Merged;
    RunKeeps(steps);
    FitIsClean(Run(steps));
    assert CommittedOps(Run(steps)) == [];
  }

  lemma StorableLookup(m: Rows, k: Key)
    requires StorableRows(m)
    ensures Lookup(m, k).Some? ==> Storable(RowEntry(k, Lookup(m, k).value))
  {
  }

  lemma OneStorable(e: RowEntry)
    requires Storable(e)
    ensures AllStorable([e])
  {
  }

  lemma OnlyOp(s: Sys, e: RowEntry)
    requires s.frozen == [] && s.tail == [e]
    ensures AllOps(s) == [e]
  {
  }

  lemma OnlyWrite(e: RowEntry)
    ensures LastWrite([e], e.key) == Some(e.value) && Lookup(PersistRows(Apply([e])), e.key) == Some(Persist(e.value))
  {
    ApplyIsLastWrite([e], e.key);
  }
}
