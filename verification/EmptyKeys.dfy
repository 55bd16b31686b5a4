/** A key whose length is a multiple of 65536 is stored with length 0. Replay may then put a row for the
    empty key into the memtable, and every flush of that memtable panics. */
module EmptyKeys {
  import opened Types
  import opened History
  import opened RowCodec
  import opened Scans
  import opened CoreState
  import opened Manifests
  import opened KVTables
  import opened WalLists
  import opened DbStates
  import opened CompactorStates
  import opened Protocol
  import opened Coverage
  import opened MemChain
  import opened Invariants
  import opened WriterSteps
  import opened ManifestSteps
  import opened Recovery
  import opened Safety
  import opened Theorems
  import opened Reopening
  import opened Answers
  import opened WriterLoops

  // ---- which writes replay as the empty key

  /** The stored row of this write reads back as a row for the empty key: its length is a multiple of
      65536, and the key's own bytes decode as the rest of a row. */
  predicate Poison(e: RowEntry) {
    var stored := RowEntry(e.key, Persist(e.value));
    e.key != [] && |e.key| % TWO16 == 0 && DecodeTail(0, [], AfterEmptyKey(stored)).Ok?
  }

  lemma {:induction false} ApplyHasKey(list: seq<RowEntry>, k: Key)
    ensures k in Apply(list) <==> exists e :: e in list && e.key == k
  {
    if list != [] {
      var n := |list| - 1;
      ApplyHasKey(list[..n], k);
      assert list == list[..n] + [list[n]];
    }
  }

  /** A WAL replays as a row for the empty key if and only if one of its rows is such a write. */
  lemma ReplaysEmptyKey(rows: Rows)
    requires [] !in rows
    ensures [] in Replays(rows) <==> exists k :: k in rows && Poison(RowEntry(k, rows[k]))
  {
    hide ReadRow, WrittenEntries, Apply, Persist, DecodeTail, AfterEmptyKey, Scanned;
    var s := WrittenEntries(rows);
    ApplyHasKey(ScanOf(rows), []);
    if [] in Replays(rows) {
      var x :| x in ScanOf(rows) && x.key == [];
      var i := ScannedFrom(s, x);
      ReadsEmptyKey(s[i]);
      WrittenIs(rows, i);
      assert s[i] == RowEntry(s[i].key, Persist(rows[s[i].key]));
      assert Poison(RowEntry(s[i].key, rows[s[i].key]));
    }
    if k :| k in rows && Poison(RowEntry(k, rows[k])) {
      WrittenAt(rows, k);
      var i :| 0 <= i < |s| && s[i] == RowEntry(k, Persist(rows[k]));
      ReadsEmptyKey(s[i]);
      var x :| x in ReadRow(s[i]) && x.key == [];
      ScannedHas(s, i, x);
    }
  }

  /** 65536 bytes of 1. */
  const LONG_KEY: Key := seq(TWO16, _ => 1)

  /** Such a key exists, whatever is put under it. */
  lemma LongKeyPoisons(v: Value)
    ensures Poison(RowEntry(LONG_KEY, v))
  {
    hide EncodeTail, Number;
    var data := AfterEmptyKey(RowEntry(LONG_KEY, Persist(v)));
    assert data[8] == 1;
  }

  // ---- without such a write, no memtable ever has the empty key

  ghost predicate Harmless(rows: Rows) {
    [] !in rows && forall k :: k in rows ==> !Poison(RowEntry(k, rows[k]))
  }

  ghost predicate NoPoison(s: Sys) {
    && (forall id :: id in s.wals && s.wals[id].Some? ==> [] !in s.wals[id].value)
    && (s.writer.Some? ==>
          var w := s.writer.value;
          && Clean(w.st) && Harmless(w.st.wal) && (w.popped.Some? ==> Harmless(w.popped.value.rows))
          && forall i :: 0 <= i < |w.st.immWals| ==> Harmless(w.st.immWals[i].rows))
  }

  lemma {:induction false} ReplayClean(st: State, wals: map<nat, Option<Rows>>, ids: seq<nat>, limit: nat)
    requires Clean(st) && forall id :: id in wals && wals[id].Some? ==> [] !in wals[id].value
    ensures Clean(Replay(st, wals, ids, limit))
    ensures Replay(st, wals, ids, limit).wal == st.wal && Replay(st, wals, ids, limit).immWals == st.immWals
  {
    hide Clean, ReplayOne;
    if ids != [] {
      var n := |ids| - 1;
      ReplayClean(st, wals, ids[..n], limit);
      var rows := if ids[n] in wals && wals[ids[n]].Some? then wals[ids[n]].value else map[];
      ReplayOneClean(Replay(st, wals, ids[..n], limit), ids[n], rows, limit);
    }
  }

  lemma ReplayOneClean(st: State, id: nat, rows: Rows, limit: nat)
    requires Clean(st) && [] !in rows
    ensures Clean(ReplayOne(st, id, rows, limit))
    ensures ReplayOne(st, id, rows, limit).wal == st.wal && ReplayOne(st, id, rows, limit).immWals == st.immWals
  {
    hide RowsSize;
  }

  lemma StepKeepsNoPoison(s: Sys, step: Step)
    requires NoPoison(s) && (step.Put? ==> !Poison(step.entry))
    ensures NoPoison(Do(s, step))
  {
    hide Poison, WithManifest, WithWriterState, WithFinished, Replay, Schedule, Accepts, JobFor, JobPanics, RunFinds,
         InIdOrder, Readable, IdsAbove, Replays, Finds, ScanOf, RowsSize;
    match step
    case UploadWal(readable) =>
      if s.writer.Some? && s.writer.value.st.immWals != [] {
        var imms := s.writer.value.st.immWals;
        ReplaysEmptyKey(imms[|imms| - 1].rows);
      }
    case OpenWriter(limit) =>
      if s.log != [] {
        var core := s.log[|s.log| - 1].core;
        ReplayClean(NewState(core), s.wals, IdsAbove(s.wals.Keys, core.lastCompactedWal), limit);
      }
    case LoadWriter => if s.writer.Some? && s.log != [] { LoadedMem(s.writer.value.st, s.log[|s.log| - 1].core); }
    case _ =>
  }

  lemma LoadedMem(st: State, core: Core)
    ensures WithManifest(st, core).memtable == st.memtable && WithManifest(st, core).immMems == st.immMems
    ensures WithManifest(st, core).wal == st.wal && WithManifest(st, core).immWals == st.immWals
  {
  }

  /** In every run without such a put, no memtable has a row for the empty key, so that flushes succeed. */
  lemma {:induction false} CleanRun(steps: seq<Step>)
    requires forall i :: 0 <= i < |steps| && steps[i].Put? ==> !Poison(steps[i].entry)
    ensures NoPoison(Run(steps))
  {
    hide Do, NoPoison, Poison;
    if steps == [] {
      StartClean();
    } else {
      var n := |steps| - 1;
      CleanRun(steps[..n]);
      StepKeepsNoPoison(Run(steps[..n]), steps[n]);
    }
  }

  lemma StartClean()
    ensures NoPoison(Start)
  {
  }

  // ---- with one, no process gets past its WAL

  /** The i-th immutable memtable from the newest, or the memtable, has a row for the empty key, and all
      older ones end before WAL n. */
  ghost predicate DirtyAt(st: State, n: nat, i: nat) {
    && i <= |st.immMems|
    && (forall j :: i <= j < |st.immMems| ==> st.immMems[j].lastWal < n)
    && [] in (if i == 0 then st.memtable.rows else st.immMems[i - 1].rows)
  }

  ghost predicate Dirty(st: State, n: nat) {
    exists i: nat :: DirtyAt(st, n, i)
  }

  /** WAL n replays as a row for the empty key, no table has its writes, and a process that runs has
      that row in memory. */
  ghost predicate Stuck(s: Sys, n: nat) {
    && Inv(s) && n in s.wals && s.wals[n].Some? && [] in s.wals[n].value
    && EndWal(AllFlushes(s), |AllFlushes(s)|) < n
    && (s.writer.Some? ==>
          n <= Merged(s.writer.value.st, s.writer.value.popped) && Dirty(s.writer.value.st, n))
  }

  lemma MergeKeepsDirty(st: State, n: nat, rows: Rows, last: Option<nat>)
    requires Dirty(st, n)
    ensures Dirty(st.(memtable := Memtable(st.memtable.rows + rows, last)), n)
  {
    var i: nat :| DirtyAt(st, n, i);
    assert DirtyAt(st.(memtable := Memtable(st.memtable.rows + rows, last)), n, i);
  }

  lemma FreezeKeepsDirty(st: State, n: nat, id: nat)
    requires Dirty(st, n)
    ensures Dirty(WithMemtableFrozen(st, id), n)
  {
    var i: nat :| DirtyAt(st, n, i);
    assert DirtyAt(WithMemtableFrozen(st, id), n, i + 1);
  }

  /** A flush takes an older memtable, or panics. */
  lemma FlushKeepsDirty(st: State, n: nat, sst: Sst)
    requires Dirty(st, n) && st.immMems != [] && [] !in st.immMems[|st.immMems| - 1].rows
    ensures Dirty(WithL0Table(st, sst), n) && st.immMems[|st.immMems| - 1].lastWal < n
  {
    var i: nat :| DirtyAt(st, n, i);
    assert DirtyAt(WithL0Table(st, sst), n, i);
  }

  lemma SameDirty(a: State, b: State, n: nat)
    requires Dirty(a, n) && b.memtable == a.memtable && b.immMems == a.immMems
    ensures Dirty(b, n)
  {
    var i: nat :| DirtyAt(a, n, i);
    assert DirtyAt(b, n, i);
  }

  /** Replay freezes memtables that end with a WAL replayed so far, and leaves WAL n's row in memory. */
  lemma {:induction false} ReplayDirty(core: Core, wals: map<nat, Option<Rows>>, n: nat, hi: nat, limit: nat)
    requires core.lastCompactedWal < n && core.lastCompactedWal <= hi
    requires n in wals && wals[n].Some? && [] in wals[n].value
    ensures var st := Replay(NewState(core), wals, IdRange(core.lastCompactedWal, hi), limit);
      if hi < n then forall j :: 0 <= j < |st.immMems| ==> st.immMems[j].lastWal < n else Dirty(st, n)
    decreases hi
  {
    hide Dirty, Replay, ReplayOne;
    if core.lastCompactedWal < hi {
      ReplayDirty(core, wals, n, hi - 1, limit);
      var before, rows := ReplayLast(core, wals, hi, limit);
      ReplayOneDirty(before, hi, rows, limit, n);
    } else {
      ReplayNone(core, wals, hi, limit);
    }
  }

  lemma ReplayNone(core: Core, wals: map<nat, Option<Rows>>, hi: nat, limit: nat)
    requires core.lastCompactedWal == hi
    ensures Replay(NewState(core), wals, IdRange(core.lastCompactedWal, hi), limit) == NewState(core)
  {
  }

  lemma ReplayLast(core: Core, wals: map<nat, Option<Rows>>, hi: nat, limit: nat) returns (before: State, rows: Rows)
    requires core.lastCompactedWal < hi
    ensures before == Replay(NewState(core), wals, IdRange(core.lastCompactedWal, hi - 1), limit)
    ensures Replay(NewState(core), wals, IdRange(core.lastCompactedWal, hi), limit)
         == ReplayOne(before, hi, rows, limit)
    ensures hi in wals && wals[hi].Some? ==> rows == wals[hi].value
  {
    hide ReplayOne;
    var ids := IdRange(core.lastCompactedWal, hi);
    assert ids[..|ids| - 1] == IdRange(core.lastCompactedWal, hi - 1) && ids[|ids| - 1] == hi;
    before := Replay(NewState(core), wals, IdRange(core.lastCompactedWal, hi - 1), limit);
    rows := if hi in wals && wals[hi].Some? then wals[hi].value else map[];
  }

  lemma ReplayOneDirty(st: State, id: nat, rows: Rows, limit: nat, n: nat)
    requires if id <= n then forall j :: 0 <= j < |st.immMems| ==> st.immMems[j].lastWal < n else Dirty(st, n)
    requires id == n ==> [] in rows
    ensures var t := ReplayOne(st, id, rows, limit);
      if id < n then forall j :: 0 <= j < |t.immMems| ==> t.immMems[j].lastWal < n else Dirty(t, n)
  {
    hide RowsSize, Dirty;
    if id >= n {
      var put := st.(memtable := Memtable(st.memtable.rows + rows, st.memtable.lastWal));
      assert Dirty(put, n) by {
        if id == n { DirtyNow(put, n); } else { MergeKeepsDirty(st, n, rows, st.memtable.lastWal); }
      }
      FreezeKeepsDirty(put, n, id);
      SameDirtyAll(n);
    }
  }

  lemma DirtyNow(st: State, n: nat)
    requires [] in st.memtable.rows && forall j :: 0 <= j < |st.immMems| ==> st.immMems[j].lastWal < n
    ensures Dirty(st, n)
  {
    assert DirtyAt(st, n, 0);
  }

  lemma SameDirtyAll(n: nat)
    ensures forall a: State, core: Core :: Dirty(a, n) ==> Dirty(a.(core := core), n)
  {
    hide Dirty;
    forall a: State, core: Core | Dirty(a, n) ensures Dirty(a.(core := core), n) {
      SameDirty(a, a.(core := core), n);
    }
  }

  lemma FlushedEnd(s: Sys)
    requires Inv(s)
    ensures s.flushed <= AllFlushes(s)
    ensures EndWal(s.flushed, |s.flushed|) <= EndWal(AllFlushes(s), |AllFlushes(s)|)
    ensures s.log != [] && s.log[|s.log| - 1].core.lastCompactedWal == EndWal(s.flushed, |s.flushed|)
  {
    hide WriterOK, CompactorOK, UniqueIds, WalsOK, Covered, EpochsRise, MarksRise, FlushOK;
    var n := |s.log| - 1;
    assert CoreOK(s.log[n].core, s.flushed, s.marks[n].compacted, s.marks[n].published);
    EndWalRises(AllFlushes(s), s.frozen, s.durable, |s.flushed|, |AllFlushes(s)|);
    assert EndWal(AllFlushes(s), |s.flushed|) == EndWal(s.flushed, |s.flushed|);
  }

  lemma DropKeepsStuck(s: Sys, n: nat)
    requires Stuck(s, n)
    ensures Stuck(DropWriter(s), n)
  {
    hide Inv, Dirty, Merged, EndWal;
    FlushedEnd(s);
    DropWriterKeeps(s);
    StoreOK(s);
    if s.writer.Some? {
      assert AllFlushes(DropWriter(s)) == s.flushed;
    }
  }

  lemma OpenKeepsStuck(s: Sys, n: nat, limit: nat)
    requires Stuck(s, n)
    ensures Stuck(Do(s, OpenWriter(limit)), n)
  {
    hide Inv, Dirty, Merged, EndWal, Replay, Opens, Freezes;
    DoKeeps(s, OpenWriter(limit));
    FlushedEnd(s);
    StoreOK(s);
    var t := Do(s, OpenWriter(limit));
    OpenOutcome(s, limit);
    OpenedParts(s, limit);
    var core := s.log[|s.log| - 1].core;
    assert n <= s.durable by { assert n in s.wals; }
    ReplayDirty(core, s.wals, n, s.durable, limit);
  }

  /** What a successful open starts with. */
  lemma OpenedParts(s: Sys, limit: nat)
    requires Inv(s) && s.log != [] && s.log[|s.log| - 1].core.lastCompactedWal <= s.durable
    ensures var t := Do(s, OpenWriter(limit));
      && t.wals == s.wals && AllFlushes(t) == s.flushed
      && (t.writer.Some? ==>
            var core := s.log[|s.log| - 1].core;
            && t.writer.value.popped.None?
            && t.writer.value.st == Replay(NewState(core), s.wals, IdRange(core.lastCompactedWal, s.durable), limit))
  {
    hide LogOK, CompactorOK, FlushOK, UniqueIds, WriterOK, Replay, IdsAbove, Readable, HoldingPersisted;
    StoreOK(s);
    LogNonEmpty(s.log, s.marks, s.flushed);
    IdsAboveGapless(s.wals.Keys, s.log[|s.log| - 1].core.lastCompactedWal, s.durable);
  }

  lemma FlushKeepsStuck(s: Sys, n: nat, id: nat, rows: Rows)
    requires Stuck(s, n) && s.writer.Some?
    ensures Stuck(Do(s, FlushMem(id, rows)), n)
  {
    hide Inv, Dirty, Finds, ScanOf, DropWriter;
    DoKeeps(s, FlushMem(id, rows));
    var w, t := s.writer.value, Do(s, FlushMem(id, rows));
    if w.st.immMems != [] && id !in s.usedIds {
      var oldest := w.st.immMems[|w.st.immMems| - 1];
      if [] in oldest.rows {
        DropKeepsStuck(s, n);
      } else if Finds(oldest.rows, rows) {
        var sst := Sst(id, rows, ScanOf(oldest.rows));
        FlushKeepsDirty(w.st, n, sst);
        assert AllFlushes(t) == AllFlushes(s) + [Flush(sst, oldest.lastWal)];
      }
    }
  }

  /** Steps that leave the memtables, the store and the flushes as they are. */
  lemma OtherStep(s: Sys, step: Step)
    requires Inv(s) && !step.UploadWal? && !step.MergeWal? && !step.FreezeMem? && !step.FlushMem? && !step.CrashWriter?
    requires !step.OpenWriter?
    ensures var t := Do(s, step);
      && t.wals == s.wals && AllFlushes(t) == AllFlushes(s) && (t.writer.Some? <==> s.writer.Some?)
      && (t.writer.Some? ==>
            && t.writer.value.st.memtable == s.writer.value.st.memtable
            && t.writer.value.st.immMems == s.writer.value.st.immMems
            && Merged(t.writer.value.st, t.writer.value.popped) == Merged(s.writer.value.st, s.writer.value.popped))
  {
    hide LogOK, WriterOK, CompactorOK, FlushOK, UniqueIds, WalsOK;
    hide WithWriterState, WithFinished, Schedule, Accepts, JobFor, JobPanics, RunFinds, InIdOrder, TakeUntil, RowsSize;
    if step.LoadWriter? && s.writer.Some? && s.log != [] {
      LoadedMem(s.writer.value.st, s.log[|s.log| - 1].core);
    }
  }

  lemma StepKeepsStuck(s: Sys, n: nat, step: Step)
    requires Stuck(s, n)
    ensures Stuck(Do(s, step), n)
  {
    hide Inv, Dirty, EndWal, Replays, DropWriter, DoOpenWriter, DoFlushMem;
    DoKeeps(s, step);
    match step
    case CrashWriter => DropKeepsStuck(s, n);
    case OpenWriter(limit) => OpenKeepsStuck(s, n, limit);
    case FlushMem(id, rows) => if s.writer.Some? { FlushKeepsStuck(s, n, id, rows); }
    case UploadWal(readable) => if s.writer.Some? && s.writer.value.popped.None? { OldestId(s); }
    case MergeWal =>
      if s.writer.Some? && s.writer.value.popped.Some? {
        var p := s.writer.value.popped.value;
        MergeKeepsDirty(s.writer.value.st, n, p.rows, Some(p.id));
      }
    case FreezeMem =>
      if s.writer.Some? && s.writer.value.st.memtable.lastWal.Some? {
        FreezeKeepsDirty(s.writer.value.st, n, s.writer.value.st.memtable.lastWal.value);
      }
    case _ =>
      OtherStep(s, step);
      hide Do;
      if s.writer.Some? { SameDirty(s.writer.value.st, Do(s, step).writer.value.st, n); }
  }

  lemma OldestId(s: Sys)
    requires Inv(s) && s.writer.Some? && s.writer.value.popped.None?
    ensures var imms := s.writer.value.st.immWals;
      imms != [] ==> imms[|imms| - 1].id == Merged(s.writer.value.st, None) + 1
  {
    hide LogOK, CompactorOK, FlushOK, UniqueIds, WalsOK, CoreOK, MemOK, Live, Apply;
  }

  /** Once such a WAL is all that is left of its writes, no process ever gets past it: whatever happens
      next, no manifest covers it, and every process that runs has a memtable that it cannot flush. */
  lemma {:induction false} StuckForever(s: Sys, n: nat, steps: seq<Step>)
    requires Stuck(s, n)
    ensures var t := RunFrom(s, steps);
      && Stuck(t, n)
      && t.log != [] && t.log[|t.log| - 1].core.lastCompactedWal < n
      && (t.writer.Some? ==> !Clean(t.writer.value.st))
  {
    hide Do;
    if steps != [] {
      StuckForever(s, n, steps[..|steps| - 1]);
      var before := RunFrom(s, steps[..|steps| - 1]);
      hide RunFrom, Stuck;
      StepKeepsStuck(before, n, steps[|steps| - 1]);
      StuckMeans(Do(before, steps[|steps| - 1]), n);
    } else {
      StuckMeans(s, n);
    }
  }

  lemma StuckMeans(s: Sys, n: nat)
    requires Stuck(s, n)
    ensures s.log != [] && s.log[|s.log| - 1].core.lastCompactedWal < n
    ensures s.writer.Some? ==> !Clean(s.writer.value.st)
  {
    hide Inv, EndWal, Merged;
    FlushedEnd(s);
  }

  /** Every flush has a WAL of its own. */
  lemma {:induction false} FlushCount(F: seq<Flush>, frozen: seq<seq<RowEntry>>, durable: nat, n: nat)
    requires FlushOK(F, frozen, durable) && n <= |F|
    ensures n <= EndWal(F, n) <= durable
    decreases n
  {
    if n > 0 {
      FlushCount(F, frozen, durable, n - 1);
      assert FlushAt(F, frozen, durable, n - 1);
    }
  }

  /** The first WAL of a database, flushed by a process that then stops. */
  lemma FirstWal(s: Sys, e: RowEntry)
    requires Inv(s) && s.writer.Some? && s.writer.value.popped.None? && s.frozen == [] && s.tail == [e]
    ensures var t := Do(Do(Do(s, FreezeWal), UploadWal(true)), CrashWriter);
      && t.writer.None? && t.wals == s.wals[1 := Some(Replays(map[e.key := e.value]))]
      && AllFlushes(t) == []
  {
    hide LogOK, CompactorOK, UniqueIds, CoreOK, MemOK, Live, Replays, Replaced;
    var st := s.writer.value.st;
    assert [e][..0] == [];
    assert Apply([]) == map[];
    assert Apply([e]) == map[e.key := e.value];
    assert st.wal == map[e.key := e.value];
    assert e.key in st.wal;
    SizeZeroIffEmpty(st.wal);
    assert st.immWals == [] && st.core.nextWal == 1 && s.durable == 0;
    FlushCount(AllFlushes(s), s.frozen, s.durable, |AllFlushes(s)|);
    var s1 := Do(s, FreezeWal);
    assert s1.writer.value.st.immWals == [ImmWal(1, st.wal)];
    var s2 := Do(s1, UploadWal(true));
    assert s2.durable == 1 == |s2.frozen|;
  }

  /** One such put, a WAL flush and a stop lead there. */
  lemma OnePutIsEnough(e: RowEntry, limit: nat)
    requires Poison(e)
    ensures Stuck(Run([OpenWriter(limit), Put(e)] + ([FreezeWal] + [UploadWal(true)] + [CrashWriter])), 1)
  {
    hide Do, Inv, Poison, Replays;
    assert e.key != [] by { PoisonKey(e); }
    var start, more := [OpenWriter(limit), Put(e)], [FreezeWal] + [UploadWal(true)] + [CrashWriter];
    WindowIsReachable(limit, e);
    var s := Run(start);
    RunKeeps(start);
    RunKeeps(start + more);
    FirstWal(s, e);
    RunOne(s, FreezeWal);
    RunAppend(s, [FreezeWal], [UploadWal(true)]);
    RunOne(Do(s, FreezeWal), UploadWal(true));
    RunAppend(s, [FreezeWal] + [UploadWal(true)], [CrashWriter]);
    RunOne(Do(Do(s, FreezeWal), UploadWal(true)), CrashWriter);
    RunAppend(Start, start, more);
    ReplaysEmptyKey(map[e.key := e.value]);
    assert Poison(RowEntry(e.key, map[e.key := e.value][e.key]));
  }

  lemma PoisonKey(e: RowEntry)
    requires Poison(e)
    ensures e.key != []
  {
  }
}
