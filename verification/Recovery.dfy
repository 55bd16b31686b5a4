/** Crashes and reopening: the replay of the WALs above the last compacted one. */
module Recovery {
  import opened Types
  import opened History
  import opened CoreState
  import opened Manifests
  import opened KVTables
  import opened WalLists
  import opened DbStates
  import opened Protocol
  import opened Coverage
  import opened MemChain
  import opened Invariants
  import opened WriterSteps
  import opened ManifestSteps

  // ---- replay

  function IdRange(lo: nat, hi: nat): seq<nat>
    requires lo <= hi
  {
    seq(hi - lo, i requires 0 <= i < hi - lo => lo + 1 + i)
  }

  function Max(a: nat, b: nat): nat {
    if a < b then b else a
  }

  /** The state after replaying the WALs up to `hi` from the given core. */
  ghost predicate ReplayedTo(st: State, core: Core, frozen: seq<seq<RowEntry>>, hi: nat) {
    && st.wal == map[] && st.immWals == [] && st.memtable.lastWal.None?
    && st.core == core.(nextWal := Max(core.nextWal, hi + 1))
    && MemOK(st.memtable, st.immMems, core.lastCompactedWal, frozen, hi)
  }

  lemma ReplayNext(st: State, core: Core, rows: Rows, frozen: seq<seq<RowEntry>>, hi: nat, limit: nat)
    requires ReplayedTo(st, core, frozen, hi) && hi < |frozen| && Holding(frozen, hi, hi + 1, rows)
    ensures ReplayedTo(ReplayOne(st, hi + 1, rows, limit), core, frozen, hi + 1)
  {
    hide MemOK, Holding, RowsSize;
    var base := core.lastCompactedWal;
    MergeNext(st.memtable, st.immMems, base, frozen, hi, rows, None);
    var mem := Memtable(st.memtable.rows + rows, None);
    TopBelow(st.memtable, st.immMems, base, frozen, hi);
    FreezeNext(mem, st.immMems, base, frozen, hi + 1);
  }

  lemma StoredWal(wals: map<nat, Option<Rows>>, frozen: seq<seq<RowEntry>>, durable: nat, id: nat)
    requires WalsOK(wals, frozen, durable) && 1 <= id <= durable && wals[id].Some?
    ensures Holding(frozen, id - 1, id, wals[id].value)
  {
    PersistedStands(frozen, id - 1, id, wals[id].value);
  }

  /** Replay freezes at most one memtable per WAL. */
  lemma {:induction false} ReplayFreezes(st: State, wals: map<nat, Option<Rows>>, ids: seq<nat>, limit: nat)
    ensures |Replay(st, wals, ids, limit).immMems| <= |st.immMems| + |ids|
  {
    hide RowsSize;
    if ids != [] {
      ReplayFreezes(st, wals, ids[..|ids| - 1], limit);
    }
  }

  /** The sizes of the WALs, added up. */
  ghost function WalBytes(wals: map<nat, Option<Rows>>, ids: seq<nat>): nat {
    if ids == [] then 0 else
      var id := ids[|ids| - 1];
      WalBytes(wals, ids[..|ids| - 1]) + RowsSize(if id in wals && wals[id].Some? then wals[id].value else map[])
  }

  /** Replay freezes exactly at the limit: every frozen memtable reached it, the memtable that is left did
      not or has no row, and together they are not larger than the WALs. So replay freezes at most as
      many memtables as the limit goes into the size of the WALs, and none if they stay below it. */
  lemma {:induction false} ReplaySizes(core: Core, wals: map<nat, Option<Rows>>, ids: seq<nat>, limit: nat)
    ensures var st := Replay(NewState(core), wals, ids, limit);
      && (forall i :: 0 <= i < |st.immMems| ==> RowsSize(st.immMems[i].rows) >= limit)
      && (RowsSize(st.memtable.rows) < limit || st.memtable.rows == map[])
      && |st.immMems| * limit + RowsSize(st.memtable.rows) <= WalBytes(wals, ids)
      && (WalBytes(wals, ids) < limit ==> st.immMems == [])
  {
    hide RowsSize;
    SizeZeroIffEmpty(map[]);
    if ids != [] {
      var n := |ids| - 1;
      ReplaySizes(core, wals, ids[..n], limit);
      var before := Replay(NewState(core), wals, ids[..n], limit);
      var rows := if ids[n] in wals && wals[ids[n]].Some? then wals[ids[n]].value else map[];
      hide Replay, ReplayOne;
      assert Replay(NewState(core), wals, ids, limit) == ReplayOne(before, ids[n], rows, limit) by {
        ReplaySnoc(NewState(core), wals, ids, limit);
      }
      OneSize(before, ids[n], rows, limit);
      var st := ReplayOne(before, ids[n], rows, limit);
      if st.immMems != [] { AtLeastOne(|st.immMems|, limit); }
    }
  }

  /** One WAL of the replay. */
  lemma OneSize(st: State, id: nat, rows: Rows, limit: nat)
    requires forall i :: 0 <= i < |st.immMems| ==> RowsSize(st.immMems[i].rows) >= limit
    ensures var t := ReplayOne(st, id, rows, limit);
      && (forall i :: 0 <= i < |t.immMems| ==> RowsSize(t.immMems[i].rows) >= limit)
      && (RowsSize(t.memtable.rows) < limit || t.memtable.rows == map[])
      && |t.immMems| * limit + RowsSize(t.memtable.rows)
         <= |st.immMems| * limit + RowsSize(st.memtable.rows) + RowsSize(rows)
  {
    hide RowsSize;
    SizeOfUnion(st.memtable.rows, rows);
    SizeZeroIffEmpty(map[]);
    assert (|st.immMems| + 1) * limit == |st.immMems| * limit + limit;
  }

  lemma AtLeastOne(n: nat, limit: nat)
    requires n > 0
    ensures n * limit >= limit
  {
  }

  /** Replaying WALs lo + 1, ..., hi from a manifest whose next id is N > lo leaves the next id at
      max(N, hi + 1), and the memtables holding exactly those WALs. None of them is unreadable. */
  lemma {:induction false} ReplayRange(core: Core, wals: map<nat, Option<Rows>>, frozen: seq<seq<RowEntry>>,
                                       durable: nat, hi: nat, limit: nat)
    requires WalsOK(wals, frozen, durable)
    requires core.lastCompactedWal <= hi <= durable <= |frozen| && core.lastCompactedWal < core.nextWal
    requires Readable(wals, IdRange(core.lastCompactedWal, hi))
    ensures ReplayedTo(Replay(NewState(core), wals, IdRange(core.lastCompactedWal, hi), limit), core, frozen, hi)
    decreases hi
  {
    hide ReplayedTo, ReplayOne, Holding, HoldingPersisted, MemOK;
    var lo := core.lastCompactedWal;
    if lo == hi {
      assert IdRange(lo, hi) == [];
      ReplayedNone(core, frozen);
    } else {
      var ids := IdRange(lo, hi);
      assert ids[..|ids| - 1] == IdRange(lo, hi - 1) && ids[|ids| - 1] == hi;
      ReadableInit(wals, ids);
      ReplayRange(core, wals, frozen, durable, hi - 1, limit);
      StoredWal(wals, frozen, durable, hi);
      ReplayNext(Replay(NewState(core), wals, IdRange(lo, hi - 1), limit), core, wals[hi].value, frozen, hi - 1, limit);
    }
  }

  lemma ReadableInit(wals: map<nat, Option<Rows>>, ids: seq<nat>)
    requires Readable(wals, ids) && ids != []
    ensures Readable(wals, ids[..|ids| - 1]) && ids[|ids| - 1] in wals && wals[ids[|ids| - 1]].Some?
  {
  }

  lemma ReplayedNone(core: Core, frozen: seq<seq<RowEntry>>)
    requires core.lastCompactedWal <= |frozen| && core.lastCompactedWal < core.nextWal
    ensures ReplayedTo(NewState(core), core, frozen, core.lastCompactedWal)
  {
    HoldingNone(frozen, core.lastCompactedWal);
  }

  lemma TopBelow(mem: Memtable, imms: seq<ImmMem>, base: nat, frozen: seq<seq<RowEntry>>, merged: nat)
    requires MemOK(mem, imms, base, frozen, merged)
    ensures Top(imms, base) <= merged
  {
  }

  /** The closing assertion of replayWAL holds if and only if the manifest's next WAL id is at most
      one above the last WAL in the store. Replay freezes at most one memtable per WAL. */
  lemma ReplayAssertion(core: Core, wals: map<nat, Option<Rows>>, frozen: seq<seq<RowEntry>>, durable: nat, limit: nat)
    requires WalsOK(wals, frozen, durable)
    requires core.lastCompactedWal <= durable && core.lastCompactedWal < core.nextWal
    ensures var ids := IdsAbove(wals.Keys, core.lastCompactedWal);
      var st := Replay(NewState(core), wals, ids, limit);
      && ids == IdRange(core.lastCompactedWal, durable)
      && |st.immMems| <= durable - core.lastCompactedWal
      && st.core.nextWal == Max(core.nextWal, durable + 1)
      && (Replayed(core.lastCompactedWal, ids) + 1 == st.core.nextWal <==> core.nextWal <= durable + 1)
  {
    hide Replay, IdsAbove, HoldingPersisted;
    IdsAboveGapless(wals.Keys, core.lastCompactedWal, durable);
    ReplayFreezes(NewState(core), wals, IdRange(core.lastCompactedWal, durable), limit);
    ReplayIds(core, wals, durable, limit);
  }

  /** What replay does to the WAL ids, readable or not. */
  lemma {:induction false} ReplayIds(core: Core, wals: map<nat, Option<Rows>>, hi: nat, limit: nat)
    requires core.lastCompactedWal <= hi && core.lastCompactedWal < core.nextWal
    ensures Replay(NewState(core), wals, IdRange(core.lastCompactedWal, hi), limit).core
         == core.(nextWal := Max(core.nextWal, hi + 1))
    decreases hi
  {
    hide RowsSize;
    var ids := IdRange(core.lastCompactedWal, hi);
    if ids != [] {
      assert ids[..|ids| - 1] == IdRange(core.lastCompactedWal, hi - 1) && ids[|ids| - 1] == hi;
      ReplayIds(core, wals, hi - 1, limit);
    }
  }

  // ---- opening

  lemma OpenedWriterOK(log: seq<Manifest>, marks: seq<Mark>, F: seq<Flush>, wals: map<nat, Option<Rows>>,
                       frozen: seq<seq<RowEntry>>,
                       durable: nat, h: Handle, limit: nat)
    requires LogOK(log, marks, F) && Live(h, WriterEpoch, log) && h.id == |log|
    requires WalsOK(wals, frozen, durable) && |frozen| == durable && FlushOK(F, frozen, durable)
    requires h.manifest.core.nextWal <= durable + 1
    requires Readable(wals, IdsAbove(wals.Keys, h.manifest.core.lastCompactedWal))
    ensures var ids := IdsAbove(wals.Keys, h.manifest.core.lastCompactedWal);
      var st := Replay(NewState(h.manifest.core), wals, ids, limit);
      WriterOK(Writer(h, st, None, []), log, marks, F, frozen, [], durable)
  {
    hide Replay, MemOK, IdsAbove, EpochsRise, MarksRise, FlushOK, Covered, Readable, HoldingPersisted;
    var core, mark := h.manifest.core, marks[|marks| - 1];
    assert CoreOK(log[|log| - 1].core, F, mark.compacted, mark.published);
    EndWalRises(F, frozen, durable, 0, |F|);
    ReplayAssertion(core, wals, frozen, durable, limit);
    ReplayRange(core, wals, frozen, durable, durable, limit);
    CoreAnyNextWal(core, F, mark.compacted, mark.published, durable + 1);
  }

  lemma LastCore(log: seq<Manifest>, marks: seq<Mark>, F: seq<Flush>, frozen: seq<seq<RowEntry>>, durable: nat)
    requires LogOK(log, marks, F) && FlushOK(F, frozen, durable)
    ensures log[|log| - 1].core.lastCompactedWal <= durable
    ensures log[|log| - 1].core.lastCompactedWal < log[|log| - 1].core.nextWal
  {
    hide EpochsRise, MarksRise, FlushOK, Covered;
    var mark := marks[|marks| - 1];
    assert CoreOK(log[|log| - 1].core, F, mark.compacted, mark.published);
    EndWalRises(F, frozen, durable, 0, |F|);
  }

  lemma OpenWriterKeeps(s: Sys, limit: nat)
    requires Inv(s)
    ensures Inv(DoOpenWriter(s, limit))
  {
    hide LogOK, CompactorOK, FlushOK, UniqueIds, WriterOK, WalsOK, Live, Replaced, Replay, IdsAbove, CoreRows, Readable;
    var d, s' := DropWriter(s), DoOpenWriter(s, limit);
    DropWriterKeeps(s);
    LogNonEmpty(s.log, s.marks, s.flushed);
    assert d.writer.None? by { DroppedWriter(s); }
    assert AllFlushes(d) == d.flushed;
    var m, mark := Bump(WriterEpoch, s.log[|s.log| - 1]), s.marks[|s.marks| - 1];
    LogBump(d.log, d.marks, d.flushed, WriterEpoch);
    LiveOpened(WriterEpoch, s.log);
    LastCore(d.log, d.marks, d.flushed, d.frozen, d.durable);
    ReplayAssertion(m.core, d.wals, d.frozen, d.durable, limit);
    ReplacedAppend(s.zombies, s.log, m);
    if s.writer.Some? {
      assert Live(s.writer.value.handle, WriterEpoch, s.log) by { WriterLive(s); }
      LiveIsReplaced(s.writer.value.handle, WriterEpoch, s.log);
    }
    if s.compactor.Some? {
      CompactorFrame(s.compactor.value, s.log, s.marks, s.flushed, m, mark, s.flushed);
    }
    if s'.writer.Some? {
      var h := Handle(WriterEpoch, m.writerEpoch, |s.log| + 1, m);
      OpenedWriterOK(s'.log, s'.marks, d.flushed, d.wals, d.frozen, d.durable, h, limit);
    }
    assert AllFlushes(s') == d.flushed;
  }

  lemma DroppedWriter(s: Sys)
    requires WalsOK(s.wals, s.frozen, s.durable)
    ensures DropWriter(s).writer.None?
  {
  }

  lemma WriterLive(s: Sys)
    requires Inv(s) && s.writer.Some?
    ensures Live(s.writer.value.handle, WriterEpoch, s.log)
  {
    hide LogOK, CoreOK, CompactorOK, FlushOK, UniqueIds, WalsOK, MemOK, WalOK;
  }
}
