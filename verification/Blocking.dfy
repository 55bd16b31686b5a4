/** An open that never returns: more WALs to replay than the notification channel takes freezes. */
module Blocking {
  import opened Types
  import opened History
  import opened Scans
  import opened CoreState
  import opened KVTables
  import opened DbStates
  import opened Protocol
  import opened Invariants
  import opened Coverage
  import opened Recovery
  import opened Safety
  import opened Reopening
  import opened WriterLoops
  import opened Progress

  /** n WALs are uploaded, all of them readable and none empty, and no manifest knows of any. */
  ghost predicate Uploads(s: Sys, n: nat) {
    && s.writer.Some? && s.writer.value.popped.None? && s.writer.value.st.immWals == [] && s.tail == []
    && |s.frozen| == s.durable == n
    && s.log != [] && LastNextWal(s) == 1 && s.log[|s.log| - 1].core.lastCompactedWal == 0
    && forall id :: id in s.wals ==> s.wals[id].Some? && s.wals[id].value != map[]
  }

  /** One more put, frozen, uploaded and merged. */
  lemma OneMoreWal(steps: seq<Step>, n: nat, e: RowEntry) returns (more: seq<Step>)
    requires Uploads(Run(steps), n) && Storable(e)
    ensures Uploads(Run(steps + more), n + 1)
  {
    hide Inv, Do, Drained, DoFreezeWal, Replays, PersistRows;
    RunKeeps(steps);
    var s := Run(steps);
    DoKeeps(s, Put(e));
    DoKeeps(Do(s, Put(e)), FreezeWal);
    PutFrozen(s, e);
    var s2 := Do(Do(s, Put(e)), FreezeWal);
    var imm := s2.writer.value.st.immWals[0];
    var held := map[imm.id := Some(Replays(imm.rows))];
    var drain := DrainIsARun(s2, 1, held);
    DrainedAll(s2.writer.value.st, 1);
    RunFromKeeps(s2, drain);
    var t := RunFrom(s2, drain);
    AllMerged(t);
    assert s2.writer.value.st.immWals[..0] == [];
    more := [Put(e)] + [FreezeWal] + drain;
    RunOne(s, Put(e));
    RunAppend(s, [Put(e)], [FreezeWal]);
    RunOne(Do(s, Put(e)), FreezeWal);
    RunAppend(s, [Put(e)] + [FreezeWal], drain);
    RunAppend(Start, steps, more);
    OneRow(e);
  }

  lemma OneRow(e: RowEntry)
    requires Storable(e)
    ensures Replays(Apply([e])) != map[]
  {
    hide ScanOf, WrittenEntries;
    ApplyOne(e);
    assert StorableRows(Apply([e]));
    ScanFits(Apply([e]));
    assert e.key in PersistRows(Apply([e]));
  }

  lemma ApplyOne(e: RowEntry)
    ensures Apply([e]) == map[e.key := e.value]
  {
    assert [e][..0] == [];
  }

  lemma PutFrozen(s: Sys, e: RowEntry)
    requires Inv(s) && s.writer.Some? && s.tail == [] && s.writer.value.st.immWals == [] && e.key != []
    ensures var t := Do(Do(s, Put(e)), FreezeWal);
      && t.writer.Some? && t.writer.value.popped == s.writer.value.popped
      && |t.writer.value.st.immWals| == 1 && t.writer.value.st.immWals[0].rows == Apply([e])
      && t.frozen == s.frozen + [[e]] && t.tail == [] && t.log == s.log && t.wals == s.wals
  {
    WalIsTail(s);
    hide Inv;
    ApplyOne(e);
    assert Apply([]) == map[];
    assert e.key in Apply([e]);
    SizeZeroIffEmpty(Apply([e]));
    assert Do(s, Put(e)).writer.value.st.wal == s.writer.value.st.wal[e.key := e.value] == Apply([e]);
    assert s.tail + [e] == [e];
  }

  lemma {:induction false} ManyWals(n: nat, e: RowEntry) returns (steps: seq<Step>)
    requires Storable(e)
    ensures Uploads(Run(steps), n)
  {
    hide Uploads, Run;
    if n == 0 {
      steps := [OpenWriter(1)];
      NewDatabase();
    } else {
      var init := ManyWals(n - 1, e);
      var more := OneMoreWal(init, n - 1, e);
      steps := init + more;
    }
  }

  lemma NewDatabase()
    ensures Uploads(Run([OpenWriter(1)]), 0)
  {
    hide Inv;
    StartOK();
    OpenOutcome(Start, 1);
    RunOne(Start, OpenWriter(1));
    assert IdRange(0, 0) == [];
  }

  /** With a limit that every WAL reaches, replay freezes once per WAL. */
  lemma {:induction false} FreezeEach(core: Core, wals: map<nat, Option<Rows>>, ids: seq<nat>)
    requires Readable(wals, ids) && forall id :: id in wals && wals[id].Some? ==> wals[id].value != map[]
    ensures |Replay(NewState(core), wals, ids, 1).immMems| == |ids|
  {
    if ids != [] {
      var n := |ids| - 1;
      ReadableInit(wals, ids);
      FreezeEach(core, wals, ids[..n]);
      var before := Replay(NewState(core), wals, ids[..n], 1);
      var k :| k in wals[ids[n]].value;
      assert k in before.memtable.rows + wals[ids[n]].value;
      SizeZeroIffEmpty(before.memtable.rows + wals[ids[n]].value);
    }
  }

  /** A reachable state, for every write that fits a table, in which the latest manifest's next WAL id
      allows an open and all WALs can be read, and an open with a small enough size limit still does
      not succeed. */
  lemma OpenCanBlock(e: RowEntry) returns (steps: seq<Step>)
    requires Storable(e)
    ensures var s := Run(steps);
      && s.log != [] && s.log[|s.log| - 1].core.lastCompactedWal <= s.durable == 256
      && LastNextWal(s) <= s.durable + 1 && Readable(s.wals, ReplayedIds(s))
    ensures Run(steps + [OpenWriter(1)]).writer.None?
  {
    hide Inv, Do, Replay;
    steps := ManyWals(NOTIFY_CAPACITY + 1, e);
    var s, all := Run(steps), steps + [OpenWriter(1)];
    RunKeeps(steps);
    OpenOutcome(s, 1);
    assert all[..|all| - 1] == steps;
    AllReadable(s);
    FreezeEach(s.log[|s.log| - 1].core, s.wals, ReplayedIds(s));
  }

  lemma AllReadable(s: Sys)
    requires Inv(s) && Uploads(s, s.durable)
    ensures s.log[|s.log| - 1].core.lastCompactedWal <= s.durable && Readable(s.wals, ReplayedIds(s))
  {
    hide LogOK, CompactorOK, FlushOK, UniqueIds, WriterOK, HoldingPersisted;
  }
}
