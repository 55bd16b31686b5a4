/** The loops that move WALs on (slatedb/flush.go, slatedb/db.go): draining the immutable WALs into the
    store and the memtable, and replaying the store's WALs at open. */
module WriterLoops {
  import opened Types
  import opened History
  import opened KVTables
  import opened DbStates
  import opened Protocol

  /** What the iterator over a WAL yields: its rows, one entry per key. */
  ghost predicate Listed(tables: map<nat, seq<RowEntry>>, imms: seq<ImmWal>) {
    forall i :: 0 <= i < |imms| ==> imms[i].id in tables && Apply(tables[imms[i].id]) == imms[i].rows
  }

  // ---- flushImmWALs

  /** One round: the oldest immutable WAL is popped and merged, and the memtable is frozen when large. */
  ghost function DrainOne(st: State, limit: nat): State
    requires st.immWals != []
  {
    var w := st.immWals[|st.immWals| - 1];
    var merged := WithWalMerged(WithWalPopped(st), w);
    if RowsSize(merged.memtable.rows) < limit then merged else WithMemtableFrozen(merged, w.id)
  }

  ghost function Drained(st: State, limit: nat): State
    decreases |st.immWals|
  {
    if st.immWals == [] then st else Drained(DrainOne(st, limit), limit)
  }

  /** Draining freezes exactly at the limit: every memtable it froze reached it, and the one that is left
      after a merge did not or has no row. Immutable memtables that were there before stay. */
  lemma {:induction false} DrainedSizes(st: State, limit: nat) returns (frozen: nat)
    ensures var d := Drained(st, limit);
      && frozen <= |d.immMems| && d.immMems[frozen..] == st.immMems
      && (forall i :: 0 <= i < frozen ==> RowsSize(d.immMems[i].rows) >= limit)
      && (st.immWals != [] ==> RowsSize(d.memtable.rows) < limit || d.memtable.rows == map[])
      && (st.immWals == [] ==> d == st)
    decreases |st.immWals|
  {
    hide RowsSize;
    if st.immWals == [] {
      frozen := 0;
    } else {
      var one := DrainOne(st, limit);
      var rest := DrainedSizes(one, limit);
      var now := |one.immMems| - |st.immMems|;
      frozen := rest + now;
      var d := Drained(st, limit);
      assert one.immMems[now..] == st.immMems;
      assert d.immMems[frozen..] == d.immMems[rest..][now..];
      forall i | rest <= i < frozen ensures RowsSize(d.immMems[i].rows) >= limit {
        assert d.immMems[i] == d.immMems[rest..][i - rest];
      }
    }
  }

  /** What each uploaded WAL replays as, by id, or None if it cannot be read. */
  ghost predicate ReadsOK(held: map<nat, Option<Rows>>, imms: seq<ImmWal>) {
    forall i :: 0 <= i < |imms| ==>
      imms[i].id in held && (held[imms[i].id].Some? ==> held[imms[i].id].value == Replays(imms[i].rows))
  }

  /** Some such map. */
  lemma {:induction false} SomeHeld(imms: seq<ImmWal>) returns (held: map<nat, Option<Rows>>)
    requires forall i, j :: 0 <= i < j < |imms| ==> imms[i].id != imms[j].id
    ensures ReadsOK(held, imms)
    ensures forall i :: 0 <= i < |imms| ==> held[imms[i].id] == Some(Replays(imms[i].rows))
  {
    hide Replays;
    if imms == [] {
      held := map[];
    } else {
      var rest := SomeHeld(imms[1..]);
      held := rest[imms[0].id := Some(Replays(imms[0].rows))];
      forall i | 0 < i < |imms| ensures imms[i].id in held && held[imms[i].id] == Some(Replays(imms[i].rows)) {
        assert imms[i] == imms[1..][i - 1];
      }
    }
  }

  function Uploaded(wals: map<nat, Option<Rows>>, held: map<nat, Option<Rows>>, imms: seq<ImmWal>): map<nat,
                    Option<Rows>>
    requires forall i :: 0 <= i < |imms| ==> imms[i].id in held
    decreases |imms|
  {
    if imms == [] then wals
    else Uploaded(wals[imms[|imms| - 1].id := held[imms[|imms| - 1].id]], held, imms[..|imms| - 1])
  }

  /** Uploads, pops and merges the immutable WALs, oldest first, until none is left. */
  method FlushImmWALs(db: DBState, wals: map<nat, Option<Rows>>, held: map<nat, Option<Rows>>,
                      tables: map<nat, seq<RowEntry>>, limit: nat)
    returns (wals': map<nat, Option<Rows>>)
    requires db.Valid() && Listed(tables, db.immWals) && ReadsOK(held, db.immWals)
    modifies db, db.memtable
    ensures db.Valid() && db.immWals == []
    ensures db.View() == Drained(old(db.View()), limit)
    ensures wals' == Uploaded(wals, held, old(db.immWals))
  {
    hide Replays;
    wals' := wals;
    while |db.immWals| > 0
      invariant db.Valid() && Listed(tables, db.immWals) && ReadsOK(held, db.immWals)
      invariant db.memtable == old(db.memtable) || fresh(db.memtable)
      invariant Drained(db.View(), limit) == Drained(old(db.View()), limit)
      invariant Uploaded(wals', held, db.immWals) == Uploaded(wals, held, old(db.immWals))
      decreases |db.immWals|
    {
      hide RowsSize, Apply;
      ghost var before := db.View();
      var w := db.immWals[|db.immWals| - 1];
      wals' := wals'[w.id := held[w.id]];
      db.PopImmWAL();
      db.FlushImmWALToMemtable(w, tables[w.id]);
      assert db.View() == WithWalMerged(WithWalPopped(before), w);
      if db.memtable.size >= limit {
        db.FreezeMemtable(w.id);
      }
      assert db.View() == DrainOne(before, limit);
    }
  }

  // ---- the loop as protocol steps

  lemma {:induction false} RunAppend(s: Sys, a: seq<Step>, b: seq<Step>)
    ensures RunFrom(s, a + b) == RunFrom(RunFrom(s, a), b)
  {
    hide Do;
    if b == [] {
      assert a + b == a;
    } else {
      RunAppend(s, a, b[..|b| - 1]);
      assert (a + b)[..|a + b| - 1] == a + b[..|b| - 1];
    }
  }

  lemma RunOne(s: Sys, step: Step)
    ensures RunFrom(s, [step]) == Do(s, step)
  {
    hide Do;
    assert [step][..0] == [];
    assert RunFrom(s, []) == s;
  }

  /** One round of the loop is an upload, a pop, a merge and possibly a freeze. */
  lemma DrainOneIsARun(s: Sys, limit: nat, held: Option<Rows>) returns (steps: seq<Step>)
    requires s.writer.Some? && s.writer.value.popped.None? && s.writer.value.st.immWals != []
    requires var imms := s.writer.value.st.immWals; held.Some? ==> held.value == Replays(imms[|imms| - 1].rows)
    ensures var w, t := s.writer.value, RunFrom(s, steps);
      var oldest := w.st.immWals[|w.st.immWals| - 1];
      && t.writer == Some(w.(st := DrainOne(w.st, limit)))
      && t.wals == s.wals[oldest.id := held]
      && t.frozen == s.frozen && t.tail == s.tail && t.log == s.log
    ensures forall i :: 0 <= i < |steps| ==> !steps[i].Put?
  {
    hide Replays;
    var w := s.writer.value;
    var oldest := w.st.immWals[|w.st.immWals| - 1];
    var upload := UploadWal(held.Some?);
    var s1 := Do(s, upload);
    var s2 := Do(s1, PopWal);
    var s3 := Do(s2, MergeWal);
    assert s3.writer.value.st == WithWalMerged(WithWalPopped(w.st), oldest);
    assert s3.writer.value.popped == None;
    var large := RowsSize(s3.writer.value.st.memtable.rows) >= limit;
    var s4 := if large then Do(s3, FreezeMem) else s3;
    assert s4.writer.value.st == DrainOne(w.st, limit);
    assert s4.writer == Some(w.(st := DrainOne(w.st, limit)));
    hide Do;
    RunOne(s, upload);
    RunAppend(s, [upload], [PopWal]);
    RunOne(s1, PopWal);
    RunAppend(s, [upload] + [PopWal], [MergeWal]);
    RunOne(s2, MergeWal);
    steps := [upload] + [PopWal] + [MergeWal];
    if large {
      RunAppend(s, steps, [FreezeMem]);
      RunOne(s3, FreezeMem);
      steps := steps + [FreezeMem];
    }
  }

  /** Draining all immutable WALs is a run of the protocol: whatever holds of every run holds of the
      state that flushImmWALs leaves. */
  lemma {:induction false} DrainIsARun(s: Sys, limit: nat, held: map<nat, Option<Rows>>) returns (steps: seq<Step>)
    requires s.writer.Some? && s.writer.value.popped.None? && ReadsOK(held, s.writer.value.st.immWals)
    ensures var w, t := s.writer.value, RunFrom(s, steps);
      && t.writer == Some(w.(st := Drained(w.st, limit)))
      && t.wals == Uploaded(s.wals, held, w.st.immWals)
      && t.frozen == s.frozen && t.tail == s.tail && t.log == s.log
    ensures forall i :: 0 <= i < |steps| ==> !steps[i].Put?
    decreases |s.writer.value.st.immWals|
  {
    hide Replays;
    var w := s.writer.value;
    if w.st.immWals == [] {
      steps := [];
    } else {
      var first := DrainOneIsARun(s, limit, held[w.st.immWals[|w.st.immWals| - 1].id]);
      var t := RunFrom(s, first);
      assert DrainOne(w.st, limit).immWals == w.st.immWals[..|w.st.immWals| - 1];
      hide DrainOne, Do;
      var rest := DrainIsARun(t, limit, held);
      RunAppend(s, first, rest);
      steps := first + rest;
    }
  }

  // ---- replayWAL

  /** What the iterator over each WAL in the store yields, or None if the WAL cannot be read. */
  type Tables = map<nat, Option<seq<RowEntry>>>

  function TableRows(tables: Tables): map<nat, Option<Rows>> {
    map id | id in tables :: if tables[id].Some? then Some(Apply(tables[id].value)) else None
  }

  datatype ReplayOutcome = Finished | Unreadable | Blocked | AssertionFails

  /** Replays the listed WALs in order. It stops at a WAL that cannot be read, blocks when a freeze
      finds the channel full, and otherwise reports whether the closing assertion holds. */
  method ReplayWAL(db: DBState, tables: Tables, ids: seq<nat>, limit: nat) returns (r: ReplayOutcome)
    requires db.Valid() && db.immMems == [] && forall i :: 0 <= i < |ids| ==> ids[i] in tables
    modifies db, db.memtable
    ensures db.Valid()
    ensures var st := Replay(old(db.View()), TableRows(tables), ids, limit);
      && (r == Finished <==>
            && Readable(TableRows(tables), ids) && |st.immMems| <= NOTIFY_CAPACITY
            && Replayed(old(db.core).lastCompactedWal, ids) + 1 == st.core.nextWal)
      && (r == Finished ==> db.View() == st)
      && (r == Unreadable ==> !Readable(TableRows(tables), ids))
      && (r == Blocked ==> |st.immMems| > 255)
  {
    hide Replay, ReplayOne, TableRows, Apply, RowsSize;
    ghost var wals, before := TableRows(tables), db.View();
    ReplayNothing(before, wals, limit);
    var last, sent := db.core.lastCompactedWal, 0;
    for i := 0 to |ids|
      invariant db.Valid() && (db.memtable == old(db.memtable) || fresh(db.memtable))
      invariant db.View() == Replay(before, wals, ids[..i], limit)
      invariant last == Replayed(old(db.core).lastCompactedWal, ids[..i])
      invariant Readable(wals, ids[..i]) && sent == |db.immMems| <= NOTIFY_CAPACITY
    {
      assert ids[..i + 1][..i] == ids[..i];
      ReplaySnoc(before, wals, ids[..i + 1], limit);
      TableRowsAt(tables, ids[i]);
      last := ids[i];
      if tables[ids[i]].None? {
        return Unreadable;
      }
      assert Readable(wals, ids[..i + 1]);
      var frozen := ReplayTable(db, ids[i], tables[ids[i]].value, limit);
      if frozen {
        if sent == NOTIFY_CAPACITY {
          ReplayKeepsFrozen(before, wals, ids, i + 1, limit);
          return Blocked;
        }
        sent := sent + 1;
      }
    }
    assert ids[..|ids|] == ids;
    r := if last + 1 == db.core.nextWal then Finished else AssertionFails;
  }

  /** One WAL of the replay; reports whether it froze the memtable. */
  method ReplayTable(db: DBState, id: nat, entries: seq<RowEntry>, limit: nat) returns (frozen: bool)
    requires db.Valid()
    modifies db, db.memtable
    ensures db.Valid() && (db.memtable == old(db.memtable) || fresh(db.memtable))
    ensures db.View() == ReplayOne(old(db.View()), id, Apply(entries), limit)
    ensures |db.immMems| == |old(db.immMems)| + if frozen then 1 else 0
  {
    hide Apply, RowsSize;
    db.memtable.PutAll(entries);
    frozen := db.memtable.size >= limit;
    if frozen {
      db.FreezeMemtable(id);
    }
    if db.core.nextWal == id {
      db.core := db.core.(nextWal := db.core.nextWal + 1);
    }
  }

  lemma {:induction false} ReplayKeepsFrozen(st: State, wals: map<nat, Option<Rows>>, ids: seq<nat>, n: nat, limit: nat)
    requires n <= |ids|
    ensures |Replay(st, wals, ids[..n], limit).immMems| <= |Replay(st, wals, ids, limit).immMems|
    decreases |ids|
  {
    hide RowsSize;
    if n < |ids| {
      var init := ids[..|ids| - 1];
      ReplayKeepsFrozen(st, wals, init, n, limit);
      assert init[..n] == ids[..n];
    } else {
      assert ids[..n] == ids;
    }
  }

  lemma TableRowsAt(tables: Tables, id: nat)
    requires id in tables
    ensures id in TableRows(tables)
    ensures TableRows(tables)[id] == if tables[id].Some? then Some(Apply(tables[id].value)) else None
  {
  }
}
