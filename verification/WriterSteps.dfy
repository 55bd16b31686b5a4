/** Each step of the writer keeps the invariant. */
module WriterSteps {
  import opened Types
  import opened History
  import opened CoreState
  import opened Scans
  import opened KVTables
  import opened DbStates
  import opened Protocol
  import opened Coverage
  import opened MemChain
  import opened Invariants

  lemma PutKeeps(s: Sys, entry: RowEntry)
    requires Inv(s)
    ensures Inv(Do(s, Put(entry)))
  {
    hide LogOK, CoreOK, MemOK, FlushOK, CompactorOK, Live, UniqueIds, WalsOK;
    if s.writer.Some? && entry.key != [] {
      assert (s.tail + [entry])[..|s.tail|] == s.tail;
      assert AllFlushes(Do(s, Put(entry))) == AllFlushes(s);
    }
  }

  lemma FreezeWalKeeps(s: Sys, w: Writer)
    requires Inv(s) && s.writer == Some(w)
    ensures Inv(DoFreezeWal(s, w))
  {
    hide LogOK, CoreOK, CompactorOK, UniqueIds, MemOK, FlushOK, RowsSize, HoldingPersisted, Replaced;
    if RowsSize(w.st.wal) != 0 {
      var s' := DoFreezeWal(s, w);
      var st' := WithWalFrozen(w.st);
      assert s'.frozen[..s.durable] == s.frozen[..s.durable];
      FlushFrame(AllFlushes(s), s.frozen, s'.frozen, s.durable, s.durable);
      var m := Merged(w.st, w.popped);
      assert s'.frozen[..m] == s.frozen[..m];
      MemFrame(w.st.memtable, w.st.immMems, w.st.core.lastCompactedWal, s.frozen, s'.frozen, m);
      LastWalIsEnd(w.st.core, AllFlushes(s), s.marks[w.handle.id - 1].compacted);
      CoreAnyNextWal(w.st.core, AllFlushes(s), s.marks[w.handle.id - 1].compacted, |AllFlushes(s)|, st'.core.nextWal);
      FrozenWalOK(w.st, w.popped, s.frozen, s.tail, s.durable);
      WalsExtend(s.wals, s.frozen, s'.frozen, s.durable);
    }
  }

  lemma WalsExtend(wals: map<nat, Option<Rows>>, frozen: seq<seq<RowEntry>>, frozen': seq<seq<RowEntry>>, durable: nat)
    requires WalsOK(wals, frozen, durable) && durable <= |frozen'| && frozen[..durable] == frozen'[..durable]
    ensures WalsOK(wals, frozen', durable)
  {
    hide HoldingPersisted;
    forall i | 1 <= i <= durable && wals[i].Some? ensures HoldingPersisted(frozen', i - 1, i, wals[i].value) {
      HoldingFrame(frozen, frozen', i - 1, i, durable, wals[i].value);
    }
  }

  lemma FrozenWalOK(st: State, popped: Option<ImmWal>, frozen: seq<seq<RowEntry>>, tail: seq<RowEntry>, durable: nat)
    requires WalOK(st, popped, frozen, tail, durable) && RowsSize(st.wal) != 0
    ensures WalOK(WithWalFrozen(st), popped, frozen + [tail], [], durable)
  {
    var st', frozen' := WithWalFrozen(st), frozen + [tail];
    assert Apply([]) == map[];
    forall i | 0 <= i < |st'.immWals|
      ensures st'.immWals[i] == ImmWal(st'.core.nextWal - 1 - i, Apply(frozen'[st'.core.nextWal - 2 - i]))
    {
      if i > 0 {
        assert st'.immWals[i] == st.immWals[i - 1];
      }
    }
  }

  /** If every row fits, replay and lookups both give what was written. */
  lemma FitsReadsBack(rows: Rows)
    ensures ReadsBack(rows, Replays(rows))
    ensures StorableRows(rows) ==> forall id, found :: Finds(rows, found) ==> Plain(Sst(id, found, ScanOf(rows)))
  {
    hide Storable, ScanOf, Finds, Persist;
    if StorableRows(rows) {
      ScanFits(rows);
      forall id, found | Finds(rows, found) ensures Plain(Sst(id, found, ScanOf(rows))) {
        FoundExact(rows, found);
        assert [] !in rows by { NoEmptyKey(rows); }
      }
    }
  }

  lemma NoEmptyKey(rows: Rows)
    requires StorableRows(rows)
    ensures [] !in rows
  {
  }

  lemma UploadWalKeeps(s: Sys, w: Writer, readable: bool)
    requires Inv(s) && s.writer == Some(w)
    ensures Inv(DoUploadWal(s, w, readable))
  {
    hide LogOK, CoreOK, CompactorOK, Live, UniqueIds, MemOK, FlushOK, HoldingPersisted, ReadsBack, Replaced, Apply,
         Replays;
    var s' := DoUploadWal(s, w, readable);
    if s' != s {
      var oldest := w.st.immWals[|w.st.immWals| - 1];
      assert oldest == ImmWal(Merged(w.st, w.popped) + 1, Apply(s.frozen[Merged(w.st, w.popped)]));
      FlushFrame(AllFlushes(s), s.frozen, s'.frozen, s.durable, s'.durable);
      HoldingOne(s.frozen, oldest.id - 1);
      FitsReadsBack(oldest.rows);
      StoredHolding(s.frozen, oldest.id - 1, oldest.id, oldest.rows, Replays(oldest.rows));
      assert AllFlushes(s') == AllFlushes(s);
    }
  }

  lemma PopWalKeeps(s: Sys, w: Writer)
    requires Inv(s) && s.writer == Some(w)
    ensures Inv(DoPopWal(s, w))
  {
    hide LogOK, CoreOK, CompactorOK, Live, UniqueIds, MemOK, FlushOK;
    if w.st.immWals != [] && w.popped.None? && w.st.immWals[|w.st.immWals| - 1].id in s.wals {
      var w' := DoPopWal(s, w).writer.value;
      assert w.st.immWals[|w.st.immWals| - 1].id == Merged(w.st, w.popped) + 1;
      assert Merged(w'.st, w'.popped) == Merged(w.st, w.popped);
    }
  }

  lemma MergeWalKeeps(s: Sys, w: Writer)
    requires Inv(s) && s.writer == Some(w)
    ensures Inv(DoMergeWal(s, w))
  {
    hide LogOK, CoreOK, CompactorOK, UniqueIds, MemOK, FlushOK, WalsOK;
    if w.popped.Some? {
      HoldingOne(s.frozen, Merged(w.st, w.popped));
      MergeNext(w.st.memtable, w.st.immMems, w.st.core.lastCompactedWal, s.frozen, Merged(w.st, w.popped),
                w.popped.value.rows, Some(w.popped.value.id));
    }
  }

  lemma FreezeMemKeeps(s: Sys, w: Writer)
    requires Inv(s) && s.writer == Some(w)
    ensures Inv(DoFreezeMem(s, w))
  {
    hide LogOK, CoreOK, CompactorOK, UniqueIds, MemOK, FlushOK, WalsOK;
    if w.st.memtable.lastWal.Some? {
      FreezeReady(w.st.memtable, w.st.immMems, w.st.core.lastCompactedWal, s.frozen, Merged(w.st, w.popped));
      FreezeNext(w.st.memtable, w.st.immMems, w.st.core.lastCompactedWal, s.frozen, Merged(w.st, w.popped));
    }
  }

  lemma FreezeReady(mem: Memtable, imms: seq<ImmMem>, base: nat, frozen: seq<seq<RowEntry>>, merged: nat)
    requires MemOK(mem, imms, base, frozen, merged) && mem.lastWal.Some?
    ensures mem.lastWal.value == merged && Top(imms, base) < merged
  {
  }

  // ---- crashes

  lemma WalsFrame(wals: map<nat, Option<Rows>>, frozen: seq<seq<RowEntry>>, durable: nat)
    requires WalsOK(wals, frozen, durable)
    ensures WalsOK(wals, frozen[..durable], durable)
  {
    WalsExtend(wals, frozen, frozen[..durable], durable);
  }

  lemma DropWriterKeeps(s: Sys)
    requires Inv(s)
    ensures Inv(DropWriter(s))
  {
    hide LogOK, CompactorOK, FlushOK, UniqueIds, MemOK, CoreOK, Live, Replaced;
    if s.writer.Some? {
      var s' := DropWriter(s);
      assert AllFlushes(s') == s.flushed <= AllFlushes(s);
      UniquePrefix(s.flushed, AllFlushes(s));
      FlushPrefix(s.flushed, AllFlushes(s), s.frozen, s.durable);
      FlushFrame(s.flushed, s.frozen, s'.frozen, s.durable, s.durable);
      WalsFrame(s.wals, s.frozen, s.durable);
      forall i | 0 <= i < |s.flushed| ensures s.flushed[i].sst.id in s.usedIds {
        assert AllFlushes(s)[i] == s.flushed[i];
      }
    }
  }

  // ---- flushing to L0

  /** A flush of the next WALs extends the flush history. */
  lemma FlushAppend(G: seq<Flush>, frozen: seq<seq<RowEntry>>, durable: nat, f: Flush)
    requires FlushOK(G, frozen, durable)
    requires EndWal(G, |G|) < f.lastWal <= durable
    requires durable <= |frozen| && HoldingPersisted(frozen, EndWal(G, |G|), f.lastWal, f.sst.rows)
    requires WalsStorable(frozen, EndWal(G, |G|), f.lastWal) ==> Plain(f.sst)
    ensures FlushOK(G + [f], frozen, durable)
  {
    var G' := G + [f];
    forall j | 0 <= j < |G'| ensures FlushAt(G', frozen, durable, j) {
      if j < |G| {
        assert FlushAt(G, frozen, durable, j);
      }
      assert EndWal(G', j) == EndWal(G, j);
    }
  }

  lemma CoreAppend(core: Core, G: seq<Flush>, c: nat, f: Flush)
    requires CoreOK(core, G, c, |G|) && f.lastWal < core.nextWal
    ensures CoreOK(core.(l0 := [f.sst] + core.l0, lastCompactedWal := f.lastWal), G + [f], c, |G| + 1)
  {
    CoreFrame(core, G, G + [f], c, |G|);
  }

  lemma FlushMemKeeps(s: Sys, w: Writer, id: nat, rows: Rows)
    requires Inv(s) && s.writer == Some(w)
    ensures Inv(DoFlushMem(s, w, id, rows))
  {
    hide LogOK, CoreOK, CompactorOK, MemOK, FlushOK, WalsOK, ReadsBack, HoldingPersisted, ScanOf, Finds, WalsStorable,
         StorableRows, Plain;
    var s' := DoFlushMem(s, w, id, rows);
    if w.st.immMems != [] && [] in w.st.immMems[|w.st.immMems| - 1].rows {
      DropWriterKeeps(s);
    } else if s' != s {
      var G, base := AllFlushes(s), w.st.core.lastCompactedWal;
      var oldest := w.st.immMems[|w.st.immMems| - 1];
      FitsReadsBack(oldest.rows);
      assert ReadsBack(oldest.rows, rows) by { FoundReadsBack(oldest.rows, rows); }
      var f := Flush(Sst(id, rows, ScanOf(oldest.rows)), oldest.lastWal);
      assert AllFlushes(s') == G + [f];
      assert base == EndWal(G, |G|) by { LastWalIsEnd(w.st.core, G, s.marks[w.handle.id - 1].compacted); }
      FlushNext(w.st.memtable, w.st.immMems, base, s.frozen, Merged(w.st, w.popped), rows);
      FlushAppend(G, s.frozen, s.durable, f);
      CoreAppend(w.st.core, G, s.marks[w.handle.id - 1].compacted, f);
      assert Merged(WithL0Table(w.st, f.sst), w.popped) == Merged(w.st, w.popped);
    }
  }

  lemma FoundReadsBack(rows: Rows, found: Rows)
    requires Finds(rows, found)
    ensures ReadsBack(rows, found)
  {
    hide Finds, StorableRows;
    if StorableRows(rows) { FoundExact(rows, found); }
  }

  lemma LastWalIsEnd(core: Core, G: seq<Flush>, c: nat)
    requires CoreOK(core, G, c, |G|)
    ensures core.lastCompactedWal == EndWal(G, |G|) < core.nextWal
  {
  }
}
