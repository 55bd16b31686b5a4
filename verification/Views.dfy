/** What clients can observe: DB.Get against the sequence of their puts and deletes. */
module Views {
  import opened Types
  import opened History
  import opened CoreState
  import opened Manifests
  import opened DbStates
  import opened Protocol
  import opened Coverage
  import opened MemChain
  import opened Invariants
  import opened ManifestSteps
  import opened Safety

  // ---- what a Get sees

  /** A committed read searches the memtable, the immutable memtables, L0 and the runs. */
  function CommittedRows(st: State): Rows {
    CoreRows(st.core) + (ImmRows(st.immMems) + st.memtable.rows)
  }

  function ImmWalRows(imms: seq<ImmWal>): Rows {
    if imms == [] then map[] else ImmWalRows(imms[1..]) + imms[0].rows
  }

  /** An uncommitted read searches the WAL and the immutable WALs first. */
  function UncommittedRows(st: State): Rows {
    CommittedRows(st) + (ImmWalRows(st.immWals) + st.wal)
  }

  // ---- what the client wrote

  /** Every write the system has not lost. */
  function AllOps(s: Sys): seq<RowEntry> {
    Flatten(s.frozen) + s.tail
  }

  /** The writes in the object store. */
  function DurableOps(s: Sys): seq<RowEntry>
    requires s.durable <= |s.frozen|
  {
    Flatten(s.frozen[..s.durable])
  }

  /** The writes that reached the memtable; only these are acknowledged as durable. */
  function CommittedOps(s: Sys): seq<RowEntry>
    requires s.writer.Some? && 0 <= Merged(s.writer.value.st, s.writer.value.popped) <= |s.frozen|
  {
    Flatten(s.frozen[..Merged(s.writer.value.st, s.writer.value.popped)])
  }

  lemma PrefixRows(frozen: seq<seq<RowEntry>>, n: nat)
    requires n <= |frozen|
    ensures Apply(Flatten(frozen[..n])) == WalRows(frozen, 0, n)
  {
    FlattenRows(frozen[..n]);
    WalRowsFrame(frozen[..n], frozen, 0, n);
  }

  // ---- committed reads

  lemma StandsPersisted(m: Rows)
    ensures Stands(m, PersistRows(m))
  {
  }

  lemma CommittedMeaning(w: Writer, log: seq<Manifest>, marks: seq<Mark>, G: seq<Flush>,
                         frozen: seq<seq<RowEntry>>, tail: seq<RowEntry>, durable: nat)
    requires WriterOK(w, log, marks, G, frozen, tail, durable) && FlushOK(G, frozen, durable)
    ensures 0 <= Merged(w.st, w.popped) <= durable <= |frozen|
    ensures Holding(frozen, 0, Merged(w.st, w.popped), CommittedRows(w.st))
  {
    hide CoreOK, MemOK, FlushOK, Live, Holding, CoreRows, ImmRows, Apply;
    LiveInLog(w.handle, WriterEpoch, log);
    var base, merged := w.st.core.lastCompactedWal, Merged(w.st, w.popped);
    CoreMeaning(w.st.core, G, frozen, durable, marks[w.handle.id - 1].compacted, |G|);
    MemMeaning(w.st.memtable, w.st.immMems, base, frozen, merged);
    assert HoldingPersisted(frozen, 0, base, CoreRows(w.st.core));
    PersistedStands(frozen, 0, base, CoreRows(w.st.core));
    HoldingUnion(frozen, 0, base, merged, CoreRows(w.st.core), ImmRows(w.st.immMems) + w.st.memtable.rows);
  }

  /** In every reachable state a committed read stands for the last write among those merged into
      the memtable, provided that they fit a table. */
  lemma CommittedReads(steps: seq<Step>)
    requires Run(steps).writer.Some?
    ensures var s := Run(steps);
      var w := s.writer.value;
      && 0 <= Merged(w.st, w.popped) <= s.durable <= |s.frozen|
      && CommittedOps(s) <= DurableOps(s) <= AllOps(s)
      && (AllStorable(CommittedOps(s)) ==> Stands(Apply(CommittedOps(s)), CommittedRows(w.st)))
  {
    hide Run, LogOK, CompactorOK, FlushOK, UniqueIds, WriterOK, CommittedRows, Stands, AllStorable;
    RunKeeps(steps);
    var s := Run(steps);
    var w := s.writer.value;
    CommittedMeaning(w, s.log, s.marks, AllFlushes(s), s.frozen, s.tail, s.durable);
    var m := Merged(w.st, w.popped);
    PrefixRows(s.frozen, m);
    if AllStorable(CommittedOps(s)) {
      FlattenStorable(s.frozen, m, 0, m);
    }
    assert s.frozen[..m] <= s.frozen[..s.durable] <= s.frozen;
    FlattenPrefix(s.frozen[..m], s.frozen[..s.durable]);
    FlattenPrefix(s.frozen[..s.durable], s.frozen);
  }

  // ---- uncommitted reads

  lemma {:induction false} ImmWalMeaning(imms: seq<ImmWal>, frozen: seq<seq<RowEntry>>, hi: nat)
    requires |imms| <= hi <= |frozen|
    requires forall i :: 0 <= i < |imms| ==> imms[i].rows == Apply(frozen[hi - 1 - i])
    ensures ImmWalRows(imms) == WalRows(frozen, hi - |imms|, hi)
    decreases |imms|
  {
    if imms != [] {
      ImmWalMeaning(imms[1..], frozen, hi - 1);
    }
  }

  lemma StandsSame(m: Rows)
    ensures Stands(m, m)
  {
  }

  /** The unmerged WALs: those above the merged ones and, while one is popped, above that one. */
  lemma UncommittedMeaning(w: Writer, log: seq<Manifest>, marks: seq<Mark>, G: seq<Flush>,
                           frozen: seq<seq<RowEntry>>, tail: seq<RowEntry>, durable: nat)
    requires WriterOK(w, log, marks, G, frozen, tail, durable) && FlushOK(G, frozen, durable)
    ensures var m, n := Merged(w.st, w.popped), |frozen|;
      var seen := if w.popped.Some? then m + 1 else m;
      && 0 <= m <= seen <= n
      && (WalsStorable(frozen, 0, m) ==>
            Stands(WalRows(frozen, 0, m) + (WalRows(frozen, seen, n) + Apply(tail)), UncommittedRows(w.st)))
  {
    hide CoreOK, MemOK, FlushOK, Live, CommittedRows, WalsStorable, Stands;
    CommittedMeaning(w, log, marks, G, frozen, tail, durable);
    ImmWalMeaning(w.st.immWals, frozen, |frozen|);
    var m := Merged(w.st, w.popped);
    var newer := ImmWalRows(w.st.immWals) + w.st.wal;
    StandsSame(newer);
    if WalsStorable(frozen, 0, m) {
      StandsUnion(WalRows(frozen, 0, m), CommittedRows(w.st), newer, newer);
    }
  }

  lemma AllOpsRows(s: Sys, m: nat)
    requires m <= |s.frozen|
    ensures Apply(AllOps(s)) == WalRows(s.frozen, 0, m) + (WalRows(s.frozen, m, |s.frozen|) + Apply(s.tail))
  {
    FlattenRows(s.frozen);
    ApplyConcat(Flatten(s.frozen), s.tail);
    WalRowsSplit(s.frozen, 0, m, |s.frozen|);
    UnionAssoc(WalRows(s.frozen, 0, m), WalRows(s.frozen, m, |s.frozen|), Apply(s.tail));
  }

  /** In every reachable state with no WAL in hand, an uncommitted read stands for the last write,
      provided that the writes merged so far fit a table. */
  lemma UncommittedReads(steps: seq<Step>)
    requires Run(steps).writer.Some? && Run(steps).writer.value.popped.None?
    ensures var s := Run(steps);
      && 0 <= Merged(s.writer.value.st, None) <= |s.frozen|
      && (AllStorable(CommittedOps(s)) ==> Stands(Apply(AllOps(s)), UncommittedRows(s.writer.value.st)))
  {
    hide Run, LogOK, CompactorOK, FlushOK, UniqueIds, WriterOK, UncommittedRows, AllOps, Stands, AllStorable;
    RunKeeps(steps);
    var s := Run(steps);
    var w := s.writer.value;
    UncommittedMeaning(w, s.log, s.marks, AllFlushes(s), s.frozen, s.tail, s.durable);
    AllOpsRows(s, Merged(w.st, w.popped));
    if AllStorable(CommittedOps(s)) {
      FlattenStorable(s.frozen, Merged(w.st, None), 0, Merged(w.st, None));
    }
  }

  /** While a WAL is popped and not merged, a key is read as its last write if and only if the
      popped WAL does not hold its last write; otherwise an older, committed write is read. The
      writes merged so far are taken to fit a table. */
  lemma PoppedReads(steps: seq<Step>, k: Key)
    requires Run(steps).writer.Some? && Run(steps).writer.value.popped.Some?
    ensures var s := Run(steps);
      var w := s.writer.value;
      var newer := ImmWalRows(w.st.immWals) + w.st.wal;
      && 0 <= Merged(w.st, w.popped) <= |s.frozen|
      && (AllStorable(CommittedOps(s)) && (k in newer || k !in w.popped.value.rows) ==>
            StandsFor(LastWrite(AllOps(s), k), Lookup(UncommittedRows(w.st), k)))
      && (k !in newer && k in w.popped.value.rows ==>
            && LastWrite(AllOps(s), k) == Some(w.popped.value.rows[k])
            && Lookup(UncommittedRows(w.st), k) == Lookup(CommittedRows(w.st), k))
  {
    hide Run, Inv, CommittedRows, AllOps, StandsFor, Stands, AllStorable, ImmWalRows, WalRows, Merged;
    RunKeeps(steps);
    var s := Run(steps);
    var w := s.writer.value;
    PoppedMeaning(s);
    var m, popped, newer := Merged(w.st, w.popped), w.popped.value.rows, ImmWalRows(w.st.immWals) + w.st.wal;
    ApplyIsLastWrite(AllOps(s), k);
    PoppedKey(WalRows(s.frozen, 0, m), popped, newer, CommittedRows(w.st), k);
    if AllStorable(CommittedOps(s)) {
      FlattenStorable(s.frozen, m, 0, m);
    }
  }

  /** The popped WAL lies between the merged ones and the newer ones. */
  lemma PoppedMeaning(s: Sys)
    requires Inv(s) && s.writer.Some? && s.writer.value.popped.Some?
    ensures var w := s.writer.value;
      var m := Merged(w.st, w.popped);
      && 0 <= m <= |s.frozen| && Holding(s.frozen, 0, m, CommittedRows(w.st))
      && Apply(AllOps(s)) == WalRows(s.frozen, 0, m) + (w.popped.value.rows + (ImmWalRows(w.st.immWals) + w.st.wal))
  {
    hide LogOK, CompactorOK, FlushOK, UniqueIds, CommittedRows, AllOps, CoreOK, MemOK, Live, WalsOK, Holding;
    var w := s.writer.value;
    var m, n := Merged(w.st, w.popped), |s.frozen|;
    CommittedMeaning(w, s.log, s.marks, AllFlushes(s), s.frozen, s.tail, s.durable);
    ImmWalMeaning(w.st.immWals, s.frozen, n);
    AllOpsRows(s, m);
    WalRowsSplit(s.frozen, m, m + 1, n);
    assert WalRows(s.frozen, m, m + 1) == w.popped.value.rows by { OneWal(s.frozen, m); }
    UnionAssoc(w.popped.value.rows, WalRows(s.frozen, m + 1, n), Apply(s.tail));
  }

  lemma OneWal(frozen: seq<seq<RowEntry>>, m: nat)
    requires m < |frozen|
    ensures WalRows(frozen, m, m + 1) == Apply(frozen[m])
  {
    assert WalRows(frozen, m, m + 1) == WalRows(frozen, m, m) + Apply(frozen[m]);
  }

  lemma PoppedKey(merged: Rows, popped: Rows, newer: Rows, held: Rows, k: Key)
    ensures Stands(merged, held) && (k in newer || k !in popped) ==>
      StandsFor(Lookup(merged + (popped + newer), k), Lookup(held + newer, k))
    ensures k !in newer && k in popped ==>
      Lookup(merged + (popped + newer), k) == Some(popped[k]) && Lookup(held + newer, k) == Lookup(held, k)
  {
  }

  // ---- from tables to answers

  /** `held` is what the engine may answer with when the last write of a key is `written`. */
  ghost predicate StandsFor(written: Option<Value>, held: Option<Value>) {
    held == written || (written.Some? && held == Some(Persist(written.value)))
  }

  lemma StandsLookup(ops: seq<RowEntry>, held: Rows, k: Key)
    requires Stands(Apply(ops), held)
    ensures StandsFor(LastWrite(ops, k), Lookup(held, k))
  {
    ApplyIsLastWrite(ops, k);
  }

  /** The answer of a Get is exact unless the last write put an empty value; then it is the empty
      value before it reaches an SSTable and "not found" afterwards. */
  lemma AnswerExact(written: Option<Value>, held: Option<Value>)
    requires StandsFor(written, held)
    ensures written != Some(KeyValue([])) ==> held == written && Tells(written, CheckValue(held))
    ensures written == Some(KeyValue([])) ==> CheckValue(held) == Found([]) || CheckValue(held) == NotFound
  {
  }
}
