/** The invariant of the whole system. */
module Invariants {
  import opened Types
  import opened History
  import opened Manifests
  import opened DbStates
  import opened CompactorStates
  import opened Protocol
  import opened Coverage
  import opened MemChain

  // ---- the manifest log

  ghost predicate MarksRise(marks: seq<Mark>) {
    forall i, j :: 0 <= i <= j < |marks| ==>
      marks[i].published <= marks[j].published && marks[i].compacted <= marks[j].compacted
  }

  /** Every manifest ever written stands for a prefix of the flush history. */
  ghost predicate LogOK(log: seq<Manifest>, marks: seq<Mark>, F: seq<Flush>) {
    && |log| == |marks| > 0
    && EpochsRise(log)
    && MarksRise(marks)
    && marks[|marks| - 1].published == |F|
    && forall i :: 0 <= i < |log| ==> CoreOK(log[i].core, F, marks[i].compacted, marks[i].published)
  }

  /** A process that was not replaced: nobody opened a handle of its kind after it. */
  ghost predicate Live(h: Handle, kind: Kind, log: seq<Manifest>) {
    && log != [] && FromLog(h, log) && h.kind == kind
    && h.localEpoch == Epoch(kind, log[|log| - 1])
  }

  ghost predicate Replaced(h: Handle, log: seq<Manifest>) {
    log != [] && FromLog(h, log) && h.localEpoch < Epoch(h.kind, log[|log| - 1])
  }

  // ---- the object store

  /** A WAL that can be read holds its writes, persisted, if they fit. */
  ghost predicate WalsOK(wals: map<nat, Option<Rows>>, frozen: seq<seq<RowEntry>>, durable: nat) {
    && durable <= |frozen|
    && (forall i :: i in wals <==> 1 <= i <= durable)
    && (forall i :: 1 <= i <= durable && wals[i].Some? ==> HoldingPersisted(frozen, i - 1, i, wals[i].value))
  }

  // ---- the writer

  /** The id of the last WAL that reached the memtable. */
  function Merged(st: State, popped: Option<ImmWal>): int {
    st.core.nextWal - 1 - |st.immWals| - if popped.Some? then 1 else 0
  }

  /** WAL ids are handed out without gaps: merged ones, then the popped one, then the immutable
      WALs up to the next id less one; only the first unmerged one can already be durable. */
  ghost predicate WalOK(st: State, popped: Option<ImmWal>, frozen: seq<seq<RowEntry>>, tail: seq<RowEntry>,
                        durable: nat) {
    && |frozen| == st.core.nextWal - 1
    && 0 <= Merged(st, popped) <= durable <= Merged(st, popped) + 1
    && durable <= |frozen|
    && st.wal == Apply(tail)
    && (forall i :: 0 <= i < |st.immWals| ==>
          st.immWals[i] == ImmWal(st.core.nextWal - 1 - i, Apply(frozen[st.core.nextWal - 2 - i])))
    && (popped.Some? ==>
          durable == Merged(st, popped) + 1 && popped.value == ImmWal(durable, Apply(frozen[durable - 1])))
  }

  ghost predicate WriterOK(w: Writer, log: seq<Manifest>, marks: seq<Mark>, G: seq<Flush>,
                           frozen: seq<seq<RowEntry>>, tail: seq<RowEntry>, durable: nat)
  {
    && Live(w.handle, WriterEpoch, log) && |log| == |marks|
    && CoreOK(w.st.core, G, marks[w.handle.id - 1].compacted, |G|)
    && WalOK(w.st, w.popped, frozen, tail, durable)
    && MemOK(w.st.memtable, w.st.immMems, w.st.core.lastCompactedWal, frozen, Merged(w.st, w.popped))
  }

  /** All flushes: those in some manifest and those the writer has not published. */
  function AllFlushes(s: Sys): seq<Flush> {
    s.flushed + if s.writer.Some? then s.writer.value.pending else []
  }

  // ---- the compactor

  ghost predicate SourcesMatch(sources: seq<SourceId>, F: seq<Flush>, lo: nat, hi: nat) {
    && lo <= hi <= |F|
    && |sources| == hi - lo
    && forall i :: 0 <= i < |sources| ==> sources[i] == SstSource(F[hi - 1 - i].sst.id)
  }

  /** At most one compaction is registered, into the run above all others, of the oldest L0 tables;
      it has at most one running worker or waiting result. */
  ghost predicate JobsOK(st: CState, running: seq<Job>, results: seq<Outcome>, covered: nat, F: seq<Flush>, p: nat) {
    var d := |st.db.compacted|;
    && st.compactions.Keys <= {d}
    && |running| + |results| <= |st.compactions|
    && (d in st.compactions ==>
          var comp := st.compactions[d];
          var hi := covered + |comp.sources|;
          && comp.destination == d
          && comp.sources != [] && hi <= p
          && SourcesMatch(comp.sources, F, covered, hi)
          && (running != [] ==> running[0].destination == d && running[0].runs == []
                                && L0Matches(running[0].ssts, F, covered, hi))
          && (results != [] && results[0].Success? ==>
                var run := results[0].run;
                && run.id == d
                && IdsMatch(run.sources, F, covered, hi)
                && RunHolds(run.rows, F, covered, hi)))
  }

  ghost predicate CompactorOK(c: Compactor, log: seq<Manifest>, marks: seq<Mark>, F: seq<Flush>) {
    && Live(c.handle, CompactorEpoch, log) && |log| == |marks|
    && marks[|marks| - 1].compacted <= c.covered
    && c.st.db.nextWal == c.handle.manifest.core.nextWal
    && marks[c.handle.id - 1].published <= |F|
    && CoreOK(c.st.db, F, c.covered, marks[c.handle.id - 1].published)
    && JobsOK(c.st, c.running, c.results, c.covered, F, marks[c.handle.id - 1].published)
  }

  ghost predicate Inv(s: Sys) {
    && LogOK(s.log, s.marks, s.flushed)
    && WalsOK(s.wals, s.frozen, s.durable)
    && UniqueIds(AllFlushes(s))
    && (forall i :: 0 <= i < |AllFlushes(s)| ==> AllFlushes(s)[i].sst.id in s.usedIds)
    && FlushOK(AllFlushes(s), s.frozen, s.durable)
    && (s.writer.None? ==> |s.frozen| == s.durable && s.tail == [])
    && (s.writer.Some? ==> WriterOK(s.writer.value, s.log, s.marks, AllFlushes(s), s.frozen, s.tail, s.durable))
    && (s.compactor.Some? ==> CompactorOK(s.compactor.value, s.log, s.marks, s.flushed))
    && (forall z :: z in s.zombies ==> Replaced(z, s.log))
  }
}
