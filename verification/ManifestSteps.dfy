/** Loading and publishing manifests, on both sides, keeps the invariant; replaced processes can
    do nothing. */
module ManifestSteps {
  import opened Types
  import opened CoreState
  import opened Manifests
  import opened CompactorStates
  import opened Protocol
  import opened Coverage
  import opened MemChain
  import opened Invariants

  // ---- the log grows

  /** A manifest that stands for the history so far extends the log. */
  lemma LogAppend(log: seq<Manifest>, marks: seq<Mark>, F: seq<Flush>, m: Manifest, mark: Mark, F': seq<Flush>)
    requires LogOK(log, marks, F) && F <= F'
    requires forall k :: Epoch(k, log[|log| - 1]) <= Epoch(k, m)
    requires mark.published == |F'| && marks[|marks| - 1].compacted <= mark.compacted
    requires CoreOK(m.core, F', mark.compacted, |F'|)
    ensures LogOK(log + [m], marks + [mark], F')
  {
    EpochsRiseAppend(log, m);
    var log', marks' := log + [m], marks + [mark];
    forall i | 0 <= i < |log'| ensures CoreOK(log'[i].core, F', marks'[i].compacted, marks'[i].published) {
      if i < |log| {
        CoreFrame(log[i].core, F, F', marks[i].compacted, marks[i].published);
      }
    }
  }

  lemma LiveAppend(h: Handle, kind: Kind, log: seq<Manifest>, m: Manifest)
    requires Live(h, kind, log) && Epoch(kind, m) == Epoch(kind, log[|log| - 1])
    ensures Live(h, kind, log + [m])
  {
  }

  lemma LivePasses(h: Handle, kind: Kind, log: seq<Manifest>)
    requires Live(h, kind, log) && EpochsRise(log)
    ensures CheckEpoch(h) == Passed && CheckEpoch(RefreshHandle(h, log)) == Passed
    ensures Live(RefreshHandle(h, log), kind, log)
  {
  }

  /** A process that was replaced stays replaced and cannot land a manifest. */
  lemma ReplacedCannotLand(h: Handle, log: seq<Manifest>)
    requires Replaced(h, log) && EpochsRise(log)
    ensures !Lands(h, log) && Replaced(RefreshHandle(h, log), log)
  {
  }

  lemma ReplacedAppend(zombies: set<Handle>, log: seq<Manifest>, m: Manifest)
    requires forall z :: z in zombies ==> Replaced(z, log)
    requires log != [] && forall k :: Epoch(k, log[|log| - 1]) <= Epoch(k, m)
    ensures forall z :: z in zombies ==> Replaced(z, log + [m])
  {
  }

  lemma LiveIsReplaced(h: Handle, kind: Kind, log: seq<Manifest>)
    requires Live(h, kind, log)
    ensures Replaced(h, log + [Bump(kind, log[|log| - 1])])
  {
  }

  // ---- the other side when the log grows

  lemma JobsFrame(c: Compactor, F: seq<Flush>, F': seq<Flush>, p: nat)
    requires JobsOK(c.st, c.running, c.results, c.covered, F, p) && F <= F'
    ensures JobsOK(c.st, c.running, c.results, c.covered, F', p)
  {
    if |c.st.db.compacted| in c.st.compactions {
      FlushRowsFrame(F, F', c.covered, c.covered + |c.st.compactions[|c.st.db.compacted|].sources|);
    }
  }

  lemma CompactorFrame(c: Compactor, log: seq<Manifest>, marks: seq<Mark>, F: seq<Flush>, m: Manifest, mark: Mark,
                       F': seq<Flush>)
    requires CompactorOK(c, log, marks, F) && F <= F'
    requires Epoch(CompactorEpoch, m) == Epoch(CompactorEpoch, log[|log| - 1])
    requires mark.compacted == marks[|marks| - 1].compacted
    ensures CompactorOK(c, log + [m], marks + [mark], F')
  {
    hide JobsOK, CoreOK, Live;
    LiveAppend(c.handle, CompactorEpoch, log, m);
    LiveInLog(c.handle, CompactorEpoch, log);
    var p := marks[c.handle.id - 1].published;
    JobsFrame(c, F, F', p);
    CoreFrame(c.st.db, F, F', c.covered, p);
  }

  lemma LiveInLog(h: Handle, kind: Kind, log: seq<Manifest>)
    requires Live(h, kind, log)
    ensures 1 <= h.id <= |log| && h.manifest == log[h.id - 1] && h.kind == kind
  {
  }

  lemma WriterFrame(w: Writer, log: seq<Manifest>, marks: seq<Mark>, G: seq<Flush>, frozen: seq<seq<RowEntry>>,
                    tail: seq<RowEntry>, durable: nat, m: Manifest, mark: Mark)
    requires WriterOK(w, log, marks, G, frozen, tail, durable)
    requires Epoch(WriterEpoch, m) == Epoch(WriterEpoch, log[|log| - 1])
    ensures WriterOK(w, log + [m], marks + [mark], G, frozen, tail, durable)
  {
    hide CoreOK, MemOK, WalOK, Live;
    LiveAppend(w.handle, WriterEpoch, log, m);
    LiveInLog(w.handle, WriterEpoch, log);
  }

  // ---- the writer

  /** The writer's tables above the compactor's cut-off, with the compactor's runs. */
  lemma CoreRefresh(core: Core, G: seq<Flush>, c: nat, latest: Core, F: seq<Flush>, c': nat, p': nat)
    requires CoreOK(core, G, c, |G|) && UniqueIds(G) && F <= G
    requires CoreOK(latest, F, c', p') && c <= c'
    ensures CoreOK(core.(l0LastCompacted := latest.l0LastCompacted,
                         l0 := TakeUntil(core.l0, latest.l0LastCompacted),
                         compacted := latest.compacted), G, c', |G|)
  {
    hide Covered;
    CoveredFrame(latest.compacted, F, G, c');
    assert LastId(F, c') == LastId(G, c');
    TakeUntilMatches(core.l0, G, c, |G|, c');
  }

  lemma LoadWriterKeeps(s: Sys, w: Writer)
    requires Inv(s) && s.writer == Some(w)
    ensures Inv(DoLoadWriter(s, w))
  {
    hide CoreOK, MemOK, FlushOK, CompactorOK, Live, UniqueIds, WalsOK, MarksRise, EpochsRise;
    LivePasses(w.handle, WriterEpoch, s.log);
    LiveInLog(w.handle, WriterEpoch, s.log);
    var n := |s.log|;
    MarksRiseAt(s.marks, w.handle.id - 1, n - 1);
    var last := s.log[n - 1].core;
    assert CoreOK(last, s.flushed, s.marks[n - 1].compacted, s.marks[n - 1].published);
    CoreRefresh(w.st.core, AllFlushes(s), s.marks[w.handle.id - 1].compacted, last, s.flushed,
                s.marks[n - 1].compacted, s.marks[n - 1].published);
    assert AllFlushes(DoLoadWriter(s, w)) == AllFlushes(s);
  }

  lemma MarksRiseAt(marks: seq<Mark>, i: nat, j: nat)
    requires MarksRise(marks) && i <= j < |marks|
    ensures marks[i].compacted <= marks[j].compacted && marks[i].published <= marks[j].published
  {
  }

  lemma PublishWriterKeeps(s: Sys, w: Writer)
    requires Inv(s) && s.writer == Some(w)
    ensures Inv(DoPublishWriter(s, w))
  {
    hide LogOK, CoreOK, MemOK, FlushOK, CompactorOK, UniqueIds, WalsOK;
    if Lands(w.handle, s.log) {
      assert |s.log| == |s.marks| by { LogNonEmpty(s.log, s.marks, s.flushed); }
      var s' := DoPublishWriter(s, w);
      var G := AllFlushes(s);
      var m, mark := Updated(w.handle, w.st.core).manifest, s'.marks[|s.marks|];
      assert s'.flushed == G && AllFlushes(s') == G;
      LogAppend(s.log, s.marks, s.flushed, m, mark, G);
      ReplacedAppend(s.zombies, s.log, m);
      if s.compactor.Some? {
        CompactorFrame(s.compactor.value, s.log, s.marks, s.flushed, m, mark, G);
      }
    }
  }

  lemma LogNonEmpty(log: seq<Manifest>, marks: seq<Mark>, F: seq<Flush>)
    requires LogOK(log, marks, F)
    ensures |log| == |marks| > 0 && EpochsRise(log)
  {
  }

  // ---- the compactor

  /** The tables of the latest manifest above the compactor's own cut-off, with its own runs. */
  lemma CoreMerge(db: Core, F: seq<Flush>, c: nat, p: nat, latest: Core, c': nat, p': nat)
    requires CoreOK(db, F, c, p) && UniqueIds(F)
    requires CoreOK(latest, F, c', p') && c' <= c && p <= p'
    ensures CoreOK(db.(l0 := TakeUntil(latest.l0, db.l0LastCompacted), lastCompactedWal := latest.lastCompactedWal,
                       nextWal := latest.nextWal), F, c, p')
  {
    hide Covered;
    TakeUntilMatches(latest.l0, F, c', p', c);
  }

  lemma LoadCompactorKeeps(s: Sys, c: Compactor)
    requires Inv(s) && s.compactor == Some(c)
    ensures Inv(DoLoadCompactor(s, c))
  {
    hide CoreOK, WriterOK, FlushOK, Live, UniqueIds, WalsOK, MarksRise, EpochsRise;
    LivePasses(c.handle, CompactorEpoch, s.log);
    LiveInLog(c.handle, CompactorEpoch, s.log);
    UniquePrefix(s.flushed, AllFlushes(s));
    var n := |s.log|;
    MarksRiseAt(s.marks, c.handle.id - 1, n - 1);
    var last := s.log[n - 1].core;
    assert CoreOK(last, s.flushed, s.marks[n - 1].compacted, s.marks[n - 1].published);
    CoreMerge(c.st.db, s.flushed, c.covered, s.marks[c.handle.id - 1].published, last, s.marks[n - 1].compacted,
              s.marks[n - 1].published);
  }

  lemma PublishCompactorKeeps(s: Sys, c: Compactor)
    requires Inv(s) && s.compactor == Some(c)
    ensures Inv(DoPublishCompactor(s, c))
  {
    hide CoreOK, WriterOK, FlushOK, UniqueIds, WalsOK, MarksRise, EpochsRise, JobsOK;
    if Lands(c.handle, s.log) {
      var s' := DoPublishCompactor(s, c);
      var m, mark := Updated(c.handle, c.st.db).manifest, s'.marks[|s.marks|];
      LogAppend(s.log, s.marks, s.flushed, m, mark, s.flushed);
      ReplacedAppend(s.zombies, s.log, m);
      if s.writer.Some? {
        var w := s.writer.value;
        WriterFrame(w, s.log, s.marks, AllFlushes(s), s.frozen, s.tail, s.durable, m, mark);
      }
    }
  }

  lemma OpenedCompactorOK(log: seq<Manifest>, marks: seq<Mark>, F: seq<Flush>, h: Handle)
    requires LogOK(log, marks, F) && Live(h, CompactorEpoch, log) && h.id == |log|
    ensures var c := Compactor(h, CState(h.manifest.core, map[]), [], [], marks[|marks| - 1].compacted);
      CompactorOK(c, log, marks, F)
  {
    hide CoreOK, EpochsRise, MarksRise;
    assert CoreOK(log[|log| - 1].core, F, marks[|marks| - 1].compacted, marks[|marks| - 1].published);
  }

  /** Raising an epoch extends the log without changing what it stands for. */
  lemma LogBump(log: seq<Manifest>, marks: seq<Mark>, F: seq<Flush>, kind: Kind)
    requires LogOK(log, marks, F)
    ensures LogOK(log + [Bump(kind, log[|log| - 1])], marks + [marks[|marks| - 1]], F)
  {
    hide CoreOK, EpochsRise, MarksRise;
    assert CoreOK(log[|log| - 1].core, F, marks[|marks| - 1].compacted, marks[|marks| - 1].published);
    LogAppend(log, marks, F, Bump(kind, log[|log| - 1]), marks[|marks| - 1], F);
  }

  lemma OpenCompactorKeeps(s: Sys)
    requires Inv(s)
    ensures Inv(DoOpenCompactor(s))
  {
    hide LogOK, CompactorOK, CoreOK, WriterOK, FlushOK, UniqueIds, WalsOK, Replaced, Live;
    LogNonEmpty(s.log, s.marks, s.flushed);
    var s' := DoOpenCompactor(s);
    var n := |s.log|;
    var m, mark := Bump(CompactorEpoch, s.log[n - 1]), s.marks[n - 1];
    LogBump(s.log, s.marks, s.flushed, CompactorEpoch);
    assert Live(s'.compactor.value.handle, CompactorEpoch, s'.log) by { LiveOpened(CompactorEpoch, s.log); }
    OpenedCompactorOK(s'.log, s'.marks, s'.flushed, s'.compactor.value.handle);
    ReplacedAppend(s.zombies, s.log, m);
    if s.compactor.Some? {
      CompactorLive(s.compactor.value, s.log, s.marks, s.flushed);
      LiveIsReplaced(s.compactor.value.handle, CompactorEpoch, s.log);
    }
    if s.writer.Some? {
      WriterFrame(s.writer.value, s.log, s.marks, AllFlushes(s), s.frozen, s.tail, s.durable, m, mark);
    }
    assert AllFlushes(s') == AllFlushes(s);
  }

  lemma CompactorLive(c: Compactor, log: seq<Manifest>, marks: seq<Mark>, F: seq<Flush>)
    requires CompactorOK(c, log, marks, F)
    ensures Live(c.handle, CompactorEpoch, log)
  {
  }

  lemma LiveOpened(kind: Kind, log: seq<Manifest>)
    requires log != []
    ensures var m := Bump(kind, log[|log| - 1]);
      Live(Handle(kind, Epoch(kind, m), |log| + 1, m), kind, log + [m])
  {
  }

  // ---- processes that were replaced

  lemma ZombieKeeps(s: Sys, step: Step)
    requires Inv(s) && (step.ZombieRefresh? || step.ZombiePublish?)
    ensures Inv(Do(s, step))
  {
    hide LogOK, WriterOK, CompactorOK, FlushOK, UniqueIds, WalsOK, Replaced;
    LogNonEmpty(s.log, s.marks, s.flushed);
    if step.z in s.zombies {
      ReplacedCannotLand(step.z, s.log);
    }
    assert AllFlushes(Do(s, step)) == AllFlushes(s);
  }
}
