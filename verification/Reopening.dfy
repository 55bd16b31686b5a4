/** Crash recovery as a whole: when reopening succeeds, what it recovers, and the window in which a
    published next WAL id locks the database. */
module Reopening {
  import opened Types
  import opened History
  import opened Manifests
  import opened Scans
  import opened KVTables
  import opened WalLists
  import opened DbStates
  import opened CompactorStates
  import opened Protocol
  import opened Coverage
  import opened MemChain
  import opened Invariants
  import opened WriterSteps
  import opened ManifestSteps
  import opened Recovery
  import opened Safety
  import opened Views
  import opened Theorems

  function LastNextWal(s: Sys): nat
    requires s.log != []
  {
    s.log[|s.log| - 1].core.nextWal
  }

  /** The WALs an open replays: those above the latest manifest's last compacted one. */
  function ReplayedIds(s: Sys): seq<nat>
    requires s.log != [] && s.log[|s.log| - 1].core.lastCompactedWal <= s.durable
  {
    IdRange(s.log[|s.log| - 1].core.lastCompactedWal, s.durable)
  }

  /** How many memtables the replay of an open freezes. */
  ghost function Freezes(s: Sys, limit: nat): nat
    requires s.log != [] && s.log[|s.log| - 1].core.lastCompactedWal <= s.durable
  {
    |Replay(NewState(s.log[|s.log| - 1].core), s.wals, ReplayedIds(s), limit).immMems|
  }

  /** Opening succeeds if and only if the latest manifest's next WAL id is at most one above the last
      uploaded WAL, every WAL to replay can be read, and their replay does not freeze more memtables
      than the notification channel takes. */
  ghost predicate Opens(s: Sys, limit: nat)
    requires s.log != [] && s.log[|s.log| - 1].core.lastCompactedWal <= s.durable
  {
    && LastNextWal(s) <= s.durable + 1
    && Readable(s.wals, ReplayedIds(s))
    && Freezes(s, limit) <= NOTIFY_CAPACITY
  }

  lemma OpenOutcome(s: Sys, limit: nat)
    requires Inv(s)
    ensures s.log != [] && s.log[|s.log| - 1].core.lastCompactedWal <= s.durable
    ensures var t := Do(s, OpenWriter(limit));
      && (t.writer.Some? <==> Opens(s, limit))
      && Freezes(s, limit) <= s.durable - s.log[|s.log| - 1].core.lastCompactedWal
      && Freezes(s, limit) * limit <= WalBytes(s.wals, ReplayedIds(s))
      && t.frozen == s.frozen[..s.durable] && t.tail == [] && t.durable == s.durable
      && (t.writer.Some? ==> t.writer.value.popped.None? && Merged(t.writer.value.st, None) == s.durable)
      && t.log != [] && LastNextWal(t) == LastNextWal(s)
  {
    hide LogOK, CompactorOK, FlushOK, UniqueIds, WriterOK, Live, Replaced, Replay, IdsAbove, Readable, HoldingPersisted;
    LogNonEmpty(s.log, s.marks, s.flushed);
    DropWriterKeeps(s);
    var d := DropWriter(s);
    DroppedWriter(s);
    assert AllFlushes(d) == d.flushed;
    assert d.frozen == s.frozen[..s.durable];
    LastCore(d.log, d.marks, d.flushed, d.frozen, d.durable);
    var core := s.log[|s.log| - 1].core;
    ReplayAssertion(core, d.wals, d.frozen, d.durable, limit);
    ReplaySizes(core, d.wals, IdRange(core.lastCompactedWal, d.durable), limit);
    if Readable(d.wals, IdRange(core.lastCompactedWal, d.durable)) {
      ReplayRange(core, d.wals, d.frozen, d.durable, d.durable, limit);
    }
  }

  /** Crash recovery. After any run, opening succeeds if and only if the latest manifest's next WAL id
      is at most one above the last uploaded WAL, the WALs to replay can be read, and the channel
      takes their freezes, as it does for at most 255 WALs, and for any number of WALs that together
      take less than 256 times the size limit. Whenever it succeeds, the committed and the
      uncommitted view both stand for last-write-wins over exactly the uploaded writes, provided that
      these fit a table. */
  lemma Recovers(steps: seq<Step>, limit: nat)
    ensures var s := Run(steps);
      var t := Run(steps + [OpenWriter(limit)]);
      && s.log != [] && s.log[|s.log| - 1].core.lastCompactedWal <= s.durable <= |s.frozen|
      && (t.writer.Some? <==> Opens(s, limit))
      && (LastNextWal(s) <= s.durable + 1 && Readable(s.wals, ReplayedIds(s))
            && (|ReplayedIds(s)| <= 255 || WalBytes(s.wals, ReplayedIds(s)) < 256 * limit) ==>
            t.writer.Some?)
      && (t.writer.Some? && AllStorable(DurableOps(s)) ==>
            && Stands(Apply(DurableOps(s)), CommittedRows(t.writer.value.st))
            && Stands(Apply(DurableOps(s)), UncommittedRows(t.writer.value.st)))
  {
    hide Do, Inv, CommittedRows, UncommittedRows, Stands, AllStorable, Freezes, Readable;
    RunKeeps(steps);
    var s, all := Run(steps), steps + [OpenWriter(limit)];
    assert all[..|all| - 1] == steps;
    OpenOutcome(s, limit);
    if Freezes(s, limit) >= 256 { ManyFreezes(Freezes(s, limit), limit); }
    StoreOK(s);
    var t := Run(all);
    if t.writer.Some? {
      CommittedReads(all);
      UncommittedReads(all);
      assert t.frozen[..s.durable] == t.frozen == s.frozen[..s.durable];
      assert Flatten(t.frozen) + t.tail == Flatten(t.frozen);
    }
  }

  lemma ManyFreezes(n: nat, limit: nat)
    requires n >= 256
    ensures n * limit >= 256 * limit
  {
    assert (n - 256) * limit >= 0;
  }

  /** Every write acknowledged in some state of a run is among the writes that any later successful
      open recovers. */
  lemma AcknowledgedSurvive(steps: seq<Step>, more: seq<Step>, limit: nat)
    requires Run(steps).writer.Some?
    requires RunFrom(Run(steps), more + [OpenWriter(limit)]).writer.Some?
    ensures var s, t := Run(steps), RunFrom(Run(steps), more + [OpenWriter(limit)]);
      && 0 <= Merged(s.writer.value.st, s.writer.value.popped) <= |s.frozen|
      && 0 <= Merged(t.writer.value.st, t.writer.value.popped) <= |t.frozen|
      && CommittedOps(s) <= CommittedOps(t)
  {
    hide Do, Inv, Merged;
    RunKeeps(steps);
    CommittedReads(steps);
    var s, all := Run(steps), more + [OpenWriter(limit)];
    assert all[..|all| - 1] == more;
    DurableForever(s, more);
    RunFromKeeps(s, more);
    var u := RunFrom(s, more);
    OpenOutcome(u, limit);
    var t := RunFrom(s, all);
    assert t.frozen[..u.durable] == u.frozen[..u.durable];
  }

  // ---- the window

  /** No process can open the database and no manifest can change that. */
  ghost predicate Locked(s: Sys) {
    Inv(s) && s.writer.None? && s.log != [] && LastNextWal(s) > s.durable + 1
  }

  lemma StepKeepsLocked(s: Sys, step: Step)
    requires Locked(s)
    ensures Locked(Do(s, step))
  {
    hide LogOK, FlushOK, UniqueIds, WalsOK, Replaced, CoreOK, JobsOK, Covered, EpochsRise, Freezes, Readable;
    hide WithManifest, WithWriterState, WithFinished, Replay, IdsAbove, Schedule, Accepts, WithCompaction, JobFor,
         JobPanics, RunFinds, InIdOrder, Replays, Finds, ScanOf;
    DoKeeps(s, step);
    LogNonEmpty(s.log, s.marks, s.flushed);
    match step
    case OpenWriter(limit) => OpenOutcome(s, limit);
    case ZombiePublish(z, core) =>
      if z in s.zombies {
        ReplacedCannotLand(z, s.log);
      }
    case _ =>
  }

  /** Once locked, always locked: whatever the steps of the protocol, no writer ever runs again. A
      replaced writer takes no part in the uploads here; if it uploaded its last WAL after all, that
      would unlock the database. */
  lemma {:induction false} LockedForever(s: Sys, steps: seq<Step>)
    requires Locked(s)
    ensures Locked(RunFrom(s, steps))
  {
    hide Locked, Do;
    if steps != [] {
      LockedForever(s, steps[..|steps| - 1]);
      StepKeepsLocked(RunFrom(s, steps[..|steps| - 1]), steps[|steps| - 1]);
    }
  }

  lemma PublishedNextWal(s: Sys)
    requires Inv(s) && s.writer.Some?
    ensures var t := Do(Do(s, LoadWriter), PublishWriter);
      && t.log != [] && LastNextWal(t) == s.writer.value.st.core.nextWal
      && t.writer.Some? && t.durable == s.durable && t.frozen == s.frozen
  {
    hide LogOK, FlushOK, UniqueIds, WalsOK, Replaced, CoreOK, MemOK, WalOK, CompactorOK, Live, EpochsRise;
    var w := s.writer.value;
    LogNonEmpty(s.log, s.marks, s.flushed);
    LivePasses(w.handle, WriterEpoch, s.log);
  }

  /** From any reachable state in which the WAL holds a write: freeze it, publish a manifest before
      the upload, and stop. The manifest then names a WAL that is not in the store, so every later
      open panics. A clean shutdown whose last WAL upload fails takes exactly these steps. */
  lemma WindowLocks(steps: seq<Step>)
    requires Run(steps).writer.Some? && Run(steps).tail != []
    ensures Locked(RunFrom(Run(steps), [FreezeWal, LoadWriter, PublishWriter, CrashWriter]))
  {
    hide Do, Inv, Locked;
    RunKeeps(steps);
    var s := Run(steps);
    var s1 := Do(s, FreezeWal);
    DoKeeps(s, FreezeWal);
    FrozenNotDurable(s);
    var s2 := Do(s1, LoadWriter);
    DoKeeps(s1, LoadWriter);
    var s3 := Do(s2, PublishWriter);
    DoKeeps(s2, PublishWriter);
    PublishedNextWal(s1);
    var s4 := Do(s3, CrashWriter);
    DoKeeps(s3, CrashWriter);
    assert Locked(s4) by { CrashLocks(s3); }
    FourSteps(s, FreezeWal, LoadWriter, PublishWriter, CrashWriter);
  }

  lemma FrozenNotDurable(s: Sys)
    requires Inv(s) && s.writer.Some? && s.tail != []
    ensures var t := Do(s, FreezeWal);
      t.writer.Some? && t.writer.value.st.core.nextWal > t.durable + 1
  {
    hide LogOK, FlushOK, UniqueIds, WalsOK, Replaced, CoreOK, MemOK, CompactorOK, Live, EpochsRise;
    SizeZeroIffEmpty(s.writer.value.st.wal);
    assert s.tail[|s.tail| - 1].key in Apply(s.tail);
  }

  lemma CrashLocks(s: Sys)
    requires Inv(s) && s.writer.Some? && s.log != [] && LastNextWal(s) > s.durable + 1
    ensures Locked(Do(s, CrashWriter))
  {
    hide LogOK, FlushOK, UniqueIds, Replaced, WriterOK, CompactorOK;
    DropWriterKeeps(s);
  }

  lemma FourSteps(s: Sys, a: Step, b: Step, c: Step, d: Step)
    ensures RunFrom(s, [a, b, c, d]) == Do(Do(Do(Do(s, a), b), c), d)
  {
    hide Do;
    assert [a, b, c, d][..3] == [a, b, c] && [a, b, c][..2] == [a, b] && [a, b][..1] == [a] && [a][..0] == [];
    assert RunFrom(s, []) == s;
    assert RunFrom(s, [a]) == Do(s, a);
    assert RunFrom(s, [a, b]) == Do(Do(s, a), b);
    assert RunFrom(s, [a, b, c]) == Do(Do(Do(s, a), b), c);
  }

  /** The window is real: opening a new database and one put reach it. */
  lemma WindowIsReachable(limit: nat, entry: RowEntry)
    requires entry.key != []
    ensures var steps := [OpenWriter(limit), Put(entry)];
      && Run(steps).writer.Some? && Run(steps).writer.value.popped.None?
      && Run(steps).frozen == [] && Run(steps).tail == [entry]
  {
    hide Do, Inv;
    var steps := [OpenWriter(limit), Put(entry)];
    assert steps[..1] == [OpenWriter(limit)] && [OpenWriter(limit)][..0] == [];
    assert Run([]) == Start;
    StartOK();
    OpenOutcome(Start, limit);
    var s := Do(Start, OpenWriter(limit));
    assert Run([OpenWriter(limit)]) == s;
    PutAppends(s, entry);
  }

  lemma PutAppends(s: Sys, entry: RowEntry)
    requires s.writer.Some? && entry.key != []
    ensures var t := Do(s, Put(entry));
      && t.writer.Some? && t.writer.value.popped == s.writer.value.popped
      && t.frozen == s.frozen && t.tail == s.tail + [entry]
  {
  }
}
