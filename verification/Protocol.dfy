/** The writer, the compactor, the manifest log and the object store as one transition system.
    A step is whatever one process does between two points where another may run; a step that is
    not possible in a state leaves it as it is, so every list of steps is a run. */
module Protocol {
  import opened Types
  import opened History
  import opened Keys
  import opened Scans
  import opened CoreState
  import opened Manifests
  import opened KVTables
  import opened WalLists
  import opened DbStates
  import opened CompactorStates
  import MergeSorts

  /** An L0 table and the id of the last WAL in it. */
  datatype Flush = Flush(sst: Sst, lastWal: nat)

  /** How many flushes a manifest knows of and how many of those its runs cover. */
  datatype Mark = Mark(published: nat, compacted: nat)

  /** `popped` is the WAL that flushImmWALs took off the deque and has not merged yet;
      `pending` (history) are the L0 tables not yet in any manifest, oldest first. */
  datatype Writer = Writer(handle: Handle, st: State, popped: Option<ImmWal>, pending: seq<Flush>)

  datatype Outcome = Success(run: SortedRun) | Failure

  /** `running` and `results` are the executor's goroutines and its result channel;
      `covered` (history) is how many flushes the runs cover. */
  datatype Compactor = Compactor(handle: Handle, st: CState, running: seq<Job>, results: seq<Outcome>, covered: nat)

  /** `frozen` and `tail` (history) are the writes of each frozen WAL and of the current one;
      `flushed` (history) are all flushes that reached a manifest, oldest first; `durable` WALs are
      in the store, and `wals` has what each reads back as, or None if it cannot be read at all;
      `zombies` are handles of processes that were replaced and may still run. */
  datatype Sys = Sys(
    log: seq<Manifest>,
    marks: seq<Mark>,
    wals: map<nat, Option<Rows>>,
    durable: nat,
    frozen: seq<seq<RowEntry>>,
    tail: seq<RowEntry>,
    flushed: seq<Flush>,
    usedIds: set<nat>,
    writer: Option<Writer>,
    compactor: Option<Compactor>,
    zombies: set<Handle>)

  const Start := Sys([Manifest(NewCore, 0, 0)], [Mark(0, 0)], map[], 0, [], [], [], {}, None, None, {})

  datatype Step =
    | Put(entry: RowEntry)
    | FreezeWal
    | UploadWal(readable: bool)
    | PopWal
    | MergeWal
    | FreezeMem
    | FlushMem(id: nat, rows: Rows)
    | LoadWriter
    | PublishWriter
    | CrashWriter
    | OpenWriter(limit: nat)
    | OpenCompactor
    | CrashCompactor
    | LoadCompactor
    | Plan
    | FinishJob(ok: bool, rows: Rows)
    | TakeResult
    | PublishCompactor
    | ZombieRefresh(z: Handle)
    | ZombiePublish(z: Handle, core: Core)

  ghost function Do(s: Sys, step: Step): Sys {
    match step
    case Put(entry) =>
      if s.writer.None? || entry.key == [] then s
      else s.(tail := s.tail + [entry], writer := Some(s.writer.value.(st := WithPut(s.writer.value.st, entry))))
    case FreezeWal => if s.writer.None? then s else DoFreezeWal(s, s.writer.value)
    case UploadWal(readable) => if s.writer.None? then s else DoUploadWal(s, s.writer.value, readable)
    case PopWal => if s.writer.None? then s else DoPopWal(s, s.writer.value)
    case MergeWal => if s.writer.None? then s else DoMergeWal(s, s.writer.value)
    case FreezeMem => if s.writer.None? then s else DoFreezeMem(s, s.writer.value)
    case FlushMem(id, rows) => if s.writer.None? then s else DoFlushMem(s, s.writer.value, id, rows)
    case LoadWriter => if s.writer.None? then s else DoLoadWriter(s, s.writer.value)
    case PublishWriter => if s.writer.None? then s else DoPublishWriter(s, s.writer.value)
    case CrashWriter => DropWriter(s)
    case OpenWriter(limit) => DoOpenWriter(s, limit)
    case OpenCompactor => DoOpenCompactor(s)
    case CrashCompactor => s.(compactor := None)
    case LoadCompactor => if s.compactor.None? then s else DoLoadCompactor(s, s.compactor.value)
    case Plan => if s.compactor.None? then s else DoPlan(s, s.compactor.value)
    case FinishJob(ok, rows) => if s.compactor.None? then s else DoFinishJob(s, s.compactor.value, ok, rows)
    case TakeResult => if s.compactor.None? then s else DoTakeResult(s, s.compactor.value)
    case PublishCompactor => if s.compactor.None? then s else DoPublishCompactor(s, s.compactor.value)
    case ZombieRefresh(z) =>
      if z in s.zombies && s.log != [] then s.(zombies := s.zombies - {z} + {RefreshHandle(z, s.log)}) else s
    case ZombiePublish(z, core) =>
      if z in s.zombies && Lands(z, s.log) then
        s.(log := s.log + [Updated(z, core).manifest], zombies := s.zombies - {z} + {Updated(z, core)})
      else s
  }

  ghost function Run(steps: seq<Step>): Sys {
    RunFrom(Start, steps)
  }

  ghost function RunFrom(s: Sys, steps: seq<Step>): Sys {
    if steps == [] then s else Do(RunFrom(s, steps[..|steps| - 1]), steps[|steps| - 1])
  }

  // ---- the writer's WAL and memtable steps

  /** FreezeWAL: a WAL of size zero is left alone. */
  ghost function DoFreezeWal(s: Sys, w: Writer): Sys {
    if RowsSize(w.st.wal) == 0 then s
    else s.(frozen := s.frozen + [s.tail], tail := [], writer := Some(w.(st := WithWalFrozen(w.st))))
  }

  /** What replaying a WAL written with these rows puts into the memtable. */
  ghost function Replays(rows: Rows): Rows {
    Apply(ScanOf(rows))
  }

  /** The upload of the oldest immutable WAL in flushImmWALs. The table may not be readable at all, as
      one of 4 GiB or more. */
  ghost function DoUploadWal(s: Sys, w: Writer, readable: bool): Sys {
    if w.st.immWals == [] || w.popped.Some? then s else
      var oldest := w.st.immWals[|w.st.immWals| - 1];
      s.(wals := s.wals[oldest.id := if readable then Some(Replays(oldest.rows)) else None],
         durable := if s.durable < oldest.id then oldest.id else s.durable)
  }

  /** PopImmWAL, once the upload returned. */
  function DoPopWal(s: Sys, w: Writer): Sys {
    if w.st.immWals == [] || w.popped.Some? || w.st.immWals[|w.st.immWals| - 1].id !in s.wals then s
    else s.(writer := Some(w.(st := WithWalPopped(w.st), popped := Some(w.st.immWals[|w.st.immWals| - 1]))))
  }

  function DoMergeWal(s: Sys, w: Writer): Sys {
    if w.popped.None? then s
    else s.(writer := Some(w.(st := WithWalMerged(w.st, w.popped.value), popped := None)))
  }

  /** maybeFreezeMemtable after a merge, or FlushMemtableToL0; both pass the memtable's last WAL id. */
  function DoFreezeMem(s: Sys, w: Writer): Sys {
    if w.st.memtable.lastWal.None? then s
    else s.(writer := Some(w.(st := WithMemtableFrozen(w.st, w.st.memtable.lastWal.value))))
  }

  /** One round of flushImmMemtablesToL0: upload under a new ULID, then MoveImmMemtableToL0. Lookups in
      the table find `rows`. A memtable with a row for the empty key makes the block builder panic. */
  ghost function DoFlushMem(s: Sys, w: Writer, id: nat, rows: Rows): Sys {
    if w.st.immMems == [] || id in s.usedIds then s else
      var oldest := w.st.immMems[|w.st.immMems| - 1];
      if [] in oldest.rows then DropWriter(s) else
      if !Finds(oldest.rows, rows) then s else
      var sst := Sst(id, rows, ScanOf(oldest.rows));
      s.(usedIds := s.usedIds + {id},
         writer := Some(w.(st := WithL0Table(w.st, sst), pending := w.pending + [Flush(sst, oldest.lastWal)])))
  }

  // ---- the writer and the manifest

  function DoLoadWriter(s: Sys, w: Writer): Sys {
    if s.log == [] then s else
      var h := RefreshHandle(w.handle, s.log);
      s.(writer := Some(if CheckEpoch(h) == Passed then w.(handle := h, st := WithManifest(w.st, h.manifest.core))
                        else w.(handle := h)))
  }

  function DoPublishWriter(s: Sys, w: Writer): Sys {
    if !Lands(w.handle, s.log) || !(1 <= w.handle.id <= |s.marks|) then s else
      var h := Updated(w.handle, w.st.core);
      s.(log := s.log + [h.manifest],
         marks := s.marks + [Mark(|s.flushed| + |w.pending|, s.marks[w.handle.id - 1].compacted)],
         flushed := s.flushed + w.pending,
         writer := Some(w.(handle := h, pending := [])))
  }

  /** Whatever was not uploaded is lost with the process. */
  function DropWriter(s: Sys): Sys {
    if s.writer.None? || s.durable > |s.frozen| then s
    else s.(frozen := s.frozen[..s.durable], tail := [], writer := None)
  }

  /** The loop of replayWAL: puts each WAL into the memtable, freezes it when it is large, and
      raises the next WAL id only when it equals the id just replayed. The memtable's last WAL id
      is not set. */
  ghost function Replay(st: State, wals: map<nat, Option<Rows>>, ids: seq<nat>, limit: nat): State {
    if ids == [] then st else
      var before := Replay(st, wals, ids[..|ids| - 1], limit);
      var id := ids[|ids| - 1];
      ReplayOne(before, id, if id in wals && wals[id].Some? then wals[id].value else map[], limit)
  }

  predicate Readable(wals: map<nat, Option<Rows>>, ids: seq<nat>) {
    forall i :: 0 <= i < |ids| ==> ids[i] in wals && wals[ids[i]].Some?
  }

  /** The capacity of the channel that each freeze sends on. Nothing receives from it before the
      replay is over. */
  const NOTIFY_CAPACITY: nat := 255

  ghost function ReplayOne(st: State, id: nat, rows: Rows, limit: nat): State {
    var put := st.(memtable := st.memtable.(rows := st.memtable.rows + rows));
    var kept := if RowsSize(put.memtable.rows) < limit then put else WithMemtableFrozen(put, id);
    if kept.core.nextWal == id then kept.(core := kept.core.(nextWal := id + 1)) else kept
  }

  lemma ReplaySnoc(st: State, wals: map<nat, Option<Rows>>, ids: seq<nat>, limit: nat)
    requires ids != []
    ensures var n := |ids| - 1;
      var rows := if ids[n] in wals && wals[ids[n]].Some? then wals[ids[n]].value else map[];
      Replay(st, wals, ids, limit) == ReplayOne(Replay(st, wals, ids[..n], limit), ids[n], rows, limit)
  {
    hide ReplayOne;
  }

  lemma ReplayNothing(st: State, wals: map<nat, Option<Rows>>, limit: nat)
    ensures Replay(st, wals, [], limit) == st
  {
  }

  /** Open: loads the latest manifest, raises the writer epoch, replays the WALs above the last
      compacted one, and panics unless the next WAL id is one above the last id replayed. It fails if
      one of the WALs cannot be read, and blocks for good if replay freezes more memtables than the
      channel takes. A writer that still runs is fenced from here on. */
  ghost function DoOpenWriter(s: Sys, limit: nat): Sys {
    if s.log == [] || |s.marks| != |s.log| then s else
      var m := Bump(WriterEpoch, s.log[|s.log| - 1]);
      var h := Handle(WriterEpoch, m.writerEpoch, |s.log| + 1, m);
      var ids := IdsAbove(s.wals.Keys, m.core.lastCompactedWal);
      var st := Replay(NewState(m.core), s.wals, ids, limit);
      var replaced := if s.writer.Some? then {s.writer.value.handle} else {};
      DropWriter(s).(
        log := s.log + [m],
        marks := s.marks + [s.marks[|s.marks| - 1]],
        zombies := s.zombies + replaced,
        writer := if Readable(s.wals, ids) && |st.immMems| <= NOTIFY_CAPACITY
                     && Replayed(m.core.lastCompactedWal, ids) + 1 == st.core.nextWal
                  then Some(Writer(h, st, None, []))
                  else None)
  }

  function Replayed(last: nat, ids: seq<nat>): nat {
    if ids == [] then last else ids[|ids| - 1]
  }

  // ---- the compactor

  function DoOpenCompactor(s: Sys): Sys {
    if s.log == [] || |s.marks| != |s.log| then s else
      var m := Bump(CompactorEpoch, s.log[|s.log| - 1]);
      var h := Handle(CompactorEpoch, m.compactorEpoch, |s.log| + 1, m);
      var replaced := if s.compactor.Some? then {s.compactor.value.handle} else {};
      var mark := s.marks[|s.marks| - 1];
      s.(log := s.log + [m],
         marks := s.marks + [mark],
         zombies := s.zombies + replaced,
         compactor := Some(Compactor(h, CState(m.core, map[]), [], [], mark.compacted)))
  }

  /** loadManifest; an error makes the orchestrator's assertion panic. */
  function DoLoadCompactor(s: Sys, c: Compactor): Sys {
    if s.log == [] then s else
      var h := RefreshHandle(c.handle, s.log);
      s.(compactor := if CheckEpoch(h) != Passed then None
                      else Some(c.(handle := h, st := WithWriterState(c.st, h.manifest.core))))
  }

  /** maybeScheduleCompactions: submit, and start the job if it was accepted. */
  ghost function DoPlan(s: Sys, c: Compactor): Sys {
    if Schedule(c.st.db) == [] then s else
      var n := Schedule(c.st.db)[0];
      if !Accepts(c.st, n) then s
      else s.(compactor := Some(c.(st := WithCompaction(c.st, n), running := c.running + [JobFor(c.st.db, n)])))
  }

  /** What a job merges: its tables, newest first, as scans yield them, then its runs in key order. */
  ghost function JobSources(job: Job): seq<seq<RowEntry>> {
    seq(|job.ssts|, i requires 0 <= i < |job.ssts| => job.ssts[i].scan) +
    seq(|job.runs|, i requires 0 <= i < |job.runs| => Listing(job.runs[i].rows))
  }

  /** What a job writes, in order. */
  ghost function JobOut(job: Job): seq<RowEntry> {
    PersistEntries(MergeSorts.Merge(JobSources(job), []))
  }

  /** Writing a row for the empty key makes the block builder panic. */
  ghost predicate JobPanics(job: Job) {
    exists e :: e in JobOut(job) && e.key == []
  }

  /** What lookups in the written run may find. If the job writes its rows in order, exactly these; a
      search in a run that is out of order may miss some. */
  ghost predicate RunFinds(job: Job, rows: Rows) {
    StorableRows(rows) && (Sorted(JobOut(job)) ==> rows == Apply(JobOut(job)))
  }

  /** A worker finishes and sends its result; lookups in its run find `rows`. */
  ghost function DoFinishJob(s: Sys, c: Compactor, ok: bool, rows: Rows): Sys {
    if c.running == [] then s else
      var job := c.running[0];
      var done := c.(running := c.running[1..]);
      if !ok then s.(compactor := Some(done.(results := c.results + [Failure]))) else
      if JobPanics(job) then s.(compactor := None) else
      if !RunFinds(job, rows) then s else
      s.(compactor := Some(done.(results := c.results + [Success(SortedRun(job.destination, rows, Ids(job.ssts)))])))
  }

  /** processCompactionResult: a failed job leaves its compaction registered; a successful one is
      finished, and the order assertion may panic. */
  ghost function DoTakeResult(s: Sys, c: Compactor): Sys {
    if c.results == [] then s else
      var rest := c.(results := c.results[1..]);
      match c.results[0]
      case Failure => s.(compactor := Some(rest))
      case Success(run) =>
        var st := WithFinished(c.st, run);
        var moved := if run.id in c.st.compactions then |run.sources| else 0;
        s.(compactor := if InIdOrder(st.db.compacted) then Some(rest.(st := st, covered := c.covered + moved))
                        else None)
  }

  function DoPublishCompactor(s: Sys, c: Compactor): Sys {
    if !Lands(c.handle, s.log) || !(1 <= c.handle.id <= |s.marks|) then s else
      var h := Updated(c.handle, c.st.db);
      s.(log := s.log + [h.manifest],
         marks := s.marks + [Mark(s.marks[c.handle.id - 1].published, c.covered)],
         compactor := Some(c.(handle := h)))
  }
}
