/** What holds in every run of the system. */
module Safety {
  import opened Types
  import opened CoreState
  import opened Protocol
  import opened Coverage
  import opened Invariants
  import opened WriterSteps
  import opened ManifestSteps
  import opened CompactorSteps
  import opened Recovery

  lemma StartOK()
    ensures Inv(Start)
  {
    assert CoreOK(NewCore, [], 0, 0);
  }

  lemma CrashCompactorKeeps(s: Sys)
    requires Inv(s)
    ensures Inv(s.(compactor := None))
  {
    hide LogOK, WriterOK, CompactorOK, FlushOK, UniqueIds, WalsOK, Replaced;
    assert AllFlushes(s.(compactor := None)) == AllFlushes(s);
  }

  lemma DoKeeps(s: Sys, step: Step)
    requires Inv(s)
    ensures Inv(Do(s, step))
  {
    hide Inv, DoFreezeWal, DoUploadWal, DoPopWal, DoMergeWal, DoFreezeMem, DoFlushMem, DoLoadWriter, DoPublishWriter,
         DropWriter, DoOpenWriter, DoOpenCompactor, DoLoadCompactor, DoPlan, DoFinishJob, DoTakeResult,
         DoPublishCompactor;
    match step
    case Put(entry) => PutKeeps(s, entry);
    case FreezeWal => if s.writer.Some? { FreezeWalKeeps(s, s.writer.value); }
    case UploadWal(readable) => if s.writer.Some? { UploadWalKeeps(s, s.writer.value, readable); }
    case PopWal => if s.writer.Some? { PopWalKeeps(s, s.writer.value); }
    case MergeWal => if s.writer.Some? { MergeWalKeeps(s, s.writer.value); }
    case FreezeMem => if s.writer.Some? { FreezeMemKeeps(s, s.writer.value); }
    case FlushMem(id, rows) => if s.writer.Some? { FlushMemKeeps(s, s.writer.value, id, rows); }
    case LoadWriter => if s.writer.Some? { LoadWriterKeeps(s, s.writer.value); }
    case PublishWriter => if s.writer.Some? { PublishWriterKeeps(s, s.writer.value); }
    case CrashWriter => DropWriterKeeps(s);
    case OpenWriter(limit) => OpenWriterKeeps(s, limit);
    case OpenCompactor => OpenCompactorKeeps(s);
    case CrashCompactor => CrashCompactorKeeps(s);
    case LoadCompactor => if s.compactor.Some? { LoadCompactorKeeps(s, s.compactor.value); }
    case Plan => if s.compactor.Some? { PlanKeeps(s, s.compactor.value); }
    case FinishJob(ok, rows) => if s.compactor.Some? { FinishJobKeeps(s, s.compactor.value, ok, rows); }
    case TakeResult => if s.compactor.Some? { TakeResultKeeps(s, s.compactor.value); }
    case PublishCompactor => if s.compactor.Some? { PublishCompactorKeeps(s, s.compactor.value); }
    case ZombieRefresh(z) => ZombieKeeps(s, step);
    case ZombiePublish(z, core) => ZombieKeeps(s, step);
  }

  lemma {:induction false} RunFromKeeps(s: Sys, steps: seq<Step>)
    requires Inv(s)
    ensures Inv(RunFrom(s, steps))
  {
    hide Inv, Do;
    if steps != [] {
      RunFromKeeps(s, steps[..|steps| - 1]);
      DoKeeps(RunFrom(s, steps[..|steps| - 1]), steps[|steps| - 1]);
    }
  }

  lemma RunKeeps(steps: seq<Step>)
    ensures Inv(Run(steps))
  {
    hide Inv, Do;
    StartOK();
    RunFromKeeps(Start, steps);
  }
}
