/** What the agent makes of a recording that has grown to the minimum size. */
module LifecycleRecording {
  import opened TrackedFiles
  import opened Registries
  import opened NetworkRecovery
  import opened GrowthDetection
  import opened Lifecycle
  import opened LifecycleSanity
  import opened LifecycleSafety
  import opened LifecycleHistory

  /** A sampled file that has grown, to the minimum size or beyond, and is known to be growing. */
  predicate Recording(cfg: DetectorSettings, f: TrackedFile) {
    && f.growth.lastCheck.Some? && 0 < f.growth.firstSeenSize < f.size && cfg.minSize <= f.size
    && f.status in {Growing, ReadyToStartGrowing}
  }

  /** A recording, or one that is over for the agent. */
  predicate RecordingOrGone(cfg: DetectorSettings, f: TrackedFile) {
    Recording(cfg, f) || f.status in {Failed, Removed}
  }

  /** Or one that another entry's copy has taken over. */
  predicate RecordingOrTaken(cfg: DetectorSettings, f: TrackedFile) {
    RecordingOrGone(cfg, f) || Busy(f.status)
  }

  /** The step does not see the file of `id` shorter than it is on record. */
  predicate NoShrinking(a: Agent, e: Step, id: Id) {
    a.reg.Tracks(id) ==>
      && (e.Sampled? && e.id == id && e.seen.Size? ==> a.reg.files.vals[id].size <= e.seen.bytes)
      && (e.GrowthNoted? && e.id == id ==> a.reg.files.vals[id].size <= e.size)
      && (e.SizeChanged? && e.id == id ==> a.reg.files.vals[id].size <= e.size)
  }

  lemma SampledRecording(cfg: DetectorSettings, r: Registry, id: Id, seen: Observation, now: Time)
    requires r.Tracks(id) && Recording(cfg, r.files.vals[id])
    requires seen.Size? ==> r.files.vals[id].size <= seen.bytes
    ensures var r' := SampleEntry(cfg, r, id, seen, now); r'.Tracks(id) && RecordingOrGone(cfg, r'.files.vals[id])
  {
  }

  /** The scanner's bookkeeping, which does not shrink it, keeps a recording a recording. */
  lemma NoteKeepsRecording(cfg: Settings, a: Agent, e: Step, id: Id)
    requires Sane(cfg, a) && Enabled(a, e) && (e.SizeChanged? || e.GrowthNoted?) && NoShrinking(a, e, id)
    requires a.reg.Tracks(id) && RecordingOrGone(cfg.detector, a.reg.files.vals[id])
    ensures var r' := Next(cfg, a, e).reg; r'.Tracks(id) && RecordingOrGone(cfg.detector, r'.files.vals[id])
  {
    hide RetryHasTask, DistinctJobs, JobsKnown, JobsBusy, WaitsBounded, UpdateStatus;
    var f := a.reg.files.vals[e.id];
    var patch := if e.SizeChanged? then SetSize(e.size) else UpdateGrowthInfo(f, e.size, e.now);
    UpdateEffect(a.reg, e.id, f.status, patch, e.now);
  }

  /** A cleanup leaves a recording as it is, removes it or forgets it. */
  lemma MissingKeepsRecording(cfg: Settings, a: Agent, e: Step, id: Id)
    requires Sane(cfg, a) && Enabled(a, e) && a.reg.Tracks(id) && RecordingOrGone(cfg.detector, a.reg.files.vals[id])
    requires e.MissingCleaned?
    ensures var r' := Next(cfg, a, e).reg; r'.Tracks(id) ==> RecordingOrGone(cfg.detector, r'.files.vals[id])
  {
    hide RetryHasTask, DistinctJobs, JobsKnown, JobsBusy, WaitsBounded, CleanupMissing, Recording, Changed;
    MissingMarks(a.reg, e.existing);
  }

  lemma OldKeepsRecording(cfg: Settings, a: Agent, e: Step, id: Id)
    requires Sane(cfg, a) && Enabled(a, e) && a.reg.Tracks(id) && RecordingOrGone(cfg.detector, a.reg.files.vals[id])
    requires e.OldCleaned?
    ensures var r' := Next(cfg, a, e).reg; r'.Tracks(id) ==> RecordingOrGone(cfg.detector, r'.files.vals[id])
  {
    hide RetryHasTask, OneActive, DistinctJobs, JobsKnown, JobsBusy, WaitsBounded, CleanupOld,
         RecordingOrGone, Outlives;
    CleanupOldIsSound(a.reg, e.cutoff);
  }

  lemma RetryKeepsRecording(cfg: DetectorSettings, r: Registry, x: Id, id: Id)
    requires r.Tracks(id) && RecordingOrGone(cfg, r.files.vals[id])
    ensures CancelRetry(r, x).0.Tracks(id) && RecordingOrGone(cfg, CancelRetry(r, x).0.files.vals[id])
    ensures x in r.tasks && r.tasks[x].Pending? ==>
      FireRetry(r, x).Tracks(id) && RecordingOrGone(cfg, FireRetry(r, x).files.vals[id])
  {
  }

  /** Discoveries, recovery and retries leave a recording as it is. */
  lemma FoundKeepsRecording(cfg: Settings, a: Agent, e: Step, id: Id)
    requires Sane(cfg, a) && Enabled(a, e) && a.reg.Tracks(id) && RecordingOrGone(cfg.detector, a.reg.files.vals[id])
    requires e.FileDiscovered? || e.NetworkRecovered?
    ensures var r' := Next(cfg, a, e).reg; r'.Tracks(id) ==> RecordingOrGone(cfg.detector, r'.files.vals[id])
  {
    assert a.reg.StatusOf(id) != WaitingForNetwork;
    hide RetryHasTask, OneActive, DistinctJobs, JobsKnown, JobsBusy, WaitsBounded, AddFile, ProcessWaiting,
         RecordingOrGone;
    if e.FileDiscovered? {
      AddFileIsSound(a.reg, e.path, e.size, e.now);
    } else {
      RecoveryTouchesOnlyWaiting(a.reg, e.now);
    }
  }

  lemma FiredKeepsRecording(cfg: Settings, a: Agent, e: Step, id: Id)
    requires Sane(cfg, a) && Enabled(a, e) && a.reg.Tracks(id) && RecordingOrGone(cfg.detector, a.reg.files.vals[id])
    requires e.RetryFired? || e.RetryCancelled?
    ensures var r' := Next(cfg, a, e).reg; r'.Tracks(id) ==> RecordingOrGone(cfg.detector, r'.files.vals[id])
  {
    hide Backed, DistinctJobs, JobsKnown, JobsBusy, WaitsBounded, FireRetry, CancelRetry, RecordingOrGone;
    RetryKeepsRecording(cfg.detector, a.reg, e.id, id);
  }

  /** A step of the registry alone keeps a recording a recording, drops it, or ends it. */
  lemma FreeStepKeepsRecording(cfg: Settings, a: Agent, e: Step, id: Id)
    requires Sane(cfg, a) && Enabled(a, e) && !IsJobStep(e) && NoShrinking(a, e, id)
    requires a.reg.Tracks(id) && RecordingOrGone(cfg.detector, a.reg.files.vals[id])
    ensures var r' := Next(cfg, a, e).reg; r'.Tracks(id) ==> RecordingOrGone(cfg.detector, r'.files.vals[id])
  {
    hide RetryHasTask, OneActive, DistinctJobs, JobsKnown, JobsBusy, WaitsBounded, SampleEntry, HasJob;
    if e.SizeChanged? || e.GrowthNoted? {
      hide Next, RecordingOrGone;
      NoteKeepsRecording(cfg, a, e, id);
    } else if e.MissingCleaned? {
      hide Next, RecordingOrGone;
      MissingKeepsRecording(cfg, a, e, id);
    } else if e.OldCleaned? {
      hide Next, RecordingOrGone;
      OldKeepsRecording(cfg, a, e, id);
    } else if e.FileDiscovered? || e.NetworkRecovered? {
      hide Next, RecordingOrGone;
      FoundKeepsRecording(cfg, a, e, id);
    } else if !e.Sampled? {
      hide Next, RecordingOrGone;
      FiredKeepsRecording(cfg, a, e, id);
    } else if e.id == id {
      SampledRecording(cfg.detector, a.reg, id, e.seen, e.now);
    } else {
      SampleEffect(cfg.detector, a.reg, e.id, e.seen, e.now);
    }
  }

  /** A worker's step changes a recording without a job only by copying it on behalf of another entry. */
  lemma JobStepKeepsRecording(cfg: Settings, a: Agent, e: Step, id: Id)
    requires Sane(cfg, a) && Enabled(a, e) && IsJobStep(e) && !HasJob(a, id)
    requires a.reg.Tracks(id) && RecordingOrGone(cfg.detector, a.reg.files.vals[id])
    ensures var r' := Next(cfg, a, e).reg; r'.Tracks(id) ==> RecordingOrTaken(cfg.detector, r'.files.vals[id])
  {
    hide RetryHasTask, DistinctJobs, JobsKnown, JobsBusy, WaitsBounded, HasJob, Targeted, Next;
    if e.JobTaken? {
      TakingKeepsJobs(cfg, a);
    } else if e.FileReady? {
      ReadyLeavesOthers(cfg, a, e, id);
    } else {
      WorkerMoves(cfg, a, e);
    }
  }

  lemma ReadyLeavesOthers(cfg: Settings, a: Agent, e: Step, id: Id)
    requires a.reg.Valid() && Enabled(a, e) && e.FileReady? && a.reg.Tracks(id) && a.reg.StatusOf(id) != Ready
    ensures var r' := Next(cfg, a, e).reg; r'.Tracks(id) && r'.files.vals[id] == a.reg.files.vals[id]
  {
    hide UpdateStatus;
    UpdateEffect(a.reg, e.id, InQueue, NoPatch, e.now);
    UpdateEffect(a.reg, e.id, WaitingForNetwork, NoPatch, e.now);
  }

  lemma StepKeepsRecording(cfg: Settings, a: Agent, e: Step, id: Id)
    requires Sane(cfg, a) && Enabled(a, e) && NoShrinking(a, e, id) && id < a.reg.nextId && !HasJob(a, id)
    requires a.reg.Tracks(id) ==> RecordingOrTaken(cfg.detector, a.reg.files.vals[id])
    ensures var a' := Next(cfg, a, e);
      !HasJob(a', id) && (a'.reg.Tracks(id) ==> RecordingOrTaken(cfg.detector, a'.reg.files.vals[id]))
  {
    hide RetryHasTask, DistinctJobs, JobsKnown, JobsBusy, WaitsBounded, HasJob, Targeted, Next;
    StepMoves(cfg, a, e, id);
    if a.reg.Tracks(id) && RecordingOrGone(cfg.detector, a.reg.files.vals[id]) {
      if IsJobStep(e) {
        JobStepKeepsRecording(cfg, a, e, id);
      } else {
        FreeStepKeepsRecording(cfg, a, e, id);
      }
    }
  }

  /** A run in which the file of `id` is never seen to shrink. */
  ghost predicate GrowingRun(cfg: Settings, a: Agent, steps: seq<Step>, end: Agent, id: Id)
    requires Sane(cfg, a)
    decreases |steps|
  {
    if steps == [] then end == a
    else
      Enabled(a, steps[0]) && NoShrinking(a, steps[0], id) &&
      (StepKeepsSane(cfg, a, steps[0]);
       GrowingRun(cfg, Next(cfg, a, steps[0]), steps[1..], end, id))
  }

  /**
   The documented way of a growing file leads from ReadyToStartGrowing into the queue. The program has
   no such step: over any run in which it does not shrink, a recording that has grown to the minimum size
   never gets a job. It stays growing until it disappears, fails or is forgotten, or until the copy of a
   forgotten entry of its path takes it over.
   */
  lemma {:induction false} RecordingIsNeverQueued(cfg: Settings, a: Agent, steps: seq<Step>, end: Agent, id: Id)
    requires Sane(cfg, a) && GrowingRun(cfg, a, steps, end, id) && id < a.reg.nextId && !HasJob(a, id)
    requires a.reg.Tracks(id) ==> RecordingOrTaken(cfg.detector, a.reg.files.vals[id])
    ensures !HasJob(end, id) && (end.reg.Tracks(id) ==> RecordingOrTaken(cfg.detector, end.reg.files.vals[id]))
    decreases |steps|
  {
    hide RetryHasTask, DistinctJobs, JobsKnown, JobsBusy, WaitsBounded, Next, Enabled, HasJob,
         RecordingOrTaken, NoShrinking, Targeted;
    if steps != [] {
      StepKeepsSane(cfg, a, steps[0]);
      StepMoves(cfg, a, steps[0], id);
      StepKeepsRecording(cfg, a, steps[0], id);
      RecordingIsNeverQueued(cfg, Next(cfg, a, steps[0]), steps[1..], end, id);
    }
  }

  /** When copies report to their own entries, no worker's step touches an entry without a job. */
  lemma OrderlyJobStepLeaves(cfg: Settings, a: Agent, e: Step, id: Id)
    requires AgentOk(cfg, a) && Enabled(a, e) && IsJobStep(e)
    requires !HasJob(a, id) && a.reg.Tracks(id) && a.reg.StatusOf(id) != Ready
    ensures var r' := Next(cfg, a, e).reg; r'.Tracks(id) && r'.files.vals[id] == a.reg.files.vals[id]
  {
    hide RetryHasTask, OneActive, DistinctJobs, JobsKnown, JobsBusy, WaitsBounded, Targeted, Next, Queued;
    if e.JobTaken? {
      TakingKeepsJobs(cfg, a);
    } else if e.FileReady? {
      ReadyLeavesOthers(cfg, a, e, id);
    } else {
      assert JobOk(a.reg, e.id, a.running[e.id]);
      WorkerMoves(cfg, a, e);
    }
  }

  /** In an orderly run it is not copied for another entry either: it stays growing until it is gone. */
  lemma {:induction false} RecordingStaysGrowing(cfg: Settings, a: Agent, steps: seq<Step>, end: Agent, id: Id)
    requires AgentOk(cfg, a) && OrderlyRun(cfg, a, steps, end) && GrowingRun(cfg, a, steps, end, id)
    requires id < a.reg.nextId && !HasJob(a, id)
    requires a.reg.Tracks(id) ==> RecordingOrGone(cfg.detector, a.reg.files.vals[id])
    ensures !HasJob(end, id) && (end.reg.Tracks(id) ==> RecordingOrGone(cfg.detector, end.reg.files.vals[id]))
    decreases |steps|
  {
    hide RetryHasTask, OneActive, DistinctJobs, JobsKnown, JobsBusy, JobsMatch, WaitsBounded, Next, Enabled, HasJob,
         NoShrinking, Targeted, TargetFor;
    if steps != [] {
      var e := steps[0];
      StepIsSafe(cfg, a, e);
      StepMoves(cfg, a, e, id);
      if a.reg.Tracks(id) {
        if IsJobStep(e) {
          OrderlyJobStepLeaves(cfg, a, e, id);
        } else {
          FreeStepKeepsRecording(cfg, a, e, id);
        }
      }
      RecordingStaysGrowing(cfg, Next(cfg, a, e), steps[1..], end, id);
    }
  }
}
