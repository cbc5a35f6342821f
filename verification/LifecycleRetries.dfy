/** When a scheduled retry still finds its entry waiting for it. */
module LifecycleRetries {
  import opened Wrappers
  import opened TrackedFiles
  import opened Selection
  import opened Registries
  import opened NetworkRecovery
  import opened GrowthDetection
  import opened SpaceRetry
  import opened Lifecycle
  import opened LifecycleSanity
  import opened LifecycleHistory

  /**
   The detector does not pass over files waiting for space, and every sample of one ends its wait,
   whatever is seen: the entry takes the recommended status. Unless that is a terminal one, the retry
   sleeps on.
   */
  lemma SamplePreemptsRetry(cfg: Settings, a: Agent, id: Id, seen: Observation, now: Time)
    requires Sane(cfg, a) && a.reg.Tracks(id) && a.reg.StatusOf(id) == WaitingForSpace
    ensures var e, s := Sampled(id, seen, now), CheckGrowth(cfg.detector, a.reg.files.vals[id], seen, now).status;
      && Enabled(a, e) && s != WaitingForSpace
      && var r' := Next(cfg, a, e).reg;
         && r'.Tracks(id) && r'.StatusOf(id) == s
         && (!IsTerminal(s) ==> r'.tasks == a.reg.tasks && r'.files.vals[id].retry == a.reg.files.vals[id].retry)
  {
    hide RetryHasTask, DistinctJobs, JobsKnown, JobsBusy, WaitsBounded, UpdateStatus, CheckGrowth, Apply, Stamp;
    var f := a.reg.files.vals[id];
    Recommendations(cfg.detector, f, seen, now);
    var v := CheckGrowth(cfg.detector, f, seen, now);
    UpdateEffect(a.reg, id, f.status, v.patch, now);
    var r1 := if seen.Size? then UpdateStatus(a.reg, id, f.status, v.patch, now) else a.reg;
    UpdateEffect(r1, id, v.status, NoPatch, now);
  }

  /** The entry waits for its retry, which is asleep until `dueAt`. */
  predicate WaitsUntil(r: Registry, id: Id, dueAt: Time) {
    Awaited(r, id) && id in r.tasks && r.tasks[id] == Pending(dueAt)
  }

  /** A shortage that schedules a wait leaves the entry waiting until the delay is over. */
  lemma ShortageStartsWait(cfg: Settings, a: Agent, id: Id, s: Shortage, now: Time)
    requires Sane(cfg, a) && InPhase(a, id, Taken) && a.reg.Tracks(id)
    requires HandleShortage(cfg.space, a.reg, id, s, now).1.WaitScheduled?
    ensures WaitsUntil(Next(cfg, a, ShortOfSpace(id, s, now)).reg, id,
                       now + (if 5 * s.available > 4 * s.required then cfg.space.delay / 2 else cfg.space.delay))
  {
    hide RetryHasTask, DistinctJobs, JobsKnown, JobsBusy, WaitsBounded, UpdateStatus, ScheduleRetry, IsTemporary,
         IncrementRetryCount;
    TemporaryIff(s);
    IncrementIsBacked(a.reg, id);
    WaitEffect(IncrementRetryCount(a.reg, id).0, id, DelayFor(cfg.space, s), now);
  }

  /**
   The steps that end the wait of `id`: its retry firing or being cancelled; a sample of it; a cleanup
   that marks or forgets it; and a copy of its path whose own entry was forgotten reporting to it.
   */
  predicate EndsWait(a: Agent, e: Step, id: Id)
    requires a.reg.Valid() && Enabled(a, e) && a.reg.Tracks(id)
  {
    var f := a.reg.files.vals[id];
    match e
    case RetryFired(x) => x == id
    case RetryCancelled(x) => x == id
    case Sampled(x, _, _) => x == id
    case MissingCleaned(existing) =>
      f.path !in existing && Pick(FoldTable, a.reg.Listing(), f.path, AnyStatus) == Some(f)
    case OldCleaned(cutoff) => !Outlives(f, cutoff)
    case CopyReported(x, _, _) => a.running[x].target == id
    case CopyDone(x, _) => a.running[x].target == id
    case _ => false
  }

  /** The entry of `id` waits on for the same retry as before. */
  ghost predicate WaitGoesOn(r: Registry, r': Registry, id: Id) {
    && r.Tracks(id) && r'.Tracks(id) && r'.StatusOf(id) == WaitingForSpace
    && r'.files.vals[id].retry == r.files.vals[id].retry
    && (id in r.tasks ==> id in r'.tasks && r'.tasks[id] == r.tasks[id])
  }

  lemma SizeWaits(cfg: Settings, a: Agent, e: Step, id: Id)
    requires Sane(cfg, a) && Enabled(a, e) && Awaited(a.reg, id) && (e.SizeChanged? || e.GrowthNoted?)
    ensures !EndsWait(a, e, id) && WaitGoesOn(a.reg, Next(cfg, a, e).reg, id)
  {
    hide RetryHasTask, DistinctJobs, JobsKnown, JobsBusy, WaitsBounded, UpdateStatus, Apply, Stamp, UpdateGrowthInfo;
    var f := a.reg.files.vals[e.id];
    UpdateEffect(
      a.reg, e.id, f.status, if e.SizeChanged? then SetSize(e.size) else UpdateGrowthInfo(f, e.size, e.now), e.now);
  }

  lemma FindingWaits(cfg: Settings, a: Agent, e: Step, id: Id)
    requires Sane(cfg, a) && Enabled(a, e) && Awaited(a.reg, id) && (e.FileDiscovered? || e.NetworkRecovered?)
    ensures !EndsWait(a, e, id) && WaitGoesOn(a.reg, Next(cfg, a, e).reg, id)
  {
    hide RetryHasTask, DistinctJobs, JobsKnown, JobsBusy, WaitsBounded, AddFile, ProcessWaiting;
    if e.FileDiscovered? {
      AddKeepsTasks(a.reg, e.path, e.size, e.now);
    } else {
      RecoveryTouchesOnlyWaiting(a.reg, e.now);
    }
  }

  lemma SampleWaits(cfg: Settings, a: Agent, e: Step, id: Id)
    requires Sane(cfg, a) && Enabled(a, e) && Awaited(a.reg, id) && e.Sampled?
    ensures var r' := Next(cfg, a, e).reg; if EndsWait(a, e, id) then !Awaited(r', id) else WaitGoesOn(a.reg, r', id)
  {
    hide RetryHasTask, DistinctJobs, JobsKnown, JobsBusy, WaitsBounded, SampleEntry, Pick;
    if e.id == id {
      SamplePreemptsRetry(cfg, a, id, e.seen, e.now);
    } else {
      SampleEffect(cfg.detector, a.reg, e.id, e.seen, e.now);
    }
  }

  lemma MissingWaits(cfg: Settings, a: Agent, e: Step, id: Id)
    requires Sane(cfg, a) && Enabled(a, e) && Awaited(a.reg, id) && e.MissingCleaned?
    ensures var r' := Next(cfg, a, e).reg; if EndsWait(a, e, id) then !Awaited(r', id) else WaitGoesOn(a.reg, r', id)
  {
    hide RetryHasTask, DistinctJobs, JobsKnown, JobsBusy, WaitsBounded, CleanupMissing, Pick, Changed, KeptWhenMissing;
    MissingMarks(a.reg, e.existing);
    CleanupMissingMarksIff(a.reg, e.existing, id);
    assert !KeptWhenMissing(WaitingForSpace) by { WaitingIsNotKept(); }
  }

  lemma WaitingIsNotKept()
    ensures !KeptWhenMissing(WaitingForSpace)
  {
  }

  lemma OldWaits(cfg: Settings, a: Agent, e: Step, id: Id)
    requires Sane(cfg, a) && Enabled(a, e) && Awaited(a.reg, id) && e.OldCleaned?
    ensures var r' := Next(cfg, a, e).reg; if EndsWait(a, e, id) then !Awaited(r', id) else WaitGoesOn(a.reg, r', id)
  {
    hide RetryHasTask, OneActive, DistinctJobs, JobsKnown, JobsBusy, WaitsBounded, CleanupOld, Outlives;
    CleanupOldIsSound(a.reg, e.cutoff);
  }

  lemma RetryWaits(cfg: Settings, a: Agent, e: Step, id: Id)
    requires Sane(cfg, a) && Enabled(a, e) && Awaited(a.reg, id) && (e.RetryFired? || e.RetryCancelled?)
    ensures var r' := Next(cfg, a, e).reg; if EndsWait(a, e, id) then !Awaited(r', id) else WaitGoesOn(a.reg, r', id)
  {
    hide RetryHasTask, DistinctJobs, JobsKnown, JobsBusy, WaitsBounded, FireRetry, CancelRetry;
    if e.RetryFired? {
      FiringLeavesOthers(a.reg, e.id, id);
    } else {
      CancellingLeavesOthers(a.reg, e.id, id);
    }
  }

  lemma FreeStepWaits(cfg: Settings, a: Agent, e: Step, id: Id)
    requires Sane(cfg, a) && Enabled(a, e) && !IsJobStep(e) && Awaited(a.reg, id)
    ensures var r' := Next(cfg, a, e).reg; if EndsWait(a, e, id) then !Awaited(r', id) else WaitGoesOn(a.reg, r', id)
  {
    hide RetryHasTask, DistinctJobs, JobsKnown, JobsBusy, WaitsBounded, Next, EndsWait, Awaited, WaitGoesOn, Enabled;
    if e.Sampled? {
      SampleWaits(cfg, a, e, id);
    } else if e.SizeChanged? || e.GrowthNoted? {
      SizeWaits(cfg, a, e, id);
    } else if e.FileDiscovered? || e.NetworkRecovered? {
      FindingWaits(cfg, a, e, id);
    } else if e.MissingCleaned? {
      MissingWaits(cfg, a, e, id);
    } else if e.OldCleaned? {
      OldWaits(cfg, a, e, id);
    } else {
      RetryWaits(cfg, a, e, id);
    }
  }

  lemma CancellingLeavesOthers(r: Registry, x: Id, id: Id)
    requires Backed(r) && Awaited(r, id)
    ensures if x == id then !Awaited(CancelRetry(r, x).0, id) else WaitGoesOn(r, CancelRetry(r, x).0, id)
  {
    hide RetryHasTask;
  }

  lemma AddKeepsTasks(r: Registry, path: Path, size: nat, now: Time)
    requires Backed(r)
    ensures var r' := AddFile(r, path, size, now).0;
      r'.tasks == r.tasks && forall x: Id :: r.Tracks(x) ==> r'.Tracks(x) && r'.files.vals[x] == r.files.vals[x]
  {
    hide Pick, OneActive, RetryHasTask;
    AddFileIsSound(r, path, size, now);
  }

  lemma FiringLeavesOthers(r: Registry, x: Id, id: Id)
    requires Backed(r) && x in r.tasks && r.tasks[x].Pending? && Awaited(r, id)
    ensures if x == id then !Awaited(FireRetry(r, x), id) else WaitGoesOn(r, FireRetry(r, x), id)
  {
    hide RetryHasTask;
  }

  /** Retry tasks of other entries are not touched by a shortage. */
  lemma ShortageLeavesTasks(cfg: SpaceSettings, r: Registry, id: Id, s: Shortage, now: Time, x: Id)
    requires x != id && x in r.tasks
    ensures var r' := HandleShortage(cfg, r, id, s, now).0; x in r'.tasks && r'.tasks[x] == r.tasks[x]
  {
    hide UpdateStatus, ScheduleRetry, IsTemporary;
    if !s.accessible {
      UpdateLeavesTasks(r, id, WaitingForNetwork, NoPatch, now, x);
    } else {
      var (r1, count) := IncrementRetryCount(r, id);
      if cfg.maxRetries <= count {
        UpdateLeavesTasks(r1, id, SpaceError, SetSpaceErrorAt(now), now, x);
      } else if s.required == 0 {
        UpdateLeavesTasks(r1, id, Failed, NoPatch, now, x);
      } else {
        UpdateLeavesTasks(r1, id, WaitingForSpace, NoPatch, now, x);
        ScheduleRetryEffect(UpdateStatus(r1, id, WaitingForSpace, NoPatch, now), id, DelayFor(cfg, s), now);
      }
    }
  }

  /** A worker's step touches the retry task of no entry but the one it writes. */
  lemma WorkerLeavesTasks(cfg: Settings, a: Agent, e: Step, id: Id)
    requires a.reg.Valid() && Enabled(a, e) && IsJobStep(e) && !e.FileReady? && !e.JobTaken?
    requires Written(a, e) != id && id in a.reg.tasks
    ensures var r' := Next(cfg, a, e).reg; id in r'.tasks && r'.tasks[id] == a.reg.tasks[id]
  {
    hide UpdateStatus, HandleShortage, TargetFor, Registry.Valid;
    var r, x := a.reg, Written(a, e);
    if e.ShortOfSpace? {
      ShortageLeavesTasks(cfg.space, r, e.id, e.shortage, e.now, id);
    } else if e.CopyStarted? && r.Tracks(x) {
      UpdateLeavesTasks(r, x, InitialStatus(r.files.vals[x]), NoPatch, e.now, id);
    } else if e.CopyReported? {
      UpdateLeavesTasks(r, x, e.status, NoPatch, e.now, id);
    } else if e.CopyDone? {
      UpdateLeavesTasks(r, x, Completed, NoPatch, e.now, id);
    } else if e.JobFinalised? {
      UpdateLeavesTasks(r, x, Completed, ResetRetryCount, e.now, id);
    } else if e.CopyRaised? {
      UpdateLeavesTasks(r, x, if e.sourceGone then Removed else Failed, NoPatch, e.now, id);
    }
  }

  /** An entry that waits has no job. */
  lemma WaitingHasNoJob(a: Agent, id: Id)
    requires JobsBusy(a) && Awaited(a.reg, id)
    ensures !HasJob(a, id)
  {
  }

  /** A worker's step that is not about the entry's own job ends its wait exactly if it writes the entry. */
  lemma WorkerEndsWaitIff(a: Agent, e: Step, id: Id)
    requires a.reg.Valid() && Enabled(a, e) && a.reg.Tracks(id)
    requires IsJobStep(e) && !e.FileReady? && !e.JobTaken? && e.id != id
    ensures EndsWait(a, e, id) <==> Written(a, e) == id
  {
  }

  lemma WorkerWaits(cfg: Settings, a: Agent, e: Step, id: Id)
    requires Sane(cfg, a) && Enabled(a, e) && IsJobStep(e) && !e.FileReady? && !e.JobTaken? && Awaited(a.reg, id)
    ensures var r' := Next(cfg, a, e).reg; if EndsWait(a, e, id) then !Awaited(r', id) else WaitGoesOn(a.reg, r', id)
  {
    hide RetryHasTask, DistinctJobs, JobsKnown, JobsBusy, WaitsBounded, Next, HasJob, Targeted, EndsWait;
    WaitingHasNoJob(a, id);
    RunningHasJob(a, e);
    WorkerEndsWaitIff(a, e, id);
    WorkerMoves(cfg, a, e);
    if Written(a, e) != id && id in a.reg.tasks {
      WorkerLeavesTasks(cfg, a, e, id);
    }
  }

  lemma RunningHasJob(a: Agent, e: Step)
    requires Enabled(a, e) && IsJobStep(e) && !e.FileReady? && !e.JobTaken?
    ensures HasJob(a, e.id)
  {
  }

  lemma JobStepWaits(cfg: Settings, a: Agent, e: Step, id: Id)
    requires Sane(cfg, a) && Enabled(a, e) && IsJobStep(e) && Awaited(a.reg, id)
    ensures var r' := Next(cfg, a, e).reg; if EndsWait(a, e, id) then !Awaited(r', id) else WaitGoesOn(a.reg, r', id)
  {
    hide RetryHasTask, DistinctJobs, JobsKnown, JobsBusy, WaitsBounded, Next, HasJob;
    if e.FileReady? {
      ReadyLeavesWaiting(cfg, a, e, id);
    } else if e.JobTaken? {
      TakingKeepsJobs(cfg, a);
    } else {
      WorkerWaits(cfg, a, e, id);
    }
  }

  lemma ReadyLeavesWaiting(cfg: Settings, a: Agent, e: Step, id: Id)
    requires a.reg.Valid() && Enabled(a, e) && e.FileReady? && Awaited(a.reg, id)
    ensures WaitGoesOn(a.reg, Next(cfg, a, e).reg, id)
  {
    hide UpdateStatus;
    UpdateEffect(a.reg, e.id, InQueue, NoPatch, e.now);
    UpdateEffect(a.reg, e.id, WaitingForNetwork, NoPatch, e.now);
  }

  /** A step ends the wait of an entry if and only if it is one of those; every other leaves its retry as it was. */
  lemma StepEndsWaitIff(cfg: Settings, a: Agent, e: Step, id: Id, dueAt: Time)
    requires Sane(cfg, a) && Enabled(a, e) && WaitsUntil(a.reg, id, dueAt)
    ensures Awaited(Next(cfg, a, e).reg, id) <==> !EndsWait(a, e, id)
    ensures !EndsWait(a, e, id) ==> WaitsUntil(Next(cfg, a, e).reg, id, dueAt)
  {
    hide RetryHasTask, DistinctJobs, JobsKnown, JobsBusy, WaitsBounded, Next, EndsWait;
    if IsJobStep(e) {
      JobStepWaits(cfg, a, e, id);
    } else {
      FreeStepWaits(cfg, a, e, id);
    }
  }

  /** The entry waits for its retry in every state of the run. */
  ghost predicate AwaitedAlong(cfg: Settings, a: Agent, steps: seq<Step>, id: Id)
    requires Sane(cfg, a)
    decreases |steps|
  {
    Awaited(a.reg, id) &&
    (steps != [] && Enabled(a, steps[0]) ==>
       (StepKeepsSane(cfg, a, steps[0]);
        AwaitedAlong(cfg, Next(cfg, a, steps[0]), steps[1..], id)))
  }

  /** No step of the run is one that ends the wait. */
  ghost predicate WaitUndisturbed(cfg: Settings, a: Agent, steps: seq<Step>, id: Id)
    requires Sane(cfg, a)
    decreases |steps|
  {
    steps != [] && Enabled(a, steps[0]) ==>
      (a.reg.Tracks(id) ==> !EndsWait(a, steps[0], id)) &&
      (StepKeepsSane(cfg, a, steps[0]);
       WaitUndisturbed(cfg, Next(cfg, a, steps[0]), steps[1..], id))
  }

  /**
   Over any run from a scheduled wait, the entry waits all along if and only if no step samples it, marks or
   forgets it, fires or cancels its retry, or copies it for a forgotten entry. Then, and only while it
   waits, the retry finds it: it can still fire, and makes the entry ready.
   */
  lemma {:induction false} RetryFindsItsEntryIff(
    cfg: Settings, a: Agent, steps: seq<Step>, end: Agent, id: Id, dueAt: Time)
    requires Sane(cfg, a) && Run(cfg, a, steps, end) && WaitsUntil(a.reg, id, dueAt)
    ensures AwaitedAlong(cfg, a, steps, id) <==> WaitUndisturbed(cfg, a, steps, id)
    ensures WaitUndisturbed(cfg, a, steps, id) ==>
      WaitsUntil(end.reg, id, dueAt) && end.reg.Valid() && Enabled(end, RetryFired(id)) &&
      Next(cfg, end, RetryFired(id)).reg.Tracks(id) && Next(cfg, end, RetryFired(id)).reg.StatusOf(id) == Ready
    decreases |steps|
  {
    hide RetryHasTask, DistinctJobs, JobsKnown, JobsBusy, WaitsBounded, Next, EndsWait;
    if steps == [] {
      FiringWakes(cfg, a, id);
    } else {
      StepKeepsSane(cfg, a, steps[0]);
      StepEndsWaitIff(cfg, a, steps[0], id, dueAt);
      if !EndsWait(a, steps[0], id) {
        RetryFindsItsEntryIff(cfg, Next(cfg, a, steps[0]), steps[1..], end, id, dueAt);
      }
    }
  }

  lemma FiringWakes(cfg: Settings, a: Agent, id: Id)
    requires Backed(a.reg) && Awaited(a.reg, id) && id in a.reg.tasks && a.reg.tasks[id].Pending?
    ensures Enabled(a, RetryFired(id))
    ensures Next(cfg, a, RetryFired(id)).reg.Tracks(id) && Next(cfg, a, RetryFired(id)).reg.StatusOf(id) == Ready
  {
    hide RetryHasTask;
    FireOnlyWakesWaiting(a.reg, id, id);
  }
}
