/** What every run of the agent keeps, whatever its copies report to. */
module LifecycleSanity {
  import opened TrackedFiles
  import opened Selection
  import opened Registries
  import opened NetworkRecovery
  import opened GrowthDetection
  import opened SpaceRetry
  import opened Lifecycle

  /**
   The moves an entry may make without a job: never into a busy status or out of one, and out of a terminal
   one or a space error only into Removed.
   */
  predicate FreeMove(s: FileStatus, s': FileStatus) {
    s == s' || (!Busy(s) && !Busy(s') && s != Removed && (s in {Failed, SpaceError} ==> s' == Removed))
  }

  predicate EntryEvolves(f: TrackedFile, f': TrackedFile) {
    f'.path == f.path && f.retryCount <= f'.retryCount && FreeMove(f.status, f'.status)
  }

  /** A step of the registry alone: entries are dropped, freely moved, or new and not busy. */
  ghost predicate Evolves(r: Registry, r': Registry) {
    && r.nextId <= r'.nextId
    && forall id: Id :: r'.Tracks(id) ==>
         if r.Tracks(id) then EntryEvolves(r.files.vals[id], r'.files.vals[id])
         else r.nextId <= id && !Busy(r'.StatusOf(id))
  }

  /** The registry evolves, is kept sound, and forgets nothing. */
  ghost predicate EvolvesWell(r: Registry, r': Registry) {
    Evolves(r, r') && KeepsSound(r, r') && r.files.vals.Keys <= r'.files.vals.Keys
  }

  // ----- Steps of the registry alone

  lemma AddEvolves(r: Registry, path: Path, size: nat, now: Time)
    requires Backed(r)
    ensures EvolvesWell(r, AddFile(r, path, size, now).0)
  {
    hide Pick, OneActive, RetryHasTask;
    AddFileIsSound(r, path, size, now);
  }

  lemma UpdateEvolves(r: Registry, id: Id, status: FileStatus, patch: Patch, now: Time)
    requires Backed(r) && !patch.ResetRetryCount?
    requires r.Tracks(id) ==> FreeMove(r.StatusOf(id), status) && (IsActive(status) ==> IsActive(r.StatusOf(id)))
    ensures EvolvesWell(r, UpdateStatus(r, id, status, patch, now))
  {
    hide Backed, OneActive, UpdateStatus;
    UpdateIsSound(r, id, status, patch, now);
    UpdateEffect(r, id, status, patch, now);
  }

  /** A sample gives its entry the recommended status and leaves all others alone. */
  lemma SampleEffect(cfg: DetectorSettings, r: Registry, id: Id, seen: Observation, now: Time)
    requires r.Tracks(id)
    ensures var r' := SampleEntry(cfg, r, id, seen, now);
      && r'.nextId == r.nextId && r'.files.vals.Keys == r.files.vals.Keys
      && (forall x: Id :: r.Tracks(x) && x != id ==> r'.files.vals[x] == r.files.vals[x])
      && (forall x: Id :: x != id && x in r.tasks ==> x in r'.tasks && r'.tasks[x] == r.tasks[x])
      && r'.files.vals[id].path == r.files.vals[id].path && r'.files.vals[id].retryCount == r.files.vals[id].retryCount
      && r'.StatusOf(id) == CheckGrowth(cfg, r.files.vals[id], seen, now).status
  {
    hide UpdateStatus, CheckGrowth, Apply, Stamp;
    var f := r.files.vals[id];
    var v := CheckGrowth(cfg, f, seen, now);
    Recommendations(cfg, f, seen, now);
    var r1 := if seen.Size? && f.status != WaitingForNetwork then UpdateStatus(r, id, f.status, v.patch, now) else r;
    UpdateEffect(r, id, f.status, v.patch, now);
    UpdateEffect(r1, id, v.status, NoPatch, now);
  }

  lemma SampleEvolves(cfg: DetectorSettings, r: Registry, id: Id, seen: Observation, now: Time)
    requires Backed(r) && r.Tracks(id) && !PassedOver(r.StatusOf(id))
    ensures EvolvesWell(r, SampleEntry(cfg, r, id, seen, now))
  {
    hide Backed, OneActive, SampleEntry, CheckGrowth;
    SampleEffect(cfg, r, id, seen, now);
    SampleKeepsSound(cfg, r, id, seen, now);
    Recommendations(cfg, r.files.vals[id], seen, now);
  }

  lemma SampleKeepsSound(cfg: DetectorSettings, r: Registry, id: Id, seen: Observation, now: Time)
    requires Backed(r) && r.Tracks(id) && !PassedOver(r.StatusOf(id))
    ensures KeepsSound(r, SampleEntry(cfg, r, id, seen, now))
  {
    hide Backed, OneActive, UpdateStatus, CheckGrowth, NoRevival, Updated;
    var f := r.files.vals[id];
    ActiveIsNotTerminal(f.status);
    var v := CheckGrowth(cfg, f, seen, now);
    UpdateIsSound(r, id, f.status, v.patch, now);
    UpdateEffect(r, id, f.status, v.patch, now);
    var r1 := if seen.Size? && f.status != WaitingForNetwork then UpdateStatus(r, id, f.status, v.patch, now) else r;
    UpdateIsSound(r1, id, v.status, NoPatch, now);
  }

  /**
   The detector's loop decides once which files to sample. A sample written later, whatever its entry's status
   has become by then, leaves busy and terminal entries alone if and only if the entry would still be chosen,
   or the recommendation changes nothing, or it removes a failed entry.
   */
  lemma StaleSampleEvolvesIff(cfg: DetectorSettings, r: Registry, id: Id, seen: Observation, now: Time)
    requires r.Valid() && r.Tracks(id)
    ensures var s, v := r.StatusOf(id), CheckGrowth(cfg, r.files.vals[id], seen, now).status;
      Evolves(r, SampleEntry(cfg, r, id, seen, now))
      <==> !PassedOver(s) || v == s || (s in {Failed, SpaceError} && v == Removed)
  {
    hide SampleEntry, CheckGrowth, Registry.Valid;
    SampleEffect(cfg, r, id, seen, now);
    Recommendations(cfg, r.files.vals[id], seen, now);
  }

  lemma RecoveryEvolves(r: Registry, now: Time)
    requires Backed(r)
    ensures EvolvesWell(r, ProcessWaiting(r, now))
  {
    hide RetryHasTask, OneActive, ProcessWaiting;
    RecoveryTouchesOnlyWaiting(r, now);
    var r' := ProcessWaiting(r, now);
    assert NoRevival(r, r');
    if OneActive(r) {
      NoRevivalKeepsOneActive(r, r');
    }
  }

  lemma MissingEvolves(r: Registry, existing: set<Path>)
    requires Backed(r)
    ensures EvolvesWell(r, CleanupMissing(r, existing))
  {
    hide CleanupMissing, OneActive, RetryHasTask, Changed;
    CleanupMissingIsSound(r, existing);
    MissingMarks(r, existing);
  }

  lemma OldEvolves(r: Registry, cutoff: Time)
    requires Backed(r)
    ensures Evolves(r, CleanupOld(r, cutoff)) && KeepsSound(r, CleanupOld(r, cutoff))
  {
    hide Backed, OneActive, CleanupOld;
    CleanupOldIsSound(r, cutoff);
  }

  lemma CancelEvolves(r: Registry, id: Id)
    requires Backed(r)
    ensures EvolvesWell(r, CancelRetry(r, id).0)
  {
    hide Backed, OneActive, NoRevival;
    CancelRetryIsSound(r, id);
  }

  lemma FireEvolves(r: Registry, id: Id)
    requires Backed(r) && id in r.tasks && r.tasks[id].Pending?
    ensures EvolvesWell(r, FireRetry(r, id))
  {
    hide Backed, OneActive, NoRevival;
    FireRetryIsSound(r, id);
  }

  predicate IsJobStep(e: Step) {
    e.FileReady? || e.JobTaken? || e.ShortOfSpace? || e.CopyStarted? || e.CopyLocated? || e.CopyReported? || e.CopyDone?
    || e.JobFinalised? || e.CopyRefused? || e.CopyRaised? || e.JobCrashed?
  }

  /** The registry after a step that concerns no job; only the cleanup by age forgets entries. */
  lemma FreeStepEvolves(cfg: Settings, a: Agent, e: Step)
    requires Backed(a.reg) && Enabled(a, e) && !IsJobStep(e)
    ensures var a' := Next(cfg, a, e);
      && a' == a.(reg := a'.reg) && Evolves(a.reg, a'.reg) && KeepsSound(a.reg, a'.reg)
      && (e.OldCleaned? || a.reg.files.vals.Keys <= a'.reg.files.vals.Keys)
  {
    hide OneActive, RetryHasTask, Evolves, UpdateStatus, AddFile, SampleEntry, ProcessWaiting,
         CleanupMissing, CleanupOld, FireRetry, CancelRetry;
    match e
    case FileDiscovered(path, size, now) => AddEvolves(a.reg, path, size, now);
    case SizeChanged(id, size, now) => UpdateEvolves(a.reg, id, a.reg.StatusOf(id), SetSize(size), now);
    case GrowthNoted(id, size, now) =>
      UpdateEvolves(a.reg, id, a.reg.StatusOf(id), UpdateGrowthInfo(a.reg.files.vals[id], size, now), now);
    case Sampled(id, seen, now) => SampleEvolves(cfg.detector, a.reg, id, seen, now);
    case NetworkRecovered(now) => RecoveryEvolves(a.reg, now);
    case MissingCleaned(existing) => MissingEvolves(a.reg, existing);
    case OldCleaned(cutoff) => OldEvolves(a.reg, cutoff);
    case RetryFired(id) => FireEvolves(a.reg, id);
    case RetryCancelled(id) => CancelEvolves(a.reg, id);
  }

  /** A step that leaves the queue and the workers alone keeps the agent sane. */
  lemma EvolveKeepsSane(cfg: Settings, a: Agent, r': Registry)
    requires Sane(cfg, a) && Backed(r') && Evolves(a.reg, r')
    ensures Sane(cfg, a.(reg := r'))
  {
    hide Backed;
    var a' := a.(reg := r');
    assert forall id: Id :: HasJob(a', id) <==> HasJob(a, id) by {
      assert forall id: Id :: Queued(a', id) <==> Queued(a, id);
    }
    JobsAreKnown(a);
    forall id: Id | HasJob(a', id) && r'.Tracks(id) ensures Busy(r'.StatusOf(id)) {
    }
    forall id: Id | MayWait(a', id) ensures CountOf(a.waits, id) <= r'.files.vals[id].retryCount {
      if a.reg.Tracks(id) {
        assert MayWait(a, id);
      }
    }
  }

  lemma JobsAreKnown(a: Agent)
    requires JobsKnown(a)
    ensures forall id: Id :: HasJob(a, id) ==> id < a.reg.nextId
  {
  }

  // ----- Steps of jobs

  /** Only the entry `id` may differ; it keeps its path. */
  ghost predicate OnlyEntry(r: Registry, r': Registry, id: Id) {
    && r'.nextId == r.nextId && r'.files.vals.Keys == r.files.vals.Keys
    && (forall x: Id :: r.Tracks(x) && x != id ==> r'.files.vals[x] == r.files.vals[x])
    && (r.Tracks(id) ==> r'.files.vals[id].path == r.files.vals[id].path)
  }

  lemma UpdateIsOnlyEntry(r: Registry, id: Id, status: FileStatus, patch: Patch, now: Time)
    ensures OnlyEntry(r, UpdateStatus(r, id, status, patch, now), id)
  {
    hide UpdateStatus;
    UpdateEffect(r, id, status, patch, now);
  }

  /** The wait counters of all entries but `id` are the same, and those of `id` are within their bounds. */
  ghost predicate WaitsOfOne(cfg: SpaceSettings, a: Agent, a': Agent, id: Id) {
    && (forall x: Id :: x != id ==>
          CountOf(a'.waits, x) == CountOf(a.waits, x) && CountOf(a'.delays, x) == CountOf(a.delays, x))
    && CountOf(a'.waits, id) <= (if cfg.maxRetries == 0 then 0 else cfg.maxRetries - 1)
    && CountOf(a'.delays, id) <= CountOf(a'.waits, id) * cfg.delay
    && a'.waits.Keys <= a.waits.Keys + {id}
    && (MayWait(a', id) ==> CountOf(a'.waits, id) <= a'.reg.files.vals[id].retryCount)
  }

  /** A worker's step writes one entry and may give its own job up, but gives none to anybody. */
  ghost predicate WorkerStep(cfg: Settings, a: Agent, a': Agent, id: Id) {
    && Backed(a'.reg) && OnlyEntry(a.reg, a'.reg, id) && id < a.reg.nextId
    && a'.queue == a.queue && a'.running.Keys <= a.running.Keys
    && (forall x: Id :: x in a'.running ==> a'.running[x].target < a.reg.nextId)
    && (a'.reg.Tracks(id) && HasJob(a', id) ==> Busy(a'.reg.StatusOf(id)))
    && WaitsOfOne(cfg.space, a, a', id)
  }

  lemma WorkerStepKeepsSane(cfg: Settings, a: Agent, a': Agent, id: Id)
    requires Sane(cfg, a) && WorkerStep(cfg, a, a', id)
    ensures Sane(cfg, a')
  {
    hide Backed;
    assert forall x: Id :: HasJob(a', x) ==> HasJob(a, x) by {
      assert forall x: Id :: Queued(a', x) <==> Queued(a, x);
    }
    forall x: Id | HasJob(a', x) && a'.reg.Tracks(x) ensures Busy(a'.reg.StatusOf(x)) {
    }
    forall x: Id | MayWait(a', x) ensures CountOf(a'.waits, x) <= a'.reg.files.vals[x].retryCount {
      if x != id {
        assert MayWait(a, x);
      }
    }
    forall x: Id ensures CountOf(a'.waits, x) <= (if cfg.space.maxRetries == 0 then 0 else cfg.space.maxRetries - 1) {
    }
    forall x: Id ensures CountOf(a'.delays, x) <= CountOf(a'.waits, x) * cfg.space.delay {
    }
  }

  /** A worker writes a status to an entry: its own on giving the job up, or else one that says the entry is busy. */
  lemma WriteIsWorkerStep(
    cfg: Settings, a: Agent, id: Id, x: Id, status: FileStatus, patch: Patch, now: Time, running: map<Id, Job>)
    requires Sane(cfg, a) && x < a.reg.nextId && x in a.running && running.Keys <= a.running.Keys
    requires forall y: Id :: y in running ==> running[y].target < a.reg.nextId
    requires x !in running || (Busy(status) && !patch.ResetRetryCount?)
    requires id == x || (Busy(status) && !patch.ResetRetryCount?)
    requires Busy(status) || !patch.ResetRetryCount?
    requires id < a.reg.nextId
    ensures WorkerStep(cfg, a, WithUpdate(a, id, status, patch, now).(running := running), id)
  {
    hide Backed, UpdateStatus, Apply, Stamp;
    var a' := WithUpdate(a, id, status, patch, now).(running := running);
    UpdateIsBacked(a.reg, id, status, patch, now);
    UpdateEffect(a.reg, id, status, patch, now);
    UpdateIsOnlyEntry(a.reg, id, status, patch, now);
    assert forall y: Id :: Queued(a', y) <==> Queued(a, y);
    if MayWait(a', id) {
      if HasJob(a', id) {
        assert HasJob(a, id);
      } else {
        assert id == x && HasJob(a, x);
      }
      assert MayWait(a, id);
    }
  }

  /** A worker gives its job up, or goes on with it, writing nothing. */
  lemma NothingIsWorkerStep(cfg: Settings, a: Agent, id: Id, running: map<Id, Job>)
    requires Sane(cfg, a) && id in a.running && running.Keys <= a.running.Keys
    requires forall y: Id :: y in running ==> running[y].target < a.reg.nextId
    ensures WorkerStep(cfg, a, a.(running := running), id)
  {
    hide Backed;
    var a' := a.(running := running);
    assert forall y: Id :: Queued(a', y) <==> Queued(a, y);
    assert HasJob(a, id);
    assert MayWait(a', id) ==> MayWait(a, id);
  }

  lemma ReleasedHasNoJob(a: Agent, a': Agent, id: Id)
    requires DistinctJobs(a) && id in a.running && a'.queue == a.queue && a'.running == a.running - {id}
    ensures !HasJob(a', id)
  {
  }

  lemma DelaysGrow(n: nat, delay: nat)
    ensures (n + 1) * delay == n * delay + delay
  {
  }

  /** What a shortage does to the retry count, and what it may schedule. */
  lemma ShortageCounts(cfg: SpaceSettings, r: Registry, id: Id, s: Shortage, now: Time)
    requires Backed(r)
    ensures var (r', handling) := HandleShortage(cfg, r, id, s, now);
      && Backed(r') && OnlyEntry(r, r', id)
      && (handling.WaitScheduled? && r.Tracks(id) ==>
            && r'.files.vals[id].retryCount == r.files.vals[id].retryCount + 1 < cfg.maxRetries
            && handling.delay <= cfg.delay)
      && (r.Tracks(id) ==> r.files.vals[id].retryCount <= r'.files.vals[id].retryCount)
  {
    hide Backed, HandleShortage;
    HandleShortageEffect(cfg, r, id, s, now);
  }

  /** A scheduled wait raises the entry's wait count together with its retry count, below the maximum. */
  lemma ShortageIsWorkerStep(cfg: Settings, a: Agent, id: Id, s: Shortage, now: Time)
    requires Sane(cfg, a) && id in a.running
    ensures WorkerStep(cfg, a, WithShortage(cfg.space, a, id, s, now), id)
  {
    hide Backed, HandleShortage, OnlyEntry;
    ShortageCounts(cfg.space, a.reg, id, s, now);
    var a' := WithShortage(cfg.space, a, id, s, now);
    DelaysGrow(CountOf(a.waits, id), cfg.space.delay);
    assert a.reg.Tracks(id) ==> MayWait(a, id) by { assert HasJob(a, id); }
    assert !HasJob(a', id) by { ReleasedHasNoJob(a, a', id); }
    assert a'.reg.Tracks(id) ==> a.reg.Tracks(id) by { SameEntries(a.reg, a'.reg, id); }
    hide HasJob, DistinctJobs, JobsBusy;
  }

  lemma SameEntries(r: Registry, r': Registry, id: Id)
    requires OnlyEntry(r, r', id)
    ensures r'.files.vals.Keys == r.files.vals.Keys
  {
  }

  /** The target of a located copy is the job's own entry or a tracked one. */
  lemma TargetIsKnown(r: Registry, id: Id, path: Path)
    requires r.Valid() && id < r.nextId
    ensures TargetFor(r, id, path) < r.nextId
    ensures TargetFor(r, id, path) == id || r.Tracks(TargetFor(r, id, path))
  {
    hide Pick;
    if Pick(CurrentTable, r.Listing(), path, AnyStatus).Some? {
      PickedIsTracked(r, CurrentTable, path, AnyStatus);
    }
  }

  /** The entry a worker's step may write. */
  function Written(a: Agent, e: Step): Id
    requires Enabled(a, e) && IsJobStep(e) && !e.FileReady? && !e.JobTaken?
  {
    if e.CopyReported? || e.CopyDone? then a.running[e.id].target else e.id
  }

  lemma JobStepIsWorkerStep(cfg: Settings, a: Agent, e: Step)
    requires Sane(cfg, a) && Enabled(a, e) && IsJobStep(e) && !e.FileReady? && !e.JobTaken?
    ensures WorkerStep(cfg, a, Next(cfg, a, e), Written(a, e))
  {
    hide RetryHasTask, DistinctJobs, JobsBusy, WaitsBounded, UpdateStatus, WorkerStep, TargetFor;
    var job := a.running[e.id];
    match e
    case ShortOfSpace(id, shortage, now) => ShortageIsWorkerStep(cfg, a, id, shortage, now);
    case CopyStarted(id, now) =>
      var running := a.running[id := job.(phase := Begun)];
      if a.reg.Tracks(id) {
        WriteIsWorkerStep(cfg, a, id, id, InitialStatus(a.reg.files.vals[id]), NoPatch, now, running);
      } else {
        NothingIsWorkerStep(cfg, a, id, running);
      }
    case CopyLocated(id) =>
      TargetIsKnown(a.reg, id, job.path);
      NothingIsWorkerStep(cfg, a, id, a.running[id := Job(job.path, TargetFor(a.reg, id, job.path), CopyPhase)]);
    case CopyReported(id, status, now) => WriteIsWorkerStep(cfg, a, job.target, id, status, NoPatch, now, a.running);
    case CopyDone(id, now) =>
      WriteIsWorkerStep(cfg, a, job.target, id, Completed, NoPatch, now, a.running[id := job.(phase := Copied)]);
    case JobFinalised(id, now) => WriteIsWorkerStep(cfg, a, id, id, Completed, ResetRetryCount, now, a.running - {id});
    case CopyRefused(id) => NothingIsWorkerStep(cfg, a, id, a.running - {id});
    case CopyRaised(id, gone, now) =>
      WriteIsWorkerStep(cfg, a, id, id, if gone then Removed else Failed, NoPatch, now, a.running - {id});
    case JobCrashed(id) => NothingIsWorkerStep(cfg, a, id, a.running - {id});
  }

  // ----- The queue

  /** Queueing keeps jobs distinct if and only if the entry has no job yet. */
  lemma EnqueueKeepsDistinctIff(a: Agent, id: Id, now: Time)
    requires a.reg.Tracks(id) && DistinctJobs(a)
    ensures DistinctJobs(Enqueue(a, id, now)) <==> !HasJob(a, id)
  {
    var a' := Enqueue(a, id, now);
    var n := |a.queue|;
    assert a'.queue[n].id == id && forall i :: 0 <= i < n ==> a'.queue[i] == a.queue[i];
    if HasJob(a, id) && id !in a.running {
      var i :| 0 <= i < |a.queue| && a.queue[i].id == id;
      assert a'.queue[i].id == a'.queue[n].id;
    }
  }

  lemma EnqueueGivesOneJob(a: Agent, id: Id, now: Time)
    requires a.reg.Tracks(id)
    ensures forall x: Id :: HasJob(Enqueue(a, id, now), x) <==> HasJob(a, x) || x == id
  {
    var a' := Enqueue(a, id, now);
    var n := |a.queue|;
    assert a'.queue[n].id == id && forall i :: 0 <= i < n ==> a'.queue[i] == a.queue[i];
    forall x: Id ensures Queued(a', x) <==> Queued(a, x) || x == id {
      if Queued(a, x) {
        var i :| 0 <= i < n && a.queue[i].id == x;
        assert a'.queue[i].id == x;
      }
      if Queued(a', x) && x != id {
        var i :| 0 <= i < |a'.queue| && a'.queue[i].id == x;
        assert a.queue[i].id == x;
      }
    }
  }

  /** Queueing keeps a sane agent sane if and only if the entry has no job and its waits are still covered. */
  lemma EnqueueIsSaneIff(cfg: Settings, a: Agent, id: Id, now: Time)
    requires Sane(cfg, a) && a.reg.Tracks(id)
    ensures Sane(cfg, Enqueue(a, id, now))
      <==> !HasJob(a, id) && CountOf(a.waits, id) <= a.reg.files.vals[id].retryCount
  {
    hide RetryHasTask, UpdateStatus, HasJob, DistinctJobs, Apply, Stamp;
    var a' := Enqueue(a, id, now);
    UpdateIsBacked(a.reg, id, InQueue, NoPatch, now);
    UpdateEffect(a.reg, id, InQueue, NoPatch, now);
    EnqueueKeepsDistinctIff(a, id, now);
    EnqueueGivesOneJob(a, id, now);
    assert forall i :: 0 <= i < |a'.queue| ==> a'.queue[i].id < a'.reg.nextId;
    forall x: Id | MayWait(a', x) && x != id ensures CountOf(a'.waits, x) <= a'.reg.files.vals[x].retryCount {
      assert MayWait(a, x);
    }
    assert MayWait(a', id);
  }

  /** Whatever ready events arrive and however often, no entry gets a second job. */
  lemma ReadyKeepsSane(cfg: Settings, a: Agent, id: Id, networkUp: bool, now: Time)
    requires Sane(cfg, a)
    ensures Sane(cfg, HandleReady(a, id, networkUp, now))
  {
    hide DistinctJobs, UpdateStatus, HasJob, RetryHasTask, OneActive;
    if a.reg.Tracks(id) && a.reg.StatusOf(id) == Ready {
      if networkUp {
        assert !HasJob(a, id);
        assert MayWait(a, id);
        EnqueueIsSaneIff(cfg, a, id, now);
      } else {
        UpdateEvolves(a.reg, id, WaitingForNetwork, NoPatch, now);
        EvolveKeepsSane(cfg, a, UpdateStatus(a.reg, id, WaitingForNetwork, NoPatch, now));
      }
    }
  }

  lemma TakingKeepsJobs(cfg: Settings, a: Agent)
    requires a.reg.Valid() && a.queue != []
    ensures var a' := Next(cfg, a, JobTaken);
      a' == a.(queue := a'.queue, running := a'.running) && forall id: Id :: HasJob(a', id) <==> HasJob(a, id)
  {
    var a' := Next(cfg, a, JobTaken);
    forall id: Id ensures HasJob(a', id) <==> HasJob(a, id) {
      if Queued(a', id) {
        var i :| 0 <= i < |a'.queue| && a'.queue[i].id == id;
        assert a.queue[i + 1].id == id;
      }
      if Queued(a, id) && id != a.queue[0].id {
        var i :| 0 <= i < |a.queue| && a.queue[i].id == id;
        assert a'.queue[i - 1].id == id;
      }
      if id == a.queue[0].id {
        assert Queued(a, id);
      }
    }
  }

  /** Taking a job never meets one already running for the same entry. */
  lemma TakeIsSane(cfg: Settings, a: Agent)
    requires Sane(cfg, a) && a.queue != []
    ensures Sane(cfg, Next(cfg, a, JobTaken)) && a.queue[0].id !in a.running
  {
    hide RetryHasTask, HasJob;
    var a' := Next(cfg, a, JobTaken);
    TakingKeepsJobs(cfg, a);
    forall i | 0 <= i < |a'.queue| ensures a'.queue[i].id !in a'.running && a'.queue[i].id < a.reg.nextId {
      assert a'.queue[i] == a.queue[i + 1] && a.queue[0].id != a.queue[i + 1].id;
    }
    forall id: Id | MayWait(a', id) ensures MayWait(a, id) {
    }
  }

  // ----- Every step and every run

  /** Every step keeps the agent sane. */
  lemma StepKeepsSane(cfg: Settings, a: Agent, e: Step)
    requires Sane(cfg, a) && Enabled(a, e)
    ensures Sane(cfg, Next(cfg, a, e))
  {
    hide RetryHasTask, DistinctJobs, JobsKnown, JobsBusy, WaitsBounded, OneActive, WorkerStep, Evolves;
    if e.FileReady? {
      ReadyKeepsSane(cfg, a, e.id, e.networkUp, e.now);
    } else if e.JobTaken? {
      TakeIsSane(cfg, a);
    } else if IsJobStep(e) {
      JobStepIsWorkerStep(cfg, a, e);
      WorkerStepKeepsSane(cfg, a, Next(cfg, a, e), Written(a, e));
    } else {
      FreeStepEvolves(cfg, a, e);
      EvolveKeepsSane(cfg, a, Next(cfg, a, e).reg);
    }
  }

  /** A sequence of steps, each enabled when it happens, leads from `a` to `end`. */
  ghost predicate Run(cfg: Settings, a: Agent, steps: seq<Step>, end: Agent)
    requires Sane(cfg, a)
    decreases |steps|
  {
    if steps == [] then end == a
    else
      Enabled(a, steps[0]) &&
      (StepKeepsSane(cfg, a, steps[0]);
       Run(cfg, Next(cfg, a, steps[0]), steps[1..], end))
  }

  lemma StartIsSane(cfg: Settings)
    ensures Sane(cfg, START)
  {
  }

  lemma {:induction false} EveryRunIsSane(cfg: Settings, a: Agent, steps: seq<Step>, end: Agent)
    requires Sane(cfg, a) && Run(cfg, a, steps, end)
    ensures Sane(cfg, end)
    decreases |steps|
  {
    hide RetryHasTask, DistinctJobs, JobsKnown, JobsBusy, WaitsBounded, Next, Enabled;
    if steps != [] {
      StepKeepsSane(cfg, a, steps[0]);
      EveryRunIsSane(cfg, Next(cfg, a, steps[0]), steps[1..], end);
    }
  }

  /**
   In every state reachable from the start, by any steps whatever: every entry with a scheduled retry has a
   task; queued and running jobs are for different entries, each of which, while tracked, is marked as in
   hand; and no entry has been made to wait for space more than one time fewer than the maximum, nor for
   longer in all than that many full delays.
   */
  lemma EveryReachableStateIsSane(cfg: Settings, steps: seq<Step>, end: Agent)
    requires Sane(cfg, START) && Run(cfg, START, steps, end)
    ensures RetryHasTask(end.reg) && DistinctJobs(end)
    ensures forall id: Id :: HasJob(end, id) && end.reg.Tracks(id) ==> Busy(end.reg.StatusOf(id))
    ensures forall id: Id ::
      CountOf(end.waits, id) <= (if cfg.space.maxRetries == 0 then 0 else cfg.space.maxRetries - 1)
    ensures forall id: Id :: CountOf(end.delays, id) <= CountOf(end.waits, id) * cfg.space.delay
  {
    hide RetryHasTask, DistinctJobs, HasJob, Run;
    EveryRunIsSane(cfg, START, steps, end);
  }
}
