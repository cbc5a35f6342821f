/** What runs keep in which every copy reports to its own entry, and when copies do. */
module LifecycleSafety {
  import opened TrackedFiles
  import opened Selection
  import opened Registries
  import opened GrowthDetection
  import opened SpaceRetry
  import opened Lifecycle
  import opened LifecycleSanity

  // ----- Which entry a copy reports to

  /** During a copy the lookup by path finds the job's own entry, because it is the path's only active one. */
  lemma CopyReportsToItsOwnEntry(r: Registry, id: Id)
    requires Sound(r) && r.Tracks(id) && r.StatusOf(id) in {Copying, GrowingCopy}
    ensures TargetFor(r, id, r.files.vals[id].path) == id
  {
    hide Pick;
    ListingHasOneActive(r);
    ListingOf(r);
    var k :| 0 <= k < |r.Listing()| && r.Listing()[k] == r.files.vals[id];
    CurrentIsActiveIff(r.Listing(), k);
  }

  /**
   In general a copy reports to its own entry if and only if that entry is still tracked or the lookup
   by path shows nothing: a copy whose entry has been forgotten reports to whatever entry is shown.
   */
  lemma CopyReportsToItsOwnEntryIff(r: Registry, id: Id, path: Path)
    requires Sound(r)
    requires r.Tracks(id) ==> r.files.vals[id].path == path && r.StatusOf(id) in {Copying, GrowingCopy}
    ensures var current := Pick(CurrentTable, r.Listing(), path, AnyStatus);
      TargetFor(r, id, path) == id <==> r.Tracks(id) || current.None? || current.value.status == Removed
  {
    hide Pick, OneActive, RetryHasTask;
    if r.Tracks(id) {
      CopyReportsToItsOwnEntry(r, id);
    } else if Pick(CurrentTable, r.Listing(), path, AnyStatus).Some? {
      PickedIsTracked(r, CurrentTable, path, AnyStatus);
    }
  }

  // ----- Steps of the registry alone

  /** Jobs do not notice a step that leaves the queue and the workers alone. */
  lemma EvolveKeepsMatch(a: Agent, r': Registry)
    requires JobsMatch(a) && JobsKnown(a) && Evolves(a.reg, r')
    ensures JobsMatch(a.(reg := r'))
  {
    forall i | 0 <= i < |a.queue| ensures TicketOk(r', a.queue[i]) {
      assert TicketOk(a.reg, a.queue[i]);
    }
    forall id: Id | id in a.running ensures JobOk(r', id, a.running[id]) {
      assert JobOk(a.reg, id, a.running[id]);
    }
  }

  lemma FreeStepIsSafe(cfg: Settings, a: Agent, e: Step)
    requires AgentOk(cfg, a) && Enabled(a, e) && !IsJobStep(e)
    ensures AgentOk(cfg, Next(cfg, a, e))
  {
    hide OneActive, RetryHasTask, DistinctJobs, JobsKnown, JobsBusy, JobsMatch, WaitsBounded, Evolves;
    FreeStepEvolves(cfg, a, e);
    StepKeepsSane(cfg, a, e);
    EvolveKeepsMatch(a, Next(cfg, a, e).reg);
  }

  // ----- Steps of jobs

  /** Jobs of other entries do not notice a change of one entry. */
  lemma OtherJobsUntouched(a: Agent, r': Registry, id: Id)
    requires JobsMatch(a) && OnlyEntry(a.reg, r', id)
    ensures forall i :: 0 <= i < |a.queue| && a.queue[i].id != id ==> TicketOk(r', a.queue[i])
    ensures forall x: Id :: x in a.running && x != id ==> JobOk(r', x, a.running[x])
  {
    forall i | 0 <= i < |a.queue| && a.queue[i].id != id ensures TicketOk(r', a.queue[i]) {
      assert TicketOk(a.reg, a.queue[i]);
    }
    forall x: Id | x in a.running && x != id ensures JobOk(r', x, a.running[x]) {
      assert JobOk(a.reg, x, a.running[x]);
    }
  }

  /** A worker that writes its own entry and goes on with a fitting job, or gives the job up, keeps jobs matching. */
  lemma OwnStepKeepsMatch(a: Agent, a': Agent, id: Id)
    requires DistinctJobs(a) && JobsMatch(a) && id in a.running && OnlyEntry(a.reg, a'.reg, id) && a'.queue == a.queue
    requires a'.running == a.running - {id}
      || (id in a'.running && a'.running == a.running[id := a'.running[id]] && JobOk(a'.reg, id, a'.running[id]))
    ensures JobsMatch(a')
  {
    OtherJobsUntouched(a, a'.reg, id);
  }

  /** A worker that gives its job up, or goes on to the copy, writing its entry or not, leaves all in order. */
  lemma OwnStepIsSafe(cfg: Settings, a: Agent, e: Step)
    requires AgentOk(cfg, a) && Enabled(a, e) && (e.CopyStarted? || e.CopyRefused? || e.JobCrashed?)
    ensures OneActive(Next(cfg, a, e).reg) && JobsMatch(Next(cfg, a, e))
  {
    hide OneActive, RetryHasTask, DistinctJobs, JobsKnown, JobsBusy, WaitsBounded, UpdateStatus;
    assert JobOk(a.reg, e.id, a.running[e.id]);
    if e.CopyStarted? && a.reg.Tracks(e.id) {
      OwnWrite(a, e.id, InitialStatus(a.reg.files.vals[e.id]), NoPatch, e.now);
    }
    OwnStepKeepsMatch(a, Next(cfg, a, e), e.id);
  }

  /** The status a report or the end of a copy writes. */
  function ReportedStatus(e: Step): FileStatus {
    match e
    case CopyReported(_, status, _) => status
    case CopyRaised(_, gone, _) => if gone then Removed else Failed
    case _ => Completed
  }

  /** A worker that reports or ends its copy writes its own entry and leaves all in order. */
  lemma OwnReportIsSafe(cfg: Settings, a: Agent, e: Step)
    requires AgentOk(cfg, a) && Enabled(a, e) && (e.CopyReported? || e.CopyDone? || e.JobFinalised? || e.CopyRaised?)
    ensures OneActive(Next(cfg, a, e).reg) && JobsMatch(Next(cfg, a, e))
  {
    hide OneActive, RetryHasTask, DistinctJobs, JobsKnown, JobsBusy, WaitsBounded, UpdateStatus;
    assert JobOk(a.reg, e.id, a.running[e.id]);
    OwnWrite(a, e.id, ReportedStatus(e), if e.JobFinalised? then ResetRetryCount else NoPatch, e.now);
    assert e.CopyReported? ==> a.running == a.running[e.id := a.running[e.id]];
    OwnStepKeepsMatch(a, Next(cfg, a, e), e.id);
  }

  /** A worker's step, apart from looking its entry up, leaves one active entry per path and all jobs matching. */
  lemma WorkerStepIsSafe(cfg: Settings, a: Agent, e: Step)
    requires AgentOk(cfg, a) && Enabled(a, e) && IsJobStep(e) && !e.FileReady? && !e.JobTaken? && !e.CopyLocated?
    ensures OneActive(Next(cfg, a, e).reg) && JobsMatch(Next(cfg, a, e))
  {
    hide Sane, OneActive, JobsMatch, HandleShortage;
    if e.ShortOfSpace? {
      OwnShortage(cfg, a, e.id, e.shortage, e.now);
    } else if e.CopyStarted? || e.CopyRefused? || e.JobCrashed? {
      hide Next;
      OwnStepIsSafe(cfg, a, e);
    } else {
      hide Next;
      OwnReportIsSafe(cfg, a, e);
    }
  }

  lemma OwnShortage(cfg: Settings, a: Agent, id: Id, s: Shortage, now: Time)
    requires AgentOk(cfg, a) && InPhase(a, id, Taken)
    ensures var a' := WithShortage(cfg.space, a, id, s, now); OneActive(a'.reg) && JobsMatch(a')
  {
    hide OneActive, RetryHasTask, DistinctJobs, JobsKnown, JobsBusy, WaitsBounded, HandleShortage, Handled, NoRevival;
    assert JobOk(a.reg, id, a.running[id]);
    HandleShortageIsSound(cfg.space, a.reg, id, s, now);
    HandleShortageEffect(cfg.space, a.reg, id, s, now);
    OwnStepKeepsMatch(a, WithShortage(cfg.space, a, id, s, now), id);
  }

  lemma OwnWrite(a: Agent, id: Id, status: FileStatus, patch: Patch, now: Time)
    requires Sound(a.reg) && (a.reg.Tracks(id) && IsActive(status) ==> IsActive(a.reg.StatusOf(id)))
    ensures var r' := UpdateStatus(a.reg, id, status, patch, now);
      && OneActive(r') && OnlyEntry(a.reg, r', id) && (a.reg.Tracks(id) ==> r'.StatusOf(id) == status)
  {
    hide Backed, OneActive, UpdateStatus, Apply, Stamp;
    UpdateIsSound(a.reg, id, status, patch, now);
    UpdateEffect(a.reg, id, status, patch, now);
    UpdateIsOnlyEntry(a.reg, id, status, patch, now);
  }

  /**
   Looking up the entry to report to keeps the agent in order if and only if the job's own entry is still
   tracked, or the lookup comes back to it.
   */
  lemma LocatingIsSafeIff(cfg: Settings, a: Agent, id: Id)
    requires AgentOk(cfg, a) && InPhase(a, id, Begun)
    ensures AgentOk(cfg, Next(cfg, a, CopyLocated(id))) <==> ReportsHome(a, CopyLocated(id))
  {
    hide RetryHasTask, OneActive, DistinctJobs, JobsKnown, JobsBusy, WaitsBounded, TargetFor;
    var a' := Next(cfg, a, CopyLocated(id));
    assert JobOk(a.reg, id, a.running[id]);
    StepKeepsSane(cfg, a, CopyLocated(id));
    if ReportsHome(a, CopyLocated(id)) {
      if a.reg.Tracks(id) {
        CopyReportsToItsOwnEntry(a.reg, id);
      }
      OwnStepKeepsMatch(a, a', id);
    } else {
      assert !JobOk(a'.reg, id, a'.running[id]);
    }
  }

  // ----- The queue

  /** Taking a job keeps the agent in order. */
  lemma TakeIsSafe(cfg: Settings, a: Agent)
    requires AgentOk(cfg, a) && a.queue != []
    ensures AgentOk(cfg, Next(cfg, a, JobTaken))
  {
    hide OneActive, RetryHasTask, DistinctJobs, JobsKnown, JobsBusy, WaitsBounded;
    var t := a.queue[0];
    var a' := Next(cfg, a, JobTaken);
    TakeIsSane(cfg, a);
    assert TicketOk(a.reg, t);
    forall i | 0 <= i < |a'.queue| ensures TicketOk(a'.reg, a'.queue[i]) {
      assert a'.queue[i] == a.queue[i + 1];
    }
    forall id: Id | id in a'.running ensures JobOk(a'.reg, id, a'.running[id]) {
    }
  }

  /**
   The second half of the ready event's handler, taken by itself: queueing the file at a later moment
   keeps the agent in order if and only if the entry still has no job, is still the only active one of its
   path, and its waits are still covered.
   */
  lemma EnqueueIsSafeIff(cfg: Settings, a: Agent, id: Id, now: Time)
    requires AgentOk(cfg, a) && a.reg.Tracks(id)
    ensures AgentOk(cfg, Enqueue(a, id, now))
      <==> !HasJob(a, id) && AloneActive(a.reg, id) && CountOf(a.waits, id) <= a.reg.files.vals[id].retryCount
  {
    hide RetryHasTask, OneActive, DistinctJobs, JobsKnown, JobsBusy, WaitsBounded, UpdateStatus, AloneActive;
    EnqueueIsSaneIff(cfg, a, id, now);
    UpdateKeepsOneActiveIff(a.reg, id, InQueue, NoPatch, now);
    if !HasJob(a, id) {
      var a' := Enqueue(a, id, now);
      UpdateEffect(a.reg, id, InQueue, NoPatch, now);
      UpdateIsOnlyEntry(a.reg, id, InQueue, NoPatch, now);
      OtherJobsUntouched(a, a'.reg, id);
      forall i | 0 <= i < |a'.queue| ensures TicketOk(a'.reg, a'.queue[i]) {
        if i < |a.queue| {
          assert a'.queue[i] == a.queue[i] && a.queue[i].id != id;
        }
      }
    }
  }

  /** However often a ready event is delivered, the queue and the workers never get an entry twice. */
  lemma ReadyIsSafe(cfg: Settings, a: Agent, id: Id, networkUp: bool, now: Time)
    requires AgentOk(cfg, a)
    ensures AgentOk(cfg, HandleReady(a, id, networkUp, now))
    ensures HandleReady(HandleReady(a, id, networkUp, now), id, networkUp, now) == HandleReady(a, id, networkUp, now)
    ensures HasJob(HandleReady(a, id, networkUp, now), id)
      <==> HasJob(a, id) || (a.reg.Tracks(id) && a.reg.StatusOf(id) == Ready && networkUp)
  {
    hide RetryHasTask, OneActive, DistinctJobs, JobsKnown, JobsMatch, HasJob;
    if a.reg.Tracks(id) && a.reg.StatusOf(id) == Ready {
      if networkUp {
        assert MayWait(a, id);
        ActiveIsAlone(a.reg, id);
        EnqueueIsSafeIff(cfg, a, id, now);
        EnqueueGivesOneJob(a, id, now);
      } else {
        var r' := UpdateStatus(a.reg, id, WaitingForNetwork, NoPatch, now);
        UpdateEvolves(a.reg, id, WaitingForNetwork, NoPatch, now);
        EvolveKeepsSane(cfg, a, r');
        EvolveKeepsMatch(a, r');
        SameJobs(a, r');
      }
    }
  }

  lemma SameJobs(a: Agent, r': Registry)
    ensures forall id: Id :: HasJob(a.(reg := r'), id) <==> HasJob(a, id)
  {
    assert forall id: Id :: Queued(a.(reg := r'), id) <==> Queued(a, id);
  }

  lemma ActiveIsAlone(r: Registry, id: Id)
    requires OneActive(r) && r.Tracks(id) && IsActive(r.StatusOf(id))
    ensures AloneActive(r, id)
  {
  }

  // ----- Every step and every run

  /** Every step keeps the agent in order, if the copy it may locate reports to its own entry. */
  lemma StepIsSafe(cfg: Settings, a: Agent, e: Step)
    requires AgentOk(cfg, a) && Enabled(a, e) && ReportsHome(a, e)
    ensures AgentOk(cfg, Next(cfg, a, e))
  {
    hide OneActive, RetryHasTask, DistinctJobs, JobsKnown, JobsBusy, JobsMatch, WaitsBounded, TargetFor;
    if e.FileReady? {
      ReadyIsSafe(cfg, a, e.id, e.networkUp, e.now);
    } else if e.JobTaken? {
      TakeIsSafe(cfg, a);
    } else if e.CopyLocated? {
      LocatingIsSafeIff(cfg, a, e.id);
    } else if IsJobStep(e) {
      WorkerStepIsSafe(cfg, a, e);
      StepKeepsSane(cfg, a, e);
    } else {
      FreeStepIsSafe(cfg, a, e);
    }
  }

  /** A run in which every copy looks up its own entry. */
  ghost predicate OrderlyRun(cfg: Settings, a: Agent, steps: seq<Step>, end: Agent)
    requires AgentOk(cfg, a)
    decreases |steps|
  {
    if steps == [] then end == a
    else
      Enabled(a, steps[0]) && ReportsHome(a, steps[0]) &&
      (StepIsSafe(cfg, a, steps[0]);
       OrderlyRun(cfg, Next(cfg, a, steps[0]), steps[1..], end))
  }

  lemma StartIsOk(cfg: Settings)
    ensures AgentOk(cfg, START)
  {
  }

  /** Every orderly run from a good state ends in a good state. */
  lemma {:induction false} EveryRunIsSafe(cfg: Settings, a: Agent, steps: seq<Step>, end: Agent)
    requires AgentOk(cfg, a) && OrderlyRun(cfg, a, steps, end)
    ensures AgentOk(cfg, end)
    decreases |steps|
  {
    hide OneActive, RetryHasTask, DistinctJobs, JobsKnown, JobsBusy, JobsMatch, WaitsBounded, Next, Enabled, TargetFor;
    if steps != [] {
      StepIsSafe(cfg, a, steps[0]);
      EveryRunIsSafe(cfg, Next(cfg, a, steps[0]), steps[1..], end);
    }
  }

  /** In good states a queued job's entry, while tracked, is in the queue status. */
  lemma QueueIsMarked(cfg: Settings, a: Agent)
    requires AgentOk(cfg, a)
    ensures forall i :: 0 <= i < |a.queue| && a.reg.Tracks(a.queue[i].id) ==> a.reg.StatusOf(a.queue[i].id) == InQueue
  {
    hide Sane, OneActive;
    forall i | 0 <= i < |a.queue| && a.reg.Tracks(a.queue[i].id) ensures a.reg.StatusOf(a.queue[i].id) == InQueue {
      assert TicketOk(a.reg, a.queue[i]);
    }
  }

  // ----- What the cleanup by age would have to spare

  /** The cleanup by age forgets no entry that has a job. */
  ghost predicate Spares(a: Agent, e: Step) {
    e.OldCleaned? ==> forall id: Id :: HasJob(a, id) ==> id !in OldIds(a.reg, e.cutoff)
  }

  ghost predicate JobsTracked(a: Agent) {
    forall id: Id :: HasJob(a, id) ==> a.reg.Tracks(id)
  }

  /** Only a ready event gives an entry a job, and only an entry that is tracked and ready. */
  lemma StepGivesJobs(cfg: Settings, a: Agent, e: Step, id: Id)
    requires Backed(a.reg) && Enabled(a, e)
    ensures HasJob(Next(cfg, a, e), id) ==> HasJob(a, id) || (a.reg.Tracks(id) && a.reg.StatusOf(id) == Ready)
  {
    hide RetryHasTask, UpdateStatus, HandleShortage, TargetFor, HasJob;
    var a' := Next(cfg, a, e);
    if e.FileReady? {
      if a.reg.Tracks(e.id) && a.reg.StatusOf(e.id) == Ready {
        EnqueueGivesOneJob(a, e.id, e.now);
        SameJobs(a, a'.reg);
      }
    } else if e.JobTaken? {
      TakingKeepsJobs(cfg, a);
    } else {
      FewerJobs(cfg, a, e, id);
    }
  }

  lemma FewerJobs(cfg: Settings, a: Agent, e: Step, id: Id)
    requires Backed(a.reg) && Enabled(a, e) && !e.FileReady? && !e.JobTaken?
    ensures HasJob(Next(cfg, a, e), id) ==> HasJob(a, id)
  {
    hide RetryHasTask, OneActive, UpdateStatus, HandleShortage, TargetFor;
    var a' := Next(cfg, a, e);
    if !IsJobStep(e) {
      FreeStepEvolves(cfg, a, e);
    }
    assert Queued(a', id) <==> Queued(a, id);
  }

  /** Only the cleanup by age forgets entries. */
  lemma StepKeepsTracking(cfg: Settings, a: Agent, e: Step)
    requires Sane(cfg, a) && Enabled(a, e)
    ensures e.OldCleaned? || a.reg.files.vals.Keys <= Next(cfg, a, e).reg.files.vals.Keys
  {
    hide RetryHasTask, DistinctJobs, JobsKnown, JobsBusy, WaitsBounded, OneActive, UpdateStatus,
         HandleShortage, TargetFor;
    if !IsJobStep(e) {
      FreeStepEvolves(cfg, a, e);
    } else if e.FileReady? {
      UpdateEffect(a.reg, e.id, InQueue, NoPatch, e.now);
      UpdateEffect(a.reg, e.id, WaitingForNetwork, NoPatch, e.now);
    } else if !e.JobTaken? {
      JobStepIsWorkerStep(cfg, a, e);
    }
  }

  /** A step that spares the entries of jobs lets every copy report to its own entry. */
  lemma SparingStepIsOrderly(cfg: Settings, a: Agent, e: Step)
    requires AgentOk(cfg, a) && JobsTracked(a) && Enabled(a, e) && Spares(a, e)
    ensures ReportsHome(a, e) && JobsTracked(Next(cfg, a, e))
  {
    hide OneActive, RetryHasTask, DistinctJobs, JobsKnown, JobsBusy, JobsMatch, WaitsBounded, TargetFor, Next;
    StepKeepsTracking(cfg, a, e);
    var a' := Next(cfg, a, e);
    forall id: Id | HasJob(a', id) ensures a'.reg.Tracks(id) {
      StepGivesJobs(cfg, a, e, id);
      if e.OldCleaned? {
        FreeStepEvolves(cfg, a, e);
        SameJobs(a, a'.reg);
        SparedIsKept(cfg, a, e, id);
      }
    }
    if e.CopyLocated? {
      assert HasJob(a, e.id);
    }
  }

  lemma SparedIsKept(cfg: Settings, a: Agent, e: Step, id: Id)
    requires Backed(a.reg) && e.OldCleaned? && a.reg.Tracks(id) && id !in OldIds(a.reg, e.cutoff)
    ensures Next(cfg, a, e).reg.Tracks(id)
  {
    hide RetryHasTask;
  }

  /** Every cleanup by age along the run spares the entries of jobs. */
  ghost predicate SparesAlong(cfg: Settings, a: Agent, steps: seq<Step>)
    requires Sane(cfg, a)
    decreases |steps|
  {
    steps == [] ||
    (Spares(a, steps[0]) &&
     (Enabled(a, steps[0]) ==>
        (StepKeepsSane(cfg, a, steps[0]);
         SparesAlong(cfg, Next(cfg, a, steps[0]), steps[1..]))))
  }

  /** If no cleanup by age forgets an entry that has a job, every run is orderly. */
  lemma {:induction false} SparingRunIsOrderly(cfg: Settings, a: Agent, steps: seq<Step>, end: Agent)
    requires AgentOk(cfg, a) && JobsTracked(a) && Run(cfg, a, steps, end) && SparesAlong(cfg, a, steps)
    ensures OrderlyRun(cfg, a, steps, end)
    decreases |steps|
  {
    hide OneActive, RetryHasTask, DistinctJobs, JobsKnown, JobsBusy, JobsMatch, WaitsBounded, Next, Enabled, TargetFor,
         JobsTracked, Spares;
    if steps != [] {
      SparingStepIsOrderly(cfg, a, steps[0]);
      StepIsSafe(cfg, a, steps[0]);
      SparingRunIsOrderly(cfg, Next(cfg, a, steps[0]), steps[1..], end);
    }
  }

  /**
   In every state reachable from the start by a run whose cleanups by age spare the entries of jobs, no
   path has two active entries, and a queued job's entry, while tracked, is in the queue status.
   */
  lemma EveryReachableStateIsSafe(cfg: Settings, steps: seq<Step>, end: Agent)
    requires Sane(cfg, START) && Run(cfg, START, steps, end) && SparesAlong(cfg, START, steps)
    ensures OneActive(end.reg)
    ensures forall i :: 0 <= i < |end.queue| && end.reg.Tracks(end.queue[i].id) ==>
      end.reg.StatusOf(end.queue[i].id) == InQueue
  {
    hide Run, OrderlyRun, SparesAlong, Sane;
    StartIsOk(cfg);
    assert JobsTracked(START);
    SparingRunIsOrderly(cfg, START, steps, end);
    EveryRunIsSafe(cfg, START, steps, end);
    QueueIsMarked(cfg, end);
  }
}
