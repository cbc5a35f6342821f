/** Exactly which steps break what copies of forgotten entries can break, over any run. */
module LifecycleExact {
  import opened TrackedFiles
  import opened Registries
  import opened GrowthDetection
  import opened SpaceRetry
  import opened Lifecycle
  import opened LifecycleSanity
  import opened LifecycleSafety
  import opened LifecycleHistory

  // ----- Along a run

  /** `p` holds in every state of the run. */
  ghost predicate Along(cfg: Settings, a: Agent, steps: seq<Step>, p: Agent -> bool)
    requires Sane(cfg, a)
    decreases |steps|
  {
    p(a) &&
    (steps != [] && Enabled(a, steps[0]) ==>
       (StepKeepsSane(cfg, a, steps[0]);
        Along(cfg, Next(cfg, a, steps[0]), steps[1..], p)))
  }

  /** Every step of the run meets the condition `q` in the state it is taken in. */
  ghost predicate EachStep(cfg: Settings, a: Agent, steps: seq<Step>, q: (Agent, Step) -> bool)
    requires Sane(cfg, a)
    decreases |steps|
  {
    steps != [] && Enabled(a, steps[0]) ==>
      q(a, steps[0]) &&
      (StepKeepsSane(cfg, a, steps[0]);
       EachStep(cfg, Next(cfg, a, steps[0]), steps[1..], q))
  }

  /** Condition `q` on a step in a good state says exactly when the next state is good. */
  ghost predicate Decides(cfg: Settings, p: Agent -> bool, q: (Agent, Step) -> bool) {
    forall a: Agent, e: Step :: Sane(cfg, a) && p(a) && Enabled(a, e) ==> (p(Next(cfg, a, e)) <==> q(a, e))
  }

  /** Then a run from a good state stays in good ones if and only if each of its steps meets the condition. */
  lemma {:induction false} AlongIff(
    cfg: Settings, a: Agent, steps: seq<Step>, end: Agent, p: Agent -> bool, q: (Agent, Step) -> bool)
    requires Sane(cfg, a) && Run(cfg, a, steps, end) && p(a) && Decides(cfg, p, q)
    ensures Along(cfg, a, steps, p) <==> EachStep(cfg, a, steps, q)
    decreases |steps|
  {
    hide RetryHasTask, DistinctJobs, JobsKnown, JobsBusy, WaitsBounded, Enabled, Next;
    if steps != [] {
      StepKeepsSane(cfg, a, steps[0]);
      var a' := Next(cfg, a, steps[0]);
      assert p(a') <==> q(a, steps[0]);
      if p(a') {
        AlongIff(cfg, a', steps[1..], end, p, q);
      }
    }
  }

  // ----- What workers write

  /** The step of a worker that may write one entry: any but taking a job. */
  predicate IsWorkerStep(e: Step) {
    IsJobStep(e) && !e.FileReady? && !e.JobTaken?
  }

  /** The step makes the entry it writes active: it starts a copy, reports for one, or gives one up to wait. */
  predicate Activates(cfg: Settings, a: Agent, e: Step) {
    && Enabled(a, e)
    && (|| e.CopyStarted? || e.CopyReported?
        || (e.ShortOfSpace? && !HandleShortage(cfg.space, a.reg, e.id, e.shortage, e.now).1.FailedOutright?))
  }

  /** A step that makes its entry active says so; every other one finishes the entry or writes nothing. */
  ghost predicate WritesAsSaid(cfg: Settings, a: Agent, e: Step)
    requires a.reg.Valid() && Enabled(a, e) && IsWorkerStep(e) && a.reg.Tracks(Written(a, e))
  {
    var r', x := Next(cfg, a, e).reg, Written(a, e);
    && OnlyEntry(a.reg, r', x)
    && (Activates(cfg, a, e) ==> IsActive(r'.StatusOf(x)) && r'.StatusOf(x) != InQueue)
    && (!Activates(cfg, a, e) ==> r' == a.reg || IsTerminal(r'.StatusOf(x)))
    && (e.CopyReported? || e.CopyDone? ==> r'.StatusOf(x) != InQueue)
  }

  lemma CopyWrites(cfg: Settings, a: Agent, e: Step)
    requires Sane(cfg, a) && Enabled(a, e) && (e.CopyStarted? || e.CopyReported?) && a.reg.Tracks(Written(a, e))
    ensures WritesAsSaid(cfg, a, e)
  {
    hide RetryHasTask, DistinctJobs, JobsKnown, JobsBusy, WaitsBounded, UpdateStatus, Apply, Stamp;
    var x := Written(a, e);
    var status := if e.CopyStarted? then InitialStatus(a.reg.files.vals[x]) else e.status;
    UpdateEffect(a.reg, x, status, NoPatch, e.now);
    UpdateIsOnlyEntry(a.reg, x, status, NoPatch, e.now);
  }

  lemma EndWrites(cfg: Settings, a: Agent, e: Step)
    requires Sane(cfg, a) && Enabled(a, e) && IsWorkerStep(e) && a.reg.Tracks(Written(a, e))
    requires e.CopyDone? || e.JobFinalised? || e.CopyRaised?
    ensures WritesAsSaid(cfg, a, e)
  {
    hide RetryHasTask, DistinctJobs, JobsKnown, JobsBusy, WaitsBounded, UpdateStatus, Apply, Stamp;
    var x := Written(a, e);
    var status := if e.CopyRaised? then (if e.sourceGone then Removed else Failed) else Completed;
    var patch := if e.JobFinalised? then ResetRetryCount else NoPatch;
    UpdateEffect(a.reg, x, status, patch, e.now);
    UpdateIsOnlyEntry(a.reg, x, status, patch, e.now);
  }

  lemma ShortageWrites(cfg: Settings, a: Agent, e: Step)
    requires Sane(cfg, a) && Enabled(a, e) && e.ShortOfSpace? && a.reg.Tracks(Written(a, e))
    ensures WritesAsSaid(cfg, a, e)
  {
    hide RetryHasTask, DistinctJobs, JobsKnown, JobsBusy, WaitsBounded, HandleShortage;
    HandleShortageEffect(cfg.space, a.reg, e.id, e.shortage, e.now);
  }

  lemma WorkerWritesOne(cfg: Settings, a: Agent, e: Step)
    requires Sane(cfg, a) && Enabled(a, e) && IsWorkerStep(e)
    ensures OnlyEntry(a.reg, Next(cfg, a, e).reg, Written(a, e)) && Next(cfg, a, e).queue == a.queue
    ensures e.id in a.running
  {
    hide Sane, Next, WaitsOfOne, HasJob;
    JobStepIsWorkerStep(cfg, a, e);
  }

  lemma WorkerWrites(cfg: Settings, a: Agent, e: Step)
    requires Sane(cfg, a) && Enabled(a, e) && IsWorkerStep(e) && a.reg.Tracks(Written(a, e))
    ensures WritesAsSaid(cfg, a, e)
  {
    hide RetryHasTask, DistinctJobs, JobsKnown, JobsBusy, WaitsBounded, UpdateStatus, HandleShortage, TargetFor;
    if e.CopyStarted? || e.CopyReported? {
      CopyWrites(cfg, a, e);
    } else if e.ShortOfSpace? {
      ShortageWrites(cfg, a, e);
    } else if e.CopyDone? || e.JobFinalised? || e.CopyRaised? {
      EndWrites(cfg, a, e);
    } else {
      assert Next(cfg, a, e).reg == a.reg;
    }
  }

  // ----- One active entry per path

  /** If the step makes its entry active, no other entry of that path is. */
  ghost predicate Alone(cfg: Settings, a: Agent, e: Step) {
    Activates(cfg, a, e) && a.reg.Tracks(Written(a, e)) ==> AloneActive(a.reg, Written(a, e))
  }

  /** A status is active or terminal, never both. */
  lemma OneOfTwo()
    ensures forall s: FileStatus :: IsActive(s) <==> !IsTerminal(s)
  {
    forall s: FileStatus ensures IsActive(s) <==> !IsTerminal(s) {
      ActiveIsNotTerminal(s);
    }
  }

  lemma WorkerKeepsOneActiveIff(cfg: Settings, a: Agent, e: Step)
    requires Sane(cfg, a) && OneActive(a.reg) && Enabled(a, e) && IsWorkerStep(e)
    ensures OneActive(Next(cfg, a, e).reg) <==> Alone(cfg, a, e)
  {
    hide RetryHasTask, DistinctJobs, JobsKnown, JobsBusy, WaitsBounded, OneActive, AloneActive, Next, Enabled,
         Activates, IsActive, IsTerminal;
    OneOfTwo();
    WorkerWritesOne(cfg, a, e);
    var x := Written(a, e);
    WriteKeepsOneActiveIff(a.reg, Next(cfg, a, e).reg, x);
    if a.reg.Tracks(x) {
      WorkerWrites(cfg, a, e);
    }
  }

  lemma StepKeepsOneActiveIff(cfg: Settings, a: Agent, e: Step)
    requires Sane(cfg, a) && OneActive(a.reg) && Enabled(a, e)
    ensures OneActive(Next(cfg, a, e).reg) <==> Alone(cfg, a, e)
  {
    hide RetryHasTask, DistinctJobs, JobsKnown, JobsBusy, WaitsBounded, OneActive, AloneActive, Next, Enabled;
    if IsWorkerStep(e) {
      WorkerKeepsOneActiveIff(cfg, a, e);
    } else if e.FileReady? {
      ReadyKeepsOneActive(cfg, a, e);
    } else if e.JobTaken? {
      TakingShortensQueue(cfg, a);
    } else {
      FreeStepEvolves(cfg, a, e);
    }
  }

  lemma ReadyKeepsOneActive(cfg: Settings, a: Agent, e: Step)
    requires a.reg.Valid() && OneActive(a.reg) && Enabled(a, e) && e.FileReady?
    ensures OneActive(Next(cfg, a, e).reg)
  {
    hide OneActive, AloneActive, UpdateStatus;
    if a.reg.Tracks(e.id) && a.reg.StatusOf(e.id) == Ready {
      ActiveIsAlone(a.reg, e.id);
      UpdateKeepsOneActiveIff(a.reg, e.id, InQueue, NoPatch, e.now);
      UpdateKeepsOneActiveIff(a.reg, e.id, WaitingForNetwork, NoPatch, e.now);
    }
  }

  /**
   Over any run, no path ever has two active entries if and only if no worker makes an entry active beside
   another active one: its own on starting or giving up a copy, or the one its copy reports to.
   */
  lemma OneActiveAlongIff(cfg: Settings, a: Agent, steps: seq<Step>, end: Agent)
    requires Sane(cfg, a) && Run(cfg, a, steps, end) && OneActive(a.reg)
    ensures Along(cfg, a, steps, (b: Agent) => OneActive(b.reg))
      <==> EachStep(cfg, a, steps, (b, e) => Alone(cfg, b, e))
  {
    hide RetryHasTask, DistinctJobs, JobsKnown, JobsBusy, WaitsBounded, OneActive, Alone, Run, Enabled;
    forall b: Agent, e: Step | Sane(cfg, b) && OneActive(b.reg) && Enabled(b, e)
      ensures OneActive(Next(cfg, b, e).reg) <==> Alone(cfg, b, e)
    {
      StepKeepsOneActiveIff(cfg, b, e);
    }
    AlongIff(cfg, a, steps, end, (b: Agent) => OneActive(b.reg), (b, e) => Alone(cfg, b, e));
  }

  // ----- Finished entries

  /** The entry of `id` is finished, or has been forgotten. */
  predicate RestsOrGone(a: Agent, id: Id) {
    id < a.reg.nextId && (a.reg.Tracks(id) ==> IsTerminal(a.reg.StatusOf(id)))
  }

  /** A worker makes the entry active. */
  predicate Revives(cfg: Settings, a: Agent, e: Step, id: Id) {
    Activates(cfg, a, e) && a.reg.Tracks(id) && Written(a, e) == id
  }

  lemma WorkerRevivesIff(cfg: Settings, a: Agent, e: Step, id: Id)
    requires Sane(cfg, a) && RestsOrGone(a, id) && Enabled(a, e) && IsWorkerStep(e)
    ensures RestsOrGone(Next(cfg, a, e), id) <==> !Revives(cfg, a, e, id)
  {
    hide RetryHasTask, OneActive, DistinctJobs, JobsKnown, JobsBusy, WaitsBounded, Next, Enabled, Activates, IsActive,
         IsTerminal;
    OneOfTwo();
    WorkerWritesOne(cfg, a, e);
    if a.reg.Tracks(id) && Written(a, e) == id {
      WorkerWrites(cfg, a, e);
    }
  }

  /** A step revives a finished entry if and only if it is a worker's that makes it active. */
  lemma StepRevivesIff(cfg: Settings, a: Agent, e: Step, id: Id)
    requires Sane(cfg, a) && RestsOrGone(a, id) && Enabled(a, e)
    ensures RestsOrGone(Next(cfg, a, e), id) <==> !Revives(cfg, a, e, id)
  {
    hide RetryHasTask, OneActive, DistinctJobs, JobsKnown, JobsBusy, WaitsBounded, Next, Enabled;
    if IsWorkerStep(e) {
      WorkerRevivesIff(cfg, a, e, id);
    } else if e.FileReady? {
      ReadyMovesFreely(cfg, a, e);
    } else if e.JobTaken? {
      TakingShortensQueue(cfg, a);
    } else {
      FreeStepEvolves(cfg, a, e);
    }
  }

  /** Over any run a finished entry stays finished, or is forgotten, if and only if no step is one of those. */
  lemma RestsAlongIff(cfg: Settings, a: Agent, steps: seq<Step>, end: Agent, id: Id)
    requires Sane(cfg, a) && Run(cfg, a, steps, end) && RestsOrGone(a, id)
    ensures Along(cfg, a, steps, b => RestsOrGone(b, id))
      <==> EachStep(cfg, a, steps, (b, e) => !Revives(cfg, b, e, id))
  {
    hide RetryHasTask, DistinctJobs, JobsKnown, JobsBusy, WaitsBounded, RestsOrGone, Revives, Run, Enabled;
    forall b: Agent, e: Step | Sane(cfg, b) && RestsOrGone(b, id) && Enabled(b, e)
      ensures RestsOrGone(Next(cfg, b, e), id) <==> !Revives(cfg, b, e, id)
    {
      StepRevivesIff(cfg, b, e, id);
    }
    AlongIff(cfg, a, steps, end, b => RestsOrGone(b, id), (b, e) => !Revives(cfg, b, e, id));
  }

  // ----- Queued entries

  /** The entry of every queued job, while tracked, is in the queue status. */
  ghost predicate QueueMarked(a: Agent) {
    forall id: Id :: Queued(a, id) && a.reg.Tracks(id) ==> a.reg.StatusOf(id) == InQueue
  }

  /** No copy reports to an entry that another job is queued for. */
  ghost predicate LeavesQueued(a: Agent, e: Step) {
    Enabled(a, e) && (e.CopyReported? || e.CopyDone?) ==>
      !(Queued(a, a.running[e.id].target) && a.reg.Tracks(a.running[e.id].target))
  }

  lemma WorkerLeavesQueuedIff(cfg: Settings, a: Agent, e: Step)
    requires Sane(cfg, a) && QueueMarked(a) && Enabled(a, e) && IsWorkerStep(e)
    ensures QueueMarked(Next(cfg, a, e)) <==> LeavesQueued(a, e)
  {
    hide RetryHasTask, OneActive, DistinctJobs, JobsKnown, JobsBusy, WaitsBounded, Next, Queued, Activates;
    WorkerWritesOne(cfg, a, e);
    SameQueue(a, Next(cfg, a, e));
    RunningIsNotQueued(a, e.id);
    if a.reg.Tracks(Written(a, e)) {
      WorkerWrites(cfg, a, e);
    }
  }

  lemma StepLeavesQueuedIff(cfg: Settings, a: Agent, e: Step)
    requires Sane(cfg, a) && QueueMarked(a) && Enabled(a, e)
    ensures QueueMarked(Next(cfg, a, e)) <==> LeavesQueued(a, e)
  {
    hide RetryHasTask, OneActive, DistinctJobs, JobsKnown, JobsBusy, WaitsBounded, Next, Queued, Enabled;
    if IsWorkerStep(e) {
      WorkerLeavesQueuedIff(cfg, a, e);
    } else if e.FileReady? {
      ReadyMarksQueue(cfg, a, e);
    } else if e.JobTaken? {
      TakingShortensQueue(cfg, a);
    } else {
      FreeStepEvolves(cfg, a, e);
      SameQueue(a, Next(cfg, a, e));
      QueuedIsKnown(a);
    }
  }

  lemma SameQueue(a: Agent, a': Agent)
    requires a'.queue == a.queue
    ensures forall id: Id :: Queued(a', id) <==> Queued(a, id)
  {
  }

  lemma QueuedIsKnown(a: Agent)
    requires JobsKnown(a)
    ensures forall id: Id :: Queued(a, id) ==> id < a.reg.nextId
  {
  }

  lemma RunningIsNotQueued(a: Agent, id: Id)
    requires DistinctJobs(a) && id in a.running
    ensures !Queued(a, id)
  {
  }

  lemma TakingShortensQueue(cfg: Settings, a: Agent)
    requires a.reg.Valid() && Enabled(a, JobTaken)
    ensures var a' := Next(cfg, a, JobTaken);
      a'.reg == a.reg && forall id: Id :: Queued(a', id) ==> Queued(a, id)
  {
    var a' := Next(cfg, a, JobTaken);
    forall id: Id | Queued(a', id) ensures Queued(a, id) {
      var i :| 0 <= i < |a'.queue| && a'.queue[i].id == id;
      assert a.queue[i + 1].id == id;
    }
  }

  lemma ReadyMarksQueue(cfg: Settings, a: Agent, e: Step)
    requires Sane(cfg, a) && QueueMarked(a) && Enabled(a, e) && e.FileReady?
    ensures QueueMarked(Next(cfg, a, e))
  {
    hide RetryHasTask, DistinctJobs, JobsKnown, WaitsBounded, UpdateStatus, Queued, Apply, Stamp;
    if a.reg.Tracks(e.id) && a.reg.StatusOf(e.id) == Ready {
      var a' := Next(cfg, a, e);
      UpdateEffect(a.reg, e.id, if e.networkUp then InQueue else WaitingForNetwork, NoPatch, e.now);
      if e.networkUp {
        QueueGrowsByOne(a, e.id, e.now);
      } else {
        SameQueue(a, a');
      }
    }
  }

  lemma QueueGrowsByOne(a: Agent, id: Id, now: Time)
    requires a.reg.Tracks(id)
    ensures forall x: Id :: Queued(Enqueue(a, id, now), x) ==> Queued(a, x) || x == id
  {
    var a' := Enqueue(a, id, now);
    forall x: Id | Queued(a', x) && x != id ensures Queued(a, x) {
      var i :| 0 <= i < |a'.queue| && a'.queue[i].id == x;
      assert a.queue[i].id == x;
    }
  }

  /** Over any run queued entries stay in the queue status if and only if no copy reports to one. */
  lemma QueueMarkedAlongIff(cfg: Settings, a: Agent, steps: seq<Step>, end: Agent)
    requires Sane(cfg, a) && Run(cfg, a, steps, end) && QueueMarked(a)
    ensures Along(cfg, a, steps, b => QueueMarked(b)) <==> EachStep(cfg, a, steps, (b, e) => LeavesQueued(b, e))
  {
    hide RetryHasTask, DistinctJobs, JobsKnown, JobsBusy, WaitsBounded, QueueMarked, LeavesQueued, Run, Enabled;
    forall b: Agent, e: Step | Sane(cfg, b) && QueueMarked(b) && Enabled(b, e)
      ensures QueueMarked(Next(cfg, b, e)) <==> LeavesQueued(b, e)
    {
      StepLeavesQueuedIff(cfg, b, e);
    }
    AlongIff(cfg, a, steps, end, b => QueueMarked(b), (b, e) => LeavesQueued(b, e));
  }

  // ----- Status changes that come late

  /**
   A status that reaches its entry late, after other steps, keeps a sane agent sane with one active entry per
   path if and only if an entry with a job is still marked busy, an entry made active is the only active
   one of its path, and the waits of an entry that may wait again are covered by its retry count.
   */
  lemma LateStatusIsHarmlessIff(cfg: Settings, a: Agent, id: Id, status: FileStatus, now: Time)
    requires Sane(cfg, a) && OneActive(a.reg) && a.reg.Tracks(id)
    ensures var a' := WithUpdate(a, id, status, NoPatch, now);
      Sane(cfg, a') && OneActive(a'.reg) <==>
        && (HasJob(a, id) ==> Busy(status))
        && (IsActive(status) ==> AloneActive(a.reg, id))
        && (HasJob(a, id) || !Busy(status) ==> CountOf(a.waits, id) <= a.reg.files.vals[id].retryCount)
  {
    hide RetryHasTask, DistinctJobs, JobsKnown, OneActive, AloneActive, UpdateStatus, HasJob, Apply, Stamp;
    var a' := WithUpdate(a, id, status, NoPatch, now);
    UpdateIsBacked(a.reg, id, status, NoPatch, now);
    UpdateEffect(a.reg, id, status, NoPatch, now);
    UpdateKeepsOneActiveIff(a.reg, id, status, NoPatch, now);
    SameJobs(a, a'.reg);
    assert JobsKnown(a') && DistinctJobs(a') by { JobsUntouched(a, a'.reg); }
    forall x: Id | x != id && MayWait(a', x) ensures CountOf(a.waits, x) <= a'.reg.files.vals[x].retryCount {
      assert MayWait(a, x);
    }
    assert MayWait(a', id) <==> HasJob(a, id) || !Busy(status);
  }

  lemma JobsUntouched(a: Agent, r': Registry)
    requires JobsKnown(a) && DistinctJobs(a) && r'.nextId == a.reg.nextId
    ensures JobsKnown(a.(reg := r')) && DistinctJobs(a.(reg := r'))
  {
  }

  // ----- Runs from the start

  /**
   In every state reachable from the start, by any steps whatever, paths have one active entry each if and
   only if no worker on the way made an entry active beside another, and queued entries are in the queue
   status if and only if no copy on the way reported to one.
   */
  lemma EveryReachableStateIsSafeIff(cfg: Settings, steps: seq<Step>, end: Agent)
    requires Sane(cfg, START) && Run(cfg, START, steps, end)
    ensures Along(cfg, START, steps, (b: Agent) => OneActive(b.reg))
      <==> EachStep(cfg, START, steps, (b, e) => Alone(cfg, b, e))
    ensures Along(cfg, START, steps, b => QueueMarked(b)) <==> EachStep(cfg, START, steps, (b, e) => LeavesQueued(b, e))
  {
    assert OneActive(START.reg) && QueueMarked(START);
    OneActiveAlongIff(cfg, START, steps, end);
    QueueMarkedAlongIff(cfg, START, steps, end);
  }
}
