/** What a single entry can and cannot do over any run. */
module LifecycleHistory {
  import opened TrackedFiles
  import opened Registries
  import opened SpaceRetry
  import opened Lifecycle
  import opened LifecycleSanity
  import opened LifecycleSafety

  // ----- One step, in any run

  /** A copy reports to the entry. */
  predicate Targeted(a: Agent, id: Id) {
    exists x :: x in a.running && a.running[x].target == id
  }

  /**
   An entry leaves a busy or terminal status only through its own job or a copy that reports to it, and
   gets a job only when it is ready.
   */
  ghost predicate Moves(a: Agent, a': Agent, id: Id) {
    && a.reg.nextId <= a'.reg.nextId
    && (a'.reg.Tracks(id) ==>
          && a.reg.Tracks(id) && a'.reg.files.vals[id].path == a.reg.files.vals[id].path
          && (|| FreeMove(a.reg.StatusOf(id), a'.reg.StatusOf(id))
              || (a.reg.StatusOf(id) == Ready && a'.reg.StatusOf(id) == InQueue)
              || HasJob(a, id)
              || (Targeted(a, id) && a'.reg.StatusOf(id) in {Copying, GrowingCopy, Completed})))
    && (HasJob(a', id) ==> HasJob(a, id) || (a.reg.Tracks(id) && a.reg.StatusOf(id) == Ready))
  }

  lemma StepMoves(cfg: Settings, a: Agent, e: Step, id: Id)
    requires Sane(cfg, a) && Enabled(a, e) && id < a.reg.nextId
    ensures Moves(a, Next(cfg, a, e), id)
  {
    hide RetryHasTask, OneActive, DistinctJobs, JobsKnown, JobsBusy, WaitsBounded, HasJob, Targeted, Next;
    StepGivesJobs(cfg, a, e, id);
    if !IsJobStep(e) {
      FreeStepEvolves(cfg, a, e);
    } else if e.FileReady? {
      ReadyMovesFreely(cfg, a, e);
    } else if e.JobTaken? {
      TakingKeepsJobs(cfg, a);
    } else {
      WorkerMoves(cfg, a, e);
    }
  }

  /** A worker's step writes the entry of its job, or a copying status to the entry its copy reports to. */
  lemma WorkerMoves(cfg: Settings, a: Agent, e: Step)
    requires Sane(cfg, a) && Enabled(a, e) && IsJobStep(e) && !e.FileReady? && !e.JobTaken?
    ensures var a', x := Next(cfg, a, e), Written(a, e);
      && OnlyEntry(a.reg, a'.reg, x)
      && (|| HasJob(a, x)
          || (Targeted(a, x) && (a.reg.Tracks(x) ==> a'.reg.StatusOf(x) in {Copying, GrowingCopy, Completed})))
  {
    hide RetryHasTask, OneActive, DistinctJobs, JobsKnown, JobsBusy, WaitsBounded, UpdateStatus,
         HandleShortage, TargetFor;
    JobStepIsWorkerStep(cfg, a, e);
    if e.CopyReported? {
      UpdateEffect(a.reg, a.running[e.id].target, e.status, NoPatch, e.now);
    } else if e.CopyDone? {
      UpdateEffect(a.reg, a.running[e.id].target, Completed, NoPatch, e.now);
    }
  }

  lemma ReadyMovesFreely(cfg: Settings, a: Agent, e: Step)
    requires a.reg.Valid() && Enabled(a, e) && e.FileReady?
    ensures var a' := Next(cfg, a, e);
      && a'.reg.nextId == a.reg.nextId && a'.reg.files.vals.Keys == a.reg.files.vals.Keys
      && forall id: Id :: a.reg.Tracks(id) ==>
           && a'.reg.files.vals[id].path == a.reg.files.vals[id].path
           && (|| FreeMove(a.reg.StatusOf(id), a'.reg.StatusOf(id))
               || (a.reg.StatusOf(id) == Ready && a'.reg.StatusOf(id) == InQueue))
  {
    hide UpdateStatus, Apply, Stamp, Registry.Valid;
    UpdateEffect(a.reg, e.id, if e.networkUp then InQueue else WaitingForNetwork, NoPatch, e.now);
  }

  // ----- In any run

  /** An entry that has been forgotten is never tracked again. */
  lemma {:induction false} ForgottenForGood(cfg: Settings, a: Agent, steps: seq<Step>, end: Agent, id: Id)
    requires Sane(cfg, a) && Run(cfg, a, steps, end) && id < a.reg.nextId && !a.reg.Tracks(id)
    ensures !end.reg.Tracks(id)
    decreases |steps|
  {
    hide RetryHasTask, DistinctJobs, JobsKnown, JobsBusy, WaitsBounded, Next, Enabled, Targeted, HasJob;
    if steps != [] {
      StepKeepsSane(cfg, a, steps[0]);
      StepMoves(cfg, a, steps[0], id);
      ForgottenForGood(cfg, Next(cfg, a, steps[0]), steps[1..], end, id);
    }
  }

  /** Statuses no step leads out of without a job or a copy that reports there, except into Removed. */
  predicate Absorbing(s: FileStatus) {
    Busy(s) || s in {Failed, Removed, SpaceError}
  }

  /**
   An entry without a job that is finished, given up, or left behind by its copy never gets a job again, in
   any run: all that can still happen to it is that it is removed, forgotten, or taken over by a copy of
   its path whose own entry was forgotten.
   */
  lemma {:induction false} NeverTriedAgain(cfg: Settings, a: Agent, steps: seq<Step>, end: Agent, id: Id)
    requires Sane(cfg, a) && Run(cfg, a, steps, end) && id < a.reg.nextId && !HasJob(a, id)
    requires a.reg.Tracks(id) ==> Absorbing(a.reg.StatusOf(id))
    ensures !HasJob(end, id) && (end.reg.Tracks(id) ==> Absorbing(end.reg.StatusOf(id)))
    decreases |steps|
  {
    hide RetryHasTask, DistinctJobs, JobsKnown, JobsBusy, WaitsBounded, Next, Enabled, Targeted, HasJob;
    if steps != [] {
      StepKeepsSane(cfg, a, steps[0]);
      StepMoves(cfg, a, steps[0], id);
      NeverTriedAgain(cfg, Next(cfg, a, steps[0]), steps[1..], end, id);
    }
  }

  // ----- In orderly runs

  lemma {:induction false} OrderlyIsRun(cfg: Settings, a: Agent, steps: seq<Step>, end: Agent)
    requires AgentOk(cfg, a) && OrderlyRun(cfg, a, steps, end)
    ensures Run(cfg, a, steps, end)
    decreases |steps|
  {
    hide OneActive, RetryHasTask, DistinctJobs, JobsKnown, JobsBusy, JobsMatch, WaitsBounded, Next, Enabled, TargetFor;
    if steps != [] {
      StepIsSafe(cfg, a, steps[0]);
      OrderlyIsRun(cfg, Next(cfg, a, steps[0]), steps[1..], end);
    }
  }

  /** Where an entry at rest in status `s` may still be found later. */
  predicate RestsAt(s: FileStatus, s': FileStatus) {
    s == s' || (s in {Failed, SpaceError} && s' == Removed)
  }

  /** A worker writes its own entry, which is in hand unless the job is about to be finalised. */
  lemma WorkerPhase(a: Agent, e: Step)
    requires JobsMatch(a) && Enabled(a, e) && IsJobStep(e) && !e.FileReady? && !e.JobTaken?
    ensures Written(a, e) == e.id && HasJob(a, e.id)
    ensures a.reg.Tracks(e.id) && !e.JobFinalised? ==> a.reg.StatusOf(e.id) in {InQueue, Copying, GrowingCopy}
    ensures a.reg.Tracks(e.id) && e.JobFinalised? ==> a.reg.StatusOf(e.id) == Completed
  {
    assert JobOk(a.reg, e.id, a.running[e.id]);
  }

  lemma OrderlyWorkerMoves(cfg: Settings, a: Agent, e: Step, id: Id)
    requires AgentOk(cfg, a) && Enabled(a, e) && a.reg.Tracks(id) && IsJobStep(e) && !e.FileReady? && !e.JobTaken?
    ensures var r' := Next(cfg, a, e).reg;
      r'.Tracks(id) ==>
        || a.reg.StatusOf(id) == r'.StatusOf(id)
        || (HasJob(a, id) && a.reg.StatusOf(id) in {InQueue, Copying, GrowingCopy})
  {
    hide RetryHasTask, OneActive, DistinctJobs, JobsKnown, JobsBusy, JobsMatch, WaitsBounded, Next, HasJob, Targeted,
         Enabled;
    WorkerPhase(a, e);
    WorkerMoves(cfg, a, e);
    if e.JobFinalised? && e.id == id {
      FinalisedIsCompleted(cfg, a, e);
    }
  }

  /** When copies report to their own entries, an entry leaves a busy status only through its own job. */
  lemma OrderlyStepMoves(cfg: Settings, a: Agent, e: Step, id: Id)
    requires AgentOk(cfg, a) && Enabled(a, e) && a.reg.Tracks(id)
    ensures var r' := Next(cfg, a, e).reg;
      r'.Tracks(id) ==>
        || FreeMove(a.reg.StatusOf(id), r'.StatusOf(id))
        || (a.reg.StatusOf(id) == Ready && r'.StatusOf(id) == InQueue)
        || (HasJob(a, id) && a.reg.StatusOf(id) in {InQueue, Copying, GrowingCopy})
  {
    hide RetryHasTask, OneActive, DistinctJobs, JobsKnown, JobsBusy, JobsMatch, WaitsBounded, Next, HasJob;
    if !IsJobStep(e) {
      FreeStepEvolves(cfg, a, e);
    } else if e.FileReady? {
      ReadyMovesFreely(cfg, a, e);
    } else if e.JobTaken? {
      TakingKeepsJobs(cfg, a);
    } else {
      OrderlyWorkerMoves(cfg, a, e, id);
    }
  }

  lemma FinalisedIsCompleted(cfg: Settings, a: Agent, e: Step)
    requires a.reg.Valid() && Enabled(a, e) && e.JobFinalised? && a.reg.Tracks(e.id)
    ensures Next(cfg, a, e).reg.Tracks(e.id) && Next(cfg, a, e).reg.StatusOf(e.id) == Completed
  {
    hide Apply, Stamp;
    UpdateEffect(a.reg, e.id, Completed, ResetRetryCount, e.now);
  }

  lemma {:induction false} AbsorbingStatusStays(cfg: Settings, a: Agent, steps: seq<Step>, end: Agent, id: Id)
    requires AgentOk(cfg, a) && OrderlyRun(cfg, a, steps, end)
    requires a.reg.Tracks(id) && Absorbing(a.reg.StatusOf(id)) && (IsTerminal(a.reg.StatusOf(id)) || !HasJob(a, id))
    ensures end.reg.Tracks(id) ==> RestsAt(a.reg.StatusOf(id), end.reg.StatusOf(id))
    decreases |steps|
  {
    hide OneActive, RetryHasTask, DistinctJobs, JobsKnown, JobsBusy, JobsMatch, WaitsBounded, Next, Enabled, HasJob,
         TargetFor, Targeted;
    if steps != [] {
      StepIsSafe(cfg, a, steps[0]);
      TrackedIsKnown(a.reg, id);
      StepMoves(cfg, a, steps[0], id);
      OrderlyStepMoves(cfg, a, steps[0], id);
      var a' := Next(cfg, a, steps[0]);
      if a'.reg.Tracks(id) {
        AbsorbingStatusStays(cfg, a', steps[1..], end, id);
      } else {
        OrderlyIsRun(cfg, a', steps[1..], end);
        ForgottenForGood(cfg, a', steps[1..], end, id);
      }
    }
  }

  lemma TrackedIsKnown(r: Registry, id: Id)
    requires r.Valid() && r.Tracks(id)
    ensures id < r.nextId
  {
  }

  /**
   Nothing revives a finished entry: over any orderly run, whatever retries fire and whatever events are
   repeated, a completed entry stays completed, a removed one removed, and a failed one failed or removed.
   */
  lemma TerminalEntriesStayTerminal(cfg: Settings, a: Agent, steps: seq<Step>, end: Agent, id: Id)
    requires AgentOk(cfg, a) && OrderlyRun(cfg, a, steps, end) && a.reg.Tracks(id) && IsTerminal(a.reg.StatusOf(id))
    ensures end.reg.Tracks(id) ==> IsTerminal(end.reg.StatusOf(id))
    ensures end.reg.Tracks(id) ==> RestsAt(a.reg.StatusOf(id), end.reg.StatusOf(id))
  {
    AbsorbingStatusStays(cfg, a, steps, end, id);
  }

  // ----- Where the workflow leaves entries behind

  /** A refused copy gives its job up and leaves its entry as it is. */
  lemma RefusedCopyIsReleased(cfg: Settings, a: Agent, id: Id)
    requires Sane(cfg, a) && Enabled(a, CopyRefused(id))
    ensures var a' := Next(cfg, a, CopyRefused(id));
      && Sane(cfg, a') && a'.reg == a.reg && !HasJob(a', id) && id < a.reg.nextId
      && (a.reg.Tracks(id) ==> Busy(a.reg.StatusOf(id)))
  {
    hide RetryHasTask, WaitsBounded;
    StepKeepsSane(cfg, a, CopyRefused(id));
    var a' := Next(cfg, a, CopyRefused(id));
    assert HasJob(a, id) && (Queued(a', id) <==> Queued(a, id));
  }

  /** In any run a copy that reports failure is never tried again: its entry gets no further job. */
  lemma RefusedCopyIsNeverTriedAgain(cfg: Settings, a: Agent, id: Id, steps: seq<Step>, end: Agent)
    requires Sane(cfg, a) && Run(cfg, a, [CopyRefused(id)] + steps, end)
    ensures !HasJob(end, id)
  {
    hide RetryHasTask, WaitsBounded, DistinctJobs, JobsKnown, JobsBusy, HasJob, Next;
    var all := [CopyRefused(id)] + steps;
    assert all[0] == CopyRefused(id) && all[1..] == steps;
    RefusedCopyIsReleased(cfg, a, id);
    NeverTriedAgain(cfg, Next(cfg, a, CopyRefused(id)), steps, end, id);
  }

  /**
   In an orderly run it leaves its entry in the copying status for good: no later step of the agent
   changes that, until the entry is forgotten by age.
   */
  lemma RefusedCopyIsStuck(cfg: Settings, a: Agent, id: Id, steps: seq<Step>, end: Agent)
    requires AgentOk(cfg, a) && a.reg.Tracks(id) && OrderlyRun(cfg, a, [CopyRefused(id)] + steps, end)
    ensures end.reg.Tracks(id) ==>
      end.reg.StatusOf(id) == a.reg.StatusOf(id) && end.reg.StatusOf(id) in {Copying, GrowingCopy}
  {
    hide OneActive, RetryHasTask, WaitsBounded, DistinctJobs, JobsKnown, JobsBusy, HasJob, Next;
    var all := [CopyRefused(id)] + steps;
    assert all[0] == CopyRefused(id) && all[1..] == steps;
    StepIsSafe(cfg, a, CopyRefused(id));
    RefusedCopyIsReleased(cfg, a, id);
    assert JobOk(a.reg, id, a.running[id]);
    AbsorbingStatusStays(cfg, Next(cfg, a, CopyRefused(id)), steps, end, id);
  }

  /**
   A permanent space error really is permanent: in any run the entry is never queued again, and in an orderly
   one it only ever leaves the status by being removed.
   */
  lemma SpaceErrorIsPermanent(cfg: Settings, a: Agent, steps: seq<Step>, end: Agent, id: Id)
    requires Sane(cfg, a) && Run(cfg, a, steps, end) && a.reg.Tracks(id) && a.reg.StatusOf(id) == SpaceError
    ensures !HasJob(end, id)
    ensures AgentOk(cfg, a) && OrderlyRun(cfg, a, steps, end) && end.reg.Tracks(id) ==>
      end.reg.StatusOf(id) in {SpaceError, Removed}
  {
    hide OneActive, RetryHasTask, WaitsBounded, DistinctJobs, JobsKnown, JobsMatch, Run, OrderlyRun, HasJob;
    TrackedIsKnown(a.reg, id);
    NeverTriedAgain(cfg, a, steps, end, id);
    if AgentOk(cfg, a) && OrderlyRun(cfg, a, steps, end) {
      AbsorbingStatusStays(cfg, a, steps, end, id);
    }
  }

  // ----- The ready event's handler in two halves

  /** The first half looks whether the file is still ready, with the network up. */
  predicate SawReady(a: Agent, id: Id) {
    a.reg.Tracks(id) && a.reg.StatusOf(id) == Ready
  }

  /** The second half queues the file on the strength of what the first half saw. */
  function FinishReady(a: Agent, id: Id, sawReady: bool, now: Time): Agent {
    if sawReady && a.reg.Tracks(id) then Enqueue(a, id, now) else a
  }

  /** How many jobs of the entry are queued. */
  function QueuedTimes(queue: seq<Ticket>, id: Id): nat {
    if queue == [] then 0 else QueuedTimes(queue[..|queue| - 1], id) + (if queue[|queue| - 1].id == id then 1 else 0)
  }

  lemma EnqueueCounts(a: Agent, id: Id, now: Time)
    requires a.reg.Tracks(id)
    ensures QueuedTimes(Enqueue(a, id, now).queue, id) == QueuedTimes(a.queue, id) + 1
  {
    var a' := Enqueue(a, id, now);
    assert a'.queue[..|a'.queue| - 1] == a.queue;
  }

  lemma {:induction false} NotQueued(a: Agent, n: nat, id: Id)
    requires !Queued(a, id) && n <= |a.queue|
    ensures QueuedTimes(a.queue[..n], id) == 0
    decreases n
  {
    if n != 0 {
      assert a.queue[..n][..n - 1] == a.queue[..n - 1];
      NotQueued(a, n - 1, id);
    }
  }

  /** What queueing a ready file does to the jobs, once and a second time. */
  lemma EnqueueTwice(cfg: Settings, a: Agent, id: Id, now: Time)
    requires Sane(cfg, a) && a.reg.Tracks(id) && a.reg.StatusOf(id) == Ready
    ensures var a1 := Enqueue(a, id, now);
      && QueuedTimes(a1.queue, id) == 1 && DistinctJobs(a1) && a1.reg.Tracks(id) && a1.reg.StatusOf(id) == InQueue
      && QueuedTimes(Enqueue(a1, id, now).queue, id) == 2 && !DistinctJobs(Enqueue(a1, id, now))
  {
    hide RetryHasTask, JobsKnown, WaitsBounded, DistinctJobs, UpdateStatus, Apply, Stamp;
    assert !HasJob(a, id);
    hide HasJob, QueuedTimes, JobsBusy;
    var a1 := Enqueue(a, id, now);
    NotQueuedYet(a, id);
    UpdateEffect(a.reg, id, InQueue, NoPatch, now);
    EnqueueCounts(a, id, now);
    EnqueueCounts(a1, id, now);
    EnqueueGivesOneJob(a, id, now);
    EnqueueKeepsDistinctIff(a, id, now);
    EnqueueKeepsDistinctIff(a1, id, now);
  }

  lemma NotQueuedYet(a: Agent, id: Id)
    requires !HasJob(a, id)
    ensures QueuedTimes(a.queue, id) == 0
  {
    assert a.queue[..|a.queue|] == a.queue;
    NotQueued(a, |a.queue|, id);
  }

  /**
   Two handlers of one ready file, each looking and then queueing: one after the other they queue it
   once and keep the agent in order; both looking before either queues, they queue it twice.
   */
  lemma RacingHandlersQueueTwice(cfg: Settings, a: Agent, id: Id, now: Time)
    requires AgentOk(cfg, a) && a.reg.Tracks(id) && a.reg.StatusOf(id) == Ready
    ensures var a1 := FinishReady(a, id, SawReady(a, id), now);
      var inTurn := FinishReady(a1, id, SawReady(a1, id), now);
      AgentOk(cfg, inTurn) && QueuedTimes(inTurn.queue, id) == 1
    ensures var a1 := FinishReady(a, id, SawReady(a, id), now);
      var racing := FinishReady(a1, id, SawReady(a, id), now);
      !DistinctJobs(racing) && QueuedTimes(racing.queue, id) == 2
  {
    hide Sane, OneActive, JobsMatch, DistinctJobs, QueuedTimes, Enqueue, HasJob;
    EnqueueTwice(cfg, a, id, now);
    ReadyIsSafe(cfg, a, id, true, now);
  }
}
