/** What the handlers of ready events and the workers do to the queue, the entries and the jobs. */
module LifecycleEffects {
  import opened TrackedFiles
  import opened Registries
  import opened GrowthDetection
  import opened SpaceRetry
  import opened Lifecycle
  import opened LifecycleSanity

  /** A ready event about a ready file queues it last, or has it wait for the network; any other changes nothing. */
  lemma ReadyEventEffect(cfg: Settings, a: Agent, e: Step)
    requires a.reg.Valid() && e.FileReady?
    ensures var a' := Next(cfg, a, e);
      var ready := a.reg.Tracks(e.id) && a.reg.StatusOf(e.id) == Ready;
      && OnlyEntry(a.reg, a'.reg, e.id) && a'.running == a.running && (!ready ==> a' == a)
      && (ready && e.networkUp ==>
            a'.queue == a.queue + [Ticket(e.id, a.reg.files.vals[e.id].path)] && a'.reg.StatusOf(e.id) == InQueue)
      && (ready && !e.networkUp ==> a'.queue == a.queue && a'.reg.StatusOf(e.id) == WaitingForNetwork)
  {
    hide UpdateStatus, Apply, Stamp;
    UpdateEffect(a.reg, e.id, if e.networkUp then InQueue else WaitingForNetwork, NoPatch, e.now);
  }

  /** A worker takes the job queued first, for the entry and path it was queued with. */
  lemma TakingEffect(cfg: Settings, a: Agent)
    requires a.reg.Valid() && Enabled(a, JobTaken)
    ensures var a', first := Next(cfg, a, JobTaken), a.queue[0];
      && [first] + a'.queue == a.queue && a'.reg == a.reg
      && a'.running == a.running[first.id := Job(first.path, first.id, Taken)]
  {
  }

  /** The status a worker's step leaves in the entry it writes, if it writes one. */
  predicate Leaves(a: Agent, e: Step, f: TrackedFile, f': TrackedFile) {
    && (e.CopyStarted? ==> f'.status == InitialStatus(f) && f'.retryCount == f.retryCount)
    && (e.CopyReported? ==> f'.status == e.status && f'.retryCount == f.retryCount)
    && (e.CopyDone? ==> f'.status == Completed && f'.retryCount == f.retryCount)
    && (e.JobFinalised? ==> f'.status == Completed && f'.retryCount == 0)
    && (e.CopyRaised? ==> f'.status == (if e.sourceGone then Removed else Failed) && f'.retryCount == f.retryCount)
    && (e.CopyLocated? || e.CopyRefused? || e.JobCrashed? ==> f' == f)
  }

  lemma CopyLeaves(cfg: Settings, a: Agent, e: Step)
    requires a.reg.Valid() && Enabled(a, e) && (e.CopyStarted? || e.CopyReported? || e.CopyDone?)
    requires a.reg.Tracks(Written(a, e))
    ensures var r', x := Next(cfg, a, e).reg, Written(a, e);
      r'.Tracks(x) && Leaves(a, e, a.reg.files.vals[x], r'.files.vals[x])
  {
    hide UpdateStatus, Apply, Stamp;
    var x := Written(a, e);
    var status := if e.CopyStarted? then InitialStatus(a.reg.files.vals[x])
                  else if e.CopyReported? then e.status else Completed;
    UpdateEffect(a.reg, x, status, NoPatch, e.now);
  }

  lemma EndLeaves(cfg: Settings, a: Agent, e: Step)
    requires a.reg.Valid() && Enabled(a, e) && IsJobStep(e) && !e.FileReady? && !e.JobTaken? && !e.ShortOfSpace?
    requires !e.CopyStarted? && !e.CopyReported? && !e.CopyDone? && a.reg.Tracks(e.id)
    ensures var r' := Next(cfg, a, e).reg; r'.Tracks(e.id) && Leaves(a, e, a.reg.files.vals[e.id], r'.files.vals[e.id])
  {
    hide UpdateStatus, Apply, Stamp, TargetFor;
    if e.JobFinalised? {
      UpdateEffect(a.reg, e.id, Completed, ResetRetryCount, e.now);
    } else if e.CopyRaised? {
      UpdateEffect(a.reg, e.id, if e.sourceGone then Removed else Failed, NoPatch, e.now);
    }
  }

  /**
   What a worker's step leaves in the entry it writes: the status of its mode on starting, what a report says, completed
   when done, with the retries forgotten once the job is finalised, and removed or failed after an
   exception; a copy refused without one leaves the entry as it is.
   */
  lemma WorkerEffect(cfg: Settings, a: Agent, e: Step)
    requires a.reg.Valid() && Enabled(a, e) && IsJobStep(e) && !e.FileReady? && !e.JobTaken? && !e.ShortOfSpace?
    requires a.reg.Tracks(Written(a, e))
    ensures var r', x := Next(cfg, a, e).reg, Written(a, e);
      r'.Tracks(x) && Leaves(a, e, a.reg.files.vals[x], r'.files.vals[x])
  {
    hide Next, Leaves, Enabled;
    if e.CopyStarted? || e.CopyReported? || e.CopyDone? {
      CopyLeaves(cfg, a, e);
    } else {
      EndLeaves(cfg, a, e);
    }
  }

  /** A worker lets go of its job exactly when the job is over; otherwise only its phase and target move on. */
  lemma JobsMoveOn(cfg: Settings, a: Agent, e: Step)
    requires a.reg.Valid() && Enabled(a, e) && IsJobStep(e) && !e.FileReady? && !e.JobTaken?
    ensures var a' := Next(cfg, a, e);
      && a'.queue == a.queue && a'.running - {e.id} == a.running - {e.id}
      && (e.id !in a'.running
          <==> e.ShortOfSpace? || e.JobFinalised? || e.CopyRefused? || e.CopyRaised? || e.JobCrashed?)
      && (e.CopyStarted? ==> a'.running[e.id] == a.running[e.id].(phase := Begun))
      && (e.CopyDone? ==> a'.running[e.id] == a.running[e.id].(phase := Copied))
      && (e.CopyReported? ==> a'.running == a.running)
  {
    hide UpdateStatus, HandleShortage, TargetFor;
  }
}
