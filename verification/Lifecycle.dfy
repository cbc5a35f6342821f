/**
 The agent as a whole: the registry, the job queue and the workers, with one event for each handler or
 loop iteration of the program. Handlers are atomic; any event may happen any number of times.
 */
module Lifecycle {
  import opened TrackedFiles
  import opened OrderedDict
  import opened Selection
  import opened Registries
  import opened NetworkRecovery
  import opened GrowthDetection
  import opened SpaceRetry

  datatype Settings = Settings(detector: DetectorSettings, space: SpaceSettings)

  /** A queued job: the entry it was made for, and that entry's path. */
  datatype Ticket = Ticket(id: Id, path: Path)

  /** Fetched from the queue; given its copy status; copying; or copied and not yet finalised. */
  datatype Phase = Taken | Begun | CopyPhase | Copied

  /** A job in a worker's hands; `target` is the entry the copy reports to. */
  datatype Job = Job(path: Path, target: Id, phase: Phase)

  /** `waits` and `delays` count, for each entry, its waits for space and the seconds scheduled for them. */
  datatype Agent = Agent(
    reg: Registry,
    queue: seq<Ticket>,
    running: map<Id, Job>,
    waits: map<Id, nat>,
    delays: map<Id, nat>)

  datatype Step =
    | FileDiscovered(path: Path, size: nat, now: Time)
    | SizeChanged(id: Id, size: nat, now: Time)
    | GrowthNoted(id: Id, size: nat, now: Time)
    | Sampled(id: Id, seen: Observation, now: Time)
    | FileReady(id: Id, networkUp: bool, now: Time)
    | JobTaken
    | ShortOfSpace(id: Id, shortage: Shortage, now: Time)
    | CopyStarted(id: Id, now: Time)
    | CopyLocated(id: Id)
    | CopyReported(id: Id, status: FileStatus, now: Time)
    | CopyDone(id: Id, now: Time)
    | JobFinalised(id: Id, now: Time)
    | CopyRefused(id: Id)
    | CopyRaised(id: Id, sourceGone: bool, now: Time)
    | JobCrashed(id: Id)
    | NetworkRecovered(now: Time)
    | MissingCleaned(existing: set<Path>)
    | OldCleaned(cutoff: Time)
    | RetryFired(id: Id)
    | RetryCancelled(id: Id)

  /** Statuses the detector's loop passes over. */
  predicate PassedOver(s: FileStatus) {
    s in {InQueue, Copying, GrowingCopy, Completed, Failed, Removed, SpaceError}
  }

  predicate InPhase(a: Agent, id: Id, phase: Phase) {
    id in a.running && a.running[id].phase == phase
  }

  /** The guards the handlers themselves check, or that their place in the program implies. */
  predicate Enabled(a: Agent, e: Step) {
    match e
    case FileDiscovered(_, _, _) => true
    case SizeChanged(id, _, _) => a.reg.Tracks(id) && IsActive(a.reg.StatusOf(id))
    case GrowthNoted(id, _, _) => a.reg.Tracks(id) && a.reg.StatusOf(id) in {Discovered, Growing}
    case Sampled(id, _, _) => a.reg.Tracks(id) && !PassedOver(a.reg.StatusOf(id))
    case FileReady(_, _, _) => true
    case JobTaken => a.queue != []
    case ShortOfSpace(id, _, _) => InPhase(a, id, Taken)
    case CopyStarted(id, _) => InPhase(a, id, Taken)
    case CopyLocated(id) => InPhase(a, id, Begun)
    case CopyReported(id, status, _) => InPhase(a, id, CopyPhase) && status in {Copying, GrowingCopy}
    case CopyDone(id, _) => InPhase(a, id, CopyPhase)
    case JobFinalised(id, _) => InPhase(a, id, Copied)
    case CopyRefused(id) => InPhase(a, id, Begun) || InPhase(a, id, CopyPhase)
    case CopyRaised(id, _, _) => InPhase(a, id, Begun) || InPhase(a, id, CopyPhase)
    case JobCrashed(id) => InPhase(a, id, Taken)
    case NetworkRecovered(_) => true
    case MissingCleaned(_) => true
    case OldCleaned(_) => true
    case RetryFired(id) => id in a.reg.tasks && a.reg.tasks[id].Pending?
    case RetryCancelled(_) => true
  }

  /** A sample's effect: store the growth fields, then the recommended status if it is new. */
  function SampleEntry(cfg: DetectorSettings, r: Registry, id: Id, seen: Observation, now: Time): Registry
    requires r.Tracks(id)
  {
    var f := r.files.vals[id];
    var v := CheckGrowth(cfg, f, seen, now);
    var r1 := if seen.Size? && f.status != WaitingForNetwork then UpdateStatus(r, id, f.status, v.patch, now) else r;
    if v.status == f.status then r1 else UpdateStatus(r1, id, v.status, NoPatch, now)
  }

  /** The handler of a ready event: queue the file, or let it wait for the network. */
  function HandleReady(a: Agent, id: Id, networkUp: bool, now: Time): Agent {
    if !a.reg.Tracks(id) || a.reg.StatusOf(id) != Ready then a
    else if networkUp then Enqueue(a, id, now)
    else a.(reg := UpdateStatus(a.reg, id, WaitingForNetwork, NoPatch, now))
  }

  function Enqueue(a: Agent, id: Id, now: Time): Agent
    requires a.reg.Tracks(id)
  {
    a.(queue := a.queue + [Ticket(id, a.reg.files.vals[id].path)],
       reg := UpdateStatus(a.reg, id, InQueue, NoPatch, now))
  }

  /** The entry a copy reports to: the one the lookup by path shows, or else the job's own. */
  function TargetFor(r: Registry, id: Id, path: Path): Id
    requires r.Valid()
  {
    var current := Pick(CurrentTable, r.Listing(), path, AnyStatus);
    if current.Some? && current.value.status != Removed then current.value.id else id
  }

  /** Gives the entry its copy status; the copy goes on whether or not the entry is still tracked. */
  function WithStartedCopy(a: Agent, id: Id, now: Time): Agent
    requires id in a.running
  {
    var r :=
      if a.reg.Tracks(id) then UpdateStatus(a.reg, id, InitialStatus(a.reg.files.vals[id]), NoPatch, now)
      else a.reg;
    a.(reg := r, running := a.running[id := a.running[id].(phase := Begun)])
  }

  function WithLocatedCopy(a: Agent, id: Id): Agent
    requires a.reg.Valid() && id in a.running
  {
    var job := a.running[id];
    a.(running := a.running[id := Job(job.path, TargetFor(a.reg, id, job.path), CopyPhase)])
  }

  function CountOf(m: map<Id, nat>, id: Id): nat {
    if id in m then m[id] else 0
  }

  function WithShortage(cfg: SpaceSettings, a: Agent, id: Id, s: Shortage, now: Time): Agent {
    var (r, handling) := HandleShortage(cfg, a.reg, id, s, now);
    var released := a.(reg := r, running := a.running - {id});
    if handling.WaitScheduled? && a.reg.Tracks(id) then
      released.(waits := a.waits[id := CountOf(a.waits, id) + 1],
                delays := a.delays[id := CountOf(a.delays, id) + handling.delay])
    else released
  }

  function WithUpdate(a: Agent, id: Id, status: FileStatus, patch: Patch, now: Time): Agent {
    a.(reg := UpdateStatus(a.reg, id, status, patch, now))
  }

  function Next(cfg: Settings, a: Agent, e: Step): Agent
    requires a.reg.Valid() && Enabled(a, e)
  {
    match e
    case FileDiscovered(path, size, now) => a.(reg := AddFile(a.reg, path, size, now).0)
    case SizeChanged(id, size, now) => WithUpdate(a, id, a.reg.StatusOf(id), SetSize(size), now)
    case GrowthNoted(id, size, now) =>
      WithUpdate(a, id, a.reg.StatusOf(id), UpdateGrowthInfo(a.reg.files.vals[id], size, now), now)
    case Sampled(id, seen, now) => a.(reg := SampleEntry(cfg.detector, a.reg, id, seen, now))
    case FileReady(id, networkUp, now) => HandleReady(a, id, networkUp, now)
    case JobTaken =>
      a.(queue := a.queue[1..], running := a.running[a.queue[0].id := Job(a.queue[0].path, a.queue[0].id, Taken)])
    case ShortOfSpace(id, shortage, now) => WithShortage(cfg.space, a, id, shortage, now)
    case CopyStarted(id, now) => WithStartedCopy(a, id, now)
    case CopyLocated(id) => WithLocatedCopy(a, id)
    case CopyReported(id, status, now) => WithUpdate(a, a.running[id].target, status, NoPatch, now)
    case CopyDone(id, now) =>
      var copied := a.running[id].(phase := Copied);
      WithUpdate(a, a.running[id].target, Completed, NoPatch, now).(running := a.running[id := copied])
    case JobFinalised(id, now) => WithUpdate(a, id, Completed, ResetRetryCount, now).(running := a.running - {id})
    case CopyRefused(id) => a.(running := a.running - {id})
    case CopyRaised(id, sourceGone, now) =>
      WithUpdate(a, id, if sourceGone then Removed else Failed, NoPatch, now).(running := a.running - {id})
    case JobCrashed(id) => a.(running := a.running - {id})
    case NetworkRecovered(now) => a.(reg := ProcessWaiting(a.reg, now))
    case MissingCleaned(existing) => a.(reg := CleanupMissing(a.reg, existing))
    case OldCleaned(cutoff) => a.(reg := CleanupOld(a.reg, cutoff))
    case RetryFired(id) => a.(reg := FireRetry(a.reg, id))
    case RetryCancelled(id) => a.(reg := CancelRetry(a.reg, id).0)
  }

  // ----- Invariants

  ghost predicate Queued(a: Agent, id: Id) {
    exists i :: 0 <= i < |a.queue| && a.queue[i].id == id
  }

  ghost predicate HasJob(a: Agent, id: Id) {
    id in a.running || Queued(a, id)
  }

  /** Queued and running jobs all have different entries. */
  ghost predicate DistinctJobs(a: Agent) {
    && (forall i, j :: 0 <= i < j < |a.queue| ==> a.queue[i].id != a.queue[j].id)
    && (forall i :: 0 <= i < |a.queue| ==> a.queue[i].id !in a.running)
  }

  predicate PhaseAllows(phase: Phase, s: FileStatus) {
    match phase
    case Taken => s == InQueue
    case Begun => s in {Copying, GrowingCopy}
    case CopyPhase => s in {Copying, GrowingCopy}
    case Copied => s == Completed
  }

  /** Statuses that say a job has the entry in hand or has finished with it. */
  predicate Busy(s: FileStatus) {
    s in {InQueue, Copying, GrowingCopy, Completed}
  }

  /** No job is about, or reports to, an entry that is still to come. */
  ghost predicate JobsKnown(a: Agent) {
    && (forall i :: 0 <= i < |a.queue| ==> a.queue[i].id < a.reg.nextId)
    && (forall id: Id :: id in a.running ==> id < a.reg.nextId && a.running[id].target < a.reg.nextId)
  }

  /** An entry with a job, while tracked, has a status that says so. */
  ghost predicate JobsBusy(a: Agent) {
    forall id: Id :: HasJob(a, id) && a.reg.Tracks(id) ==> Busy(a.reg.StatusOf(id))
  }

  /** An entry that has a job, or can still get one. */
  ghost predicate MayWait(a: Agent, id: Id) {
    a.reg.Tracks(id) && (HasJob(a, id) || !Busy(a.reg.StatusOf(id)))
  }

  /** The waits of every entry stay below the maximum, and are covered by its retry count. */
  ghost predicate WaitsBounded(cfg: SpaceSettings, a: Agent) {
    && (forall id: Id :: CountOf(a.waits, id) <= (if cfg.maxRetries == 0 then 0 else cfg.maxRetries - 1))
    && (forall id: Id :: CountOf(a.delays, id) <= CountOf(a.waits, id) * cfg.delay)
    && (forall id: Id :: id in a.waits ==> id < a.reg.nextId)
    && (forall id: Id :: MayWait(a, id) ==> CountOf(a.waits, id) <= a.reg.files.vals[id].retryCount)
  }

  /** What holds in every run of the agent, whatever its copies report to. */
  ghost predicate Sane(cfg: Settings, a: Agent) {
    Backed(a.reg) && DistinctJobs(a) && JobsKnown(a) && JobsBusy(a) && WaitsBounded(cfg.space, a)
  }

  /** A queued job's entry, while tracked, is in the queue status. */
  predicate TicketOk(r: Registry, t: Ticket) {
    r.Tracks(t.id) ==> r.StatusOf(t.id) == InQueue && r.files.vals[t.id].path == t.path
  }

  /** A running job reports to its own entry, which, while tracked, has a status its phase implies. */
  predicate JobOk(r: Registry, id: Id, job: Job) {
    && job.target == id
    && (r.Tracks(id) ==> PhaseAllows(job.phase, r.StatusOf(id)) && r.files.vals[id].path == job.path)
  }

  ghost predicate JobsMatch(a: Agent) {
    && (forall i :: 0 <= i < |a.queue| ==> TicketOk(a.reg, a.queue[i]))
    && (forall id: Id :: id in a.running ==> JobOk(a.reg, id, a.running[id]))
  }

  /** What holds as long as every copy reports to its own entry. */
  ghost predicate AgentOk(cfg: Settings, a: Agent) {
    Sane(cfg, a) && OneActive(a.reg) && JobsMatch(a)
  }

  /**
   The condition under which a copy looks up its own entry. Every other step meets it: a copy whose
   entry has been forgotten takes over whatever entry the lookup by path shows.
   */
  predicate ReportsHome(a: Agent, e: Step)
    requires a.reg.Valid() && Enabled(a, e)
  {
    e.CopyLocated? ==> a.reg.Tracks(e.id) || TargetFor(a.reg, e.id, a.running[e.id].path) == e.id
  }

  /** A freshly started agent. */
  const START: Agent := Agent(Registry(Dict([], map[]), map[], 0), [], map[], map[], map[])
}
