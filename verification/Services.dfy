/** The services around the state manager, as objects that drive it. */
module Services {
  import opened Wrappers
  import opened TrackedFiles
  import opened Registries
  import opened NetworkRecovery
  import opened StateManagement
  import opened GrowthDetection
  import opened SpaceRetry
  import opened Lifecycle
  import opened LifecycleSanity

  /** Samples tracked files and moves them along as their growth stops. */
  class GrowingFileDetector {
    const settings: DetectorSettings
    const stateManager: StateManager

    constructor (settings: DetectorSettings, stateManager: StateManager)
      ensures this.settings == settings && this.stateManager == stateManager
    {
      this.settings := settings;
      this.stateManager := stateManager;
    }

    /** Stores what the sample shows and recommends a status. */
    method CheckFileGrowthStatus(f: TrackedFile, seen: Observation, now: Time) returns (recommended: FileStatus)
      requires stateManager.State().Valid() && stateManager.repository.GetById(f.id) == Some(f)
      modifies stateManager, stateManager.repository
      ensures recommended == CheckGrowth(settings, f, seen, now).status
      ensures f.status != WaitingForNetwork ==>
        && (recommended == Removed <==> seen.Absent?) && (recommended == Failed <==> seen.Faulty?)
        && (seen.Size? && f.growth.lastCheck.None? ==> recommended == Discovered)
        && (seen.Size? && f.growth.lastCheck.Some? ==> RightStatus(settings, f, seen.bytes, now, recommended))
      ensures stateManager.State() ==
        (if f.status != WaitingForNetwork && seen.Size?
         then UpdateStatus(old(stateManager.State()), f.id, f.status, CheckGrowth(settings, f, seen, now).patch, now)
         else old(stateManager.State()))
      ensures stateManager.State().Valid()
    {
      if f.status != WaitingForNetwork {
        RecommendationIff(settings, f, seen, now);
        if seen.Size? && f.growth.lastCheck.Some? {
          GrowthRecommendationIff(settings, f, seen.bytes, now);
        }
      }
      hide RightStatus;
      if f.status == WaitingForNetwork {
        return WaitingForNetwork;
      }
      match seen {
        case Absent => return Removed;
        case Faulty => return Failed;
        case Size(size) =>
          var updated;
          if f.growth.lastCheck.None? {
            var first := GrowthInfo(size, size, Some(now), Some(now), f.growth.rate);
            updated := stateManager.UpdateFileStatusById(f.id, f.status, SetGrowth(size, first), now);
            return Discovered;
          }
          var growing, hasGrown := size > f.size, size > f.growth.firstSeenSize;
          var since := f.growth.stableSince;
          if growing {
            since := None;
          } else if since.None? {
            since := Some(now);
          }
          var growth := GrowthInfo(f.size, f.growth.firstSeenSize, Some(now), since, Rate(f.growth, size, now));
          updated := stateManager.UpdateFileStatusById(f.id, f.status, SetGrowth(size, growth), now);
          return Decide(settings, growing, hasGrown, size, StableFor(since, now));
      }
    }

    /** The scanner's bookkeeping of a size it saw; the status stays. */
    method UpdateFileGrowthInfo(f: TrackedFile, newSize: nat, now: Time)
      requires stateManager.State().Valid() && stateManager.repository.GetById(f.id) == Some(f)
      modifies stateManager, stateManager.repository
      ensures stateManager.State()
        == UpdateStatus(
             old(stateManager.State()), f.id, f.status, GrowthDetection.UpdateGrowthInfo(f, newSize, now), now)
      ensures stateManager.State().Valid()
    {
      var rate, first := f.growth.rate, newSize;
      if f.growth.firstSeenSize > 0 {
        rate, first := Rate(f.growth, newSize, now), f.growth.firstSeenSize;
      }
      var since := f.growth.stableSince;
      if newSize > f.size {
        since := None;
      } else if since.None? {
        since := Some(now);
      }
      var growth := GrowthInfo(f.size, first, Some(now), since, rate);
      var updated := stateManager.UpdateFileStatusById(f.id, f.status, SetGrowth(newSize, growth), now);
    }

    /** Checks one file and stores the recommendation if it differs from the status. */
    method SampleFile(f: TrackedFile, seen: Observation, now: Time)
      requires Backed(stateManager.State()) && stateManager.repository.GetById(f.id) == Some(f) && !PassedOver(f.status)
      modifies stateManager, stateManager.repository
      ensures stateManager.State() == SampleEntry(settings, old(stateManager.State()), f.id, seen, now)
      ensures EvolvesWell(old(stateManager.State()), stateManager.State())
    {
      hide CheckGrowth, UpdateStatus, Backed, OneActive;
      assert stateManager.State().Valid() by { BackedIsValid(stateManager.State()); }
      SampleEvolves(settings, stateManager.State(), f.id, seen, now);
      var recommended := CheckFileGrowthStatus(f, seen, now);
      if recommended != f.status {
        var updated := stateManager.UpdateFileStatusById(f.id, recommended, NoPatch, now);
      }
    }

    /**
     One iteration of the monitoring loop, undisturbed: the files to sample are chosen once, and the registry
     ends up with each of them sampled in turn.
     */
    method MonitorOnce(look: Path -> Observation, now: Time)
      requires Backed(stateManager.State())
      modifies stateManager, stateManager.repository
      ensures stateManager.State()
        == SampleAll(settings, old(stateManager.State()), Watched(old(stateManager.State()).Listing()), look, now)
      ensures EvolvesWell(old(stateManager.State()), stateManager.State())
    {
      hide SampleEntry, Backed, EvolvesWell, Watched, PassedOver, SampleAll, SampledUpTo;
      ghost var before := stateManager.State();
      assert before.Valid() by { BackedIsValid(before); }
      var all := stateManager.repository.GetAll();
      var watched := Watched(all);
      StartSampling(settings, before, look, now);
      var i := 0;
      while i < |watched|
        invariant 0 <= i <= |watched|
        invariant SampledUpTo(settings, before, watched, i, look, now, stateManager.State())
      {
        ghost var r := stateManager.State();
        NextToSample(settings, before, watched, i, look, now, r);
        SampleFile(watched[i], look(watched[i].path), now);
        SampleOneMore(settings, before, watched, i, look, now, r);
        i := i + 1;
      }
      AllSampled(settings, before, watched, look, now, stateManager.State());
    }
  }

  /** The registry `r` when the first `i` of the watched files have been sampled, the others being as they were. */
  ghost predicate SampledUpTo(
    cfg: DetectorSettings, before: Registry, watched: seq<TrackedFile>, i: nat, look: Path -> Observation,
    now: Time, r: Registry)
    requires i <= |watched|
  {
    && Backed(before) && EvolvesWell(before, r) && Backed(r)
    && r == SampleAll(cfg, before, watched[..i], look, now)
    && (forall j :: i <= j < |watched| ==>
          r.Tracks(watched[j].id) && r.files.vals[watched[j].id] == watched[j] && !PassedOver(watched[j].status))
    && (forall j, k :: 0 <= j < k < |watched| ==> watched[j].id != watched[k].id)
  }

  lemma StartSampling(cfg: DetectorSettings, r: Registry, look: Path -> Observation, now: Time)
    requires Backed(r)
    ensures SampledUpTo(cfg, r, Watched(r.Listing()), 0, look, now, r)
  {
    hide EvolvesWell, Watched, PassedOver;
    EvolvesNot(r);
    WatchedAreTracked(r);
    assert forall j :: 0 <= j < |Watched(r.Listing())| ==> Watched(r.Listing())[j] in Watched(r.Listing());
  }

  lemma NextToSample(
    cfg: DetectorSettings, before: Registry, watched: seq<TrackedFile>, i: nat, look: Path -> Observation,
    now: Time, r: Registry)
    requires i < |watched| && SampledUpTo(cfg, before, watched, i, look, now, r)
    ensures Backed(r) && r.Tracks(watched[i].id) && r.files.vals[watched[i].id] == watched[i]
      && !PassedOver(watched[i].status)
  {
    hide EvolvesWell, SampleAll, PassedOver, Backed;
  }

  lemma SampleOneMore(
    cfg: DetectorSettings, before: Registry, watched: seq<TrackedFile>, i: nat, look: Path -> Observation,
    now: Time, r: Registry)
    requires i < |watched| && SampledUpTo(cfg, before, watched, i, look, now, r) && r.Tracks(watched[i].id)
    requires EvolvesWell(r, SampleEntry(cfg, r, watched[i].id, look(watched[i].path), now))
    ensures SampledUpTo(cfg, before, watched, i + 1, look, now,
                        SampleEntry(cfg, r, watched[i].id, look(watched[i].path), now))
  {
    hide EvolvesWell, SampleEntry, PassedOver, RetryHasTask;
    SampleEffect(cfg, r, watched[i].id, look(watched[i].path), now);
    EvolvesTwice(before, r, SampleEntry(cfg, r, watched[i].id, look(watched[i].path), now));
    assert watched[..i + 1][..i] == watched[..i];
  }

  lemma AllSampled(
    cfg: DetectorSettings, before: Registry, watched: seq<TrackedFile>, look: Path -> Observation,
    now: Time, r: Registry)
    requires SampledUpTo(cfg, before, watched, |watched|, look, now, r)
    ensures r == SampleAll(cfg, before, watched, look, now) && EvolvesWell(before, r)
  {
    hide EvolvesWell, SampleAll, PassedOver, Backed;
    assert watched[..|watched|] == watched;
  }

  /** The files an iteration of the monitoring loop samples: those sampled before that it does not pass over. */
  function Watched(files: seq<TrackedFile>): seq<TrackedFile> {
    if files == [] then []
    else
      var f := files[|files| - 1];
      Watched(files[..|files| - 1]) + (if f.growth.lastCheck.Some? && !PassedOver(f.status) then [f] else [])
  }

  /** The registry after the given files have been sampled, one after the other. */
  function SampleAll(
    cfg: DetectorSettings, r: Registry, files: seq<TrackedFile>, look: Path -> Observation, now: Time): Registry
  {
    if files == [] then r
    else
      var r' := SampleAll(cfg, r, files[..|files| - 1], look, now);
      var f := files[|files| - 1];
      if r'.Tracks(f.id) then SampleEntry(cfg, r', f.id, look(f.path), now) else r'
  }

  lemma {:induction false} WatchedAreListed(files: seq<TrackedFile>)
    requires forall i, j :: 0 <= i < j < |files| ==> files[i].id != files[j].id
    ensures forall f :: f in Watched(files) ==> f in files && !PassedOver(f.status)
    ensures forall i, j :: 0 <= i < j < |Watched(files)| ==> Watched(files)[i].id != Watched(files)[j].id
    decreases |files|
  {
    if files != [] {
      var front, last := files[..|files| - 1], files[|files| - 1];
      WatchedAreListed(front);
      forall f | f in Watched(front) ensures f in files && f.id != last.id {
        var j :| 0 <= j < |front| && front[j] == f;
        assert files[j] == f;
      }
    }
  }

  lemma WatchedAreTracked(r: Registry)
    requires r.Valid()
    ensures forall f :: f in Watched(r.Listing()) ==> r.Tracks(f.id) && r.files.vals[f.id] == f && !PassedOver(f.status)
    ensures forall i, j :: 0 <= i < j < |Watched(r.Listing())| ==>
      Watched(r.Listing())[i].id != Watched(r.Listing())[j].id
  {
    hide Watched;
    ListingOf(r);
    forall i | 0 <= i < |r.Listing()| ensures r.Listing()[i].id == r.files.keys[i] {
    }
    WatchedAreListed(r.Listing());
    forall f | f in Watched(r.Listing()) ensures r.Tracks(f.id) && r.files.vals[f.id] == f {
      var i :| 0 <= i < |r.Listing()| && r.Listing()[i] == f;
    }
  }

  lemma BackedIsValid(r: Registry)
    requires Backed(r)
    ensures r.Valid()
  {
  }

  lemma EvolvesNot(r: Registry)
    requires Backed(r)
    ensures EvolvesWell(r, r)
  {
    hide Backed, OneActive;
  }

  lemma EvolvesTwice(r: Registry, r1: Registry, r2: Registry)
    requires r.Valid() && EvolvesWell(r, r1) && EvolvesWell(r1, r2)
    ensures EvolvesWell(r, r2) && Backed(r2)
  {
    hide Backed, OneActive;
    assert forall id: Id :: r2.Tracks(id) && r1.Tracks(id) && r.Tracks(id) ==>
      EntryEvolves(r.files.vals[id], r2.files.vals[id]);
  }

  /** Holds the queue of jobs and answers ready events. */
  class JobQueueService {
    const stateManager: StateManager
    var jobQueue: seq<Ticket>
    var totalJobsAdded: nat
    var totalJobsProcessed: nat

    constructor (stateManager: StateManager)
      ensures this.stateManager == stateManager && jobQueue == [] && totalJobsAdded == totalJobsProcessed == 0
    {
      this.stateManager := stateManager;
      jobQueue, totalJobsAdded, totalJobsProcessed := [], 0, 0;
    }

    /** The queue and the registry, seen as an agent with the given jobs running. */
    ghost function AgentWith(running: map<Id, Job>, waits: map<Id, nat>, delays: map<Id, nat>): Agent
      reads this, stateManager, stateManager.repository
    {
      Agent(stateManager.State(), jobQueue, running, waits, delays)
    }

    /** Queues the file if it is still ready and the network is up; repeated events change nothing more. */
    method HandleFileReady(id: Id, networkUp: bool, now: Time)
      requires stateManager.State().Valid()
      modifies this, stateManager, stateManager.repository
      ensures AgentWith(map[], map[], map[]) == HandleReady(old(AgentWith(map[], map[], map[])), id, networkUp, now)
      ensures totalJobsAdded - old(totalJobsAdded) == |jobQueue| - old(|jobQueue|)
        && totalJobsProcessed == old(totalJobsProcessed)
    {
      hide UpdateStatus;
      var f := stateManager.repository.GetById(id);
      if f.None? || f.value.status != Ready {
        return;
      }
      var updated;
      if networkUp {
        jobQueue := jobQueue + [Ticket(id, f.value.path)];
        totalJobsAdded := totalJobsAdded + 1;
        updated := stateManager.UpdateFileStatusById(id, InQueue, NoPatch, now);
      } else {
        updated := stateManager.UpdateFileStatusById(id, WaitingForNetwork, NoPatch, now);
      }
    }

    /** Jobs leave the queue in the order they entered it. */
    method GetNextJob() returns (job: Option<Ticket>)
      modifies this
      ensures if old(jobQueue) == [] then job == None && jobQueue == [] && totalJobsProcessed == old(totalJobsProcessed)
              else (&& job.Some? && [job.value] + jobQueue == old(jobQueue)
                    && totalJobsProcessed == old(totalJobsProcessed) + 1)
      ensures totalJobsAdded == old(totalJobsAdded)
    {
      if jobQueue == [] {
        return None;
      }
      job := Some(jobQueue[0]);
      jobQueue := jobQueue[1..];
      totalJobsProcessed := totalJobsProcessed + 1;
    }

    /** Reactivates every file that waited for the network. */
    method ProcessWaitingNetworkFiles(now: Time)
      requires Backed(stateManager.State())
      modifies stateManager, stateManager.repository
      ensures stateManager.State() == ProcessWaiting(old(stateManager.State()), now) && Backed(stateManager.State())
    {
      hide UpdateStatus, Backed, Reactivate, FilesByStatus;
      ghost var r := stateManager.State();
      assert r.Valid() by { BackedIsValid(r); }
      RecoveryTouchesOnlyWaiting(r, now);
      var waiting := stateManager.GetFilesByStatus(WaitingForNetwork);
      ReactivateNone(r, waiting, now);
      var i := 0;
      while i < |waiting|
        invariant 0 <= i <= |waiting|
        invariant stateManager.State().Valid() && stateManager.State() == Reactivate(r, waiting[..i], now)
      {
        ReactivateNext(r, waiting, i, now);
        var updated := stateManager.UpdateFileStatusById(waiting[i].id, Discovered, NoPatch, now);
        i := i + 1;
      }
      assert waiting[..i] == waiting;
    }
  }

  lemma ReactivateNone(r: Registry, waiting: seq<TrackedFile>, now: Time)
    ensures Reactivate(r, waiting[..0], now) == r
  {
  }

  lemma ReactivateNext(r: Registry, waiting: seq<TrackedFile>, i: nat, now: Time)
    requires i < |waiting|
    ensures Reactivate(r, waiting[..i + 1], now)
      == UpdateStatus(Reactivate(r, waiting[..i], now), waiting[i].id, Discovered, NoPatch, now)
  {
    assert waiting[..i + 1][..i] == waiting[..i];
  }

  /** Handles a job for which the destination has no room. */
  class JobSpaceManager {
    const settings: SpaceSettings
    const stateManager: StateManager

    constructor (settings: SpaceSettings, stateManager: StateManager)
      ensures this.settings == settings && this.stateManager == stateManager
    {
      this.settings := settings;
      this.stateManager := stateManager;
    }

    /** Counts the retry and schedules it; `None` stands for the error raised on a requirement of zero. */
    method ScheduleSpaceRetry(id: Id, s: Shortage, now: Time) returns (handling: Option<Handling>)
      requires stateManager.State().Valid() && s.accessible
      modifies stateManager, stateManager.repository
      ensures stateManager.State().Valid()
      ensures handling.Some? ==>
        (stateManager.State(), handling.value) == HandleShortage(settings, old(stateManager.State()), id, s, now)
      ensures handling.None? ==>
        HandleShortage(settings, old(stateManager.State()), id, s, now)
          == (UpdateStatus(stateManager.State(), id, Failed, NoPatch, now), FailedOutright)
    {
      hide UpdateStatus, IncrementRetryCount, ScheduleRetry, IsTemporary;
      var count := stateManager.IncrementRetryCount(id);
      var updated;
      if settings.maxRetries <= count {
        updated := stateManager.UpdateFileStatusById(id, SpaceError, SetSpaceErrorAt(now), now);
        return Some(GaveUp);
      }
      if s.required == 0 {
        return None;
      }
      var delay := DelayFor(settings, s);
      updated := stateManager.UpdateFileStatusById(id, WaitingForSpace, NoPatch, now);
      var scheduled := stateManager.ScheduleRetry(id, delay, now);
      return Some(WaitScheduled(delay));
    }

    method HandleSpaceShortage(id: Id, s: Shortage, now: Time) returns (handling: Handling)
      requires stateManager.State().Valid()
      modifies stateManager, stateManager.repository
      ensures (stateManager.State(), handling) == HandleShortage(settings, old(stateManager.State()), id, s, now)
    {
      hide UpdateStatus, IncrementRetryCount, ScheduleRetry;
      var updated;
      if !s.accessible {
        updated := stateManager.UpdateFileStatusById(id, WaitingForNetwork, NoPatch, now);
        return SentToNetworkWait;
      }
      var scheduled := ScheduleSpaceRetry(id, s, now);
      if scheduled.Some? {
        return scheduled.value;
      }
      updated := stateManager.UpdateFileStatusById(id, Failed, NoPatch, now);
      return FailedOutright;
    }
  }
}
