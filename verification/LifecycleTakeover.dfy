/**
 Runs in which a copy whose own entry was forgotten takes over another entry of its path: one revives a
 failed entry, one leaves two active entries on a path, and one copies an entry that is still queued.
 Every file is sampled the way the program does it, the clock never goes back, and the cleanup by age
 forgets what is older than an hour.
 */
module LifecycleTakeover {
  import opened Wrappers
  import opened TrackedFiles
  import opened OrderedDict
  import opened Selection
  import opened Registries
  import opened GrowthDetection
  import opened SpaceRetry
  import opened Lifecycle
  import opened LifecycleSanity
  import opened LifecycleExact

  const CLIP: Path := "clip.mxf"
  const CFG: Settings := Settings(DetectorSettings(100, 2), SpaceSettings(3, 60))

  /**
   The file is found, sampled until it is ready, and queued. After more than an hour in the queue its entry is
   forgotten, the file is found again as a new entry, and a worker takes the job.
   */
  const FORGOTTEN: seq<Step> := [
    FileDiscovered(CLIP, 10, 0), GrowthNoted(0, 10, 1), Sampled(0, Size(10), 1), Sampled(0, Size(10), 3),
    FileReady(0, true, 3), OldCleaned(3700 - 3600), FileDiscovered(CLIP, 10, 3701), JobTaken]

  /** The new entry fails when it is sampled. */
  const FAILING: seq<Step> := [GrowthNoted(1, 10, 3702), Sampled(1, Faulty, 3702)]

  /** The worker goes on with the job it had taken. */
  const TAKEOVER: seq<Step> := [CopyStarted(0, 3703), CopyLocated(0), CopyReported(0, Copying, 3704)]

  /** The worker looks its entry up first; then the new entry fails, and the file is found a third time. */
  const DOUBLING: seq<Step> := [
    CopyStarted(0, 3702), CopyLocated(0), GrowthNoted(1, 10, 3703), Sampled(1, Faulty, 3703),
    FileDiscovered(CLIP, 10, 3704), CopyReported(0, Copying, 3705)]

  /** The new entry becomes ready and is queued before the worker goes on. */
  const QUEUEING: seq<Step> := [
    GrowthNoted(1, 10, 3702), Sampled(1, Size(10), 3702), Sampled(1, Size(10), 3704), FileReady(1, true, 3704),
    CopyStarted(0, 3705), CopyLocated(0), CopyReported(0, Copying, 3706)]

  lemma {:induction false} RunSnoc(cfg: Settings, a: Agent, steps: seq<Step>, mid: Agent, e: Step)
    requires Sane(cfg, a) && Run(cfg, a, steps, mid) && mid.reg.Valid() && Enabled(mid, e)
    ensures Run(cfg, a, steps + [e], Next(cfg, mid, e))
    decreases |steps|
  {
    hide RetryHasTask, DistinctJobs, JobsKnown, JobsBusy, WaitsBounded, Next, Enabled;
    var all := steps + [e];
    if steps == [] {
      assert all[0] == e && all[1..] == [];
      StepKeepsSane(cfg, a, e);
      assert Run(cfg, Next(cfg, a, e), [], Next(cfg, a, e));
    } else {
      assert all[0] == steps[0] && all[1..] == steps[1..] + [e];
      StepKeepsSane(cfg, a, steps[0]);
      RunSnoc(cfg, Next(cfg, a, steps[0]), steps[1..], mid, e);
    }
  }

  /** One step further along a list of steps. */
  lemma RunOn(a: Agent, all: seq<Step>, i: nat, mid: Agent, next: Agent)
    requires Sane(CFG, a) && i < |all| && Run(CFG, a, all[..i], mid)
    requires mid.reg.Valid() && Enabled(mid, all[i]) && Next(CFG, mid, all[i]) == next
    ensures Run(CFG, a, all[..i + 1], next)
  {
    hide Sane, Run, Next, Enabled, Registry.Valid;
    assert all[..i + 1] == all[..i] + [all[i]];
    RunSnoc(CFG, a, all[..i], mid, all[i]);
  }

  // ----- Steps of an agent that tracks one entry

  function Only(f: TrackedFile, nextId: Id): Registry {
    Registry(Dict([f.id], map[f.id := f]), map[], nextId)
  }

  /** A registry that tracks nothing and has handed out the ids below `nextId`. */
  function Nothing(nextId: Id): Registry {
    Registry(Dict([], map[]), map[], nextId)
  }

  function With(r: Registry, queue: seq<Ticket>, running: map<Id, Job>): Agent {
    Agent(r, queue, running, map[], map[])
  }

  function Working(phase: Phase, target: Id): map<Id, Job> {
    map[0 := Job(CLIP, target, phase)]
  }

  lemma PickOnly(t: Table, f: TrackedFile, p: Path, filter: Filter)
    ensures Pick(t, [f], p, filter) == if Eligible(f, p, filter) then Some(f) else None
  {
    assert [f][..0] == [];
  }

  lemma ListingOnly(f: TrackedFile, nextId: Id)
    requires f.id < nextId
    ensures Only(f, nextId).Valid() && Only(f, nextId).Listing() == [f]
    ensures Only(f, nextId).Tracks(f.id) && Only(f, nextId).StatusOf(f.id) == f.status
  {
  }

  lemma UpdateOnly(f: TrackedFile, nextId: Id, status: FileStatus, patch: Patch, now: Time)
    ensures UpdateStatus(Only(f, nextId), f.id, status, patch, now) == Only(Updated(f, status, patch, now), nextId)
  {
    hide Apply, Stamp;
    assert map[f.id := f][f.id := Updated(f, status, patch, now)] == map[f.id := Updated(f, status, patch, now)];
  }

  lemma IsFound(nextId: Id, queue: seq<Ticket>, now: Time)
    ensures Nothing(nextId).Valid()
    ensures Next(CFG, With(Nothing(nextId), queue, map[]), FileDiscovered(CLIP, 10, now))
      == With(Only(NewTrackedFile(nextId, CLIP, 10, now), nextId + 1), queue, map[])
  {
    assert Nothing(nextId).Listing() == [];
    assert Pick(ActiveTable, [], CLIP, ActiveOnly) == None;
    var f := NewTrackedFile(nextId, CLIP, 10, now);
    assert map[][nextId := f] == map[nextId := f] && [] + [nextId] == [nextId];
  }

  /** What the scanner's bookkeeping makes of the only entry. */
  function AfterNote(f: TrackedFile, now: Time): TrackedFile {
    Updated(f, f.status, UpdateGrowthInfo(f, 10, now), now)
  }

  lemma IsNoted(f: TrackedFile, nextId: Id, a: Agent, now: Time)
    requires f.id < nextId && a.reg == Only(f, nextId) && f.status == Discovered
    ensures a.reg.Valid() && Enabled(a, GrowthNoted(f.id, 10, now))
    ensures Next(CFG, a, GrowthNoted(f.id, 10, now)) == a.(reg := Only(AfterNote(f, now), nextId))
  {
    hide UpdateStatus, UpdateGrowthInfo, Updated;
    ListingOnly(f, nextId);
    UpdateOnly(f, nextId, f.status, UpdateGrowthInfo(f, 10, now), now);
  }

  /** What a sample makes of the only entry. */
  function AfterSample(f: TrackedFile, seen: Observation, now: Time): TrackedFile {
    var v := CheckGrowth(CFG.detector, f, seen, now);
    var f1 := if seen.Size? && f.status != WaitingForNetwork then Updated(f, f.status, v.patch, now) else f;
    if v.status == f.status then f1 else Updated(f1, v.status, NoPatch, now)
  }

  lemma IsSampled(f: TrackedFile, nextId: Id, a: Agent, seen: Observation, now: Time)
    requires f.id < nextId && a.reg == Only(f, nextId) && !PassedOver(f.status)
    ensures a.reg.Valid() && Enabled(a, Sampled(f.id, seen, now))
    ensures Next(CFG, a, Sampled(f.id, seen, now)) == a.(reg := Only(AfterSample(f, seen, now), nextId))
  {
    hide UpdateStatus, CheckGrowth, Apply, Stamp;
    ListingOnly(f, nextId);
    var v := CheckGrowth(CFG.detector, f, seen, now);
    UpdateOnly(f, nextId, f.status, v.patch, now);
    var f1 := if seen.Size? && f.status != WaitingForNetwork then Updated(f, f.status, v.patch, now) else f;
    UpdateOnly(f1, nextId, v.status, NoPatch, now);
  }

  lemma IsQueued(f: TrackedFile, nextId: Id, a: Agent, now: Time)
    requires f.id < nextId && a.reg == Only(f, nextId) && f.status == Ready
    ensures a.reg.Valid() && Enabled(a, FileReady(f.id, true, now))
    ensures Next(CFG, a, FileReady(f.id, true, now))
      == a.(reg := Only(f.(status := InQueue), nextId), queue := a.queue + [Ticket(f.id, f.path)])
  {
    hide UpdateStatus;
    ListingOnly(f, nextId);
    UpdateOnly(f, nextId, InQueue, NoPatch, now);
  }

  lemma IsForgotten(f: TrackedFile, nextId: Id, queue: seq<Ticket>, cutoff: Time)
    requires f.id < nextId && AgeStamp(f) < cutoff
    ensures Only(f, nextId).Valid()
    ensures Next(CFG, With(Only(f, nextId), queue, map[]), OldCleaned(cutoff)) == With(Nothing(nextId), queue, map[])
  {
    hide AgeStamp;
    ListingOnly(f, nextId);
    var r := Only(f, nextId);
    assert OldIds(r, cutoff) == {f.id};
    assert [f.id][..0] == [];
    assert WithoutAll([f.id], {f.id}) == [];
  }

  lemma IsTaken(r: Registry)
    requires r.Valid()
    ensures Enabled(With(r, [Ticket(0, CLIP)], map[]), JobTaken)
    ensures Next(CFG, With(r, [Ticket(0, CLIP)], map[]), JobTaken) == With(r, [], Working(Taken, 0))
  {
  }

  lemma IsStarted(f: TrackedFile, nextId: Id, queue: seq<Ticket>, now: Time)
    requires 0 < f.id < nextId
    ensures var a := With(Only(f, nextId), queue, Working(Taken, 0));
      && a.reg.Valid() && Enabled(a, CopyStarted(0, now))
      && Next(CFG, a, CopyStarted(0, now)) == With(Only(f, nextId), queue, Working(Begun, 0))
  {
    ListingOnly(f, nextId);
  }

  lemma IsLocated(f: TrackedFile, nextId: Id, queue: seq<Ticket>)
    requires f.id < nextId && f.path == CLIP && f.status != Removed
    ensures var a := With(Only(f, nextId), queue, Working(Begun, 0));
      && a.reg.Valid() && Enabled(a, CopyLocated(0))
      && Next(CFG, a, CopyLocated(0)) == With(Only(f, nextId), queue, Working(CopyPhase, f.id))
  {
    hide Pick;
    ListingOnly(f, nextId);
    PickOnly(CurrentTable, f, CLIP, AnyStatus);
  }

  lemma IsReported(f: TrackedFile, nextId: Id, queue: seq<Ticket>, now: Time)
    requires f.id < nextId
    ensures var a := With(Only(f, nextId), queue, Working(CopyPhase, f.id));
      && a.reg.Valid() && Enabled(a, CopyReported(0, Copying, now))
      && Next(CFG, a, CopyReported(0, Copying, now))
        == With(Only(f.(status := Copying), nextId), queue, Working(CopyPhase, f.id))
  {
    hide UpdateStatus;
    ListingOnly(f, nextId);
    UpdateOnly(f, nextId, Copying, NoPatch, now);
  }

  // ----- The entries the runs pass through

  const FOUND: TrackedFile := NewTrackedFile(0, CLIP, 10, 0)
  const SAMPLED: TrackedFile := FOUND.(growth := GrowthInfo(10, 10, Some(1), Some(1), 0.0))
  const STABLE: TrackedFile := SAMPLED.(status := Ready, growth := GrowthInfo(10, 10, Some(3), Some(1), 0.0))
  const AGAIN: TrackedFile := NewTrackedFile(1, CLIP, 10, 3701)

  /** The new entry, sampled first at `t`. */
  function NotedAt(t: Time): TrackedFile {
    AGAIN.(growth := GrowthInfo(10, 10, Some(t), Some(t), 0.0))
  }

  function BrokenAt(t: Time): TrackedFile {
    NotedAt(t).(status := Failed, failedAt := Some(t))
  }

  /** The new entry, stable for two seconds. */
  const RIPE: TrackedFile :=
    AGAIN.(status := Ready, growth := GrowthInfo(10, 10, Some(3704), Some(3702), 0.0))

  lemma NoRate(g: GrowthInfo, now: Time)
    requires g.rate == 0.0
    ensures Rate(g, g.firstSeenSize, now) == 0.0
  {
  }

  /** A sample of a file that has been at rest for two seconds makes it ready. */
  lemma Rests(f: TrackedFile, now: Time)
    requires f.status == Discovered && f.retry == None && f.size == 10
    requires f.growth == GrowthInfo(10, 10, Some(now - 2), Some(now - 2), 0.0)
    ensures AfterSample(f, Size(10), now)
      == f.(status := Ready, growth := GrowthInfo(10, 10, Some(now), Some(now - 2), 0.0))
  {
    hide Rate;
    NoRate(f.growth, now);
  }

  lemma FirstRipens()
    ensures AfterNote(FOUND, 1) == SAMPLED && AfterSample(SAMPLED, Size(10), 1) == SAMPLED
  {
  }

  lemma FirstIsStable()
    ensures AfterSample(SAMPLED, Size(10), 3) == STABLE
  {
    hide AfterSample;
    Rests(SAMPLED, 3);
  }

  lemma SecondIsNoted(t: Time)
    ensures AfterNote(AGAIN, t) == NotedAt(t)
  {
  }

  lemma SecondBreaks(t: Time)
    ensures AfterSample(NotedAt(t), Faulty, t) == BrokenAt(t)
  {
  }

  lemma SecondIsFresh()
    ensures AfterSample(NotedAt(3702), Size(10), 3702) == NotedAt(3702)
  {
  }

  lemma SecondRipens()
    ensures AfterSample(NotedAt(3702), Size(10), 3704) == RIPE
  {
    hide AfterSample;
    Rests(NotedAt(3702), 3704);
  }

  // ----- The runs

  const TAKEN: Agent := With(Only(AGAIN, 2), [], Working(Taken, 0))

  /** The queued entry's state before it is forgotten. */
  const WAITING: Agent := With(Only(STABLE.(status := InQueue), 1), [Ticket(0, CLIP)], map[])

  lemma RunToWaiting()
    ensures Sane(CFG, START) && Run(CFG, START, FORGOTTEN[..5], WAITING)
  {
    hide Sane, Next, Enabled, Registry.Valid, Only, Nothing, AfterNote, AfterSample;
    StartIsSane(CFG);
    var all := FORGOTTEN;
    assert all[..0] == [] && [] + [Ticket(0, CLIP)] == [Ticket(0, CLIP)];
    assert START == With(Nothing(0), [], map[]) by { StartTracksNothing(); }
    assert Run(CFG, START, all[..0], START);
    hide Run;
    IsFound(0, [], 0);
    AlwaysEnabled(START);
    RunOn(START, all, 0, START, With(Only(FOUND, 1), [], map[]));
    FirstRipens();
    FirstIsStable();
    IsNoted(FOUND, 1, With(Only(FOUND, 1), [], map[]), 1);
    RunOn(START, all, 1, With(Only(FOUND, 1), [], map[]), With(Only(SAMPLED, 1), [], map[]));
    IsSampled(SAMPLED, 1, With(Only(SAMPLED, 1), [], map[]), Size(10), 1);
    RunOn(START, all, 2, With(Only(SAMPLED, 1), [], map[]), With(Only(SAMPLED, 1), [], map[]));
    IsSampled(SAMPLED, 1, With(Only(SAMPLED, 1), [], map[]), Size(10), 3);
    RunOn(START, all, 3, With(Only(SAMPLED, 1), [], map[]), With(Only(STABLE, 1), [], map[]));
    IsQueued(STABLE, 1, With(Only(STABLE, 1), [], map[]), 3);
    RunOn(START, all, 4, With(Only(STABLE, 1), [], map[]), WAITING);
  }

  lemma RunToTaken()
    ensures Sane(CFG, START) && Run(CFG, START, FORGOTTEN, TAKEN) && Sane(CFG, TAKEN)
  {
    hide Sane, Next, Enabled, Registry.Valid, Only, Nothing, Run;
    RunToWaiting();
    var all, queue := FORGOTTEN, [Ticket(0, CLIP)];
    assert all[..8] == all;
    IsForgotten(STABLE.(status := InQueue), 1, queue, 100);
    AlwaysEnabled(WAITING);
    RunOn(START, all, 5, WAITING, With(Nothing(1), queue, map[]));
    IsFound(1, queue, 3701);
    AlwaysEnabled(With(Nothing(1), queue, map[]));
    RunOn(START, all, 6, With(Nothing(1), queue, map[]), With(Only(AGAIN, 2), queue, map[]));
    ListingOnly(AGAIN, 2);
    IsTaken(Only(AGAIN, 2));
    RunOn(START, all, 7, With(Only(AGAIN, 2), queue, map[]), TAKEN);
    EveryRunIsSane(CFG, START, all, TAKEN);
  }

  lemma StartTracksNothing()
    ensures START == With(Nothing(0), [], map[])
  {
  }

  lemma AlwaysEnabled(a: Agent)
    ensures forall path: Path, size: nat, now: Time :: Enabled(a, FileDiscovered(path, size, now))
    ensures forall cutoff: Time :: Enabled(a, OldCleaned(cutoff))
  {
  }

  lemma RunToFailed()
    ensures Sane(CFG, TAKEN) && Run(CFG, TAKEN, FAILING, TAKEN.(reg := Only(BrokenAt(3702), 2)))
  {
    hide Sane, Next, Enabled, Registry.Valid, Only, AfterNote, AfterSample;
    RunToTaken();
    var all := FAILING;
    assert all[..0] == [] && all[..2] == all;
    assert Run(CFG, TAKEN, all[..0], TAKEN);
    hide Run;
    SecondIsNoted(3702);
    SecondBreaks(3702);
    IsNoted(AGAIN, 2, TAKEN, 3702);
    var noted := TAKEN.(reg := Only(NotedAt(3702), 2));
    RunOn(TAKEN, all, 0, TAKEN, noted);
    IsSampled(NotedAt(3702), 2, noted, Faulty, 3702);
    RunOn(TAKEN, all, 1, noted, TAKEN.(reg := Only(BrokenAt(3702), 2)));
  }

  lemma RunToRevived(failed: Agent, f: TrackedFile)
    requires Sane(CFG, failed) && failed == With(Only(f, 2), [], Working(Taken, 0))
    requires f.id == 1 && f.path == CLIP && f.status != Removed
    ensures Run(CFG, failed, TAKEOVER, With(Only(f.(status := Copying), 2), [], Working(CopyPhase, 1)))
  {
    hide Sane, Next, Enabled, Registry.Valid, Only;
    var all := TAKEOVER;
    assert all[..0] == [] && all[..3] == all;
    assert Run(CFG, failed, all[..0], failed);
    hide Run;
    IsStarted(f, 2, [], 3703);
    RunOn(failed, all, 0, failed, With(Only(f, 2), [], Working(Begun, 0)));
    IsLocated(f, 2, []);
    RunOn(failed, all, 1, With(Only(f, 2), [], Working(Begun, 0)), With(Only(f, 2), [], Working(CopyPhase, 1)));
    IsReported(f, 2, [], 3704);
    RunOn(failed, all, 2, With(Only(f, 2), [], Working(CopyPhase, 1)),
          With(Only(f.(status := Copying), 2), [], Working(CopyPhase, 1)));
  }

  /**
   From the start the agent gets to a state with a failed entry that has no job, and from there, by the
   steps of another job alone, to one in which that entry is being copied.
   */
  lemma ForgottenJobRevivesAFailedEntry()
    ensures Sane(CFG, START)
    ensures exists taken, failed, revived ::
      && Sane(CFG, taken) && Run(CFG, START, FORGOTTEN, taken)
      && Sane(CFG, failed) && Run(CFG, taken, FAILING, failed)
      && failed.reg.Tracks(1) && failed.reg.StatusOf(1) == Failed && !HasJob(failed, 1)
      && Run(CFG, failed, TAKEOVER, revived)
      && revived.reg.Tracks(1) && revived.reg.StatusOf(1) == Copying && !HasJob(revived, 1)
  {
    hide Sane, Run;
    RunToTaken();
    RunToFailed();
    var failed := TAKEN.(reg := Only(BrokenAt(3702), 2));
    EveryRunIsSane(CFG, TAKEN, FAILING, failed);
    RunToRevived(failed, BrokenAt(3702));
    var revived := With(Only(BrokenAt(3702).(status := Copying), 2), [], Working(CopyPhase, 1));
    assert !Queued(failed, 1) && !Queued(revived, 1);
    assert failed.reg.Tracks(1) && revived.reg.Tracks(1);
  }

  // ----- Two active entries

  const THIRD: TrackedFile := NewTrackedFile(2, CLIP, 10, 3704)

  /** The failed entry beside the one found after it. */
  function Both(f: TrackedFile): Registry {
    Registry(Dict([1, 2], map[1 := f, 2 := THIRD]), map[], 3)
  }

  lemma BothIsValid(f: TrackedFile)
    requires f.id == 1
    ensures Both(f).Valid() && Both(f).Tracks(1) && Both(f).StatusOf(1) == f.status && Both(f).files.vals[1] == f
    ensures Both(f).Tracks(2) && Both(f).files.vals[2] == THIRD
  {
  }

  lemma IsFoundAgain(f: TrackedFile, running: map<Id, Job>)
    requires f.id == 1 && !IsActive(f.status)
    ensures Only(f, 2).Valid()
    ensures Next(CFG, With(Only(f, 2), [], running), FileDiscovered(CLIP, 10, 3704)) == With(Both(f), [], running)
  {
    ListingOnly(f, 2);
    PickOnly(ActiveTable, f, CLIP, ActiveOnly);
    assert map[1 := f][2 := THIRD] == map[1 := f, 2 := THIRD] && [1 as Id] + [2] == [1, 2];
  }

  lemma IsReportedBeside(f: TrackedFile)
    requires f.id == 1
    ensures var a := With(Both(f), [], Working(CopyPhase, 1));
      && Enabled(a, CopyReported(0, Copying, 3705)) && a.reg.Valid()
      && Next(CFG, a, CopyReported(0, Copying, 3705)) == With(Both(f.(status := Copying)), [], Working(CopyPhase, 1))
  {
    BothIsValid(f);
    assert map[1 := f, 2 := THIRD][1 := f.(status := Copying)] == map[1 := f.(status := Copying), 2 := THIRD];
  }

  lemma RunToBoth()
    ensures Sane(CFG, TAKEN)
    ensures Run(CFG, TAKEN, DOUBLING, With(Both(BrokenAt(3703).(status := Copying)), [], Working(CopyPhase, 1)))
  {
    hide Sane, Next, Enabled, Registry.Valid, Only, Both, AfterNote, AfterSample;
    RunToTaken();
    var all, f := DOUBLING, BrokenAt(3703);
    assert all[..0] == [] && all[..6] == all;
    assert Run(CFG, TAKEN, all[..0], TAKEN);
    hide Run;
    var begun := With(Only(AGAIN, 2), [], Working(Begun, 0));
    var located := With(Only(AGAIN, 2), [], Working(CopyPhase, 1));
    var noted := With(Only(NotedAt(3703), 2), [], Working(CopyPhase, 1));
    var broken := With(Only(f, 2), [], Working(CopyPhase, 1));
    var both := With(Both(f), [], Working(CopyPhase, 1));
    IsStarted(AGAIN, 2, [], 3702);
    RunOn(TAKEN, all, 0, TAKEN, begun);
    IsLocated(AGAIN, 2, []);
    RunOn(TAKEN, all, 1, begun, located);
    SecondIsNoted(3703);
    SecondBreaks(3703);
    IsNoted(AGAIN, 2, located, 3703);
    RunOn(TAKEN, all, 2, located, noted);
    IsSampled(NotedAt(3703), 2, noted, Faulty, 3703);
    RunOn(TAKEN, all, 3, noted, broken);
    IsFoundAgain(f, Working(CopyPhase, 1));
    AlwaysEnabled(broken);
    RunOn(TAKEN, all, 4, broken, both);
    IsReportedBeside(f);
    RunOn(TAKEN, all, 5, both, With(Both(f.(status := Copying)), [], Working(CopyPhase, 1)));
  }

  /** From the start the agent gets to a state in which a path has two active entries. */
  lemma ForgottenJobLeavesTwoActiveEntries()
    ensures Sane(CFG, START)
    ensures exists taken, end ::
      && Sane(CFG, taken) && Run(CFG, START, FORGOTTEN, taken) && OneActive(taken.reg)
      && Run(CFG, taken, DOUBLING, end) && !OneActive(end.reg)
  {
    hide Sane, Run;
    RunToTaken();
    RunToBoth();
    var f := BrokenAt(3703).(status := Copying);
    BothIsValid(f);
    assert f.path == THIRD.path && IsActive(f.status) && IsActive(THIRD.status);
    assert OneActive(TAKEN.reg) && !OneActive(Both(f));
  }

  // ----- A queued entry that is being copied

  lemma RunToSecondQueued()
    ensures Sane(CFG, TAKEN)
    ensures Run(CFG, TAKEN, QUEUEING[..4],
                With(Only(RIPE.(status := InQueue), 2), [Ticket(1, CLIP)], Working(Taken, 0)))
  {
    hide Sane, Next, Enabled, Registry.Valid, Only, AfterNote, AfterSample;
    RunToTaken();
    var all := QUEUEING;
    assert all[..0] == [] && [] + [Ticket(1, CLIP)] == [Ticket(1, CLIP)];
    assert Run(CFG, TAKEN, all[..0], TAKEN);
    hide Run;
    var noted, ripe := TAKEN.(reg := Only(NotedAt(3702), 2)), TAKEN.(reg := Only(RIPE, 2));
    SecondIsNoted(3702);
    SecondIsFresh();
    SecondRipens();
    IsNoted(AGAIN, 2, TAKEN, 3702);
    RunOn(TAKEN, all, 0, TAKEN, noted);
    IsSampled(NotedAt(3702), 2, noted, Size(10), 3702);
    RunOn(TAKEN, all, 1, noted, noted);
    IsSampled(NotedAt(3702), 2, noted, Size(10), 3704);
    RunOn(TAKEN, all, 2, noted, ripe);
    IsQueued(RIPE, 2, ripe, 3704);
    RunOn(TAKEN, all, 3, ripe, With(Only(RIPE.(status := InQueue), 2), [Ticket(1, CLIP)], Working(Taken, 0)));
  }

  lemma RunToQueuedCopy()
    ensures Sane(CFG, TAKEN)
    ensures Run(CFG, TAKEN, QUEUEING, With(Only(RIPE.(status := Copying), 2), [Ticket(1, CLIP)], Working(CopyPhase, 1)))
  {
    hide Sane, Next, Enabled, Registry.Valid, Only, Run;
    RunToSecondQueued();
    RunToTaken();
    var all, queue, f := QUEUEING, [Ticket(1, CLIP)], RIPE.(status := InQueue);
    assert all[..7] == all;
    IsStarted(f, 2, queue, 3705);
    RunOn(TAKEN, all, 4, With(Only(f, 2), queue, Working(Taken, 0)), With(Only(f, 2), queue, Working(Begun, 0)));
    IsLocated(f, 2, queue);
    RunOn(TAKEN, all, 5, With(Only(f, 2), queue, Working(Begun, 0)), With(Only(f, 2), queue, Working(CopyPhase, 1)));
    IsReported(f, 2, queue, 3706);
    RunOn(TAKEN, all, 6, With(Only(f, 2), queue, Working(CopyPhase, 1)),
          With(Only(RIPE.(status := Copying), 2), queue, Working(CopyPhase, 1)));
  }

  /** From the start the agent gets to a state in which a queued entry is being copied by another job. */
  lemma ForgottenJobCopiesAQueuedEntry()
    ensures Sane(CFG, START)
    ensures exists taken, end ::
      && Sane(CFG, taken) && Run(CFG, START, FORGOTTEN, taken) && QueueMarked(taken)
      && Run(CFG, taken, QUEUEING, end) && Queued(end, 1) && !QueueMarked(end)
  {
    hide Sane, Run;
    RunToTaken();
    RunToQueuedCopy();
    var end := With(Only(RIPE.(status := Copying), 2), [Ticket(1, CLIP)], Working(CopyPhase, 1));
    assert end.queue[0].id == 1 && Queued(end, 1);
    assert end.reg.Tracks(1) && end.reg.StatusOf(1) == Copying;
    assert QueueMarked(TAKEN);
  }
}
