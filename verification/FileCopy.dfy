/** Copying one file from start to end: size wait, copy loop, integrity check, removal of the source. */
module FileCopy {
  import opened Wrappers
  import opened TrackedFiles
  import opened CopyModel
  import opened CopySafety
  import opened CopyLiveness

  datatype CopySettings = CopySettings(minSize: nat, margin: nat, chunk: nat, pollInterval: nat, growthTimeout: nat)

  /** Calls on the destination host that happen once per copy. */
  datatype Host = Host(makeDirs: bool, openDestination: Fault, removable: bool)

  /** How `copy_file` ends; `Unfinished` means the observation stopped before it did. */
  datatype Outcome =
    | CopyCompleted(sourceRemoved: bool)
    | Refused
    | RaisedNetworkError
    | RaisedFileNotFound
    | Unfinished

  datatype FileResult = FileResult(outcome: Outcome, copy: Copy, checkedAt: nat)

  /** Whether a file is copied in growing mode, judged from its status and growth history. */
  predicate IsCurrentlyGrowing(f: TrackedFile) {
    if f.status in {Growing, ReadyToStartGrowing, GrowingCopy} then true
    else if f.status == Copying then false
    else
      || f.growth.rate > 0.0
      || (f.growth.firstSeenSize > 0 && f.size > f.growth.firstSeenSize)
      || (f.growth.previousSize > 0 && f.size != f.growth.previousSize)
  }

  /** A static file is copied without a margin; checks come every ten chunks. */
  function ConfigFor(settings: CopySettings, growing: bool): CopyConfig
    requires 0 < settings.pollInterval
  {
    CopyConfig(settings.chunk, if growing then settings.margin else 0,
               settings.growthTimeout / settings.pollInterval, settings.chunk * 10)
  }

  function FaultOutcome(fault: Fault): Outcome {
    if fault == NetworkFault then RaisedNetworkError else Refused
  }

  datatype SizeWait = Reached | GaveUp | StillWaiting

  /** Polls until `size` reaches the minimum, for at most `budget` polls. */
  function WaitForSize(w: World, now: nat, size: nat, minSize: nat, budget: nat): (r: (SizeWait, nat))
    decreases budget
  {
    if minSize <= size then (Reached, now)
    else if budget == 0 then (StillWaiting, now)
    else if w(now).probe != Measured then (GaveUp, now + 1)
    else WaitForSize(w, now + 1, |w(now).source|, minSize, budget - 1)
  }

  /** Sizes are compared first the source's, then the destination's, which only the copier writes. */
  function VerifyAndRemove(w: World, c: Copy, host: Host): (r: FileResult) {
    var outcome :=
      if w(c.now).probe != Measured || w(c.now + 1).probe != Measured then Refused
      else if |w(c.now).source| != |c.dst| then Refused
      else CopyCompleted(host.removable);
    FileResult(outcome, c.(now := c.now + 2), c.now)
  }

  /** Copies the bytes: the result is the state of the copy and how it ended. */
  function CopyBytes(w: World, settings: CopySettings, growing: bool, host: Host, now: nat, polls: nat)
    : (r: (Copy, Verdict))
  {
    if settings.pollInterval == 0 then (FreshCopy(now, []), Raised(OtherFault))
    else if host.openDestination != NoFault then (FreshCopy(now, []), Raised(host.openDestination))
    else
      var cfg := ConfigFor(settings, growing);
      var (s, verdict) := RunLoop(w, cfg, StartLoop(cfg, growing, FreshCopy(now, [])), polls);
      (s.copy, verdict)
  }

  /** The whole copy of one file, waiting for at most `waits` polls and copying for at most `polls`. */
  function CopyFile(
    w: World, settings: CopySettings, given: TrackedFile, latest: Option<TrackedFile>, host: Host,
    waits: nat, polls: nat) : (r: FileResult)
  {
    var untouched := FreshCopy(1, []);
    var first := w(0);
    if first.probe != Measured then
      var outcome :=
        match first.probe
        case Missing => RaisedFileNotFound
        case ProbeError(network) => if network then RaisedNetworkError else Refused
        case _ => Refused;
      FileResult(outcome, untouched, 0)
    else
      var minSize := if IsCurrentlyGrowing(given) then settings.minSize else 0;
      var (wait, now) := WaitForSize(w, 1, |first.source|, minSize, waits);
      if wait == StillWaiting then FileResult(Unfinished, untouched, 0)
      else if wait == GaveUp || !host.makeDirs then FileResult(Refused, untouched, 0)
      else
        var file := if latest.Some? then latest.value else given;
        var (c, verdict) := CopyBytes(w, settings, IsCurrentlyGrowing(file), host, now, polls);
        match verdict
        case Again => FileResult(Unfinished, c, 0)
        case Raised(fault) => FileResult(FaultOutcome(fault), c, 0)
        case Exit => VerifyAndRemove(w, c, host)
  }

  // ----- Deletion safety

  lemma CopyBytesTraced(w: World, settings: CopySettings, growing: bool, host: Host, now: nat, polls: nat)
    ensures var c := CopyBytes(w, settings, growing, host, now, polls).0; Traced(w, c) && now <= c.now
  {
    if settings.pollInterval != 0 && host.openDestination == NoFault {
      var cfg := ConfigFor(settings, growing);
      EveryByteIsTraced(w, cfg, StartLoop(cfg, growing, FreshCopy(now, [])), polls);
    }
  }

  /**
   Only sizes are compared, yet a completed copy holds the whole content the source had at the
   integrity check, for every recorder that never rewrites a byte, every interleaving, every split
   of the reads and every history of the tracked file. In particular the source is never removed
   while the destination differs from it.
   */
  lemma {:induction false} CompletedMeansIdentical(
    w: World, settings: CopySettings, given: TrackedFile, latest: Option<TrackedFile>, host: Host,
    waits: nat, polls: nat)
    requires NeverRewritten(w)
    ensures var r := CopyFile(w, settings, given, latest, host, waits, polls);
      r.outcome.CopyCompleted? ==> r.copy.dst == w(r.checkedAt).source && r.checkedAt < r.copy.now
  {
    hide CopyBytes, WaitForSize, IsCurrentlyGrowing, NeverRewritten, Traced;
    var minSize := if IsCurrentlyGrowing(given) then settings.minSize else 0;
    var (_, now) := WaitForSize(w, 1, |w(0).source|, minSize, waits);
    var file := if latest.Some? then latest.value else given;
    CopyBytesTraced(w, settings, IsCurrentlyGrowing(file), host, now, polls);
    var c := CopyBytes(w, settings, IsCurrentlyGrowing(file), host, now, polls).0;
    if |w(c.now).source| == |c.dst| {
      SizeMatchIsContentMatch(w, c, c.now);
    }
  }

  /** A recorder that goes back and rewrites its first byte after await 2. */
  function RewritingRecorder(): World {
    (t: nat) => Moment(if t <= 2 then [0 as Byte, 1] else [7, 1], true, Measured, 10, NoFault, NoFault, NoFault, LinkUp)
  }

  function StaticFile(): TrackedFile {
    NewTrackedFile(0, "clip.mxf", 2, 0).(status := Copying)
  }

  /** The assumption is needed: after a rewrite in place the size check passes on different bytes. */
  lemma RewriteDefeatsTheSizeCheck()
    ensures var w := RewritingRecorder();
      var r := CopyFile(w, CopySettings(0, 0, 4, 1, 1), StaticFile(), None, Host(true, NoFault, true), 0, 1);
      r.outcome == CopyCompleted(true) && r.copy.dst != w(r.checkedAt).source
  {
    var w := RewritingRecorder();
    var settings := CopySettings(0, 0, 4, 1, 1);
    var cfg := ConfigFor(settings, false);
    var s := StartLoop(cfg, false, FreshCopy(1, []));
    var c := s.copy.(now := 2);
    var round := CopyChunk(w, cfg, c, 2, 2, Copying);
    assert round.n == 2 && round.copy.dst == [0, 1];
    assert ChunkRange(w, cfg, c, 2, 2, Copying) == (round.copy, NoFault);
    assert PollOnce(w, cfg, s) == (s.(copy := round.copy), Exit);
    assert RunLoop(w, cfg, s, 1) == (s.(copy := round.copy), Exit);
    assert round.copy.dst[0] != w(3).source[0];
  }

  // ----- Liveness

  lemma {:induction false} WaitEnds(w: World, now: nat, size: nat, minSize: nat, budget: nat)
    requires CalmFrom(w, now) && ConstantFrom(w, now) && minSize <= |w(now).source| && 0 < budget
    ensures WaitForSize(w, now, size, minSize, budget) == (Reached, if minSize <= size then now else now + 1)
  {
    if size < minSize {
      assert WaitForSize(w, now + 1, |w(now).source|, minSize, budget - 1) == (Reached, now + 1);
    }
  }

  /** From await 1 on nothing fails and nothing is appended. */
  ghost predicate AtRest(w: World) {
    AppendOnly(w) && CalmFrom(w, 0) && ConstantFrom(w, 1)
  }

  lemma RestingBytesAreCopied(w: World, settings: CopySettings, growing: bool, host: Host, now: nat, polls: nat)
    requires AtRest(w) && 1 <= now && 0 < settings.chunk && 0 < settings.pollInterval
    requires host.openDestination == NoFault
    requires settings.growthTimeout / settings.pollInterval + 1 <= polls
    ensures var (c, verdict) := CopyBytes(w, settings, growing, host, now, polls);
      verdict == Exit && c.dst == w(1).source
  {
    var cfg := ConfigFor(settings, growing);
    var s := StartLoop(cfg, growing, FreshCopy(now, []));
    StartIsOk(w, cfg, growing, now);
    IdleLoopEnds(w, cfg, s, polls);
    CalmExitIsComplete(w, cfg, s, polls);
    EveryByteIsTraced(w, cfg, s, polls);
    AppendOnlyNeverRewrites(w);
    SizeMatchIsContentMatch(w, RunLoop(w, cfg, s, polls).0.copy, 1);
  }

  /**
   A file at rest that is long enough for its mode is copied whole and completed once the timeout's
   number of polls has passed, and its source is removed whenever the host lets it be removed.
   */
  lemma RestingFileCompletes(
    w: World, settings: CopySettings, given: TrackedFile, latest: Option<TrackedFile>, host: Host,
    waits: nat, polls: nat)
    requires AtRest(w) && 0 < settings.chunk && 0 < settings.pollInterval && 0 < waits
    requires host.makeDirs && host.openDestination == NoFault
    requires settings.growthTimeout / settings.pollInterval + 1 <= polls
    requires IsCurrentlyGrowing(given) ==> settings.minSize <= |w(1).source|
    ensures var r := CopyFile(w, settings, given, latest, host, waits, polls);
      r.outcome == CopyCompleted(host.removable) && r.copy.dst == w(1).source
  {
    var minSize := if IsCurrentlyGrowing(given) then settings.minSize else 0;
    assert CalmFrom(w, 1);
    assert w(0).probe == Measured;
    WaitEnds(w, 1, |w(0).source|, minSize, waits);
    var (_, now) := WaitForSize(w, 1, |w(0).source|, minSize, waits);
    var file := if latest.Some? then latest.value else given;
    RestingBytesAreCopied(w, settings, IsCurrentlyGrowing(file), host, now, polls);
    var (c, _) := CopyBytes(w, settings, IsCurrentlyGrowing(file), host, now, polls);
    CopyBytesTraced(w, settings, IsCurrentlyGrowing(file), host, now, polls);
    assert w(c.now).source == w(1).source;
    assert w(c.now).probe == Measured && w(c.now + 1).probe == Measured;
  }

  lemma {:induction false} WaitNeverEnds(w: World, now: nat, size: nat, minSize: nat, budget: nat)
    requires (forall i: nat :: now <= i ==> |w(i).source| < minSize) && size < minSize
    ensures WaitForSize(w, now, size, minSize, budget).0 != Reached
    decreases budget
  {
    if budget != 0 && w(now).probe == Measured {
      WaitNeverEnds(w, now + 1, |w(now).source|, minSize, budget - 1);
    }
  }

  /**
   A file at rest, judged to be growing, with nothing else in its way, is completed for some
   observation if and only if it has the minimum size: a shorter one is waited for forever.
   */
  lemma GrowingFileCompletesIffLongEnough(
    w: World, settings: CopySettings, given: TrackedFile, latest: Option<TrackedFile>, host: Host)
    requires AtRest(w) && 0 < settings.chunk && 0 < settings.pollInterval
    requires host.makeDirs && host.openDestination == NoFault && IsCurrentlyGrowing(given)
    ensures
      (exists waits: nat, polls: nat ::
         CopyFile(w, settings, given, latest, host, waits, polls).outcome.CopyCompleted?)
      <==> settings.minSize <= |w(1).source|
  {
    if settings.minSize <= |w(1).source| {
      var polls := settings.growthTimeout / settings.pollInterval + 1;
      RestingFileCompletes(w, settings, given, latest, host, 1, polls);
    } else {
      assert w(0).source <= w(1).source;
      forall waits: nat, polls: nat
        ensures !CopyFile(w, settings, given, latest, host, waits, polls).outcome.CopyCompleted?
      {
        WaitNeverEnds(w, 1, |w(0).source|, settings.minSize, waits);
      }
    }
  }

  // ----- A recorder that stops at some unknown time

  lemma {:induction false} PollsTakeTime(w: World, cfg: CopyConfig, s: LoopState, polls: nat)
    requires AppendOnly(w) && LoopOk(w, cfg, s) && RunLoop(w, cfg, s, polls).1 == Again
    ensures s.copy.now + polls <= RunLoop(w, cfg, s, polls).0.copy.now
    decreases polls
  {
    hide PollOnce, LoopOk, AppendOnly;
    if polls != 0 {
      PollKeepsLoopOk(w, cfg, s);
      PollsTakeTime(w, cfg, PollOnce(w, cfg, s).0, polls - 1);
    }
  }

  lemma {:induction false} EventualSizeIsReached(w: World, now: nat, size: nat, minSize: nat, budget: nat, rest: nat)
    requires CalmFrom(w, 0) && ConstantFrom(w, rest) && minSize <= |w(rest).source|
    requires rest < now + budget
    ensures WaitForSize(w, now, size, minSize, budget).0 == Reached || (budget == 0 && size < minSize)
    decreases budget
  {
    if size < minSize && budget != 0 {
      EventualSizeIsReached(w, now + 1, |w(now).source|, minSize, budget - 1, rest);
    }
  }

  /** The configuration of the copy loop. */
  function LoopConfig(settings: CopySettings, given: TrackedFile, latest: Option<TrackedFile>): CopyConfig
    requires 0 < settings.pollInterval
  {
    ConfigFor(settings, IsCurrentlyGrowing(if latest.Some? then latest.value else given))
  }

  /** The state in which the copy loop is entered, once the size wait is over. */
  function LoopHead(w: World, settings: CopySettings, given: TrackedFile, latest: Option<TrackedFile>, waits: nat)
    : LoopState
    requires 0 < settings.pollInterval
  {
    var minSize := if IsCurrentlyGrowing(given) then settings.minSize else 0;
    var now := WaitForSize(w, 1, |w(0).source|, minSize, waits).1;
    StartLoop(LoopConfig(settings, given, latest), IsCurrentlyGrowing(if latest.Some? then latest.value else given),
              FreshCopy(now, []))
  }

  /** A copy that gets past the size wait runs its loop, and then the integrity check if that exits. */
  lemma LoopDecides(
    w: World, settings: CopySettings, given: TrackedFile, latest: Option<TrackedFile>, host: Host,
    waits: nat, polls: nat)
    requires w(0).probe == Measured && 0 < settings.pollInterval && host.makeDirs && host.openDestination == NoFault
    requires var minSize := if IsCurrentlyGrowing(given) then settings.minSize else 0;
      WaitForSize(w, 1, |w(0).source|, minSize, waits).0 == Reached
    ensures var cfg, s := LoopConfig(settings, given, latest), LoopHead(w, settings, given, latest, waits);
      var (s', verdict) := RunLoop(w, cfg, s, polls);
      && 1 <= s.copy.now && LoopOk(w, cfg, s) && Traced(w, s.copy)
      && (verdict == Exit ==>
            CopyFile(w, settings, given, latest, host, waits, polls) == VerifyAndRemove(w, s'.copy, host))
      && CopyFile(w, settings, given, latest, host, waits, polls).copy.dst == s'.copy.dst
      && CopyFile(w, settings, given, latest, host, waits, polls).copy.reports == s'.copy.reports
      && CopyFile(w, settings, given, latest, host, waits, polls).copy.checks == s'.copy.checks
      && (verdict == Again ==> CopyFile(w, settings, given, latest, host, waits, polls).outcome == Unfinished)
      && (verdict == Raised(NetworkFault) ==>
            CopyFile(w, settings, given, latest, host, waits, polls).outcome == RaisedNetworkError)
      && (verdict == Raised(OtherFault) ==>
            CopyFile(w, settings, given, latest, host, waits, polls).outcome == Refused)
  {
    hide RunLoop, LoopOk, IsCurrentlyGrowing, WaitForSize;
    var minSize := if IsCurrentlyGrowing(given) then settings.minSize else 0;
    WaitTakesTime(w, 1, |w(0).source|, minSize, waits);
    var growing := IsCurrentlyGrowing(if latest.Some? then latest.value else given);
    StartIsOk(w, ConfigFor(settings, growing), growing, LoopHead(w, settings, given, latest, waits).copy.now);
  }

  /** The copy of a file that comes to rest gets past the size wait and runs a loop that ends. */
  lemma LoopIsEntered(
    w: World, settings: CopySettings, given: TrackedFile, latest: Option<TrackedFile>, host: Host, rest: nat,
    waits: nat, polls: nat)
    requires AppendOnly(w) && CalmFrom(w, 0) && ConstantFrom(w, rest) && 0 < settings.chunk && 0 < settings.pollInterval
    requires host.makeDirs && host.openDestination == NoFault
    requires IsCurrentlyGrowing(given) ==> settings.minSize <= |w(rest).source|
    requires rest < waits && rest + settings.growthTimeout / settings.pollInterval + 1 <= polls
    ensures var cfg, s := LoopConfig(settings, given, latest), LoopHead(w, settings, given, latest, waits);
      var (s', verdict) := RunLoop(w, cfg, s, polls);
      && 1 <= s.copy.now && LoopOk(w, cfg, s) && Traced(w, s.copy) && CalmFrom(w, s.copy.now) && verdict != Again
      && (verdict == Exit ==>
            CopyFile(w, settings, given, latest, host, waits, polls) == VerifyAndRemove(w, s'.copy, host))
  {
    hide RunLoop, LoopOk, AppendOnly, ConstantFrom, IsCurrentlyGrowing, WaitForSize, VerifyAndRemove, CopyFile, Traced;
    var minSize := if IsCurrentlyGrowing(given) then settings.minSize else 0;
    assert w(0).probe == Measured;
    EventualSizeIsReached(w, 1, |w(0).source|, minSize, waits, rest);
    LoopDecides(w, settings, given, latest, host, waits, polls);
    var cfg, s := LoopConfig(settings, given, latest), LoopHead(w, settings, given, latest, waits);
    CopyLoopEndsAfterRest(w, cfg, s, rest, polls);
  }

  lemma {:induction false} WaitTakesTime(w: World, now: nat, size: nat, minSize: nat, budget: nat)
    ensures now <= WaitForSize(w, now, size, minSize, budget).1
    decreases budget
  {
    if size < minSize && budget != 0 && w(now).probe == Measured {
      WaitTakesTime(w, now + 1, |w(now).source|, minSize, budget - 1);
    }
  }

  /**
   However long the recorder keeps appending before it stops at await `rest`, the copy comes to an end with
   what its last poll saw of the source, and it ends completed exactly when nothing has been appended
   between that poll and the integrity check; otherwise the source is kept.
   */
  lemma EventuallyRestingCopyEnds(
    w: World, settings: CopySettings, given: TrackedFile, latest: Option<TrackedFile>, host: Host, rest: nat,
    waits: nat, polls: nat)
    requires AppendOnly(w) && CalmFrom(w, 0) && ConstantFrom(w, rest) && 0 < settings.chunk && 0 < settings.pollInterval
    requires host.makeDirs && host.openDestination == NoFault
    requires IsCurrentlyGrowing(given) ==> settings.minSize <= |w(rest).source|
    requires rest < waits && rest + settings.growthTimeout / settings.pollInterval + 1 <= polls
    ensures var r := CopyFile(w, settings, given, latest, host, waits, polls);
      var cfg, s := LoopConfig(settings, given, latest), LoopHead(w, settings, given, latest, waits);
      && r.outcome in {CopyCompleted(host.removable), Refused}
      && exists k: nat ::
           && LastPoll(w, cfg, s, polls, k)
           && var t := PollTime(w, cfg, s, k);
              && t < r.checkedAt && r.copy.dst == w(t).source
              && (r.outcome.CopyCompleted? <==> w(t).source == w(r.checkedAt).source)
  {
    hide RunLoop, LoopOk, ConstantFrom, LoopHead, IsCurrentlyGrowing, CopyFile, PollTime, LastPoll;
    LoopIsEntered(w, settings, given, latest, host, rest, waits, polls);
    var cfg, s := LoopConfig(settings, given, latest), LoopHead(w, settings, given, latest, waits);
    CalmExitIsComplete(w, cfg, s, polls);
    EveryByteIsTraced(w, cfg, s, polls);
    AppendOnlyNeverRewrites(w);
    var c := RunLoop(w, cfg, s, polls).0.copy;
    var k: nat :| LastPoll(w, cfg, s, polls, k) && c.copied == |w(PollTime(w, cfg, s, k)).source|
      && PollTime(w, cfg, s, k) < c.now;
    var t := PollTime(w, cfg, s, k);
    SizeMatchIsContentMatch(w, c, t);
    assert w(t).source <= w(c.now).source;
  }

  /**
   A file that grows while it is copied is delivered whole, with its final content, if the recorder never
   pauses for as many awaits as the loop takes idle polls to call the file finished.
   */
  lemma GrowingFileIsDeliveredWhole(
    w: World, settings: CopySettings, given: TrackedFile, latest: Option<TrackedFile>, host: Host, rest: nat,
    waits: nat, polls: nat)
    requires AppendOnly(w) && CalmFrom(w, 0) && ConstantFrom(w, rest) && 0 < settings.chunk && 0 < settings.pollInterval
    requires host.makeDirs && host.openDestination == NoFault && w(0).source != []
    requires IsCurrentlyGrowing(given) ==> settings.minSize <= |w(rest).source|
    requires IsCurrentlyGrowing(if latest.Some? then latest.value else given)
    requires NeverPauses(w, settings.growthTimeout / settings.pollInterval, rest)
    requires rest < waits && rest + settings.growthTimeout / settings.pollInterval + 1 <= polls
    ensures var r := CopyFile(w, settings, given, latest, host, waits, polls);
      r.outcome == CopyCompleted(host.removable) && r.copy.dst == w(rest).source
  {
    hide RunLoop, LoopOk, NeverPauses, IsCurrentlyGrowing, WaitForSize, CopyFile, PollTime, LastPoll;
    LoopIsEntered(w, settings, given, latest, host, rest, waits, polls);
    var cfg, s := LoopConfig(settings, given, latest), LoopHead(w, settings, given, latest, waits);
    assert w(0).source <= w(s.copy.now).source;
    CalmExitIsComplete(w, cfg, s, polls);
    LoopDeliversWhole(w, cfg, s, polls, rest);
    EveryByteIsTraced(w, cfg, s, polls);
    AppendOnlyNeverRewrites(w);
    var c := RunLoop(w, cfg, s, polls).0.copy;
    SizeMatchIsContentMatch(w, c, rest);
    var t: nat :| t < c.now && w(t).source == w(rest).source;
    FinalStays(w, t, c.now, rest);
  }

  lemma FinalStays(w: World, t: nat, later: nat, rest: nat)
    requires AppendOnly(w) && ConstantFrom(w, rest) && t <= later && w(t).source == w(rest).source
    ensures w(later).source == w(rest).source
  {
    assert w(t).source <= w(later).source;
    if later < rest {
      assert w(later).source <= w(rest).source;
    }
  }

  lemma CopyLoopEndsAfterRest(w: World, cfg: CopyConfig, s: LoopState, rest: nat, polls: nat)
    requires AppendOnly(w) && 0 < cfg.chunk && LoopOk(w, cfg, s) && ConstantFrom(w, rest)
    requires rest + cfg.maxIdle + 1 <= polls
    ensures RunLoop(w, cfg, s, polls).1 != Again
  {
    hide RunLoop, LoopOk, AppendOnly;
    var before := polls - cfg.maxIdle - 1;
    var (s', verdict) := RunLoop(w, cfg, s, before);
    if verdict == Again {
      PollsTakeTime(w, cfg, s, before);
      CopyLoopTerminates(w, cfg, s, before);
    } else {
      EndedStaysEnded(w, cfg, s, before, cfg.maxIdle + 1);
    }
  }
}
