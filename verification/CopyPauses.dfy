/** Exactly which pauses of the recorder end the copy of a growing file. */
module CopyPauses {
  import opened Wrappers
  import opened TrackedFiles
  import opened CopyModel
  import opened CopySafety
  import opened CopyLiveness
  import opened FileCopy

  /** The growing copy is as far as it may be, and nothing has been appended since its last poll. */
  predicate CaughtUp(w: World, cfg: CopyConfig, s: LoopState) {
    && !s.finished && s.lastSize == |w(s.copy.now).source|
    && SafeLimit(s.lastSize, cfg.margin) <= s.copy.copied
  }

  /** The number of idle polls still missing until the file is called finished. */
  function PollsLeft(cfg: CopyConfig, s: LoopState): nat
    requires s.idle <= cfg.maxIdle
  {
    cfg.maxIdle - s.idle
  }

  /** An idle poll of a caught-up copy takes one await and copies nothing, unless it ends the growing phase. */
  lemma IdlePollWaits(w: World, cfg: CopyConfig, s: LoopState)
    requires CaughtUp(w, cfg, s) && CalmFrom(w, s.copy.now) && s.idle + 1 < cfg.maxIdle
    ensures var (s', verdict) := PollOnce(w, cfg, s);
      && verdict == Again && s'.copy.now == s.copy.now + 1 && s'.idle == s.idle + 1 && !s'.finished
      && s'.lastSize == s.lastSize && s'.copy.copied == s.copy.copied && s'.copy.dst == s.copy.dst
  {
    hide ChunkRange;
  }

  /** A growing-phase poll without faults goes on as long as it does not make the last idle poll. */
  lemma GrowingPollGoesOn(w: World, cfg: CopyConfig, s: LoopState)
    requires AppendOnly(w) && 0 < cfg.chunk && LoopOk(w, cfg, s) && CalmFrom(w, s.copy.now) && !s.finished
    requires s.lastSize < |w(s.copy.now).source| || s.idle + 1 < cfg.maxIdle
    ensures var (s', verdict) := PollOnce(w, cfg, s);
      && verdict == Again && !s'.finished
      && s'.idle == (if s.lastSize < |w(s.copy.now).source| then 0 else s.idle + 1)
      && s'.lastSize == (if s.lastSize < |w(s.copy.now).source| then |w(s.copy.now).source| else s.lastSize)
  {
    hide LoopOk, AppendOnly, Advance;
    if PollOnce(w, cfg, s).1 != Again {
      CalmPoll(w, cfg, s);
    }
    var m := w(s.copy.now);
    AdvanceKeepsPhase(
      w, cfg, NoteSize(cfg, s, |m.source|).(copy := s.copy.(now := s.copy.now + 1)), |m.source|, m.openFault);
  }

  /** Fewer polls than there are idle ones left do not end the loop. */
  lemma {:induction false} LoopGoesOn(w: World, cfg: CopyConfig, s: LoopState, polls: nat)
    requires AppendOnly(w) && 0 < cfg.chunk && LoopOk(w, cfg, s) && CalmFrom(w, s.copy.now) && !s.finished
    requires s.idle + polls < cfg.maxIdle || (polls <= cfg.maxIdle && s.lastSize < |w(s.copy.now).source|)
    ensures RunLoop(w, cfg, s, polls).1 == Again
    decreases polls
  {
    hide PollOnce, LoopOk, AppendOnly;
    if polls != 0 {
      GrowingPollGoesOn(w, cfg, s);
      PollKeepsLoopOk(w, cfg, s);
      LoopGoesOn(w, cfg, PollOnce(w, cfg, s).0, polls - 1);
    }
  }

  /**
   From a caught-up loop head, exactly the polls still missing end the loop if and only if the source keeps its
   present size until the last of them; then the copy holds exactly that much. Otherwise the loop goes on.
   */
  lemma {:induction false} PauseEndsLoopIff(w: World, cfg: CopyConfig, s: LoopState)
    requires AppendOnly(w) && 0 < cfg.chunk && LoopOk(w, cfg, s) && CalmFrom(w, s.copy.now) && CaughtUp(w, cfg, s)
    ensures var n := PollsLeft(cfg, s);
      var (r, verdict) := RunLoop(w, cfg, s, n);
      && 0 < n
      && (if |w(s.copy.now + n - 1).source| == |w(s.copy.now).source|
          then verdict == Exit && r.copy.copied == |w(s.copy.now).source| && s.copy.now + n <= r.copy.now
          else verdict == Again)
    decreases cfg.maxIdle - s.idle
  {
    hide PollOnce, AppendOnly;
    var n := PollsLeft(cfg, s);
    var s' := PollOnce(w, cfg, s).0;
    PollKeepsLoopOk(w, cfg, s);
    if n == 1 {
      LastIdlePoll(w, cfg, s);
      assert RunLoop(w, cfg, s, 1) == PollOnce(w, cfg, s);
    } else {
      IdlePollWaits(w, cfg, s);
      assert RunLoop(w, cfg, s, n) == RunLoop(w, cfg, s', n - 1);
      Grows(w, s.copy.now, s.copy.now + 1);
      Grows(w, s.copy.now + 1, s.copy.now + n - 1);
      if |w(s'.copy.now).source| == s.lastSize {
        PauseEndsLoopIff(w, cfg, s');
      } else {
        LoopGoesOn(w, cfg, s', n - 1);
      }
    }
  }

  lemma Grows(w: World, t: nat, later: nat)
    requires AppendOnly(w) && t <= later
    ensures |w(t).source| <= |w(later).source|
    ensures |w(t).source| == |w(later).source| ==> w(t).source == w(later).source
  {
    assert w(t).source <= w(later).source;
  }

  lemma LastIdlePoll(w: World, cfg: CopyConfig, s: LoopState)
    requires AppendOnly(w) && 0 < cfg.chunk && LoopOk(w, cfg, s) && CalmFrom(w, s.copy.now) && CaughtUp(w, cfg, s)
    requires s.idle + 1 == cfg.maxIdle
    ensures var (s', verdict) := PollOnce(w, cfg, s);
      verdict == Exit && s'.copy.copied == |w(s.copy.now).source| && s.copy.now < s'.copy.now
  {
    var m := w(s.copy.now);
    AdvanceKeepsPhase(
      w, cfg, NoteSize(cfg, s, |m.source|).(copy := s.copy.(now := s.copy.now + 1)), |m.source|, m.openFault);
    hide LoopOk, AppendOnly, Advance;
    FinishedPollIsLast(w, cfg, s);
    PollKeepsLoopOk(w, cfg, s);
  }

  /** The copying part of a growing-phase poll without faults leaves the copy as far as it may be. */
  lemma AdvanceCatchesUp(w: World, cfg: CopyConfig, s: LoopState, size: nat, openFault: Fault)
    requires AppendOnly(w) && 0 < cfg.chunk && !s.finished && size <= |w(s.copy.now).source|
    requires CalmFrom(w, s.copy.now) && openFault == NoFault
    ensures SafeLimit(size, cfg.margin) <= Advance(w, cfg, s, size, openFault).0.copy.copied
  {
    hide ChunkRange, AppendOnly, CalmFrom;
    var limit := SafeLimit(size, cfg.margin);
    if s.copy.copied < limit {
      ChunkRangeIsExact(w, cfg, s.copy, limit - s.copy.copied, size, GrowingCopy);
    }
  }

  /** A poll without faults that goes on leaves the copy as far as it may be. */
  lemma PollCatchesUp(w: World, cfg: CopyConfig, s: LoopState)
    requires AppendOnly(w) && 0 < cfg.chunk && LoopOk(w, cfg, s) && CalmFrom(w, s.copy.now)
    requires PollOnce(w, cfg, s).1 == Again
    ensures var s' := PollOnce(w, cfg, s).0; !s'.finished && SafeLimit(s'.lastSize, cfg.margin) <= s'.copy.copied
  {
    if PollOnce(w, cfg, s).0.finished {
      FinishedPollIsLast(w, cfg, s);
    }
    var m := w(s.copy.now);
    var s1 := NoteSize(cfg, s, |m.source|).(copy := s.copy.(now := s.copy.now + 1));
    assert m.source <= w(s.copy.now + 1).source;
    assert CalmFrom(w, s.copy.now + 1);
    AdvanceKeepsPhase(w, cfg, s1, |m.source|, m.openFault);
    hide Advance, AppendOnly;
    if !s1.finished {
      AdvanceCatchesUp(w, cfg, s1, |m.source|, m.openFault);
    }
  }

  lemma {:induction false} LoopCatchesUp(w: World, cfg: CopyConfig, s: LoopState, k: nat)
    requires AppendOnly(w) && 0 < cfg.chunk && LoopOk(w, cfg, s) && CalmFrom(w, s.copy.now)
    requires 0 < k && RunLoop(w, cfg, s, k).1 == Again
    ensures var s' := RunLoop(w, cfg, s, k).0;
      && LoopOk(w, cfg, s') && s.copy.now <= s'.copy.now
      && !s'.finished && SafeLimit(s'.lastSize, cfg.margin) <= s'.copy.copied
    decreases k
  {
    hide PollOnce, LoopOk, AppendOnly;
    PollKeepsLoopOk(w, cfg, s);
    PollCatchesUp(w, cfg, s);
    if k > 1 {
      LoopCatchesUp(w, cfg, PollOnce(w, cfg, s).0, k - 1);
    }
  }

  /** What the loop makes of a pause, however long it is observed. */
  lemma PausedLoop(w: World, cfg: CopyConfig, s: LoopState, polls: nat)
    requires AppendOnly(w) && 0 < cfg.chunk && LoopOk(w, cfg, s) && CalmFrom(w, s.copy.now) && CaughtUp(w, cfg, s)
    requires PollsLeft(cfg, s) <= polls
    ensures var n := PollsLeft(cfg, s);
      var e := RunLoop(w, cfg, s, n).0.copy.now;
      var (r, verdict) := RunLoop(w, cfg, s, polls);
      && s.copy.now + n <= e
      && (if |w(s.copy.now + n - 1).source| == |w(s.copy.now).source|
          then verdict == Exit && r.copy.copied == |w(s.copy.now).source| && r.copy.now == e
          else (|w(s.copy.now).source| < |w(e).source| && !verdict.Raised?
                && (verdict == Exit ==> |w(s.copy.now).source| < r.copy.copied)))
  {
    hide RunLoop, LoopOk, AppendOnly, PollTime, LastPoll, CaughtUp;
    var n := PollsLeft(cfg, s);
    PauseEndsLoopIff(w, cfg, s);
    var (s', v) := RunLoop(w, cfg, s, n);
    if v == Again {
      LoopKeepsMarginAndPhase(w, cfg, s, n);
      PollsTakeTime(w, cfg, s, n);
      RunLoopSplits(w, cfg, s, n, polls - n);
      Grows(w, s.copy.now, s.copy.now + n - 1);
      Grows(w, s.copy.now + n - 1, s'.copy.now);
      if RunLoop(w, cfg, s', polls - n).1 != Again {
        CalmExitIsComplete(w, cfg, s', polls - n);
        var k: nat :| LastPoll(w, cfg, s', polls - n, k)
          && RunLoop(w, cfg, s', polls - n).0.copy.copied == |w(PollTime(w, cfg, s', k)).source|
          && s'.copy.now <= PollTime(w, cfg, s', k);
        Grows(w, s'.copy.now, PollTime(w, cfg, s', k));
      }
    } else {
      EndedStaysEnded(w, cfg, s, n, polls - n);
    }
  }

  /**
   A copy in growing mode that has made `k` polls, and finds nothing appended since the last of them, is completed
   with exactly what the source holds now if and only if nothing more is appended up to await `e`, at which
   the polls still missing are over and the sizes are compared. So a recorder that pauses that long gets its
   file cut, whatever it appends later; one that resumes before does not.
   */
  lemma {:induction false} PauseCutsIff(
    w: World, settings: CopySettings, given: TrackedFile, latest: Option<TrackedFile>, host: Host,
    waits: nat, polls: nat, k: nat)
    requires AppendOnly(w) && CalmFrom(w, 0) && 0 < settings.chunk && 0 < settings.pollInterval
    requires host.makeDirs && host.openDestination == NoFault
    requires var minSize := if IsCurrentlyGrowing(given) then settings.minSize else 0;
      WaitForSize(w, 1, |w(0).source|, minSize, waits).0 == Reached
    requires var cfg, s := LoopConfig(settings, given, latest), LoopHead(w, settings, given, latest, waits);
      && 0 < k && RunLoop(w, cfg, s, k).1 == Again
      && RunLoop(w, cfg, s, k).0.lastSize == |w(PollTime(w, cfg, s, k)).source|
      && k + cfg.maxIdle <= polls
    ensures var cfg, start := LoopConfig(settings, given, latest), LoopHead(w, settings, given, latest, waits);
      var s, r := RunLoop(w, cfg, start, k).0, CopyFile(w, settings, given, latest, host, waits, polls);
      && s.idle <= cfg.maxIdle
      && var e := RunLoop(w, cfg, s, PollsLeft(cfg, s)).0.copy.now;
         r.outcome == CopyCompleted(host.removable) && r.copy.dst == w(s.copy.now).source
         <==> w(e).source == w(s.copy.now).source
  {
    hide RunLoop, LoopOk, IsCurrentlyGrowing, WaitForSize, CopyFile;
    assert w(0).probe == Measured;
    var cfg, start := LoopConfig(settings, given, latest), LoopHead(w, settings, given, latest, waits);
    LoopDecides(w, settings, given, latest, host, waits, polls);
    LoopCatchesUp(w, cfg, start, k);
    var s := RunLoop(w, cfg, start, k).0;
    IdleIsBounded(w, cfg, s);
    PausedLoop(w, cfg, s, polls - k);
    RunLoopSplits(w, cfg, start, k, polls - k);
    EveryByteIsTraced(w, cfg, start, polls);
    AppendOnlyNeverRewrites(w);
    var c := RunLoop(w, cfg, start, polls).0.copy;
    var n := PollsLeft(cfg, s);
    var e := RunLoop(w, cfg, s, n).0.copy.now;
    Grows(w, s.copy.now, s.copy.now + n - 1);
    Grows(w, s.copy.now + n - 1, e);
    Grows(w, s.copy.now, e);
    if c.copied == |w(s.copy.now).source| {
      SizeMatchIsContentMatch(w, c, s.copy.now);
    }
  }

  lemma IdleIsBounded(w: World, cfg: CopyConfig, s: LoopState)
    requires LoopOk(w, cfg, s) && !s.finished
    ensures s.idle < cfg.maxIdle
  {
  }

  // ----- A recorder that is cut

  /** A recorder that pauses after its first byte and appends the second only after await 9. */
  function PausingRecorder(): World {
    (t: nat) => Moment(if t <= 9 then [1 as Byte] else [1, 2], true, Measured, 10, NoFault, NoFault, NoFault, LinkUp)
  }

  function GrowingFile(): TrackedFile {
    NewTrackedFile(0, "clip.mxf", 1, 0).(status := GrowingCopy)
  }

  lemma PausingPolls()
    ensures var w, cfg := PausingRecorder(), CopyConfig(4, 0, 1, 40);
      var s := StartLoop(cfg, true, FreshCopy(1, []));
      && PollOnce(w, cfg, s).1 == Again && PollOnce(w, cfg, PollOnce(w, cfg, s).0).1 == Exit
      && PollOnce(w, cfg, PollOnce(w, cfg, s).0).0.copy.dst == [1]
      && PollOnce(w, cfg, PollOnce(w, cfg, s).0).0.copy.now == 4
  {
    var w, cfg := PausingRecorder(), CopyConfig(4, 0, 1, 40);
    var s := StartLoop(cfg, true, FreshCopy(1, []));
    var c := s.copy.(now := 2);
    var round := CopyChunk(w, cfg, c, 1, 1, GrowingCopy);
    assert round.n == 1 && round.copy.dst == [1];
    assert ChunkRange(w, cfg, c, 1, 1, GrowingCopy) == (round.copy, NoFault);
    assert PollOnce(w, cfg, s) == (LoopState(round.copy, 1, 0, false), Again);
  }

  lemma PausingRun()
    ensures var (s, verdict) := RunLoop(
        PausingRecorder(), CopyConfig(4, 0, 1, 40), StartLoop(CopyConfig(4, 0, 1, 40), true, FreshCopy(1, [])), 2);
      verdict == Exit && s.copy.dst == [1] && s.copy.now == 4
  {
    hide PollOnce, StartLoop;
    var w, cfg := PausingRecorder(), CopyConfig(4, 0, 1, 40);
    PausingPolls();
    var s := StartLoop(cfg, true, FreshCopy(1, []));
    var s1 := PollOnce(w, cfg, s).0;
    assert RunLoop(w, cfg, s1, 1) == PollOnce(w, cfg, s1);
    assert RunLoop(w, cfg, s, 2) == PollOnce(w, cfg, s1);
  }

  /** Such a recorder: its file is completed, and the source removed, with the part written before the pause. */
  lemma PauseCutsTheRecording()
    ensures AppendOnly(PausingRecorder()) && CalmFrom(PausingRecorder(), 0) && ConstantFrom(PausingRecorder(), 10)
    ensures var w := PausingRecorder();
      var r := CopyFile(w, CopySettings(0, 0, 4, 1, 1), GrowingFile(), None, Host(true, NoFault, true), 0, 2);
      r.outcome == CopyCompleted(true) && r.copy.dst == [1] && w(10).source == [1, 2]
  {
    var w, cfg := PausingRecorder(), CopyConfig(4, 0, 1, 40);
    assert AppendOnly(w) && CalmFrom(w, 0) && ConstantFrom(w, 10);
    hide AppendOnly, CalmFrom, ConstantFrom, RunLoop;
    PausingRun();
    assert IsCurrentlyGrowing(GrowingFile());
    assert ConfigFor(CopySettings(0, 0, 4, 1, 1), true) == cfg;
  }
}
