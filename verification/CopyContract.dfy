/** What a copy does in terms of its settings, of what it reports, and of what the world shows. */
module CopyContract {
  import opened Wrappers
  import opened TrackedFiles
  import opened CopyModel
  import opened CopySafety
  import opened CopyLiveness
  import opened FileCopy
  import opened CopyPauses

  predicate CopiedInGrowingMode(given: TrackedFile, latest: Option<TrackedFile>) {
    IsCurrentlyGrowing(if latest.Some? then latest.value else given)
  }

  /** The size wait ends with the minimum reached, and the destination can be opened. */
  predicate GetsGoing(
    w: World, settings: CopySettings, given: TrackedFile, host: Host, waits: nat)
  {
    && w(0).probe == Measured && 0 < settings.pollInterval && host.makeDirs && host.openDestination == NoFault
    && WaitForSize(w, 1, |w(0).source|, if IsCurrentlyGrowing(given) then settings.minSize else 0, waits).0 == Reached
  }

  // ----- The safety margin

  /** The reports of a copy in static mode are all reports of a finished file. */
  predicate OnlyCopying(reports: seq<Report>) {
    forall i :: 0 <= i < |reports| ==> reports[i].status == Copying
  }

  lemma {:induction false} ChunkRangeOnlyCopying(w: World, cfg: CopyConfig, c: Copy, left: nat, size: nat)
    requires OnlyCopying(c.reports)
    ensures OnlyCopying(ChunkRange(w, cfg, c, left, size, Copying).0.reports)
    decreases left
  {
    hide CopyChunk;
    if left != 0 {
      RoundReports(w, cfg, c, left, size, Copying);
      var round := CopyChunk(w, cfg, c, left, size, Copying);
      if round.fault == NoFault && round.n != 0 {
        ChunkRangeOnlyCopying(w, cfg, round.copy, left - round.n, size);
      }
    }
  }

  lemma FinishedPollOnlyCopying(w: World, cfg: CopyConfig, s: LoopState)
    requires s.finished && OnlyCopying(s.copy.reports)
    ensures var s' := PollOnce(w, cfg, s).0; s'.finished && OnlyCopying(s'.copy.reports)
  {
    hide ChunkRange, OnlyCopying;
    var size := |w(s.copy.now).source|;
    var c := s.copy.(now := s.copy.now + 1);
    if c.copied < size {
      ChunkRangeOnlyCopying(w, cfg, c, size - c.copied, size);
    }
  }

  lemma {:induction false} FinishedLoopOnlyCopying(w: World, cfg: CopyConfig, s: LoopState, polls: nat)
    requires s.finished && OnlyCopying(s.copy.reports)
    ensures OnlyCopying(RunLoop(w, cfg, s, polls).0.copy.reports)
    decreases polls
  {
    hide PollOnce, OnlyCopying;
    if polls != 0 {
      FinishedPollOnlyCopying(w, cfg, s);
      FinishedLoopOnlyCopying(w, cfg, PollOnce(w, cfg, s).0, polls - 1);
    }
  }

  /** A report keeps the safety margin of the settings to the size it was made with. */
  predicate KeepsMargin(r: Report, margin: nat) {
    && r.status in {GrowingCopy, Copying} && r.bytes <= r.size
    && (r.status == GrowingCopy ==> r.bytes == 0 || r.bytes + margin <= r.size)
  }

  lemma BytesKeepMargin(
    w: World, settings: CopySettings, growing: bool, host: Host, now: nat, polls: nat)
    requires AppendOnly(w)
    ensures var c := CopyBytes(w, settings, growing, host, now, polls).0;
      && (forall i :: 0 <= i < |c.reports| ==> KeepsMargin(c.reports[i], settings.margin))
      && (!growing ==> OnlyCopying(c.reports))
  {
    if settings.pollInterval != 0 && host.openDestination == NoFault {
      var cfg := ConfigFor(settings, growing);
      var s := StartLoop(cfg, growing, FreshCopy(now, []));
      StartIsOk(w, cfg, growing, now);
      LoopKeepsMarginAndPhase(w, cfg, s, polls);
      if !growing {
        FinishedLoopOnlyCopying(w, cfg, s, polls);
      }
      hide RunLoop, AppendOnly;
      var c := RunLoop(w, cfg, s, polls).0.copy;
      forall i | 0 <= i < |c.reports| ensures KeepsMargin(c.reports[i], settings.margin) {
        assert ReportOk(cfg, c.reports[i]);
      }
    }
  }

  /**
   Whatever happens, as long as the source is only appended to: every report of the growing phase is the safety
   margin behind the size it was made with, unless nothing was copied, and in static mode there are none.
   */
  lemma {:induction false} ReportsKeepMargin(
    w: World, settings: CopySettings, given: TrackedFile, latest: Option<TrackedFile>, host: Host,
    waits: nat, polls: nat)
    requires AppendOnly(w)
    ensures var r := CopyFile(w, settings, given, latest, host, waits, polls);
      && (forall i :: 0 <= i < |r.copy.reports| ==> KeepsMargin(r.copy.reports[i], settings.margin))
      && (!CopiedInGrowingMode(given, latest) ==> OnlyCopying(r.copy.reports))
  {
    var minSize := if IsCurrentlyGrowing(given) then settings.minSize else 0;
    var now := WaitForSize(w, 1, |w(0).source|, minSize, waits).1;
    BytesKeepMargin(w, settings, CopiedInGrowingMode(given, latest), host, now, polls);
    hide CopyBytes, WaitForSize, IsCurrentlyGrowing, KeepsMargin, OnlyCopying;
    assert OnlyCopying([]) by { NothingIsCopying(); }
  }

  lemma NothingIsCopying()
    ensures OnlyCopying([])
  {
  }

  /** A chunk range that ends where it should has its last report there. */
  lemma {:induction false} ChunkRangeLastReport(
    w: World, cfg: CopyConfig, c: Copy, left: nat, size: nat, status: FileStatus)
    requires AppendOnly(w) && 0 < cfg.chunk && 0 < left && c.copied + left <= |w(c.now).source| && CalmFrom(w, c.now)
    ensures var (r, fault) := ChunkRange(w, cfg, c, left, size, status);
      && fault == NoFault && r.copied == c.copied + left && r.reports != []
      && r.reports[|r.reports| - 1] == Report(status, r.copied, size)
    decreases left
  {
    hide CopyChunk;
    var round := CopyChunk(w, cfg, c, left, size, status);
    RoundAdvances(w, cfg, c, left, size, status);
    RoundReports(w, cfg, c, left, size, status);
    assert w(c.now).source <= w(c.now + 1).source;
    if round.n < left {
      ChunkRangeLastReport(w, cfg, round.copy, left - round.n, size, status);
    } else {
      assert ChunkRange(w, cfg, round.copy, 0, size, status) == (round.copy, NoFault);
    }
  }

  /** The copying part of a growing-phase poll ends with a report of how far the copy is. */
  lemma AdvanceReportsLast(w: World, cfg: CopyConfig, s: LoopState, size: nat, openFault: Fault)
    requires AppendOnly(w) && 0 < cfg.chunk && !s.finished && size <= |w(s.copy.now).source|
    requires CalmFrom(w, s.copy.now) && openFault == NoFault
    ensures var c := Advance(w, cfg, s, size, openFault).0.copy;
      c.reports != [] && c.reports[|c.reports| - 1] == Report(GrowingCopy, c.copied, size)
  {
    hide ChunkRange, AppendOnly, CalmFrom;
    var limit := SafeLimit(size, cfg.margin);
    if s.copy.copied < limit {
      ChunkRangeLastReport(w, cfg, s.copy, limit - s.copy.copied, size, GrowingCopy);
    }
  }

  /** A poll without faults that goes on has copied exactly up to the margin, and says so. */
  lemma GrowingPollReports(w: World, cfg: CopyConfig, s: LoopState)
    requires AppendOnly(w) && 0 < cfg.chunk && LoopOk(w, cfg, s) && CalmFrom(w, s.copy.now)
    requires PollOnce(w, cfg, s).1 == Again
    ensures var c, size := PollOnce(w, cfg, s).0.copy, |w(s.copy.now).source|;
      && c.reports != [] && c.reports[|c.reports| - 1] == Report(GrowingCopy, c.copied, size)
      && c.copied == (if size <= cfg.margin then 0 else size - cfg.margin)
  {
    PollCatchesUp(w, cfg, s);
    PollKeepsLoopOk(w, cfg, s);
    PollReportsLast(w, cfg, s);
    LastSizeIsSeen(w, cfg, s);
    hide PollOnce, AppendOnly, ReportsOk, MayFollow, CalmFrom;
  }

  lemma PollReportsLast(w: World, cfg: CopyConfig, s: LoopState)
    requires AppendOnly(w) && 0 < cfg.chunk && CalmFrom(w, s.copy.now) && !PollOnce(w, cfg, s).0.finished
    ensures var c, size := PollOnce(w, cfg, s).0.copy, |w(s.copy.now).source|;
      c.reports != [] && c.reports[|c.reports| - 1] == Report(GrowingCopy, c.copied, size)
  {
    var m := w(s.copy.now);
    var s1 := NoteSize(cfg, s, |m.source|).(copy := s.copy.(now := s.copy.now + 1));
    assert m.source <= w(s.copy.now + 1).source;
    assert CalmFrom(w, s.copy.now + 1);
    AdvanceKeepsPhase(w, cfg, s1, |m.source|, m.openFault);
    hide Advance, AppendOnly;
    AdvanceReportsLast(w, cfg, s1, |m.source|, m.openFault);
  }

  /** Without faults a growing-phase poll leaves the size it saw as the one last noted. */
  lemma LastSizeIsSeen(w: World, cfg: CopyConfig, s: LoopState)
    requires LoopOk(w, cfg, s) && CalmFrom(w, s.copy.now) && !PollOnce(w, cfg, s).0.finished
    ensures PollOnce(w, cfg, s).0.lastSize == |w(s.copy.now).source|
  {
    var m := w(s.copy.now);
    var s1 := NoteSize(cfg, s, |m.source|).(copy := s.copy.(now := s.copy.now + 1));
    AdvanceKeepsPhase(w, cfg, s1, |m.source|, m.openFault);
    hide Advance;
  }

  /**
   Between two polls without faults a growing copy is exactly the safety margin of the settings behind the size its
   last poll saw, or has copied nothing if the file is not longer than that; its last report says so.
   */
  lemma {:induction false} GrowingCopyIsMarginBehind(
    w: World, settings: CopySettings, given: TrackedFile, latest: Option<TrackedFile>, host: Host,
    waits: nat, polls: nat)
    requires AppendOnly(w) && CalmFrom(w, 0) && 0 < settings.chunk && GetsGoing(w, settings, given, host, waits)
    requires CopiedInGrowingMode(given, latest) && 0 < polls
    requires CopyFile(w, settings, given, latest, host, waits, polls).outcome == Unfinished
    ensures var c := CopyFile(w, settings, given, latest, host, waits, polls).copy;
      var size := |w(PollTime(w, LoopConfig(settings, given, latest), LoopHead(w, settings, given, latest, waits),
                              polls - 1)).source|;
      && |c.dst| == (if size <= settings.margin then 0 else size - settings.margin)
      && c.reports != [] && c.reports[|c.reports| - 1] == Report(GrowingCopy, |c.dst|, size)
  {
    hide RunLoop, LoopOk, AppendOnly, CopyFile, WaitForSize, IsCurrentlyGrowing, Traced;
    var cfg, s := LoopConfig(settings, given, latest), LoopHead(w, settings, given, latest, waits);
    LoopDecides(w, settings, given, latest, host, waits, polls);
    assert RunLoop(w, cfg, s, polls).1 == Again by { CalmLoopDoesNotRaise(w, cfg, s, polls); }
    LastOfManyPolls(w, cfg, s, polls);
    EveryByteIsTraced(w, cfg, s, polls);
    TracedLength(w, RunLoop(w, cfg, s, polls).0.copy);
  }

  lemma TracedLength(w: World, c: Copy)
    requires Traced(w, c)
    ensures |c.dst| == c.copied
  {
  }

  lemma CalmLoopDoesNotRaise(w: World, cfg: CopyConfig, s: LoopState, polls: nat)
    requires AppendOnly(w) && 0 < cfg.chunk && LoopOk(w, cfg, s) && CalmFrom(w, s.copy.now)
    ensures !RunLoop(w, cfg, s, polls).1.Raised?
  {
    hide RunLoop, LoopOk, AppendOnly;
    if RunLoop(w, cfg, s, polls).1 != Again {
      CalmExitIsComplete(w, cfg, s, polls);
    }
  }

  lemma LastOfManyPolls(w: World, cfg: CopyConfig, s: LoopState, polls: nat)
    requires AppendOnly(w) && 0 < cfg.chunk && LoopOk(w, cfg, s) && CalmFrom(w, s.copy.now)
    requires 0 < polls && RunLoop(w, cfg, s, polls).1 == Again
    ensures var c, size := RunLoop(w, cfg, s, polls).0.copy, |w(PollTime(w, cfg, s, polls - 1)).source|;
      && c.reports != [] && c.reports[|c.reports| - 1] == Report(GrowingCopy, c.copied, size)
      && c.copied == (if size <= cfg.margin then 0 else size - cfg.margin)
  {
    hide PollOnce, LoopOk, AppendOnly;
    if RunLoop(w, cfg, s, polls - 1).1 != Again {
      EndedStaysEnded(w, cfg, s, polls - 1, 1);
    }
    RunLoopSplits(w, cfg, s, polls - 1, 1);
    LoopKeepsMarginAndPhase(w, cfg, s, polls - 1);
    var s' := RunLoop(w, cfg, s, polls - 1).0;
    assert RunLoop(w, cfg, s', 1) == PollOnce(w, cfg, s');
    GrowingPollReports(w, cfg, s');
  }

  /** In static mode the copy takes everything its only poll sees, whatever the margin of the settings. */
  lemma {:induction false} StaticCopyTakesAll(
    w: World, settings: CopySettings, given: TrackedFile, latest: Option<TrackedFile>, host: Host,
    waits: nat, polls: nat)
    requires AppendOnly(w) && CalmFrom(w, 0) && 0 < settings.chunk && GetsGoing(w, settings, given, host, waits)
    requires !CopiedInGrowingMode(given, latest) && 0 < polls
    ensures var r := CopyFile(w, settings, given, latest, host, waits, polls);
      && r.outcome in {CopyCompleted(host.removable), Refused}
      && r.copy.dst == w(LoopHead(w, settings, given, latest, waits).copy.now).source
  {
    hide LoopOk, AppendOnly, CopyFile, WaitForSize, IsCurrentlyGrowing, Traced, PollOnce;
    var cfg, s := LoopConfig(settings, given, latest), LoopHead(w, settings, given, latest, waits);
    LoopDecides(w, settings, given, latest, host, waits, polls);
    PollOnceStaysFinished(w, cfg, s);
    FinishedPollIsLast(w, cfg, s);
    assert RunLoop(w, cfg, s, polls) == PollOnce(w, cfg, s);
    EveryByteIsTraced(w, cfg, s, polls);
    AppendOnlyNeverRewrites(w);
    TracedLength(w, RunLoop(w, cfg, s, polls).0.copy);
    SizeMatchIsContentMatch(w, RunLoop(w, cfg, s, polls).0.copy, s.copy.now);
  }

  lemma PollOnceStaysFinished(w: World, cfg: CopyConfig, s: LoopState)
    requires s.finished
    ensures PollOnce(w, cfg, s).0.finished
  {
    hide ChunkRange;
  }
}
