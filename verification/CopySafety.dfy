/** What every run of the copy loop keeps: the safety margin, the phase order, the check spacing. */
module CopySafety {
  import opened TrackedFiles
  import opened CopyModel

  // ----- Reports, margin and phases, for a recorder that only appends

  /** One report respects the margin of its phase. */
  predicate ReportOk(cfg: CopyConfig, r: Report) {
    && r.status in {GrowingCopy, Copying}
    && r.bytes <= r.size
    && (r.status == GrowingCopy ==> r.bytes <= SafeLimit(r.size, cfg.margin))
  }

  /** Later reports never carry fewer bytes, and never fall back to the growing phase. */
  predicate InOrder(a: Report, b: Report) {
    a.bytes <= b.bytes && (a.status == Copying ==> b.status == Copying)
  }

  ghost predicate ReportsOk(cfg: CopyConfig, reports: seq<Report>) {
    && (forall i :: 0 <= i < |reports| ==> ReportOk(cfg, reports[i]))
    && (forall i, j :: 0 <= i < j < |reports| ==> InOrder(reports[i], reports[j]))
  }

  lemma ReportsExtend(cfg: CopyConfig, reports: seq<Report>, r: Report)
    requires ReportsOk(cfg, reports) && ReportOk(cfg, r)
    requires reports != [] ==> InOrder(reports[|reports| - 1], r)
    ensures ReportsOk(cfg, reports + [r])
  {
    var all := reports + [r];
    forall i, j | 0 <= i < j < |all| ensures InOrder(all[i], all[j]) {
      if j == |reports| && i < |reports| - 1 {
        assert InOrder(reports[i], reports[|reports| - 1]);
      }
    }
  }

  /** The last report, if any, carries at most `bytes` and allows `status` to follow. */
  predicate MayFollow(reports: seq<Report>, status: FileStatus, bytes: nat) {
    reports != [] ==> InOrder(reports[|reports| - 1], Report(status, bytes, bytes))
  }

  lemma RoundReports(w: World, cfg: CopyConfig, c: Copy, left: nat, size: nat, status: FileStatus)
    ensures var r := CopyChunk(w, cfg, c, left, size, status);
      r.copy.reports
        == if r.fault == NoFault && r.n != 0 then c.reports + [Report(status, r.copy.copied, size)] else c.reports
  {
  }

  lemma {:induction false} ChunkRangeReports(
    w: World, cfg: CopyConfig, c: Copy, left: nat, size: nat, status: FileStatus)
    requires status in {GrowingCopy, Copying}
    requires c.copied + left <= (if status == GrowingCopy then SafeLimit(size, cfg.margin) else size)
    requires ReportsOk(cfg, c.reports) && MayFollow(c.reports, status, c.copied)
    ensures var r := ChunkRange(w, cfg, c, left, size, status).0;
      ReportsOk(cfg, r.reports) && MayFollow(r.reports, status, r.copied) && r.copied <= c.copied + left
    decreases left
  {
    hide ReportsOk, CopyChunk;
    if left != 0 {
      var round := CopyChunk(w, cfg, c, left, size, status);
      RoundReports(w, cfg, c, left, size, status);
      if round.fault == NoFault && round.n != 0 {
        ReportsExtend(cfg, c.reports, Report(status, round.copy.copied, size));
        ChunkRangeReports(w, cfg, round.copy, left - round.n, size, status);
      }
    }
  }

  /** What holds at every loop head. */
  ghost predicate LoopOk(w: World, cfg: CopyConfig, s: LoopState) {
    && ReportsOk(cfg, s.copy.reports)
    && MayFollow(s.copy.reports, if s.finished then Copying else GrowingCopy, s.copy.copied)
    && s.lastSize <= |w(s.copy.now).source|
    && s.copy.copied <= |w(s.copy.now).source|
    && (!s.finished ==> s.copy.copied <= SafeLimit(s.lastSize, cfg.margin) && s.idle < cfg.maxIdle)
  }

  lemma {:induction false} ChunkRangeClock(
    w: World, cfg: CopyConfig, c: Copy, left: nat, size: nat, status: FileStatus)
    ensures c.now <= ChunkRange(w, cfg, c, left, size, status).0.now
    decreases left
  {
    hide CopyChunk;
    if left != 0 {
      var round := CopyChunk(w, cfg, c, left, size, status);
      if round.fault == NoFault && round.n != 0 {
        ChunkRangeClock(w, cfg, round.copy, left - round.n, size, status);
      }
    }
  }

  /** A copy within the limit of its phase, with its reports in order. */
  ghost predicate PhaseOk(cfg: CopyConfig, c: Copy, status: FileStatus, size: nat) {
    && ReportsOk(cfg, c.reports)
    && MayFollow(c.reports, status, c.copied)
    && c.copied <= (if status == GrowingCopy then SafeLimit(size, cfg.margin) else size)
  }

  lemma GrowingReportKeeps(cfg: CopyConfig, c: Copy, size: nat)
    requires PhaseOk(cfg, c, GrowingCopy, size)
    ensures PhaseOk(cfg, c.(reports := c.reports + [Report(GrowingCopy, c.copied, size)]), GrowingCopy, size)
  {
    ReportsExtend(cfg, c.reports, Report(GrowingCopy, c.copied, size));
  }

  /** The copying part of a poll keeps reports in order and stays within the phase's limit. */
  lemma AdvanceReports(w: World, cfg: CopyConfig, s: LoopState, size: nat, openFault: Fault)
    requires PhaseOk(cfg, s.copy, if s.finished then Copying else GrowingCopy, size)
    ensures var r := Advance(w, cfg, s, size, openFault).0;
      && PhaseOk(cfg, r.copy, if s.finished then Copying else GrowingCopy, size)
      && s.copy.now <= r.copy.now && r == s.(copy := r.copy)
  {
    hide ReportsOk, MayFollow, ChunkRange;
    var limit := if s.finished then size else SafeLimit(size, cfg.margin);
    var status := if s.finished then Copying else GrowingCopy;
    if s.copy.copied < limit {
      ChunkRangeReports(w, cfg, s.copy, limit - s.copy.copied, size, status);
      ChunkRangeClock(w, cfg, s.copy, limit - s.copy.copied, size, status);
    } else if !s.finished {
      GrowingReportKeeps(cfg, s.copy, size);
    }
  }

  /** One poll keeps the loop's invariant and never leaves the finished phase. */
  lemma PollKeepsLoopOk(w: World, cfg: CopyConfig, s: LoopState)
    requires AppendOnly(w) && LoopOk(w, cfg, s)
    ensures var r := PollOnce(w, cfg, s).0;
      LoopOk(w, cfg, r) && s.copy.now < r.copy.now && (s.finished ==> r.finished)
  {
    var m := w(s.copy.now);
    var c := s.copy.(now := s.copy.now + 1);
    var r := PollOnce(w, cfg, s).0;
    if m.tracked && m.probe == Measured {
      AdvanceReports(w, cfg, NoteSize(cfg, s, |m.source|).(copy := c), |m.source|, m.openFault);
    }
    assert m.source <= w(r.copy.now).source;
  }

  /**
   Over any number of polls of an append-only source: while the file grows the copy stays the margin
   behind the size last seen, reports never go backwards, and once the finished phase is entered
   every later report is a finished-phase report.
   */
  lemma {:induction false} LoopKeepsMarginAndPhase(w: World, cfg: CopyConfig, s: LoopState, polls: nat)
    requires AppendOnly(w) && LoopOk(w, cfg, s)
    ensures var r := RunLoop(w, cfg, s, polls).0;
      LoopOk(w, cfg, r) && s.copy.now <= r.copy.now && (s.finished ==> r.finished)
    decreases polls
  {
    hide PollOnce, LoopOk, AppendOnly;
    if polls != 0 {
      PollKeepsLoopOk(w, cfg, s);
      var (s', verdict) := PollOnce(w, cfg, s);
      if verdict == Again {
        LoopKeepsMarginAndPhase(w, cfg, s', polls - 1);
      }
    }
  }

  /** A newly started loop satisfies the invariant, growing or static. */
  lemma StartIsOk(w: World, cfg: CopyConfig, growing: bool, now: nat)
    ensures LoopOk(w, cfg, StartLoop(cfg, growing, FreshCopy(now, [])))
  {
  }

  // ----- Spacing of connectivity checks, for every recorder

  function LastAttempt(c: Copy): nat {
    if c.checks == [] then 0 else c.checks[|c.checks| - 1]
  }

  /**
   Fewer than `interval` bytes have been written since the last attempted check, and between two
   successive attempts (or the start and the first one) lie fewer than `interval + chunk` bytes.
   */
  ghost predicate WellSpaced(cfg: CopyConfig, c: Copy) {
    && c.lastCheck <= LastAttempt(c) <= c.copied < LastAttempt(c) + cfg.checkInterval
    && (c.checks != [] ==> 0 < c.checks[0] < cfg.checkInterval + cfg.chunk)
    && (forall i :: 0 < i < |c.checks| ==>
          c.checks[i - 1] < c.checks[i] < c.checks[i - 1] + cfg.checkInterval + cfg.chunk)
  }

  lemma RoundSpacing(w: World, cfg: CopyConfig, c: Copy, left: nat, size: nat, status: FileStatus)
    requires WellSpaced(cfg, c)
    ensures WellSpaced(cfg, CopyChunk(w, cfg, c, left, size, status).copy)
  {
    hide ReadLength;
    var r := CopyChunk(w, cfg, c, left, size, status);
    assert r.n <= cfg.chunk by { ChunksAreBounded(w, cfg, c, left, size, status); }
    assert r.n == 0 || LinkCheck(r.copy.lastCheck, r.copy.checks, r.fault)
      == CheckLink(r.copy.copied, c.lastCheck, c.checks, cfg.checkInterval, w(c.now).link) || r.copy.checks == c.checks;
  }

  lemma ChunksAreBounded(w: World, cfg: CopyConfig, c: Copy, left: nat, size: nat, status: FileStatus)
    ensures CopyChunk(w, cfg, c, left, size, status).n <= cfg.chunk
  {
  }

  lemma {:induction false} ChecksAreWellSpaced(
    w: World, cfg: CopyConfig, c: Copy, left: nat, size: nat, status: FileStatus)
    requires WellSpaced(cfg, c)
    ensures WellSpaced(cfg, ChunkRange(w, cfg, c, left, size, status).0)
    decreases left
  {
    hide WellSpaced, CopyChunk;
    if left != 0 {
      RoundSpacing(w, cfg, c, left, size, status);
      var round := CopyChunk(w, cfg, c, left, size, status);
      if round.fault == NoFault && round.n != 0 {
        ChecksAreWellSpaced(w, cfg, round.copy, left - round.n, size, status);
      }
    }
  }

  lemma AdvanceSpacing(w: World, cfg: CopyConfig, s: LoopState, size: nat, openFault: Fault)
    requires WellSpaced(cfg, s.copy)
    ensures WellSpaced(cfg, Advance(w, cfg, s, size, openFault).0.copy)
  {
    hide ChunkRange;
    var limit := if s.finished then size else SafeLimit(size, cfg.margin);
    if s.copy.copied < limit {
      ChecksAreWellSpaced(w, cfg, s.copy, limit - s.copy.copied, size, if s.finished then Copying else GrowingCopy);
    }
  }

  lemma PollSpacing(w: World, cfg: CopyConfig, s: LoopState)
    requires WellSpaced(cfg, s.copy)
    ensures WellSpaced(cfg, PollOnce(w, cfg, s).0.copy)
  {
    hide Advance;
    var m := w(s.copy.now);
    var noted := NoteSize(cfg, s, |m.source|).(copy := s.copy.(now := s.copy.now + 1));
    AdvanceSpacing(w, cfg, noted, |m.source|, m.openFault);
  }

  /** The spacing holds through the whole loop, not only within one chunk range. */
  lemma {:induction false} LoopChecksAreWellSpaced(w: World, cfg: CopyConfig, s: LoopState, polls: nat)
    requires WellSpaced(cfg, s.copy)
    ensures WellSpaced(cfg, RunLoop(w, cfg, s, polls).0.copy)
    decreases polls
  {
    if polls != 0 {
      hide PollOnce, WellSpaced;
      PollSpacing(w, cfg, s);
      var (s', verdict) := PollOnce(w, cfg, s);
      if verdict == Again {
        LoopChecksAreWellSpaced(w, cfg, s', polls - 1);
      }
    }
  }
}
