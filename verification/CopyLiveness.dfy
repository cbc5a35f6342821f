/** When the copy loop ends, and with what. */
module CopyLiveness {
  import opened TrackedFiles
  import opened CopyModel
  import opened CopySafety

  lemma RoundAdvances(w: World, cfg: CopyConfig, c: Copy, left: nat, size: nat, status: FileStatus)
    requires 0 < cfg.chunk && 0 < left && c.copied + left <= |w(c.now).source|
    ensures var round := CopyChunk(w, cfg, c, left, size, status);
      (round.fault == NoFault ==> round.n > 0) && (CalmFrom(w, c.now) ==> round.fault == NoFault)
  {
  }

  /** Without a fault the chunk loop ends exactly where it was told to, however the reads are split. */
  lemma {:induction false} ChunkRangeIsExact(
    w: World, cfg: CopyConfig, c: Copy, left: nat, size: nat, status: FileStatus)
    requires AppendOnly(w) && 0 < cfg.chunk && c.copied + left <= |w(c.now).source|
    ensures var (r, fault) := ChunkRange(w, cfg, c, left, size, status);
      (fault == NoFault ==> r.copied == c.copied + left) && (CalmFrom(w, c.now) ==> fault == NoFault)
    decreases left
  {
    hide CopyChunk;
    if left != 0 {
      var round := CopyChunk(w, cfg, c, left, size, status);
      RoundAdvances(w, cfg, c, left, size, status);
      assert w(c.now).source <= w(c.now + 1).source;
      if round.fault == NoFault && round.n != 0 {
        assert CalmFrom(w, c.now) ==> CalmFrom(w, round.copy.now);
        ChunkRangeIsExact(w, cfg, round.copy, left - round.n, size, status);
      }
    }
  }

  /** The copying part of a poll in the finished phase copies to the end, or raises. */
  lemma FinishedAdvanceIsLast(w: World, cfg: CopyConfig, s: LoopState, size: nat, openFault: Fault)
    requires AppendOnly(w) && 0 < cfg.chunk && s.finished && size <= |w(s.copy.now).source| && s.copy.copied <= size
    ensures Advance(w, cfg, s, size, openFault).1 != Again
    ensures CalmFrom(w, s.copy.now) && openFault == NoFault ==>
      Advance(w, cfg, s, size, openFault).1 == Exit && Advance(w, cfg, s, size, openFault).0.copy.copied == size
  {
    hide ChunkRange, AppendOnly, CalmFrom;
    if s.copy.copied < size {
      ChunkRangeIsExact(w, cfg, s.copy, size - s.copy.copied, size, Copying);
    }
  }

  /** A poll that ends in the finished phase is the last one; it copies all it saw or raises. */
  lemma FinishedPollIsLast(w: World, cfg: CopyConfig, s: LoopState)
    requires AppendOnly(w) && 0 < cfg.chunk && LoopOk(w, cfg, s)
    requires PollOnce(w, cfg, s).0.finished
    ensures PollOnce(w, cfg, s).1 != Again
    ensures CalmFrom(w, s.copy.now) ==>
      PollOnce(w, cfg, s).1 == Exit && PollOnce(w, cfg, s).0.copy.copied == |w(s.copy.now).source|
  {
    var m := w(s.copy.now);
    var s1 := NoteSize(cfg, s, |m.source|).(copy := s.copy.(now := s.copy.now + 1));
    assert m.source <= w(s.copy.now + 1).source;
    assert CalmFrom(w, s.copy.now) ==> CalmFrom(w, s.copy.now + 1);
    AdvanceKeepsPhase(w, cfg, s1, |m.source|, m.openFault);
    if s1.finished {
      FinishedAdvanceIsLast(w, cfg, s1, |m.source|, m.openFault);
    }
    hide Advance;
  }

  /** With the source at rest, each poll that does not end the loop is one more idle poll. */
  lemma IdlePoll(w: World, cfg: CopyConfig, s: LoopState)
    requires AppendOnly(w) && 0 < cfg.chunk && LoopOk(w, cfg, s) && ConstantFrom(w, s.copy.now)
    requires PollOnce(w, cfg, s).1 == Again
    ensures var r := PollOnce(w, cfg, s).0;
      && LoopOk(w, cfg, r) && ConstantFrom(w, r.copy.now)
      && !r.finished && r.lastSize == |w(s.copy.now).source|
      && r.idle == (if s.lastSize < |w(s.copy.now).source| then 0 else s.idle + 1)
  {
    PollKeepsLoopOk(w, cfg, s);
    var r := PollOnce(w, cfg, s).0;
    if r.finished {
      FinishedPollIsLast(w, cfg, s);
    }
  }

  lemma {:induction false} IdleLoopEnds(w: World, cfg: CopyConfig, s: LoopState, polls: nat)
    requires AppendOnly(w) && 0 < cfg.chunk && LoopOk(w, cfg, s) && ConstantFrom(w, s.copy.now)
    requires 0 < polls
    requires s.finished || polls >= cfg.maxIdle + 1
      || (s.lastSize == |w(s.copy.now).source| && polls >= cfg.maxIdle - s.idle)
    ensures RunLoop(w, cfg, s, polls).1 != Again
    decreases polls
  {
    if s.finished {
      PollKeepsLoopOk(w, cfg, s);
      FinishedPollIsLast(w, cfg, s);
    } else if PollOnce(w, cfg, s).1 == Again {
      IdlePoll(w, cfg, s);
      var s' := PollOnce(w, cfg, s).0;
      assert w(s'.copy.now).source == w(s.copy.now).source;
      IdleLoopEnds(w, cfg, s', polls - 1);
    }
  }

  lemma {:induction false} RunLoopSplits(w: World, cfg: CopyConfig, s: LoopState, first: nat, more: nat)
    requires RunLoop(w, cfg, s, first).1 == Again
    ensures RunLoop(w, cfg, s, first + more) == RunLoop(w, cfg, RunLoop(w, cfg, s, first).0, more)
    decreases first
  {
    if first != 0 {
      RunLoopSplits(w, cfg, PollOnce(w, cfg, s).0, first - 1, more);
    }
  }

  /**
   Termination: if the source stands still once `k` polls are done, the loop is over within
   `k + maxIdle + 1` polls, whatever faults, short reads and delays occur on the way.
   */
  lemma CopyLoopTerminates(w: World, cfg: CopyConfig, s: LoopState, k: nat)
    requires AppendOnly(w) && 0 < cfg.chunk && LoopOk(w, cfg, s)
    requires ConstantFrom(w, RunLoop(w, cfg, s, k).0.copy.now)
    ensures RunLoop(w, cfg, s, k + cfg.maxIdle + 1).1 != Again
  {
    hide RunLoop, LoopOk, AppendOnly, ConstantFrom;
    var (s', verdict) := RunLoop(w, cfg, s, k);
    if verdict == Again {
      LoopKeepsMarginAndPhase(w, cfg, s, k);
      IdleLoopEnds(w, cfg, s', cfg.maxIdle + 1);
      RunLoopSplits(w, cfg, s, k, cfg.maxIdle + 1);
    } else {
      EndedStaysEnded(w, cfg, s, k, cfg.maxIdle + 1);
    }
  }

  lemma {:induction false} EndedStaysEnded(w: World, cfg: CopyConfig, s: LoopState, k: nat, more: nat)
    requires RunLoop(w, cfg, s, k).1 != Again
    ensures RunLoop(w, cfg, s, k + more) == RunLoop(w, cfg, s, k)
    decreases k
  {
    if PollOnce(w, cfg, s).1 == Again {
      EndedStaysEnded(w, cfg, PollOnce(w, cfg, s).0, k - 1, more);
    }
  }

  /** Poll number `k` is the last one the loop makes. */
  predicate LastPoll(w: World, cfg: CopyConfig, s: LoopState, polls: nat, k: nat) {
    k < polls && RunLoop(w, cfg, s, k).1 == Again && RunLoop(w, cfg, s, k + 1) == RunLoop(w, cfg, s, polls)
  }

  /** The await at which poll number `k` looks at the source. */
  function PollTime(w: World, cfg: CopyConfig, s: LoopState, k: nat): nat {
    RunLoop(w, cfg, s, k).0.copy.now
  }

  /** Without faults, an ended loop has copied exactly what its last poll saw. */
  lemma {:induction false} CalmExitIsComplete(w: World, cfg: CopyConfig, s: LoopState, polls: nat)
    requires AppendOnly(w) && 0 < cfg.chunk && LoopOk(w, cfg, s) && CalmFrom(w, s.copy.now)
    requires RunLoop(w, cfg, s, polls).1 != Again
    ensures var (r, verdict) := RunLoop(w, cfg, s, polls);
      && verdict == Exit && s.copy.now < r.copy.now
      && exists k: nat ::
           && LastPoll(w, cfg, s, polls, k) && r.copy.copied == |w(PollTime(w, cfg, s, k)).source|
           && s.copy.now <= PollTime(w, cfg, s, k) < r.copy.now
    decreases polls
  {
    hide PollOnce, LoopOk, AppendOnly;
    var (s', verdict) := PollOnce(w, cfg, s);
    PollKeepsLoopOk(w, cfg, s);
    if verdict == Again {
      CalmExitIsComplete(w, cfg, s', polls - 1);
      var k: nat :| LastPoll(w, cfg, s', polls - 1, k)
        && RunLoop(w, cfg, s', polls - 1).0.copy.copied == |w(PollTime(w, cfg, s', k)).source|
        && s'.copy.now <= PollTime(w, cfg, s', k) < RunLoop(w, cfg, s', polls - 1).0.copy.now;
      assert RunLoop(w, cfg, s, k + 1) == RunLoop(w, cfg, s', k);
      assert RunLoop(w, cfg, s, k + 2) == RunLoop(w, cfg, s', k + 1);
      assert LastPoll(w, cfg, s, polls, k + 1);
    } else {
      CalmPoll(w, cfg, s);
      FinishedPollIsLast(w, cfg, s);
      assert RunLoop(w, cfg, s, 1) == PollOnce(w, cfg, s);
      assert LastPoll(w, cfg, s, polls, 0);
    }
  }

  lemma CalmPoll(w: World, cfg: CopyConfig, s: LoopState)
    requires AppendOnly(w) && 0 < cfg.chunk && LoopOk(w, cfg, s) && CalmFrom(w, s.copy.now)
    requires PollOnce(w, cfg, s).1 != Again
    ensures PollOnce(w, cfg, s).0.finished
  {
    var m := w(s.copy.now);
    var c := s.copy.(now := s.copy.now + 1);
    assert m.source <= w(c.now).source;
    var s1 := NoteSize(cfg, s, |m.source|);
    if !s1.finished {
      var limit := SafeLimit(|m.source|, cfg.margin);
      if c.copied < limit {
        ChunkRangeIsExact(w, cfg, c, limit - c.copied, |m.source|, GrowingCopy);
      }
    }
  }

  // ----- A recorder that never pauses for long

  /** Until it has its final content, the source grows within every `n` awaits. */
  ghost predicate NeverPauses(w: World, n: nat, rest: nat) {
    forall i: nat :: w(i).source == w(rest).source || |w(i).source| < |w(i + n).source|
  }

  /** The size last noted was seen at some await since when no more polls than the idle ones have passed. */
  ghost predicate Noted(w: World, s: LoopState) {
    || (s.lastSize == 0 && s.idle == 0 && w(s.copy.now).source != [])
    || exists g: nat :: g + 1 + s.idle <= s.copy.now && s.lastSize == |w(g).source|
  }

  /** A growing-phase poll that does not end the phase notes the size it saw. */
  lemma PollNotes(w: World, cfg: CopyConfig, s: LoopState)
    requires AppendOnly(w) && LoopOk(w, cfg, s) && !s.finished && Noted(w, s)
    requires PollOnce(w, cfg, s).1 == Again
    ensures PollOnce(w, cfg, s).0.finished || Noted(w, PollOnce(w, cfg, s).0)
  {
    PollKeepsLoopOk(w, cfg, s);
    var s' := PollOnce(w, cfg, s).0;
    var m := w(s.copy.now);
    var noted := NoteSize(cfg, s, |m.source|).(copy := s.copy.(now := s.copy.now + 1));
    AdvanceKeepsPhase(w, cfg, noted, |m.source|, m.openFault);
    if s.lastSize < |m.source| {
      assert s.copy.now + 1 + s'.idle <= s'.copy.now && s'.lastSize == |m.source|;
    } else {
      var g: nat :| g + 1 + s.idle <= s.copy.now && s.lastSize == |w(g).source|;
      assert g + 1 + s'.idle <= s'.copy.now && s'.lastSize == |w(g).source|;
    }
  }

  lemma AdvanceKeepsPhase(w: World, cfg: CopyConfig, s: LoopState, size: nat, openFault: Fault)
    ensures var r := Advance(w, cfg, s, size, openFault).0; r == s.(copy := r.copy)
  {
    hide ChunkRange;
  }

  /** A recorder that never pauses for `maxIdle` awaits has finished when the loop takes it to have. */
  lemma FinishedIsFinal(w: World, cfg: CopyConfig, s: LoopState, rest: nat)
    requires AppendOnly(w) && LoopOk(w, cfg, s) && !s.finished && Noted(w, s)
    requires NeverPauses(w, cfg.maxIdle, rest) && NoteSize(cfg, s, |w(s.copy.now).source|).finished
    ensures w(s.copy.now).source == w(rest).source
  {
    var t := s.copy.now;
    var g: nat :| g + 1 + s.idle <= t && s.lastSize == |w(g).source|;
    assert w(g).source <= w(t).source;
    assert w(g + cfg.maxIdle).source <= w(t).source;
  }

  /** Without faults the loop ends with the final content of such a source, having seen it. */
  lemma {:induction false} LoopDeliversWhole(w: World, cfg: CopyConfig, s: LoopState, polls: nat, rest: nat)
    requires AppendOnly(w) && 0 < cfg.chunk && LoopOk(w, cfg, s) && CalmFrom(w, s.copy.now)
    requires NeverPauses(w, cfg.maxIdle, rest) && (s.finished ==> cfg.maxIdle == 0) && (!s.finished ==> Noted(w, s))
    requires RunLoop(w, cfg, s, polls).1 != Again
    ensures var r := RunLoop(w, cfg, s, polls).0;
      r.copy.copied == |w(rest).source| && exists t: nat :: t < r.copy.now && w(t).source == w(rest).source
    decreases polls
  {
    hide Noted, NeverPauses, AppendOnly, PollOnce, LoopOk;
    var (s', verdict) := PollOnce(w, cfg, s);
    PollKeepsLoopOk(w, cfg, s);
    if verdict == Again {
      if s'.finished {
        FinishedPollIsLast(w, cfg, s);
      } else {
        PollNotes(w, cfg, s);
        LoopDeliversWhole(w, cfg, s', polls - 1, rest);
      }
    } else {
      CalmPoll(w, cfg, s);
      FinishedPollIsLast(w, cfg, s);
      LastPollIsFinal(w, cfg, s, rest);
      assert s.copy.now < s'.copy.now;
    }
  }

  lemma LastPollIsFinal(w: World, cfg: CopyConfig, s: LoopState, rest: nat)
    requires AppendOnly(w) && LoopOk(w, cfg, s) && PollOnce(w, cfg, s).0.finished && CalmFrom(w, s.copy.now)
    requires NeverPauses(w, cfg.maxIdle, rest) && (s.finished ==> cfg.maxIdle == 0) && (!s.finished ==> Noted(w, s))
    ensures w(s.copy.now).source == w(rest).source
  {
    if !s.finished {
      var m := w(s.copy.now);
      var noted := NoteSize(cfg, s, |m.source|).(copy := s.copy.(now := s.copy.now + 1));
      AdvanceKeepsPhase(w, cfg, noted, |m.source|, m.openFault);
      FinishedIsFinal(w, cfg, s, rest);
    }
  }
}
