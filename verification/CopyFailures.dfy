/** When the connection is checked, and how the failures around a copy show in its outcome. */
module CopyFailures {
  import opened Wrappers
  import opened TrackedFiles
  import opened CopyModel
  import opened CopySafety
  import opened FileCopy
  import opened CopyContract
  import opened TempFileCopy

  // ----- When checks are made

  /** Every check gets an answer: either the destination is there or the connection is lost. */
  ghost predicate ChecksAreAnswered(w: World) {
    forall t: nat :: w(t).link != Swallowed
  }

  /** No check is made before `interval` bytes have been written since the one before, or since the start. */
  predicate NotTooSoon(checks: seq<nat>, interval: nat) {
    && (checks != [] ==> interval <= checks[0])
    && (forall i :: 0 < i < |checks| ==> checks[i - 1] + interval <= checks[i])
  }

  /** A due check that is made is recorded; it raises the network error exactly if the connection is lost. */
  lemma DueCheckDecides(copied: nat, mark: nat, attempts: seq<nat>, interval: nat, link: Link)
    ensures var check := CheckLink(copied, mark, attempts, interval, link);
      && (copied < mark + interval ==> check == LinkCheck(mark, attempts, NoFault))
      && (mark + interval <= copied ==>
            && check.attempts == attempts + [copied]
            && (check.fault == NetworkFault <==> link == LinkDown) && (check.fault == NoFault <==> link != LinkDown)
            && check.mark == (if link == LinkUp then copied else mark))
  {
  }

  lemma RoundNotTooSoon(w: World, cfg: CopyConfig, c: Copy, left: nat, size: nat, status: FileStatus)
    requires NotTooSoon(c.checks, cfg.checkInterval) && ChecksAreAnswered(w) && c.lastCheck == LastAttempt(c)
    ensures var r := CopyChunk(w, cfg, c, left, size, status);
      && NotTooSoon(r.copy.checks, cfg.checkInterval)
      && (r.fault == NoFault ==> r.copy.lastCheck == LastAttempt(r.copy))
  {
    hide ReadLength;
    var r := CopyChunk(w, cfg, c, left, size, status);
    DueCheckDecides(r.copy.copied, c.lastCheck, c.checks, cfg.checkInterval, w(c.now).link);
    assert w(c.now).link != Swallowed;
  }

  lemma {:induction false} RangeNotTooSoon(
    w: World, cfg: CopyConfig, c: Copy, left: nat, size: nat, status: FileStatus)
    requires NotTooSoon(c.checks, cfg.checkInterval) && ChecksAreAnswered(w) && c.lastCheck == LastAttempt(c)
    ensures var (r, fault) := ChunkRange(w, cfg, c, left, size, status);
      && NotTooSoon(r.checks, cfg.checkInterval) && (fault == NoFault ==> r.lastCheck == LastAttempt(r))
    decreases left
  {
    hide CopyChunk, NotTooSoon, LastAttempt, ChecksAreAnswered;
    if left != 0 {
      RoundNotTooSoon(w, cfg, c, left, size, status);
      var round := CopyChunk(w, cfg, c, left, size, status);
      if round.fault == NoFault && round.n != 0 {
        RangeNotTooSoon(w, cfg, round.copy, left - round.n, size, status);
      }
    }
  }

  lemma PollNotTooSoon(w: World, cfg: CopyConfig, s: LoopState)
    requires NotTooSoon(s.copy.checks, cfg.checkInterval) && ChecksAreAnswered(w)
    requires s.copy.lastCheck == LastAttempt(s.copy)
    ensures var (s', verdict) := PollOnce(w, cfg, s);
      && NotTooSoon(s'.copy.checks, cfg.checkInterval)
      && (verdict == Again ==> s'.copy.lastCheck == LastAttempt(s'.copy))
  {
    hide ChunkRange, NotTooSoon, ChecksAreAnswered;
    var m := w(s.copy.now);
    var s1 := NoteSize(cfg, s, |m.source|).(copy := s.copy.(now := s.copy.now + 1));
    var limit := if s1.finished then |m.source| else SafeLimit(|m.source|, cfg.margin);
    if s1.copy.copied < limit {
      var status := if s1.finished then Copying else GrowingCopy;
      RangeNotTooSoon(w, cfg, s1.copy, limit - s1.copy.copied, |m.source|, status);
    }
  }

  lemma {:induction false} LoopNotTooSoon(w: World, cfg: CopyConfig, s: LoopState, polls: nat)
    requires NotTooSoon(s.copy.checks, cfg.checkInterval) && ChecksAreAnswered(w)
    requires s.copy.lastCheck == LastAttempt(s.copy)
    ensures NotTooSoon(RunLoop(w, cfg, s, polls).0.copy.checks, cfg.checkInterval)
    decreases polls
  {
    hide PollOnce, NotTooSoon, ChecksAreAnswered, LastAttempt;
    if polls != 0 {
      PollNotTooSoon(w, cfg, s);
      if PollOnce(w, cfg, s).1 == Again {
        LoopNotTooSoon(w, cfg, PollOnce(w, cfg, s).0, polls - 1);
      }
    }
  }

  /** No check is late: fewer than an interval and a chunk lie before each, and fewer than an interval remain. */
  predicate NotTooLate(checks: seq<nat>, copied: nat, interval: nat, chunk: nat) {
    && (checks == [] ==> copied < interval)
    && (checks != [] ==> checks[0] < interval + chunk && copied < checks[|checks| - 1] + interval)
    && (forall i :: 0 < i < |checks| ==> checks[i] < checks[i - 1] + interval + chunk)
  }

  /**
   The connection is checked every ten chunks of the settings: no check is late, whatever happens, and if checks are
   answered none is early. Between any two of them, and before the first, lie at least ten chunks and fewer than
   eleven.
   */
  lemma {:induction false} ChecksComeEveryTenChunks(
    w: World, settings: CopySettings, given: TrackedFile, latest: Option<TrackedFile>, host: Host,
    waits: nat, polls: nat)
    requires GetsGoing(w, settings, given, host, waits) && 0 < settings.chunk
    ensures var c := CopyFile(w, settings, given, latest, host, waits, polls).copy;
      && NotTooLate(c.checks, |c.dst|, 10 * settings.chunk, settings.chunk)
      && (ChecksAreAnswered(w) ==> NotTooSoon(c.checks, 10 * settings.chunk))
  {
    hide RunLoop, CopyFile, WaitForSize, IsCurrentlyGrowing, Traced, LoopOk;
    var cfg, s := LoopConfig(settings, given, latest), LoopHead(w, settings, given, latest, waits);
    LoopDecides(w, settings, given, latest, host, waits, polls);
    LoopChecksAreWellSpaced(w, cfg, s, polls);
    EveryByteIsTraced(w, cfg, s, polls);
    TracedLength(w, RunLoop(w, cfg, s, polls).0.copy);
    if ChecksAreAnswered(w) {
      LoopNotTooSoon(w, cfg, s, polls);
    }
  }

  // ----- A lost connection

  /** Nothing else fails, the source stands still, but the destination cannot be reached. */
  ghost predicate OnlyLinkIsLost(w: World) {
    forall t: nat ::
      && w(t).tracked && w(t).probe == Measured && w(t).source == w(0).source && w(t).openFault == NoFault
      && w(t).readFault == NoFault && w(t).writeFault == NoFault && w(t).link == LinkDown
  }

  lemma LostRound(w: World, cfg: CopyConfig, c: Copy, left: nat, size: nat, status: FileStatus)
    requires OnlyLinkIsLost(w) && 0 < cfg.chunk && 0 < left && c.copied + left <= |w(0).source| && c.lastCheck == 0
    ensures var r := CopyChunk(w, cfg, c, left, size, status);
      && 0 < r.n && (r.fault == if cfg.checkInterval <= r.copy.copied then NetworkFault else NoFault)
      && (r.fault == NoFault ==> r.copy.lastCheck == 0)
  {
    assert w(c.now).source == w(0).source;
    DueCheckDecides(c.copied, c.lastCheck, c.checks, cfg.checkInterval, w(c.now).link);
  }

  lemma {:induction false} LostRange(w: World, cfg: CopyConfig, c: Copy, left: nat, size: nat, status: FileStatus)
    requires OnlyLinkIsLost(w) && 0 < cfg.chunk && c.copied + left <= |w(0).source| && c.lastCheck == 0
    requires c.copied < cfg.checkInterval
    ensures var (r, fault) := ChunkRange(w, cfg, c, left, size, status);
      && (fault == if cfg.checkInterval <= c.copied + left then NetworkFault else NoFault)
      && (fault == NoFault ==> r.copied == c.copied + left)
    decreases left
  {
    hide CopyChunk, OnlyLinkIsLost;
    if left != 0 {
      LostRound(w, cfg, c, left, size, status);
      var round := CopyChunk(w, cfg, c, left, size, status);
      if round.fault == NoFault {
        LostRange(w, cfg, round.copy, left - round.n, size, status);
      }
    }
  }

  lemma LostPoll(w: World, cfg: CopyConfig, s: LoopState)
    requires OnlyLinkIsLost(w) && 0 < cfg.chunk && s.finished && s.copy.copied == 0 && s.copy.lastCheck == 0
    requires 0 < cfg.checkInterval
    ensures var (s', verdict) := PollOnce(w, cfg, s);
      if cfg.checkInterval <= |w(0).source| then verdict == Raised(NetworkFault)
      else verdict == Exit && s'.copy.copied == |w(0).source|
  {
    hide ChunkRange;
    assert w(s.copy.now).source == w(0).source;
    var c := s.copy.(now := s.copy.now + 1);
    if 0 < |w(0).source| {
      LostRange(w, cfg, c, |w(0).source|, |w(0).source|, Copying);
    }
  }

  /**
   A static file is copied over a lost connection to the end, and completed, if it has fewer than ten chunks;
   otherwise the copy ends with the network error at the first check.
   */
  lemma {:induction false} LostConnectionIsNoticedIff(
    w: World, settings: CopySettings, given: TrackedFile, latest: Option<TrackedFile>, host: Host,
    waits: nat, polls: nat)
    requires OnlyLinkIsLost(w) && 0 < settings.chunk && GetsGoing(w, settings, given, host, waits)
    requires !CopiedInGrowingMode(given, latest) && 0 < polls
    ensures CopyFile(w, settings, given, latest, host, waits, polls).outcome
      == if 10 * settings.chunk <= |w(0).source| then RaisedNetworkError else CopyCompleted(host.removable)
  {
    hide LoopOk, CopyFile, WaitForSize, IsCurrentlyGrowing, Traced, PollOnce;
    var cfg, s := LoopConfig(settings, given, latest), LoopHead(w, settings, given, latest, waits);
    LoopDecides(w, settings, given, latest, host, waits, polls);
    LostPoll(w, cfg, s);
    assert RunLoop(w, cfg, s, polls) == PollOnce(w, cfg, s);
    EveryByteIsTraced(w, cfg, s, polls);
    var c := RunLoop(w, cfg, s, polls).0.copy;
    TracedLength(w, c);
    assert w(c.now).source == w(0).source && w(c.now).probe == Measured && w(c.now + 1).probe == Measured;
  }

  lemma {:induction false} LostDrain(w: World, chunk: nat, c: Copy, limit: nat)
    requires OnlyLinkIsLost(w) && 0 < chunk && limit == |w(0).source| && c.copied <= limit && c.lastCheck == 0
    requires c.copied < 1024 * 1024
    ensures Drain(w, chunk, c, limit).1 == if 1024 * 1024 <= limit then NetworkFault else NoFault
    decreases limit - c.copied
  {
    hide OnlyLinkIsLost, CopyChunk;
    DrainRound(w, chunk, c, limit);
    var round := CopyChunk(w, ExecutorConfig(chunk), c, chunk, limit, Copying);
    if round.fault == NoFault && round.n != 0 {
      LostDrain(w, chunk, round.copy, limit);
    }
  }

  lemma DrainRound(w: World, chunk: nat, c: Copy, limit: nat)
    requires OnlyLinkIsLost(w) && 0 < chunk && limit == |w(0).source| && c.copied <= limit && c.lastCheck == 0
    ensures var r := CopyChunk(w, ExecutorConfig(chunk), c, chunk, limit, Copying);
      && r.copy.copied <= limit && (r.n == 0 <==> c.copied == limit)
      && r.fault == (if r.n != 0 && 1024 * 1024 <= r.copy.copied then NetworkFault else NoFault)
      && (r.fault == NoFault ==> r.copy.lastCheck == 0)
  {
    assert w(c.now).source == w(0).source;
  }

  /** The copy executor's loop notices a lost connection if and only if it copies at least a megabyte. */
  lemma ExecutorNoticesLostConnectionIff(w: World, chunk: nat)
    requires OnlyLinkIsLost(w) && 0 < chunk
    ensures Drain(w, chunk, FreshCopy(0, []), |w(0).source|).1
      == if 1024 * 1024 <= |w(0).source| then NetworkFault else NoFault
  {
    hide OnlyLinkIsLost;
    LostDrain(w, chunk, FreshCopy(0, []), |w(0).source|);
  }

  // ----- What other failures lead to

  /**
   One round: a failing read or write ends it with its own fault and nothing written; at the end of the source it
   writes nothing; otherwise what was read is appended, and only a lost connection can still raise.
   */
  lemma RoundOutcome(w: World, cfg: CopyConfig, c: Copy, left: nat, size: nat, status: FileStatus)
    requires 0 < left && 0 < cfg.chunk
    ensures var m, r := w(c.now), CopyChunk(w, cfg, c, left, size, status);
      var atEnd := |m.source| <= c.copied;
      && (m.readFault != NoFault ==> r.fault == m.readFault)
      && (m.readFault == NoFault && atEnd ==> r.fault == NoFault)
      && (m.readFault == NoFault && !atEnd && m.writeFault != NoFault ==> r.fault == m.writeFault)
      && (if m.readFault != NoFault || atEnd || m.writeFault != NoFault then r.n == 0 && r.copy.dst == c.dst
          else (&& 0 < r.n <= left && r.n <= cfg.chunk && r.n <= m.burst + 1 && r.fault in {NoFault, NetworkFault}
                && c.copied + r.n <= |m.source| && r.copy.dst == c.dst + m.source[c.copied..c.copied + r.n]))
  {
    DueCheckDecides(c.copied, c.lastCheck, c.checks, cfg.checkInterval, w(c.now).link);
  }

  /**
   One poll: without a size, or once the entry is forgotten, the loop exits with what it has; if there is something
   to copy and the source cannot be opened, it raises that fault.
   */
  lemma PollOutcome(w: World, cfg: CopyConfig, s: LoopState)
    requires s.finished ==> cfg.maxIdle <= s.idle
    ensures var m, r := w(s.copy.now), PollOnce(w, cfg, s);
      var size := |m.source|;
      var finished := s.finished || (size <= s.lastSize && cfg.maxIdle <= s.idle + 1);
      var wanted := if finished then s.copy.copied < size else s.copy.copied + cfg.margin < size;
      && (!m.tracked || m.probe != Measured ==> r.1 == Exit && r.0.copy.dst == s.copy.dst)
      && (m.tracked && m.probe == Measured ==>
            && r.0.finished == finished
            && (wanted && m.openFault != NoFault ==> r.1 == Raised(m.openFault) && r.0.copy.dst == s.copy.dst)
            && (!wanted ==> r.1 == (if finished then Exit else Again) && r.0.copy.dst == s.copy.dst))
  {
    hide ChunkRange;
  }

  /** The integrity check passes if and only if both sizes can be read and agree; only then may the source go. */
  lemma CheckOutcome(w: World, c: Copy, host: Host)
    ensures VerifyAndRemove(w, c, host).outcome
      == if w(c.now).probe == Measured && w(c.now + 1).probe == Measured && |w(c.now).source| == |c.dst|
         then CopyCompleted(host.removable) else Refused
  {
  }

  /** A copy that does not get as far as its loop writes nothing, and says why. */
  lemma EarlyFailures(
    w: World, settings: CopySettings, given: TrackedFile, latest: Option<TrackedFile>, host: Host,
    waits: nat, polls: nat)
    ensures var r := CopyFile(w, settings, given, latest, host, waits, polls);
      var wait := WaitForSize(w, 1, |w(0).source|, if IsCurrentlyGrowing(given) then settings.minSize else 0, waits).0;
      && (w(0).probe == Missing ==> r.outcome == RaisedFileNotFound)
      && (w(0).probe == ProbeError(true) ==> r.outcome == RaisedNetworkError)
      && (w(0).probe in {TimedOut, ProbeError(false)} ==> r.outcome == Refused)
      && (w(0).probe == Measured && wait == GaveUp ==> r.outcome == Refused)
      && (w(0).probe == Measured && wait == StillWaiting ==> r.outcome == Unfinished)
      && (w(0).probe == Measured && wait == Reached && !host.makeDirs ==> r.outcome == Refused)
      && (w(0).probe == Measured && wait == Reached && host.makeDirs && 0 < settings.pollInterval ==>
            && (host.openDestination == NetworkFault ==> r.outcome == RaisedNetworkError)
            && (host.openDestination == OtherFault ==> r.outcome == Refused))
      && (!GetsGoing(w, settings, given, host, waits) ==> r.copy.dst == [] && !r.outcome.CopyCompleted?)
  {
    hide WaitForSize, IsCurrentlyGrowing, RunLoop;
  }

  /** Some size query before `deadline` sees the minimum, and none fails up to it. */
  ghost predicate SeesMinimum(w: World, now: nat, minSize: nat, deadline: nat) {
    exists t: nat ::
      && now <= t < deadline && minSize <= |w(t).source|
      && forall j: nat :: now <= j <= t ==> w(j).probe == Measured
  }

  /** The size wait ends well if and only if the size known is enough or a query sees enough before one fails. */
  lemma {:induction false} SizeWaitIff(w: World, now: nat, size: nat, minSize: nat, budget: nat)
    ensures WaitForSize(w, now, size, minSize, budget).0 == Reached
      <==> minSize <= size || SeesMinimum(w, now, minSize, now + budget)
    decreases budget
  {
    if size < minSize && budget != 0 && w(now).probe == Measured {
      SizeWaitIff(w, now + 1, |w(now).source|, minSize, budget - 1);
      if SeesMinimum(w, now + 1, minSize, now + budget) {
        var t: nat :| now + 1 <= t < now + budget && minSize <= |w(t).source|
          && forall j: nat :: now + 1 <= j <= t ==> w(j).probe == Measured;
        assert forall j: nat :: now <= j <= t ==> w(j).probe == Measured;
      }
      if minSize <= |w(now).source| {
        assert forall j: nat :: now <= j <= now ==> w(j).probe == Measured;
      }
    }
  }
}
