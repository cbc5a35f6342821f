/** The copy strategy as the program runs it: loops that write the destination and the detector. */
module CopyStrategy {
  import opened Wrappers
  import opened TrackedFiles
  import opened CopyModel
  import opened FileCopy
  import opened CopyContract

  /** The destination, opened for writing. */
  class OutputFile {
    var data: seq<Byte>

    constructor ()
      ensures data == []
    {
      data := [];
    }
  }

  /** Decides when to probe the destination; `attempts` lists the byte counts at which it did. */
  class NetworkErrorDetector {
    const checkInterval: nat
    var lastCheckBytes: nat
    var attempts: seq<nat>

    constructor (checkInterval: nat)
      ensures this.checkInterval == checkInterval && lastCheckBytes == 0 && attempts == []
    {
      this.checkInterval := checkInterval;
      lastCheckBytes := 0;
      attempts := [];
    }

    predicate ShouldCheckNetwork(bytesCopied: nat)
      reads this
    {
      checkInterval <= bytesCopied - lastCheckBytes
    }

    /** Probes the destination if a check is due; only a successful probe moves the mark. */
    method CheckDestinationConnectivity(bytesCopied: nat, link: Link) returns (fault: Fault)
      modifies this
      ensures LinkCheck(lastCheckBytes, attempts, fault)
        == CheckLink(bytesCopied, old(lastCheckBytes), old(attempts), checkInterval, link)
    {
      fault := NoFault;
      if ShouldCheckNetwork(bytesCopied) {
        attempts := attempts + [bytesCopied];
        match link {
          case LinkUp => lastCheckBytes := bytesCopied;
          case Swallowed =>
          case LinkDown => fault := NetworkFault;
        }
      }
    }
  }

  class GrowingFileCopyStrategy {
    const settings: CopySettings
    var now: nat
    var reports: seq<Report>

    constructor (settings: CopySettings)
      ensures this.settings == settings && now == 0 && reports == []
    {
      this.settings := settings;
      now := 0;
      reports := [];
    }

    /** The protocol state spread over this object, the destination and the detector. */
    ghost function Snapshot(dst: OutputFile, detector: NetworkErrorDetector, copied: nat): Copy
      reads this, dst, detector
    {
      Copy(now, dst.data, copied, detector.lastCheckBytes, detector.attempts, reports)
    }

    /** One round of the chunk loop: read, write, probe the destination, report. */
    method CopyOneRound(
      w: World, dst: OutputFile, bytesCopied: nat, bytesToCopy: nat, chunkSize: nat, fileSize: nat,
      detector: NetworkErrorDetector, ghost cfg: CopyConfig, status: FileStatus)
      returns (n: nat, fault: Fault)
      requires cfg.chunk == chunkSize && cfg.checkInterval == detector.checkInterval
      modifies this, dst, detector
      ensures var r := CopyChunk(w, cfg, old(Snapshot(dst, detector, bytesCopied)), bytesToCopy, fileSize, status);
        Snapshot(dst, detector, bytesCopied + n) == r.copy && n == r.n && fault == r.fault
    {
      var m := w(now);
      now := now + 1;
      n, fault := 0, m.readFault;
      if fault != NoFault {
        return;
      }
      var length := ReadLength(m, bytesCopied, if chunkSize < bytesToCopy then chunkSize else bytesToCopy);
      if length == 0 {
        return;
      }
      fault := m.writeFault;
      if fault != NoFault {
        return;
      }
      n := length;
      dst.data := dst.data + m.source[bytesCopied..bytesCopied + n];
      fault := detector.CheckDestinationConnectivity(bytesCopied + n, m.link);
      if fault == NoFault {
        reports := reports + [Report(status, bytesCopied + n, fileSize)];
      }
    }

    method CopyChunkRange(
      w: World, dst: OutputFile, startBytes: nat, endBytes: nat, chunkSize: nat, fileSize: nat,
      detector: NetworkErrorDetector, ghost cfg: CopyConfig, status: FileStatus)
      returns (bytesCopied: nat, fault: Fault)
      requires startBytes <= endBytes && cfg.chunk == chunkSize && cfg.checkInterval == detector.checkInterval
      modifies this, dst, detector
      ensures var start := old(Snapshot(dst, detector, startBytes));
        var r := ChunkRange(w, cfg, start, endBytes - startBytes, fileSize, status);
        Snapshot(dst, detector, bytesCopied) == r.0 && fault == r.1
    {
      bytesCopied := startBytes;
      fault := NoFault;
      var bytesToCopy := endBytes - startBytes;
      hide CopyChunk;
      ghost var c := Snapshot(dst, detector, startBytes);
      ghost var goal := ChunkRange(w, cfg, c, bytesToCopy, fileSize, status);
      while bytesToCopy > 0
        invariant 0 <= bytesToCopy && fault == NoFault
        invariant Snapshot(dst, detector, bytesCopied) == c
        invariant ChunkRange(w, cfg, c, bytesToCopy, fileSize, status) == goal
      {
        ghost var round := CopyChunk(w, cfg, c, bytesToCopy, fileSize, status);
        var n;
        n, fault := CopyOneRound(w, dst, bytesCopied, bytesToCopy, chunkSize, fileSize, detector, cfg, status);
        c := round.copy;
        bytesCopied := bytesCopied + n;
        if fault != NoFault || n == 0 {
          return;
        }
        bytesToCopy := bytesToCopy - n;
      }
    }

    /** The two-phase loop, observed for at most `polls` iterations. */
    method GrowingCopyLoop(
      w: World, dst: OutputFile, noGrowthCycles: nat, maxNoGrowthCycles: nat, safetyMarginBytes: nat,
      chunkSize: nat, detector: NetworkErrorDetector, polls: nat)
      returns (bytesCopied: nat, verdict: Verdict)
      modifies this, dst, detector
      ensures var cfg := CopyConfig(chunkSize, safetyMarginBytes, maxNoGrowthCycles, detector.checkInterval);
        var s := LoopState(old(Snapshot(dst, detector, 0)), 0, noGrowthCycles, maxNoGrowthCycles <= noGrowthCycles);
        (Snapshot(dst, detector, bytesCopied), verdict)
          == (RunLoop(w, cfg, s, polls).0.copy, RunLoop(w, cfg, s, polls).1)
    {
      hide Advance;
      ghost var cfg := CopyConfig(chunkSize, safetyMarginBytes, maxNoGrowthCycles, detector.checkInterval);
      bytesCopied := 0;
      var lastFileSize := 0;
      var idle := noGrowthCycles;
      var finished := maxNoGrowthCycles <= noGrowthCycles;
      ghost var start := LoopState(Snapshot(dst, detector, 0), 0, idle, finished);
      var left := polls;
      while left > 0
        invariant RunLoop(w, cfg, LoopState(Snapshot(dst, detector, bytesCopied), lastFileSize, idle, finished), left)
          == RunLoop(w, cfg, start, polls)
      {
        ghost var head := LoopState(Snapshot(dst, detector, bytesCopied), lastFileSize, idle, finished);
        ghost var next := PollOnce(w, cfg, head);
        var m := w(now);
        now := now + 1;
        if !m.tracked || m.probe != Measured {
          verdict := Exit;
          return;
        }
        var fileSize := |m.source|;
        if !finished {
          if lastFileSize < fileSize {
            idle := 0;
            lastFileSize := fileSize;
          } else {
            idle := idle + 1;
            finished := maxNoGrowthCycles <= idle;
          }
        }
        ghost var noted := LoopState(Snapshot(dst, detector, bytesCopied), lastFileSize, idle, finished);
        assert next == Advance(w, cfg, noted, fileSize, m.openFault);
        bytesCopied, verdict := AdvanceCopy(w, dst, bytesCopied, finished, fileSize, safetyMarginBytes, chunkSize,
                                            detector, cfg, m.openFault, noted);
        assert next.0.copy == Snapshot(dst, detector, bytesCopied) && next.1 == verdict;
        if verdict != Again {
          return;
        }
        left := left - 1;
      }
      verdict := Again;
    }

    /** The copying half of one loop iteration. */
    method AdvanceCopy(
      w: World, dst: OutputFile, startBytes: nat, finished: bool, fileSize: nat, safetyMarginBytes: nat,
      chunkSize: nat, detector: NetworkErrorDetector, ghost cfg: CopyConfig, openFault: Fault, ghost s: LoopState)
      returns (bytesCopied: nat, verdict: Verdict)
      requires cfg.chunk == chunkSize && cfg.checkInterval == detector.checkInterval && cfg.margin == safetyMarginBytes
      requires s.copy == Snapshot(dst, detector, startBytes) && s.finished == finished
      modifies this, dst, detector
      ensures (s.(copy := Snapshot(dst, detector, bytesCopied)), verdict) == Advance(w, cfg, s, fileSize, openFault)
    {
      bytesCopied := startBytes;
      var safeCopyTo := if finished then fileSize else SafeLimit(fileSize, safetyMarginBytes);
      if bytesCopied < safeCopyTo {
        if openFault != NoFault {
          verdict := Raised(openFault);
          return;
        }
        var fault;
        bytesCopied, fault := CopyChunkRange(w, dst, bytesCopied, safeCopyTo, chunkSize, fileSize, detector, cfg,
                                             if finished then Copying else GrowingCopy);
        if fault != NoFault {
          verdict := Raised(fault);
          return;
        }
      } else if !finished {
        reports := reports + [Report(GrowingCopy, bytesCopied, fileSize)];
      }
      verdict := if finished && fileSize <= bytesCopied then Exit else Again;
    }

    /** Opens the destination and runs the loop in the mode the tracked file calls for. */
    method CopyGrowingFile(w: World, file: TrackedFile, host: Host, polls: nat)
      returns (dst: OutputFile, detector: NetworkErrorDetector, bytesCopied: nat, verdict: Verdict)
      requires reports == []
      modifies this
      ensures fresh(dst) && fresh(detector)
      ensures (Snapshot(dst, detector, bytesCopied), verdict)
        == CopyBytes(w, settings, IsCurrentlyGrowing(file), host, old(now), polls)
    {
      dst := new OutputFile();
      var chunkSize := settings.chunk;
      detector := new NetworkErrorDetector(chunkSize * 10);
      bytesCopied := 0;
      if settings.pollInterval == 0 {
        verdict := Raised(OtherFault);
        return;
      }
      var growing := IsCurrentlyGrowing(file);
      var maxNoGrowthCycles := settings.growthTimeout / settings.pollInterval;
      var margin := settings.margin;
      var noGrowthCycles := 0;
      if !growing {
        margin := 0;
        noGrowthCycles := maxNoGrowthCycles;
      }
      if host.openDestination != NoFault {
        verdict := Raised(host.openDestination);
        return;
      }
      bytesCopied, verdict := GrowingCopyLoop(
        w, dst, noGrowthCycles, maxNoGrowthCycles, margin, chunkSize, detector, polls);
    }

    /** The size wait: polls until the minimum is reached, for at most `waits` polls. */
    method WaitForMinimum(w: World, size: nat, waits: nat) returns (wait: SizeWait)
      modifies this
      ensures (wait, now) == WaitForSize(w, old(now), size, settings.minSize, waits) && reports == old(reports)
    {
      var currentSize: nat, left := size, waits;
      while currentSize < settings.minSize
        invariant reports == old(reports)
        invariant WaitForSize(w, now, currentSize, settings.minSize, left)
          == WaitForSize(w, old(now), size, settings.minSize, waits)
        decreases left
      {
        if left == 0 {
          return StillWaiting;
        }
        if w(now).probe != Measured {
          now := now + 1;
          return GaveUp;
        }
        currentSize := |w(now).source|;
        now := now + 1;
        left := left - 1;
      }
      wait := Reached;
    }

    /**
     The whole copy. `result` is what the protocol makes of it; a completed copy has written a destination that
     holds what the protocol says, which for a recorder that never rewrites is the whole source.
     */
    method CopyOneFile(
      w: World, given: TrackedFile, latest: Option<TrackedFile>, host: Host, waits: nat, polls: nat)
      returns (outcome: Outcome, dst: OutputFile?, ghost result: FileResult)
      requires now == 0 && reports == []
      modifies this
      ensures result == CopyFile(w, settings, given, latest, host, waits, polls) && outcome == result.outcome
      ensures dst == null || fresh(dst)
      ensures reports == result.copy.reports
      ensures AppendOnly(w) ==> forall i :: 0 <= i < |reports| ==> KeepsMargin(reports[i], settings.margin)
      ensures outcome.CopyCompleted? ==> dst != null && dst.data == result.copy.dst
      ensures NeverRewritten(w) && outcome.CopyCompleted? ==> dst.data == w(result.checkedAt).source
    {
      hide CopyBytes, IsCurrentlyGrowing, WaitForSize, KeepsMargin, AppendOnly;
      result := CopyFile(w, settings, given, latest, host, waits, polls);
      if AppendOnly(w) {
        ReportsKeepMargin(w, settings, given, latest, host, waits, polls);
      }
      if NeverRewritten(w) {
        CompletedMeansIdentical(w, settings, given, latest, host, waits, polls);
      }
      dst := null;
      var first := w(0);
      now := 1;
      match first.probe {
        case Measured =>
        case Missing => outcome := RaisedFileNotFound; return;
        case ProbeError(network) => outcome := if network then RaisedNetworkError else Refused; return;
        case TimedOut => outcome := Refused; return;
      }
      if IsCurrentlyGrowing(given) {
        var wait := WaitForMinimum(w, |first.source|, waits);
        if wait != Reached {
          outcome := if wait == StillWaiting then Unfinished else Refused;
          return;
        }
      } else {
        NoMinimum(w, 1, |first.source|, waits);
      }
      if !host.makeDirs {
        outcome := Refused;
        return;
      }
      var file := if latest.Some? then latest.value else given;
      var detector, bytesCopied, verdict;
      dst, detector, bytesCopied, verdict := CopyGrowingFile(w, file, host, polls);
      outcome := FinishCopy(w, dst, verdict, host);
    }

    /** The end of the copy: sizes are compared, and only if they agree is the source given up. */
    method FinishCopy(w: World, dst: OutputFile, verdict: Verdict, host: Host) returns (outcome: Outcome)
      ensures outcome == match verdict
                         case Again => Unfinished
                         case Raised(fault) => FaultOutcome(fault)
                         case Exit =>
                           if w(now).probe == Measured && w(now + 1).probe == Measured
                              && |w(now).source| == |dst.data|
                           then CopyCompleted(host.removable) else Refused
    {
      match verdict {
        case Again => outcome := Unfinished;
        case Raised(fault) => outcome := FaultOutcome(fault);
        case Exit =>
          if w(now).probe != Measured || w(now + 1).probe != Measured || |w(now).source| != |dst.data| {
            outcome := Refused;
          } else {
            outcome := CopyCompleted(host.removable);
          }
      }
    }
  }

  lemma NoMinimum(w: World, now: nat, size: nat, budget: nat)
    ensures WaitForSize(w, now, size, 0, budget) == (Reached, now)
  {
  }
}
