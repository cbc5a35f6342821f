/** Deciding from repeated size samples whether a file is still being written. */
module GrowthDetection {
  import opened Wrappers
  import opened TrackedFiles
  import opened Registries
  import opened CopyModel
  import opened FileCopy

  datatype DetectorSettings = DetectorSettings(minSize: nat, timeout: nat)

  /** What looking at the file on disk gives. */
  datatype Observation = Absent | Faulty | Size(bytes: nat)

  /** A recommended status, with the growth fields to store if the file could be sampled. */
  datatype Verdict = Verdict(status: FileStatus, patch: Patch)

  /** Growth per second since the first sample, in megabytes; kept when no time has passed. */
  function Rate(g: GrowthInfo, size: nat, now: Time): real {
    if g.lastCheck.Some? && now > g.lastCheck.value
    then (size - g.firstSeenSize) as real / 1048576.0 / (now - g.lastCheck.value) as real
    else g.rate
  }

  function StableSince(f: TrackedFile, size: nat, now: Time): Option<Time> {
    if size > f.size then None
    else if f.growth.stableSince.None? then Some(now)
    else f.growth.stableSince
  }

  function StableFor(since: Option<Time>, now: Time): int {
    if since.Some? then now - since.value else 0
  }

  /** The decision once the growth fields have been brought up to date. */
  function Decide(cfg: DetectorSettings, growing: bool, hasGrown: bool, size: nat, stableFor: int): FileStatus {
    if growing then
      if cfg.minSize <= size then ReadyToStartGrowing else Growing
    else if !hasGrown && size < cfg.minSize then
      if cfg.timeout <= stableFor then Ready else Discovered
    else if cfg.timeout <= stableFor then
      if hasGrown && cfg.minSize <= size then ReadyToStartGrowing else Ready
    else
      if hasGrown then Growing else Discovered
  }

  /** One growth check: what to recommend and what to remember. */
  function CheckGrowth(cfg: DetectorSettings, f: TrackedFile, seen: Observation, now: Time): Verdict {
    if f.status == WaitingForNetwork then Verdict(WaitingForNetwork, NoPatch)
    else
      match seen
      case Absent => Verdict(Removed, NoPatch)
      case Faulty => Verdict(Failed, NoPatch)
      case Size(size) =>
        if f.growth.lastCheck.None? then
          Verdict(Discovered, SetGrowth(size, GrowthInfo(size, size, Some(now), Some(now), f.growth.rate)))
        else
          var since := StableSince(f, size, now);
          var growth := GrowthInfo(f.size, f.growth.firstSeenSize, Some(now), since, Rate(f.growth, size, now));
          var status := Decide(cfg, size > f.size, size > f.growth.firstSeenSize, size, StableFor(since, now));
          Verdict(status, SetGrowth(size, growth))
  }

  /** The scanner's own bookkeeping before a check. */
  function UpdateGrowthInfo(f: TrackedFile, newSize: nat, now: Time): Patch {
    var rate := if f.growth.firstSeenSize > 0 then Rate(f.growth, newSize, now) else f.growth.rate;
    var first := if f.growth.firstSeenSize > 0 then f.growth.firstSeenSize else newSize;
    SetGrowth(newSize, GrowthInfo(f.size, first, Some(now), StableSince(f, newSize, now), rate))
  }

  // ----- One check

  /** A file looked at gets one of the sampled recommendations; a missing one is removed, an unreadable one fails. */
  lemma RecommendationIff(cfg: DetectorSettings, f: TrackedFile, seen: Observation, now: Time)
    requires f.status != WaitingForNetwork
    ensures CheckGrowth(cfg, f, seen, now).status == Removed <==> seen.Absent?
    ensures CheckGrowth(cfg, f, seen, now).status == Failed <==> seen.Faulty?
    ensures seen.Size? && f.growth.lastCheck.None? ==> CheckGrowth(cfg, f, seen, now).status == Discovered
  {
  }

  /** The sample shows no growth, and by then there has been none for `timeout` seconds. */
  predicate RestedFor(f: TrackedFile, size: nat, now: Time, timeout: int) {
    && size <= f.size
    && timeout <= (if f.growth.stableSince.Some? then now - f.growth.stableSince.value else 0)
  }

  /**
   Exactly when status `s` is right for a file of `size` bytes sampled before: what counts is whether it is growing
   at this sample, whether it has rested for the timeout, whether it ever grew, and the minimum size.
   */
  predicate RightStatus(cfg: DetectorSettings, f: TrackedFile, size: nat, now: Time, s: FileStatus) {
    var growing, grew, rested := size > f.size, size > f.growth.firstSeenSize, RestedFor(f, size, now, cfg.timeout);
    && (s == ReadyToStartGrowing <==> cfg.minSize <= size && (growing || (rested && grew)))
    && (s == Growing <==> (growing && size < cfg.minSize) || (!growing && !rested && grew))
    && (s == Ready <==> rested && !(grew && cfg.minSize <= size))
    && (s == Discovered <==> !growing && !rested && !grew)
  }

  /** The check recommends the right status, and there is only one. */
  lemma GrowthRecommendationIff(cfg: DetectorSettings, f: TrackedFile, size: nat, now: Time)
    requires f.status != WaitingForNetwork && f.growth.lastCheck.Some?
    ensures RightStatus(cfg, f, size, now, CheckGrowth(cfg, f, Size(size), now).status)
    ensures forall s :: RightStatus(cfg, f, size, now, s) ==> s == CheckGrowth(cfg, f, Size(size), now).status
  {
  }

  // ----- What a check stores

  lemma QuotientSign(x: real, d: real)
    requires d > 0.0
    ensures (x / d > 0.0 <==> x > 0.0) && x / d * d == x
  {
  }

  /** The rate is the growth since the first sample over the time since the last one, if any has passed. */
  lemma RateIsGrowth(g: GrowthInfo, size: nat, now: Time)
    requires g.lastCheck.Some?
    ensures now > g.lastCheck.value ==>
      && Rate(g, size, now) * (now - g.lastCheck.value) as real * 1048576.0 == (size - g.firstSeenSize) as real
      && (Rate(g, size, now) > 0.0 <==> size > g.firstSeenSize)
    ensures now <= g.lastCheck.value ==> Rate(g, size, now) == g.rate
  {
    if now > g.lastCheck.value {
      var x, dt := (size - g.firstSeenSize) as real, (now - g.lastCheck.value) as real;
      QuotientSign(x, 1048576.0);
      QuotientSign(x / 1048576.0, dt);
    }
  }

  /** A first check starts the record; a later one moves it on and resets or keeps the stability time. */
  lemma CheckRecords(cfg: DetectorSettings, f: TrackedFile, size: nat, now: Time)
    requires f.status != WaitingForNetwork
    ensures var g := Apply(CheckGrowth(cfg, f, Size(size), now).patch, f);
      && g == f.(size := size, growth := g.growth) && g.growth.lastCheck == Some(now)
      && (f.growth.lastCheck.None? ==>
            g.growth == GrowthInfo(size, size, Some(now), Some(now), f.growth.rate))
      && (f.growth.lastCheck.Some? ==>
            && g.growth.previousSize == f.size && g.growth.firstSeenSize == f.growth.firstSeenSize
            && g.growth.rate == Rate(f.growth, size, now)
            && (size > f.size ==> g.growth.stableSince == None)
            && (size <= f.size ==>
                  g.growth.stableSince == if f.growth.stableSince.Some? then f.growth.stableSince else Some(now)))
  {
    hide Rate, Decide;
  }

  /** The scanner's bookkeeping does the same, and sets the first size only if there is none yet. */
  lemma NoteRecords(f: TrackedFile, size: nat, now: Time)
    ensures var g := Apply(UpdateGrowthInfo(f, size, now), f);
      && g == f.(size := size, growth := g.growth)
      && g.growth.lastCheck == Some(now) && g.growth.previousSize == f.size
      && g.growth.firstSeenSize == (if f.growth.firstSeenSize == 0 then size else f.growth.firstSeenSize)
      && (f.growth.firstSeenSize == 0 ==> g.growth.rate == f.growth.rate)
      && (f.growth.firstSeenSize != 0 ==> g.growth.rate == Rate(f.growth, size, now))
      && (size > f.size ==> g.growth.stableSince == None)
      && (size <= f.size ==>
            g.growth.stableSince == if f.growth.stableSince.Some? then f.growth.stableSince else Some(now))
  {
    hide Rate;
  }

  /** READY means exactly: at rest for the timeout, and not a file that grew to the minimum size. */
  lemma ReadyIff(cfg: DetectorSettings, f: TrackedFile, size: nat, now: Time)
    requires f.status != WaitingForNetwork && f.growth.lastCheck.Some?
    ensures CheckGrowth(cfg, f, Size(size), now).status == Ready <==>
      size <= f.size && cfg.timeout <= StableFor(StableSince(f, size, now), now) &&
      !(size > f.growth.firstSeenSize && cfg.minSize <= size)
  {
  }

  /** What a check can recommend; a file waiting for the network is left as it is. */
  lemma Recommendations(cfg: DetectorSettings, f: TrackedFile, seen: Observation, now: Time)
    ensures var v := CheckGrowth(cfg, f, seen, now);
      && (f.status == WaitingForNetwork ==> v == Verdict(WaitingForNetwork, NoPatch))
      && (f.status != WaitingForNetwork ==>
            && v.status in {Discovered, Growing, ReadyToStartGrowing, Ready, Removed, Failed}
            && (v.status in {Removed, Failed} <==> !seen.Size?)
            && (seen.Size? ==>
                  v.patch.SetGrowth? && v.patch.size == seen.bytes && v.patch.growth.lastCheck == Some(now)))
  {
  }

  // ----- Traces of samples

  /** What happens to one file: a detector check, a scanner update, or the scanner's bare size overwrite. */
  datatype Event = Check(time: Time, size: nat) | Update(time: Time, size: nat) | Overwrite(size: nat)

  /** A sample: its time, the size seen, and the size on record just before. */
  datatype Sample = Sample(time: Time, size: nat, before: nat)

  datatype Trace = Trace(f: TrackedFile, samples: seq<Sample>)

  function PatchOf(cfg: DetectorSettings, f: TrackedFile, e: Event): Patch {
    match e
    case Check(t, size) => CheckGrowth(cfg, f, Size(size), t).patch
    case Update(t, size) => UpdateGrowthInfo(f, size, t)
    case Overwrite(size) => SetSize(size)
  }

  function Advance(cfg: DetectorSettings, tr: Trace, e: Event): Trace {
    var f := Apply(PatchOf(cfg, tr.f, e), tr.f);
    if e.Overwrite? then Trace(f, tr.samples) else Trace(f, tr.samples + [Sample(e.time, e.size, tr.f.size)])
  }

  function Follow(cfg: DetectorSettings, tr: Trace, events: seq<Event>): Trace
    decreases |events|
  {
    if events == [] then tr else Follow(cfg, Advance(cfg, tr, events[0]), events[1..])
  }

  /** No sample after number `i` saw more than was on record. */
  predicate QuietSince(samples: seq<Sample>, i: int) {
    0 <= i < |samples| && forall j :: i < j < |samples| ==> samples[j].size <= samples[j].before
  }

  /** A set stability time is the time of a sample after which no sample grew. */
  ghost predicate TimerOk(tr: Trace) {
    && tr.f.status != WaitingForNetwork
    && (tr.f.growth.lastCheck.None? ==> tr.f.growth.stableSince.None?)
    && (tr.f.growth.stableSince.Some? ==>
          exists i :: QuietSince(tr.samples, i) && tr.samples[i].time == tr.f.growth.stableSince.value)
  }

  lemma AdvanceKeepsTimer(cfg: DetectorSettings, tr: Trace, e: Event)
    requires TimerOk(tr)
    ensures TimerOk(Advance(cfg, tr, e))
  {
    var tr' := Advance(cfg, tr, e);
    if !e.Overwrite? && tr'.f.growth.stableSince.Some? {
      if tr'.f.growth.stableSince == tr.f.growth.stableSince && tr.f.growth.lastCheck.Some? && e.size <= tr.f.size {
        var i :| QuietSince(tr.samples, i) && tr.samples[i].time == tr.f.growth.stableSince.value;
        assert QuietSince(tr'.samples, i) && tr'.samples[i] == tr.samples[i];
      } else if tr'.f.growth.stableSince == tr.f.growth.stableSince && tr.f.growth.lastCheck.None? {
        assert false;
      } else {
        assert QuietSince(tr'.samples, |tr.samples|);
      }
    }
  }

  lemma {:induction false} FollowKeepsTimer(cfg: DetectorSettings, tr: Trace, events: seq<Event>)
    requires TimerOk(tr)
    ensures TimerOk(Follow(cfg, tr, events))
    decreases |events|
  {
    if events != [] {
      AdvanceKeepsTimer(cfg, tr, events[0]);
      FollowKeepsTimer(cfg, Advance(cfg, tr, events[0]), events[1..]);
    }
  }

  /**
   Soundness over every trace: READY is recommended only if, since some sample at least the timeout
   ago, no sample (this one included) saw more than was on record.
   */
  lemma ReadyIsSound(cfg: DetectorSettings, tr: Trace, events: seq<Event>, now: Time, size: nat)
    requires TimerOk(tr)
    requires CheckGrowth(cfg, Follow(cfg, tr, events).f, Size(size), now).status == Ready
    ensures var end := Advance(cfg, Follow(cfg, tr, events), Check(now, size));
      exists i :: QuietSince(end.samples, i) && end.samples[i].time + cfg.timeout <= now
  {
    var before := Follow(cfg, tr, events);
    FollowKeepsTimer(cfg, tr, events);
    var end := Advance(cfg, before, Check(now, size));
    AdvanceKeepsTimer(cfg, before, Check(now, size));
    var i :| QuietSince(end.samples, i) && end.samples[i].time == end.f.growth.stableSince.value;
    assert end.samples[i].time + cfg.timeout <= now;
  }

  // ----- What the scanner's overwrites can hide

  /** No more is on record than the last sample saw. */
  predicate LowRecord(tr: Trace) {
    tr.samples != [] ==> tr.f.size <= tr.samples[|tr.samples| - 1].size
  }

  /**
   The next check notices every size larger than the last sample, by resetting the timer, if and only if no
   overwrite has left more on record than that sample saw.
   */
  lemma GrowthIsSeenIff(cfg: DetectorSettings, tr: Trace)
    requires tr.f.status != WaitingForNetwork && tr.f.growth.lastCheck.Some? && tr.samples != []
    ensures (forall size: nat, now: Time :: size > tr.samples[|tr.samples| - 1].size ==>
               Advance(cfg, tr, Check(now, size)).f.growth.stableSince.None?)
      <==> LowRecord(tr)
  {
    var last := tr.samples[|tr.samples| - 1].size;
    forall size: nat, now: Time
      ensures Advance(cfg, tr, Check(now, size)).f.growth.stableSince.None? <==> size > tr.f.size
    {
    }
    if !LowRecord(tr) {
      assert Advance(cfg, tr, Check(0, tr.f.size)).f.growth.stableSince.Some?;
    }
  }

  /** When a sample was taken, no more was on record than the sample before had seen. */
  ghost predicate Unmasked(samples: seq<Sample>) {
    forall j :: 0 < j < |samples| ==> samples[j].before <= samples[j - 1].size
  }

  /** Along the events no overwrite leaves more on record than the last sample before it saw. */
  predicate LowOverwrites(cfg: DetectorSettings, tr: Trace, events: seq<Event>)
    decreases |events|
  {
    events == [] ||
    (LowRecord(Advance(cfg, tr, events[0])) && LowOverwrites(cfg, Advance(cfg, tr, events[0]), events[1..]))
  }

  /** On an unmasked record, quiet means that the sizes really did not grow. */
  lemma {:induction false} QuietMeansNoGrowth(samples: seq<Sample>, i: int, j: int)
    requires QuietSince(samples, i) && Unmasked(samples) && i <= j < |samples|
    ensures samples[j].size <= samples[i].size
    decreases j
  {
    if i < j {
      QuietMeansNoGrowth(samples, i, j - 1);
    }
  }

  lemma {:induction false} LowOverwritesUnmask(cfg: DetectorSettings, tr: Trace, events: seq<Event>)
    requires tr.f.status != WaitingForNetwork && Unmasked(tr.samples) && LowRecord(tr)
    requires LowOverwrites(cfg, tr, events)
    ensures Unmasked(Follow(cfg, tr, events).samples) && LowRecord(Follow(cfg, tr, events))
    decreases |events|
  {
    if events != [] {
      StepUnmasks(cfg, tr, events[0]);
      hide Advance, Unmasked, LowRecord;
      LowOverwritesUnmask(cfg, Advance(cfg, tr, events[0]), events[1..]);
    }
  }

  lemma StepUnmasks(cfg: DetectorSettings, tr: Trace, e: Event)
    requires tr.f.status != WaitingForNetwork && Unmasked(tr.samples) && LowRecord(tr)
    ensures Unmasked(Advance(cfg, tr, e).samples) && Advance(cfg, tr, e).f.status == tr.f.status
    ensures !e.Overwrite? ==> LowRecord(Advance(cfg, tr, e))
  {
  }

  /** Samples alone, without overwrites, never leave more on record. */
  lemma {:induction false} SamplingKeepsRecordLow(cfg: DetectorSettings, tr: Trace, events: seq<Event>)
    requires tr.f.status != WaitingForNetwork && Unmasked(tr.samples) && LowRecord(tr)
    requires forall e :: e in events ==> !e.Overwrite?
    ensures LowOverwrites(cfg, tr, events)
    decreases |events|
  {
    if events != [] {
      assert events[0] in events;
      StepUnmasks(cfg, tr, events[0]);
      SamplingKeepsRecordLow(cfg, Advance(cfg, tr, events[0]), events[1..]);
    }
  }

  /**
   Together: as long as no overwrite leaves more on record than the last sample saw, READY means that
   since some sample at least the timeout ago no sample, this one included, was larger.
   */
  lemma ReadyMeansNoGrowth(cfg: DetectorSettings, tr: Trace, events: seq<Event>, now: Time, size: nat)
    requires TimerOk(tr) && Unmasked(tr.samples) && LowRecord(tr) && LowOverwrites(cfg, tr, events)
    requires CheckGrowth(cfg, Follow(cfg, tr, events).f, Size(size), now).status == Ready
    ensures var end := Advance(cfg, Follow(cfg, tr, events), Check(now, size)).samples;
      exists i ::
        && 0 <= i < |end| && end[i].time + cfg.timeout <= now
        && forall j :: i < j < |end| ==> end[j].size <= end[i].size
  {
    hide CheckGrowth, Unmasked, LowRecord;
    ReadyIsSound(cfg, tr, events, now, size);
    LowOverwritesUnmask(cfg, tr, events);
    FollowKeepsTimer(cfg, tr, events);
    StepUnmasks(cfg, Follow(cfg, tr, events), Check(now, size));
    var end := Advance(cfg, Follow(cfg, tr, events), Check(now, size)).samples;
    var i :| QuietSince(end, i) && end[i].time + cfg.timeout <= now;
    forall j | i < j < |end| ensures end[j].size <= end[i].size {
      QuietMeansNoGrowth(end, i, j);
    }
  }

  /** A file that has just been added: never sampled. */
  function NewTrace(size: nat): Trace {
    Trace(NewTrackedFile(0, "clip.mxf", size, 0), [])
  }

  /**
   With higher overwrites it does not: here the file grows before every single check, yet each time the
   scanner's overwrite hides the growth, and after the timeout READY is recommended.
   */
  lemma OverwritesMaskGrowth()
    ensures var cfg := DetectorSettings(100, 2);
      var tr := Follow(cfg, NewTrace(1), [Check(0, 1), Overwrite(2), Check(1, 2), Overwrite(3)]);
      CheckGrowth(cfg, tr.f, Size(3), 2).status == Ready
  {
    var cfg := DetectorSettings(100, 2);
    var t1 := Advance(cfg, NewTrace(1), Check(0, 1));
    var t2 := Advance(cfg, t1, Overwrite(2));
    var t3 := Advance(cfg, t2, Check(1, 2));
    var t4 := Advance(cfg, t3, Overwrite(3));
    var events := [Check(0, 1), Overwrite(2), Check(1, 2), Overwrite(3)];
    assert events[1..] == [Overwrite(2), Check(1, 2), Overwrite(3)];
    assert events[1..][1..] == [Check(1, 2), Overwrite(3)];
    assert events[1..][1..][1..] == [Overwrite(3)];
    assert Follow(cfg, t3, [Overwrite(3)]) == Follow(cfg, t4, []);
    assert Follow(cfg, t2, [Check(1, 2), Overwrite(3)]) == t4;
    assert Follow(cfg, t1, [Overwrite(2), Check(1, 2), Overwrite(3)]) == t4;
    assert Follow(cfg, NewTrace(1), events) == t4;
  }

  // ----- Completeness

  /** All events sample the same size. */
  predicate AllSee(events: seq<Event>, size: nat) {
    forall e :: e in events ==> !e.Overwrite? && e.size == size
  }

  lemma {:induction false} TimerKeepsRunning(cfg: DetectorSettings, tr: Trace, events: seq<Event>, size: nat)
    requires tr.f.status != WaitingForNetwork && AllSee(events, size) && tr.f.size == size
    requires tr.f.growth.lastCheck.Some? && tr.f.growth.stableSince.Some?
    ensures var end := Follow(cfg, tr, events).f;
      && end.growth.stableSince == tr.f.growth.stableSince && end.size == size
      && end.growth.lastCheck.Some? && end.status == tr.f.status
    decreases |events|
  {
    if events != [] {
      assert events[0] in events;
      TimerKeepsRunning(cfg, Advance(cfg, tr, events[0]), events[1..], size);
    }
  }

  /**
   Completeness: a file sampled before, that has the same size in the sample at `start` and in all
   samples after it, is released for copying by every check at least the timeout after `start`.
   */
  lemma ConstantFileIsReleased(cfg: DetectorSettings, tr: Trace, start: Time, events: seq<Event>, now: Time)
    requires tr.f.status != WaitingForNetwork && tr.f.growth.lastCheck.Some?
    requires tr.f.growth.stableSince.Some? ==> tr.f.growth.stableSince.value <= start
    requires AllSee(events, tr.f.size) && start + cfg.timeout <= now
    ensures var end := Follow(cfg, Advance(cfg, tr, Check(start, tr.f.size)), events);
      CheckGrowth(cfg, end.f, Size(tr.f.size), now).status in {Ready, ReadyToStartGrowing}
  {
    var tr' := Advance(cfg, tr, Check(start, tr.f.size));
    TimerKeepsRunning(cfg, tr', events, tr.f.size);
  }

  // ----- Files that grew

  /** The status a job starts copying with. */
  function InitialStatus(f: TrackedFile): FileStatus {
    if IsCurrentlyGrowing(f) then GrowingCopy else Copying
  }

  /**
   A file queued after a check that some time had passed before is copied in growing mode if and only if it is
   longer than when first seen, or has a different size than at the check before.
   */
  lemma SampledFileIsCopiedGrowingIff(cfg: DetectorSettings, f: TrackedFile, size: nat, now: Time)
    requires f.status != WaitingForNetwork && f.growth.lastCheck.Some? && f.growth.lastCheck.value < now
    requires 0 < f.growth.firstSeenSize && 0 < f.size
    ensures var g := Apply(CheckGrowth(cfg, f, Size(size), now).patch, f).(status := InQueue);
      && (InitialStatus(g) == GrowingCopy <==> size > f.growth.firstSeenSize || size != f.size)
      && InitialStatus(g) in {GrowingCopy, Copying}
  {
    hide CheckGrowth, Apply, Rate;
    CheckRecords(cfg, f, size, now);
    RateIsGrowth(f.growth, size, now);
  }

  /** The status alone decides once a file is known to be growing, and once its static copy has begun. */
  lemma StatusDecidesMode(f: TrackedFile)
    ensures f.status in {Growing, ReadyToStartGrowing, GrowingCopy} ==> InitialStatus(f) == GrowingCopy
    ensures f.status == Copying ==> InitialStatus(f) == Copying
  {
  }

  /** A file that grew to the minimum size is never recommended READY, so it is never queued. */
  lemma GrownLargeFileIsNeverReady(cfg: DetectorSettings, f: TrackedFile, size: nat, now: Time)
    requires f.status != WaitingForNetwork && f.growth.lastCheck.Some?
    requires size > f.growth.firstSeenSize && cfg.minSize <= size
    ensures CheckGrowth(cfg, f, Size(size), now).status in {Growing, ReadyToStartGrowing}
  {
  }

  /** However long it is observed, the copy does not complete. */
  ghost predicate NeverCompletes(
    w: World, settings: CopySettings, f: TrackedFile, latest: Option<TrackedFile>, host: Host)
  {
    forall waits: nat, polls: nat :: !CopyFile(w, settings, f, latest, host, waits, polls).outcome.CopyCompleted?
  }

  /**
   A file that grew and is then recommended READY is below the minimum size, is started as a growing
   copy, and as long as it stays at rest that copy waits for the minimum size and never completes.
   */
  lemma GrownSmallFileIsNeverDelivered(
    cfg: DetectorSettings, f: TrackedFile, size: nat, now: Time, w: World, settings: CopySettings, host: Host)
    requires f.growth.lastCheck.Some? && 0 < f.growth.firstSeenSize < size
      && f.status in {Discovered, Growing, Ready, ReadyToStartGrowing}
    requires CheckGrowth(cfg, f, Size(size), now).status == Ready
    requires AtRest(w) && |w(1).source| == size && settings.minSize == cfg.minSize
    requires 0 < settings.chunk && 0 < settings.pollInterval && host.makeDirs && host.openDestination == NoFault
    ensures var g := Apply(CheckGrowth(cfg, f, Size(size), now).patch, f).(status := InQueue);
      && InitialStatus(g) == GrowingCopy
      && forall latest: Option<TrackedFile> :: NeverCompletes(w, settings, g.(status := InitialStatus(g)), latest, host)
  {
    var g := Apply(CheckGrowth(cfg, f, Size(size), now).patch, f).(status := InQueue);
    ReadyIff(cfg, f, size, now);
    forall latest: Option<TrackedFile>
      ensures NeverCompletes(w, settings, g.(status := InitialStatus(g)), latest, host)
    {
      GrowingFileCompletesIffLongEnough(w, settings, g.(status := InitialStatus(g)), latest, host);
    }
  }
}
