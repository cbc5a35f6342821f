/** Retrying files for which the destination has no room. */
module SpaceRetry {
  import opened Wrappers
  import opened TrackedFiles
  import opened Registries

  datatype SpaceSettings = SpaceSettings(maxRetries: nat, delay: nat)

  /** A failed space check: whether the destination could be reached, and the two sizes compared. */
  datatype Shortage = Shortage(accessible: bool, available: nat, required: nat)

  /** Whether the shortage is below a fifth of what is required. */
  predicate IsTemporary(s: Shortage)
    requires s.required != 0
  {
    (s.required - s.available) as real / s.required as real < 0.2
  }

  lemma {:induction false} ScaledSign(x: real, n: nat)
    requires 0 < n
    ensures x < 0.0 <==> x * n as real < 0.0
    decreases n
  {
    if n > 1 {
      ScaledSign(x, n - 1);
      assert x * n as real == x * (n - 1) as real + x;
      NotNegativeScaled(x, n - 1);
    }
  }

  lemma {:induction false} NotNegativeScaled(x: real, n: nat)
    ensures x >= 0.0 ==> x * n as real >= 0.0
    decreases n
  {
    if n > 0 {
      NotNegativeScaled(x, n - 1);
      assert x * n as real == x * (n - 1) as real + x;
    }
  }

  lemma ShareScaled(lack: real, need: real)
    requires need != 0.0
    ensures (lack / need - 0.2) * need == lack - 0.2 * need
  {
    var share := lack / need;
    assert share * need == lack;
    assert (share - 0.2) * need == share * need - 0.2 * need;
  }

  /** The short delay is chosen exactly when more than four fifths of the requirement are free. */
  lemma TemporaryIff(s: Shortage)
    requires s.required != 0
    ensures IsTemporary(s) <==> 5 * s.available > 4 * s.required
  {
    var need, lack := s.required as real, (s.required - s.available) as real;
    var gap := lack / need - 0.2;
    ScaledSign(gap, s.required);
    ShareScaled(lack, need);
    assert gap * need == lack - 0.2 * need;
    assert 5.0 * (lack - 0.2 * need) == (5 * (s.required - s.available) - s.required) as real;
  }

  function DelayFor(cfg: SpaceSettings, s: Shortage): nat
    requires s.required != 0
  {
    if IsTemporary(s) then cfg.delay / 2 else cfg.delay
  }

  /** What became of the entry; `WaitScheduled` carries the delay. */
  datatype Handling = SentToNetworkWait | WaitScheduled(delay: nat) | GaveUp | FailedOutright

  /**
   Handling a shortage for a job: an unreachable destination means waiting for the network; otherwise
   the retry count goes up, and at the maximum the entry is given up. A requirement of zero makes the
   shortage ratio undefined, and the error that raises fails the entry.
   */
  function HandleShortage(cfg: SpaceSettings, r: Registry, id: Id, s: Shortage, now: Time): (Registry, Handling) {
    if !s.accessible then (UpdateStatus(r, id, WaitingForNetwork, NoPatch, now), SentToNetworkWait)
    else
      var (r1, count) := IncrementRetryCount(r, id);
      if cfg.maxRetries <= count then (UpdateStatus(r1, id, SpaceError, SetSpaceErrorAt(now), now), GaveUp)
      else if s.required == 0 then (UpdateStatus(r1, id, Failed, NoPatch, now), FailedOutright)
      else
        var r2 := UpdateStatus(r1, id, WaitingForSpace, NoPatch, now);
        (ScheduleRetry(r2, id, DelayFor(cfg, s), now).0, WaitScheduled(DelayFor(cfg, s)))
  }

  /**
   What each handling means for the entry: an unreachable destination costs no retry; the maximum ends
   them; and a wait is short exactly when more than four fifths of the requirement are free.
   */
  predicate Handled(cfg: SpaceSettings, s: Shortage, now: Time, handling: Handling, f: TrackedFile, f': TrackedFile) {
    && (handling.SentToNetworkWait? <==> !s.accessible)
    && f'.retryCount == (if s.accessible then f.retryCount + 1 else f.retryCount)
    && match handling
       case SentToNetworkWait => f'.status == WaitingForNetwork && f'.retry == f.retry
       case WaitScheduled(delay) =>
         && f'.status == WaitingForSpace && f'.retryCount < cfg.maxRetries && 0 < s.required
         && delay == (if 5 * s.available > 4 * s.required then cfg.delay / 2 else cfg.delay)
         && f'.retry == Some(RetryInfo(now, now + delay))
       case GaveUp =>
         f'.status == SpaceError && cfg.maxRetries <= f'.retryCount && f'.spaceErrorAt == Some(now)
       case FailedOutright =>
         f'.status == Failed && f'.retryCount < cfg.maxRetries && s.required == 0 && f'.retry == None
  }

  /** Setting an entry to wait and scheduling its retry changes that entry alone, as one transition. */
  lemma WaitEffect(r: Registry, id: Id, delay: nat, now: Time)
    requires Backed(r)
    ensures var r' := ScheduleRetry(UpdateStatus(r, id, WaitingForSpace, NoPatch, now), id, delay, now).0;
      && Backed(r') && r'.nextId == r.nextId && r'.files.vals.Keys == r.files.vals.Keys
      && (forall x :: x in r.files.vals && x != id ==> r'.files.vals[x] == r.files.vals[x])
      && (r.Tracks(id) ==>
            var f, f' := r.files.vals[id], r'.files.vals[id];
            && f'.path == f.path && f'.status == WaitingForSpace && f'.retryCount == f.retryCount
            && f'.retry == Some(RetryInfo(now, now + delay))
            && id in r'.tasks && r'.tasks[id] == Pending(now + delay))
  {
    hide RetryHasTask, NoRevival, UpdateStatus, ScheduleRetry, Apply, Stamp, OneActive;
    var r1 := UpdateStatus(r, id, WaitingForSpace, NoPatch, now);
    UpdateIsBacked(r, id, WaitingForSpace, NoPatch, now);
    UpdateEffect(r, id, WaitingForSpace, NoPatch, now);
    ScheduleRetryIsSound(r1, id, delay, now);
    ScheduleRetryEffect(r1, id, delay, now);
  }

  lemma GivenUpIsStamped(f: TrackedFile, now: Time)
    ensures Updated(f, SpaceError, SetSpaceErrorAt(now), now).spaceErrorAt == Some(now)
  {
  }

  /** What handling does to the entry, and that it touches no other. */
  lemma HandleShortageEffect(cfg: SpaceSettings, r: Registry, id: Id, s: Shortage, now: Time)
    requires Backed(r)
    ensures var (r', handling) := HandleShortage(cfg, r, id, s, now);
      && Backed(r') && r'.nextId == r.nextId && r'.files.vals.Keys == r.files.vals.Keys
      && (forall x :: x in r.files.vals && x != id ==> r'.files.vals[x] == r.files.vals[x])
      && (r.Tracks(id) ==>
            && r'.files.vals[id].path == r.files.vals[id].path
            && Handled(cfg, s, now, handling, r.files.vals[id], r'.files.vals[id]))
  {
    hide Backed, KeepsSound, NoRevival, UpdateStatus, IsTemporary, IncrementRetryCount, ScheduleRetry, Apply, Stamp;
    if !s.accessible {
      UpdateIsBacked(r, id, WaitingForNetwork, NoPatch, now);
      UpdateEffect(r, id, WaitingForNetwork, NoPatch, now);
    } else {
      var (r1, count) := IncrementRetryCount(r, id);
      IncrementIsBacked(r, id);
      if cfg.maxRetries <= count {
        UpdateIsBacked(r1, id, SpaceError, SetSpaceErrorAt(now), now);
        UpdateEffect(r1, id, SpaceError, SetSpaceErrorAt(now), now);
        if r.Tracks(id) {
          GivenUpIsStamped(r1.files.vals[id], now);
        }
      } else if s.required == 0 {
        UpdateIsBacked(r1, id, Failed, NoPatch, now);
        UpdateEffect(r1, id, Failed, NoPatch, now);
      } else {
        TemporaryIff(s);
        WaitEffect(r1, id, DelayFor(cfg, s), now);
      }
    }
  }

  lemma IncrementIsBacked(r: Registry, id: Id)
    requires Backed(r)
    ensures var (r', count) := IncrementRetryCount(r, id);
      && Backed(r') && r'.nextId == r.nextId
      && (if r.Tracks(id)
          then count == r.files.vals[id].retryCount + 1
            && r'.files.vals == r.files.vals[id := r.files.vals[id].(retryCount := count)]
          else r' == r)
  {
    hide OneActive;
    IncrementIsSound(r, id);
  }

  /** A shortage revives nothing when the entry it is about was active. */
  lemma HandleShortageIsSound(cfg: SpaceSettings, r: Registry, id: Id, s: Shortage, now: Time)
    requires Backed(r) && (r.Tracks(id) ==> IsActive(r.StatusOf(id)))
    ensures var r' := HandleShortage(cfg, r, id, s, now).0; KeepsSound(r, r') && NoRevival(r, r')
  {
    hide Backed, OneActive, HandleShortage, Handled;
    HandleShortageEffect(cfg, r, id, s, now);
    var r' := HandleShortage(cfg, r, id, s, now).0;
    assert NoRevival(r, r');
    if OneActive(r) {
      NoRevivalKeepsOneActive(r, r');
    }
  }
}
