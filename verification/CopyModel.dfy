/**
 The growing-file copy protocol as a state machine: a recorder keeps writing the source while the
 copier polls its size, copies chunk by chunk, and finally compares sizes before the source goes.

 Everything the copier cannot control is one function from awaits to what the world shows at that
 await, so a statement about every `World` is a statement about every interleaving of the recorder
 with the copier, every split of the reads, and every failure.
 */
module CopyModel {
  import opened TrackedFiles

  type Byte = bv8

  /** How a failing call ends once its error has been classified. */
  datatype Fault = NoFault | NetworkFault | OtherFault

  /** The answer of a size query. */
  datatype Probe = Measured | TimedOut | Missing | ProbeError(network: bool)

  /** The answer of a connectivity check; `Swallowed` is an error that is not network related. */
  datatype Link = LinkUp | Swallowed | LinkDown

  /** What the copier meets at one await. A read hands over at most `burst + 1` bytes. */
  datatype Moment = Moment(
    source: seq<Byte>,
    tracked: bool,
    probe: Probe,
    burst: nat,
    openFault: Fault,
    readFault: Fault,
    writeFault: Fault,
    link: Link)

  type World = nat -> Moment

  datatype CopyConfig = CopyConfig(chunk: nat, margin: nat, maxIdle: nat, checkInterval: nat)

  /** One progress update sent to the state manager. */
  datatype Report = Report(status: FileStatus, bytes: nat, size: nat)

  /** The copy so far; `now` counts awaits and `checks` lists the byte counts of attempted checks. */
  datatype Copy = Copy(
    now: nat,
    dst: seq<Byte>,
    copied: nat,
    lastCheck: nat,
    checks: seq<nat>,
    reports: seq<Report>)

  datatype LoopState = LoopState(copy: Copy, lastSize: nat, idle: nat, finished: bool)

  datatype Verdict = Again | Exit | Raised(fault: Fault)

  // ----- The protocol

  /** The number of bytes one read returns: none at end of file, else at least one. */
  function ReadLength(m: Moment, pos: nat, want: nat): (n: nat)
    ensures n <= want
    ensures n > 0 ==> pos + n <= |m.source|
    ensures n == 0 <==> want == 0 || |m.source| <= pos
  {
    if want == 0 || |m.source| <= pos then 0
    else
      var available := if want <= |m.source| - pos then want else |m.source| - pos;
      if available <= m.burst then available else m.burst + 1
  }

  /** The detector's mark and attempts after a round, and the error it raised. */
  datatype LinkCheck = LinkCheck(mark: nat, attempts: seq<nat>, fault: Fault)

  /** The connectivity check after `copied` bytes, if one is due. */
  function CheckLink(copied: nat, mark: nat, attempts: seq<nat>, interval: nat, link: Link): LinkCheck {
    if copied < mark + interval then LinkCheck(mark, attempts, NoFault)
    else
      match link
      case LinkUp => LinkCheck(copied, attempts + [copied], NoFault)
      case Swallowed => LinkCheck(mark, attempts + [copied], NoFault)
      case LinkDown => LinkCheck(mark, attempts + [copied], NetworkFault)
  }

  /** The outcome of one read-write-check-report round: `n` bytes were reported as copied. */
  datatype Round = Round(copy: Copy, n: nat, fault: Fault)

  /** One round of the chunk loop, with `left` bytes still wanted. */
  function CopyChunk(w: World, cfg: CopyConfig, c: Copy, left: nat, size: nat, status: FileStatus): (r: Round)
    ensures r.n <= left && r.copy.now == c.now + 1 && r.copy.copied == c.copied + r.n
  {
    var m := w(c.now);
    var n := ReadLength(m, c.copied, if cfg.chunk < left then cfg.chunk else left);
    var awaited := c.(now := c.now + 1);
    if m.readFault != NoFault then Round(awaited, 0, m.readFault)
    else if n == 0 then Round(awaited, 0, NoFault)
    else if m.writeFault != NoFault then Round(awaited, 0, m.writeFault)
    else
      var copied := c.copied + n;
      var check := CheckLink(copied, c.lastCheck, c.checks, cfg.checkInterval, m.link);
      var reports := if check.fault == NoFault then c.reports + [Report(status, copied, size)] else c.reports;
      var dst := c.dst + m.source[c.copied..copied];
      Round(Copy(c.now + 1, dst, copied, check.mark, check.attempts, reports), n, check.fault)
  }

  /** Copies up to `left` further bytes, until a read comes back empty or something fails. */
  function ChunkRange(w: World, cfg: CopyConfig, c: Copy, left: nat, size: nat, status: FileStatus)
    : (r: (Copy, Fault))
    decreases left
  {
    if left == 0 then (c, NoFault)
    else
      var round := CopyChunk(w, cfg, c, left, size, status);
      if round.fault != NoFault || round.n == 0 then (round.copy, round.fault)
      else ChunkRange(w, cfg, round.copy, left - round.n, size, status)
  }

  /** How far a growing file may be copied when `size` bytes of it are visible. */
  function SafeLimit(size: nat, margin: nat): nat {
    if size <= margin then 0 else size - margin
  }

  /** The growth bookkeeping of one poll that sees `size` bytes. */
  function NoteSize(cfg: CopyConfig, s: LoopState, size: nat): LoopState {
    if s.finished then s
    else if s.lastSize < size then s.(lastSize := size, idle := 0)
    else s.(idle := s.idle + 1, finished := cfg.maxIdle <= s.idle + 1)
  }

  /** The copying part of one poll that saw `size` bytes. */
  function Advance(w: World, cfg: CopyConfig, s: LoopState, size: nat, openFault: Fault): (r: (LoopState, Verdict)) {
    var limit := if s.finished then size else SafeLimit(size, cfg.margin);
    if s.copy.copied < limit then
      if openFault != NoFault then (s, Raised(openFault))
      else
        var status := if s.finished then Copying else GrowingCopy;
        var (c, fault) := ChunkRange(w, cfg, s.copy, limit - s.copy.copied, size, status);
        if fault != NoFault then (s.(copy := c), Raised(fault))
        else (s.(copy := c), if s.finished && size <= c.copied then Exit else Again)
    else if s.finished then (s, Exit)
    else
      var report := Report(GrowingCopy, s.copy.copied, size);
      (s.(copy := s.copy.(reports := s.copy.reports + [report])), Again)
  }

  /** One iteration of the copy loop. */
  function PollOnce(w: World, cfg: CopyConfig, s: LoopState): (r: (LoopState, Verdict)) {
    var m := w(s.copy.now);
    var c := s.copy.(now := s.copy.now + 1);
    if !m.tracked || m.probe != Measured then (s.(copy := c), Exit)
    else Advance(w, cfg, NoteSize(cfg, s, |m.source|).(copy := c), |m.source|, m.openFault)
  }

  /** The copy loop, observed for at most `polls` iterations. */
  function RunLoop(w: World, cfg: CopyConfig, s: LoopState, polls: nat): (r: (LoopState, Verdict))
    decreases polls
  {
    if polls == 0 then (s, Again)
    else
      var (s', verdict) := PollOnce(w, cfg, s);
      if verdict == Again then RunLoop(w, cfg, s', polls - 1) else (s', verdict)
  }

  /** A freshly opened destination at await `now`. */
  function FreshCopy(now: nat, reports: seq<Report>): Copy {
    Copy(now, [], 0, 0, [], reports)
  }

  /** A growing file starts in the growing phase, a static one in the finished phase. */
  function StartLoop(cfg: CopyConfig, growing: bool, c: Copy): LoopState {
    var idle := if growing then 0 else cfg.maxIdle;
    LoopState(c, 0, idle, cfg.maxIdle <= idle)
  }

  // ----- Assumptions about the recorder

  /** The recorder only appends. */
  ghost predicate AppendOnly(w: World) {
    forall i: nat, j: nat :: i <= j ==> w(i).source <= w(j).source
  }

  /** At await `t` the source has byte `b` at offset `k`. */
  ghost predicate Seen(w: World, t: nat, k: nat, b: Byte) {
    k < |w(t).source| && w(t).source[k] == b
  }

  /** The recorder never changes a byte it has written, though it may truncate and write it again. */
  ghost predicate NeverRewritten(w: World) {
    forall i: nat, j: nat, k: nat, a: Byte, b: Byte :: Seen(w, i, k, a) && Seen(w, j, k, b) ==> a == b
  }

  /** Nothing is appended from await `t` on. */
  ghost predicate ConstantFrom(w: World, t: nat) {
    forall i: nat :: t <= i ==> w(i).source == w(t).source
  }

  /** No call fails from await `t` on. */
  ghost predicate CalmFrom(w: World, t: nat) {
    forall i: nat :: t <= i ==>
      w(i).tracked && w(i).probe == Measured && w(i).openFault == NoFault &&
      w(i).readFault == NoFault && w(i).writeFault == NoFault && w(i).link != LinkDown
  }

  lemma AppendOnlyNeverRewrites(w: World)
    requires AppendOnly(w)
    ensures NeverRewritten(w)
  {
    forall i: nat, j: nat, k: nat, a: Byte, b: Byte | Seen(w, i, k, a) && Seen(w, j, k, b) ensures a == b {
      if i <= j {
        assert w(i).source <= w(j).source;
      } else {
        assert w(j).source <= w(i).source;
      }
    }
  }

  // ----- Where destination bytes come from, whatever the recorder does

  ghost predicate SeenBefore(w: World, now: nat, k: nat, b: Byte) {
    exists t: nat :: t < now && Seen(w, t, k, b)
  }

  /** Every destination byte stood at the same offset of the source at some await already past. */
  ghost predicate Traced(w: World, c: Copy) {
    && |c.dst| == c.copied
    && forall k: nat :: k < |c.dst| ==> SeenBefore(w, c.now, k, c.dst[k])
  }

  lemma TracedLater(w: World, c: Copy, c': Copy)
    requires Traced(w, c) && c'.dst == c.dst && c'.copied == c.copied && c.now <= c'.now
    ensures Traced(w, c')
  {
    forall k: nat | k < |c'.dst| ensures SeenBefore(w, c'.now, k, c'.dst[k]) {
      assert SeenBefore(w, c.now, k, c.dst[k]);
    }
  }

  lemma RoundTraced(w: World, cfg: CopyConfig, c: Copy, left: nat, size: nat, status: FileStatus)
    requires Traced(w, c)
    ensures var r := CopyChunk(w, cfg, c, left, size, status);
      Traced(w, r.copy) && r.copy.now == c.now + 1 && r.copy.copied == c.copied + r.n && c.dst <= r.copy.dst
  {
    var r := CopyChunk(w, cfg, c, left, size, status);
    forall k: nat | k < |r.copy.dst| ensures SeenBefore(w, r.copy.now, k, r.copy.dst[k]) {
      if k < |c.dst| {
        assert SeenBefore(w, c.now, k, c.dst[k]);
      } else {
        assert Seen(w, c.now, k, r.copy.dst[k]);
      }
    }
  }

  lemma {:induction false} ChunkRangeTraced(
    w: World, cfg: CopyConfig, c: Copy, left: nat, size: nat, status: FileStatus)
    requires Traced(w, c)
    ensures var r := ChunkRange(w, cfg, c, left, size, status).0;
      Traced(w, r) && c.now <= r.now && c.copied <= r.copied <= c.copied + left && c.dst <= r.dst
    decreases left
  {
    if left != 0 {
      RoundTraced(w, cfg, c, left, size, status);
      var round := CopyChunk(w, cfg, c, left, size, status);
      if round.fault == NoFault && round.n != 0 {
        ChunkRangeTraced(w, cfg, round.copy, left - round.n, size, status);
      }
    }
  }

  lemma AdvanceTraced(w: World, cfg: CopyConfig, s: LoopState, size: nat, openFault: Fault)
    requires Traced(w, s.copy)
    ensures var r := Advance(w, cfg, s, size, openFault).0;
      Traced(w, r.copy) && s.copy.now <= r.copy.now && s.copy.dst <= r.copy.dst
  {
    hide ChunkRange, Traced;
    var limit := if s.finished then size else SafeLimit(size, cfg.margin);
    if s.copy.copied < limit {
      ChunkRangeTraced(w, cfg, s.copy, limit - s.copy.copied, size, if s.finished then Copying else GrowingCopy);
    } else {
      TracedLater(w, s.copy, s.copy.(reports := s.copy.reports + [Report(GrowingCopy, s.copy.copied, size)]));
    }
  }

  lemma PollTraced(w: World, cfg: CopyConfig, s: LoopState)
    requires Traced(w, s.copy)
    ensures var r := PollOnce(w, cfg, s).0; Traced(w, r.copy) && s.copy.now < r.copy.now && s.copy.dst <= r.copy.dst
  {
    var m := w(s.copy.now);
    var c := s.copy.(now := s.copy.now + 1);
    TracedLater(w, s.copy, c);
    if m.tracked && m.probe == Measured {
      AdvanceTraced(w, cfg, NoteSize(cfg, s, |m.source|).(copy := c), |m.source|, m.openFault);
    }
  }

  /** Whatever the recorder does, at every loop head each destination byte was once the source's. */
  lemma {:induction false} EveryByteIsTraced(w: World, cfg: CopyConfig, s: LoopState, polls: nat)
    requires Traced(w, s.copy)
    ensures var r := RunLoop(w, cfg, s, polls).0;
      Traced(w, r.copy) && s.copy.now <= r.copy.now && s.copy.dst <= r.copy.dst
    decreases polls
  {
    if polls != 0 {
      PollTraced(w, cfg, s);
      var (s', verdict) := PollOnce(w, cfg, s);
      if verdict == Again {
        EveryByteIsTraced(w, cfg, s', polls - 1);
      }
    }
  }

  /** If no byte is ever rewritten, a size match is a content match, at whatever await it is made. */
  lemma SizeMatchIsContentMatch(w: World, c: Copy, t: nat)
    requires Traced(w, c) && NeverRewritten(w) && |w(t).source| == |c.dst|
    ensures c.dst == w(t).source
  {
    forall k | 0 <= k < |c.dst| ensures c.dst[k] == w(t).source[k] {
      assert SeenBefore(w, c.now, k, c.dst[k]);
      var u: nat :| u < c.now && Seen(w, u, k, c.dst[k]);
      assert Seen(w, t, k, w(t).source[k]);
    }
  }

  /** If no byte is ever rewritten, the destination agrees with the source wherever both reach. */
  lemma DestinationIsPrefix(w: World, c: Copy, t: nat)
    requires Traced(w, c) && NeverRewritten(w) && c.copied <= |w(t).source|
    ensures c.dst == w(t).source[..c.copied]
  {
    forall k | 0 <= k < |c.dst| ensures c.dst[k] == w(t).source[k] {
      assert SeenBefore(w, c.now, k, c.dst[k]);
      var u: nat :| u < c.now && Seen(w, u, k, c.dst[k]);
      assert Seen(w, t, k, w(t).source[k]);
    }
  }
}
