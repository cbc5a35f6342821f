/** Copying through a temporary file: the destination only ever changes by the final rename. */
module TempFileCopy {
  import opened Wrappers
  import opened TrackedFiles
  import opened CopyModel
  import opened CopyStrategy
  import opened Progress

  type DiskImage = map<Path, seq<Byte>>

  /** Connectivity is checked after every megabyte. */
  const CHECK_INTERVAL: nat := 0x10_0000

  function Read(image: DiskImage, path: Path): Option<seq<Byte>> {
    if path in image then Some(image[path]) else None
  }

  /** The image without path `p`. */
  function Elsewhere(image: DiskImage, p: Path): DiskImage {
    image - {p}
  }

  lemma ReadElsewhere(a: DiskImage, b: DiskImage, p: Path, q: Path)
    requires Elsewhere(a, p) == Elsewhere(b, p) && p != q
    ensures Read(a, q) == Read(b, q)
  {
    assert q in a <==> q in Elsewhere(a, p);
    assert q in b <==> q in Elsewhere(b, p);
    if q in a {
      assert a[q] == Elsewhere(a, p)[q] && b[q] == Elsewhere(b, p)[q];
    }
  }

  lemma RenamedElsewhere(a: DiskImage, from: Path, to: Path)
    requires from in a
    ensures Elsewhere(Elsewhere((a - {from})[to := a[from]], from), to) == Elsewhere(Elsewhere(a, from), to)
  {
  }

  lemma OnlyOnePathChanged(a: DiskImage, b: DiskImage, p: Path)
    requires Elsewhere(a, p) == Elsewhere(b, p) && p in a
    ensures a == b[p := a[p]]
  {
    forall q | q in a || q in b[p := a[p]] ensures q in a && q in b[p := a[p]] && a[q] == b[p := a[p]][q] {
      if q != p {
        ReadElsewhere(a, b, p, q);
      }
    }
  }

  /** The destination's disk; `states` holds every state it has been in. */
  class Disk {
    var files: DiskImage
    ghost var states: set<DiskImage>

    /** No recorded state is lost, the present one is recorded, and only `p` has changed since. */
    twostate predicate OnlyTouched(p: Path)
      reads this
    {
      && old(states) <= states && files in states && Elsewhere(files, p) == Elsewhere(old(files), p)
      && forall s :: s in states && s !in old(states) ==> Elsewhere(s, p) == Elsewhere(old(files), p)
    }

    method Write(path: Path, data: seq<Byte>)
      modifies this
      ensures OnlyTouched(path) && files == old(files)[path := data] && states == old(states) + {files}
    {
      files := files[path := data];
      states := states + {files};
    }

    method Unlink(path: Path)
      modifies this
      ensures OnlyTouched(path) && files == old(files) - {path} && states == old(states) + {files}
    {
      files := files - {path};
      states := states + {files};
    }

    method Rename(from: Path, to: Path)
      requires from in files && from != to
      modifies this
      ensures files == (old(files) - {from})[to := old(files)[from]] && states == old(states) + {files}
    {
      files := (files - {from})[to := files[from]];
      states := states + {files};
    }
  }

  function TempPath(dest: Path): (t: Path)
    ensures t != dest && dest <= t && t[|dest|..] == ".tmp"
  {
    assert |dest + ".tmp"| != |dest|;
    dest + ".tmp"
  }

  /** The calls around the copy loop that may fail. */
  datatype DiskFaults = DiskFaults(mkdir: bool, open: bool, verify: bool, rename: bool, unlink: bool)

  /** The source does not change while it is copied. */
  ghost predicate StaticSource(w: World, source: seq<Byte>) {
    forall t: nat :: w(t).source == source
  }

  function ExecutorConfig(chunk: nat): CopyConfig {
    CopyConfig(chunk, 0, 0, CHECK_INTERVAL)
  }

  /** Reads and writes until a read comes back empty or something fails. */
  function Drain(w: World, chunk: nat, c: Copy, limit: nat): (r: (Copy, Fault))
    decreases if c.copied <= limit then limit - c.copied else 0
  {
    var round := CopyChunk(w, ExecutorConfig(chunk), c, chunk, limit, Copying);
    if round.fault != NoFault || round.n == 0 || limit < round.copy.copied then (round.copy, round.fault)
    else Drain(w, chunk, round.copy, limit)
  }

  function Counts(reports: seq<Report>): (counts: seq<nat>)
    ensures |counts| == |reports| && forall i :: 0 <= i < |counts| ==> counts[i] == reports[i].bytes
  {
    if reports == [] then [] else Counts(reports[..|reports| - 1]) + [reports[|reports| - 1].bytes]
  }

  /** A partial copy of a static source: a prefix, with one growing count for each chunk written. */
  ghost predicate PartialCopy(source: seq<Byte>, c: Copy) {
    && c.copied <= |source| && c.dst == source[..c.copied]
    && (forall i, j :: 0 <= i < j < |c.reports| ==> c.reports[i].bytes < c.reports[j].bytes)
    && (c.reports != [] ==> c.reports[|c.reports| - 1].bytes == c.copied)
    && (c.reports == [] ==> c.copied == 0)
  }

  /** A drain without a fault stops at the end of a static source, with a prefix at every earlier stop. */
  lemma {:induction false} DrainCopiesAll(w: World, chunk: nat, c: Copy, source: seq<Byte>)
    requires StaticSource(w, source) && PartialCopy(source, c)
    ensures var (r, fault) := Drain(w, chunk, c, |source|);
      && r.dst <= source
      && (fault == NoFault ==> PartialCopy(source, r) && (0 < chunk ==> r.copied == |source|))
    decreases |source| - c.copied
  {
    var round := CopyChunk(w, ExecutorConfig(chunk), c, chunk, |source|, Copying);
    assert w(c.now).source == source;
    assert round.copy.dst == source[..round.copy.copied];
    if round.fault == NoFault && round.n != 0 {
      DrainCopiesAll(w, chunk, round.copy, source);
    }
  }

  /** Seen from outside, `dest` holds what it held before or the whole source. */
  predicate OldOrWhole(image: DiskImage, dest: Path, before: Option<seq<Byte>>, source: seq<Byte>) {
    Read(image, dest) == before || Read(image, dest) == Some(source)
  }

  class FileCopyExecutor {
    const chunkSize: nat
    const progressInterval: nat
    const disk: Disk

    constructor (chunkSize: nat, progressInterval: nat, disk: Disk)
      requires 0 < progressInterval
      ensures this.chunkSize == chunkSize && this.progressInterval == progressInterval && this.disk == disk
    {
      this.chunkSize := chunkSize;
      this.progressInterval := progressInterval;
      this.disk := disk;
    }

    ghost predicate Valid()
      reads disk
    {
      disk.files in disk.states && 0 < progressInterval
    }

    /** Where the copy loop stands after filling `path`; `log` lists the chunks written. */
    ghost function At(path: Path, now: nat, detector: NetworkErrorDetector, copied: nat, log: seq<Report>): Copy
      requires path in disk.files
      reads disk, detector
    {
      Copy(now, disk.files[path], copied, detector.lastCheckBytes, detector.attempts, log)
    }

    /** One chunk: read it, append it, check the connection. */
    method CopyOneChunk(
      w: World, path: Path, now: nat, copied: nat, size: nat, detector: NetworkErrorDetector, ghost log: seq<Report>)
      returns (n: nat, fault: Fault, ghost log': seq<Report>)
      requires Valid() && path in disk.files && detector.checkInterval == CHECK_INTERVAL
      modifies disk, detector
      ensures disk.OnlyTouched(path) && path in disk.files
      ensures var c := old(At(path, now, detector, copied, log));
        var r := CopyChunk(w, ExecutorConfig(chunkSize), c, chunkSize, size, Copying);
        At(path, now + 1, detector, copied + n, log') == r.copy && n == r.n && fault == r.fault
    {
      var m := w(now);
      n, fault, log' := 0, m.readFault, log;
      if fault != NoFault {
        return;
      }
      var length := ReadLength(m, copied, chunkSize);
      if length == 0 {
        return;
      }
      fault := m.writeFault;
      if fault != NoFault {
        return;
      }
      n := length;
      disk.Write(path, disk.files[path] + m.source[copied..copied + n]);
      fault := detector.CheckDestinationConnectivity(copied + n, m.link);
      if fault == NoFault {
        log' := log + [Report(Copying, copied + n, size)];
      }
    }

    /** Copies a static source into `path`; `percents` are the progress reports made on the way. */
    method PerformCopy(w: World, ghost source: seq<Byte>, size: nat, path: Path, faults: DiskFaults)
      returns (success: bool, bytesCopied: nat, percents: seq<nat>)
      requires Valid() && StaticSource(w, source) && size == |source|
      modifies disk
      ensures Valid() && disk.OnlyTouched(path)
      ensures faults.open ==> !success && percents == [] && disk.files == old(disk.files)
      ensures !faults.open ==>
        var (c, fault) := Drain(w, chunkSize, FreshCopy(0, []), size);
        && disk.files == old(disk.files)[path := c.dst]
        && success == (fault == NoFault)
        && percents == Reports(Counts(c.reports), size, -1, progressInterval)
    {
      hide CopyChunk, Elsewhere;
      success, bytesCopied, percents := false, 0, [];
      var detector := new NetworkErrorDetector(CHECK_INTERVAL);
      if faults.open {
        return;
      }
      disk.Write(path, []);
      var now := 0;
      var last: int := -1;
      ghost var c := FreshCopy(0, []);
      ghost var goal := Drain(w, chunkSize, c, size);
      while true
        invariant bytesCopied <= size && c.copied == bytesCopied
        invariant Valid() && disk.OnlyTouched(path) && path in disk.files
        invariant detector.checkInterval == CHECK_INTERVAL && fresh(detector)
        invariant At(path, now, detector, bytesCopied, c.reports) == c && Drain(w, chunkSize, c, size) == goal
        invariant percents == Reports(Counts(c.reports), size, -1, progressInterval) && last == LastOf(percents, -1)
        decreases size - bytesCopied
      {
        hide Reports;
        assert w(now).source == source;
        ghost var round := CopyChunk(w, ExecutorConfig(chunkSize), c, chunkSize, size, Copying);
        RoundStaysInside(w, ExecutorConfig(chunkSize), c, chunkSize, size);
        ghost var log;
        var n, fault;
        n, fault, log := CopyOneChunk(w, path, now, bytesCopied, size, detector, c.reports);
        now := now + 1;
        bytesCopied := bytesCopied + n;
        if fault != NoFault || n == 0 {
          success := fault == NoFault;
          OnlyOnePathChanged(disk.files, old(disk.files), path);
          return;
        }
        last, percents := ReportProgress(c.reports, bytesCopied, size, last, percents);
        c := round.copy;
      }
    }

    /** Calls the progress callback if the percentage now reached is due. */
    method ReportProgress(ghost log: seq<Report>, bytesCopied: nat, size: nat, last: int, percents: seq<nat>)
      returns (last': int, percents': seq<nat>)
      requires 0 < progressInterval
      requires percents == Reports(Counts(log), size, -1, progressInterval) && last == LastOf(percents, -1)
      ensures percents' == Reports(Counts(log + [Report(Copying, bytesCopied, size)]), size, -1, progressInterval)
      ensures last' == LastOf(percents', -1)
    {
      hide Reports;
      ReportsSnoc(Counts(log), bytesCopied, size, -1, progressInterval);
      var percent := PercentInt(bytesCopied, size);
      last', percents' := last, percents;
      if ShouldReport(percent, last, progressInterval, size <= bytesCopied) {
        last', percents' := percent, percents + [percent];
      }
      ghost var log' := log + [Report(Copying, bytesCopied, size)];
      assert log'[..|log'| - 1] == log;
    }

    /**
     Copies through a temporary file. In every state the disk passes through, up to and including the
     last, the destination holds what it held before or the complete source.
     */
    method CopyWithTempFile(w: World, ghost source: seq<Byte>, size: nat, dest: Path, faults: DiskFaults)
      returns (success: bool, percents: seq<nat>)
      requires Valid() && StaticSource(w, source) && size == |source|
      modifies disk
      ensures Valid() && old(disk.states) <= disk.states
      ensures forall s :: s in disk.states && s !in old(disk.states) ==>
        OldOrWhole(s, dest, Read(old(disk.files), dest), source)
      ensures success <==> TempSucceeds(w, chunkSize, source, faults)
      ensures success ==> Read(disk.files, dest) == Some(source) && TempPath(dest) !in disk.files
      ensures TempPath(dest) in disk.files
        <==> TempStays(w, chunkSize, source, faults, TempPath(dest) in old(disk.files))
      ensures Elsewhere(Elsewhere(disk.files, TempPath(dest)), dest)
        == Elsewhere(Elsewhere(old(disk.files), TempPath(dest)), dest)
      ensures !success ==> Read(disk.files, dest) == Read(old(disk.files), dest)
      ensures success && source != [] ==> SparseReports(percents, progressInterval)
    {
      hide CopyChunk, Drain, Elsewhere, Reports, Counts, SparseReports;
      var temp := TempPath(dest);
      success, percents := false, [];
      if faults.mkdir {
        if temp in disk.files && !faults.unlink {
          disk.Unlink(temp);
          ReadElsewhere(disk.files, old(disk.files), temp, dest);
        }
        return;
      }
      var bytesCopied;
      success, bytesCopied, percents := PerformCopy(w, source, size, temp, faults);
      forall s | s in disk.states && s !in old(disk.states) ensures Read(s, dest) == Read(old(disk.files), dest) {
        ReadElsewhere(s, old(disk.files), temp, dest);
      }
      if !success {
        return;
      }
      CopiedPrefix(w, chunkSize, source, progressInterval);
      if faults.verify || |disk.files[temp]| != size || faults.rename {
        success := false;
        if !faults.unlink {
          disk.Unlink(temp);
        }
        return;
      }
      assert disk.files[temp] == source;
      RenamedElsewhere(disk.files, temp, dest);
      disk.Rename(temp, dest);
    }

    /**
     Copies straight into the destination. What stands there afterwards is the old content or the whole
     source if and only if `DirectIsAllOrNothing` says so.
     */
    method CopyDirect(w: World, ghost source: seq<Byte>, size: nat, dest: Path, faults: DiskFaults)
      returns (success: bool)
      requires Valid() && StaticSource(w, source) && size == |source|
      modifies disk
      ensures Valid() && disk.OnlyTouched(dest)
      ensures success <==> DirectSucceeds(w, chunkSize, source, faults)
      ensures success ==> Read(disk.files, dest) == Some(source)
      ensures OldOrWhole(disk.files, dest, Read(old(disk.files), dest), source)
        <==> DirectIsAllOrNothing(w, chunkSize, source, faults, Read(old(disk.files), dest))
    {
      hide CopyChunk, Drain, Elsewhere, Reports, Counts;
      success := false;
      if faults.mkdir {
        if dest in disk.files && !faults.unlink {
          disk.Unlink(dest);
        }
        return;
      }
      var bytesCopied, percents;
      CopiedPrefix(w, chunkSize, source, progressInterval);
      success, bytesCopied, percents := PerformCopy(w, source, size, dest, faults);
      if success {
        if faults.verify || |disk.files[dest]| != size {
          success := false;
          if !faults.unlink {
            disk.Unlink(dest);
          }
        }
      }
    }
  }

  /** Whether the bytes a drain of the source leaves behind are what stood there before, or all of the source. */
  predicate FragmentFits(w: World, chunk: nat, source: seq<Byte>, before: Option<seq<Byte>>) {
    var dst := Drain(w, chunk, FreshCopy(0, []), |source|).0.dst;
    |dst| == |source| || before == Some(dst)
  }

  /**
   The temporary file is left behind when a chunk fails, when it was there before and could not be opened, and when
   it should be deleted but cannot.
   */
  predicate TempStays(w: World, chunk: nat, source: seq<Byte>, faults: DiskFaults, before: bool) {
    if faults.mkdir then before && faults.unlink
    else if faults.open then before
    else if Drain(w, chunk, FreshCopy(0, []), |source|).1 != NoFault then true
    else faults.unlink && !TempSucceeds(w, chunk, source, faults)
  }

  /** Nothing that the copy through a temporary file needs fails. */
  predicate TempSucceeds(w: World, chunk: nat, source: seq<Byte>, faults: DiskFaults) {
    DirectSucceeds(w, chunk, source, faults) && !faults.rename
  }

  /** Nothing fails, and no chunk size of zero keeps the copy from reaching the end. */
  predicate DirectSucceeds(w: World, chunk: nat, source: seq<Byte>, faults: DiskFaults) {
    && !faults.mkdir && !faults.open && !faults.verify
    && Drain(w, chunk, FreshCopy(0, []), |source|).1 == NoFault && (0 < chunk || source == [])
  }

  /**
   When copying directly is all-or-nothing. A directory that cannot be made costs an existing destination,
   unless that cannot be deleted either; a failing chunk leaves its fragment; and a failed verification
   deletes the destination, or leaves what was written if it cannot.
   */
  predicate DirectIsAllOrNothing(
    w: World, chunk: nat, source: seq<Byte>, faults: DiskFaults, before: Option<seq<Byte>>)
  {
    if faults.mkdir then before.None? || faults.unlink
    else if faults.open || DirectSucceeds(w, chunk, source, faults) then true
    else if Drain(w, chunk, FreshCopy(0, []), |source|).1 == NoFault && !faults.unlink then before.None?
    else FragmentFits(w, chunk, source, before)
  }

  /** What a fault-free copy of the whole source reports. */
  lemma WholeCopyReports(source: seq<Byte>, c: Copy, interval: nat)
    requires PartialCopy(source, c) && c.copied == |source| && source != [] && 0 < interval
    ensures SparseReports(Reports(Counts(c.reports), |source|, -1, interval), interval)
  {
    var counts := Counts(c.reports);
    assert CopyCounts(counts, |source|);
    ReportsAreSparse(counts, |source|, -1, interval);
  }

  /**
   A copy from scratch stops with a prefix of the source; if its size is right, it is the source, and unless
   chunks are empty, its size is right when nothing fails.
   */
  lemma CopiedPrefix(w: World, chunk: nat, source: seq<Byte>, interval: nat)
    requires StaticSource(w, source) && 0 < interval
    ensures var (c, fault) := Drain(w, chunk, FreshCopy(0, []), |source|);
      && (|c.dst| == |source| ==> c.dst == source)
      && (fault == NoFault ==> (|c.dst| == |source| <==> 0 < chunk || source == []))
      && (fault == NoFault && |c.dst| == |source| && source != [] ==>
            SparseReports(Reports(Counts(c.reports), |source|, -1, interval), interval))
  {
    DrainCopiesAll(w, chunk, FreshCopy(0, []), source);
    var (c, fault) := Drain(w, chunk, FreshCopy(0, []), |source|);
    if chunk == 0 {
      EmptyChunks(w, FreshCopy(0, []), |source|);
    }
    if fault == NoFault && |c.dst| == |source| && source != [] {
      WholeCopyReports(source, c, interval);
    }
  }

  lemma EmptyChunks(w: World, c: Copy, limit: nat)
    ensures Drain(w, 0, c, limit).0.dst == c.dst
  {
  }

  /** Strictly increasing percents that end with 100, at most one per interval multiple and the last. */
  ghost predicate SparseReports(percents: seq<nat>, interval: nat)
    requires 0 < interval
  {
    && percents != [] && percents[|percents| - 1] == 100
    && (forall i, j :: 0 <= i < j < |percents| ==> percents[i] < percents[j])
    && |percents| <= 99 / interval + 1
  }

  /** A world that hands over one byte and then fails, while the source holds two. */
  function FailingWorld(): World {
    (t: nat) =>
      Moment([1 as Byte, 2], true, Measured, 0, NoFault, if t == 0 then NoFault else OtherFault, NoFault, LinkUp)
  }

  /** Without faults outside the drain: a failing read leaves a fragment where something good may have stood. */
  lemma DirectCopyLeavesAFragment(before: Option<seq<Byte>>)
    ensures StaticSource(FailingWorld(), [1, 2])
    ensures var faults := DiskFaults(false, false, false, false, false);
      DirectIsAllOrNothing(FailingWorld(), 1, [1, 2], faults, before) <==> before == Some([1])
  {
    var w := FailingWorld();
    var round := CopyChunk(w, ExecutorConfig(1), FreshCopy(0, []), 1, 2, Copying);
    assert round.n == 1 && round.fault == NoFault && round.copy.dst == [1];
    var next := CopyChunk(w, ExecutorConfig(1), round.copy, 1, 2, Copying);
    assert next.fault == OtherFault && next.copy.dst == [1];
    assert Drain(w, 1, round.copy, 2) == (next.copy, OtherFault);
    assert Drain(w, 1, FreshCopy(0, []), 2) == (next.copy, OtherFault);
  }

  lemma RoundStaysInside(w: World, cfg: CopyConfig, c: Copy, left: nat, size: nat)
    requires |w(c.now).source| == size && c.copied <= size
    ensures var r := CopyChunk(w, cfg, c, left, size, Copying);
      && r.copy.copied <= size
      && (r.fault == NoFault && r.n == 0 ==> r.copy.reports == c.reports)
      && (r.fault != NoFault ==> r.copy.reports == c.reports)
      && (r.fault == NoFault && r.n > 0 ==> r.copy.reports == c.reports + [Report(Copying, r.copy.copied, size)])
  {
  }
}
