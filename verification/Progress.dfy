/** Progress percentages and the rule that decides which of them are reported. */
module Progress {

  lemma MulMonotone(d: nat, a: int, b: int)
    ensures a <= b ==> d * a <= d * b
  {
  }

  /** The completed share in whole percent; an empty file counts as complete. */
  function PercentInt(bytesCopied: nat, totalBytes: nat): (p: nat)
    ensures p <= 100
    ensures p == 100 <==> totalBytes <= bytesCopied
    ensures bytesCopied < totalBytes ==> p * totalBytes <= bytesCopied * 100 < (p + 1) * totalBytes
  {
    if totalBytes <= bytesCopied then 100
    else
      ShareBelowHundred(bytesCopied, totalBytes);
      bytesCopied * 100 / totalBytes
  }

  lemma ShareBelowHundred(copied: nat, total: nat)
    requires copied < total
    ensures 0 <= copied * 100 / total < 100
  {
    MulMonotone(total, 100, copied * 100 / total);
  }

  lemma PercentIsMonotone(a: nat, b: nat, total: nat)
    requires a <= b
    ensures PercentInt(a, total) <= PercentInt(b, total)
  {
    if b < total {
      DivMonotone(a * 100, b * 100, total);
    }
  }

  /** Whether to report now; a negative `lastReported` means nothing has been reported yet. */
  predicate ShouldReport(currentPercent: nat, lastReported: int, interval: nat, isComplete: bool)
    requires 0 < interval
  {
    if isComplete then true
    else if lastReported < 0 then interval <= currentPercent
    else currentPercent != lastReported && currentPercent % interval == 0
  }

  /** The percents reported while the byte count runs through `counts`, with every callback succeeding. */
  function Reports(counts: seq<nat>, total: nat, lastReported: int, interval: nat): seq<nat>
    requires 0 < interval
  {
    if counts == [] then []
    else
      var percent := PercentInt(counts[0], total);
      if ShouldReport(percent, lastReported, interval, total <= counts[0])
      then [percent] + Reports(counts[1..], total, percent, interval)
      else Reports(counts[1..], total, lastReported, interval)
  }

  /** The byte counts of one copy of a static file of `total` bytes: strictly growing up to the total. */
  ghost predicate CopyCounts(counts: seq<nat>, total: nat) {
    && counts != [] && counts[|counts| - 1] == total
    && forall i, j :: 0 <= i < j < |counts| ==> counts[i] < counts[j]
  }

  lemma CopyCountsTail(counts: seq<nat>, total: nat)
    requires CopyCounts(counts, total) && |counts| > 1
    ensures CopyCounts(counts[1..], total) && counts[0] < counts[1] <= total
  {
    var rest := counts[1..];
    assert rest[|rest| - 1] == counts[|counts| - 1];
    forall i, j | 0 <= i < j < |rest| ensures rest[i] < rest[j] {
      assert counts[i + 1] < counts[j + 1];
    }
  }

  /** At most this many reports can follow one at `lastReported` percent. */
  function Allowance(lastReported: int, interval: nat): int
    requires 0 < interval
  {
    99 / interval - (if lastReported < 0 then 0 else lastReported / interval) + 1
  }

  lemma NextMultiple(last: int, p: nat, interval: nat)
    requires 0 < interval && last < p && ShouldReport(p, last, interval, false)
    ensures Allowance(p, interval) + 1 <= Allowance(last, interval)
  {
    if last < 0 {
      DivAtLeast(p, interval, 1);
    } else {
      assert p == interval * (p / interval) && last < interval * (last / interval + 1);
      MulMonotone(interval, p / interval, last / interval);
    }
  }

  lemma DivAtLeast(p: nat, interval: nat, k: int)
    requires 0 < interval && p >= interval * k
    ensures p / interval >= k
  {
    assert p < interval * (p / interval + 1);
    MulMonotone(interval, p / interval + 1, k);
  }

  lemma {:induction false} DivMonotone(a: nat, b: nat, interval: nat)
    requires 0 < interval && a <= b
    ensures a / interval <= b / interval
  {
    assert a >= interval * (a / interval);
    DivAtLeast(b, interval, a / interval);
  }

  /**
   The reports of one copy: strictly increasing, ending with 100, and no more than one for each
   multiple of the interval below 100 plus the final one.
   */
  lemma {:induction false} ReportsAreSparse(counts: seq<nat>, total: nat, lastReported: int, interval: nat)
    requires CopyCounts(counts, total) && 0 < interval
    requires -1 <= lastReported < 100 && lastReported <= PercentInt(counts[0], total)
    ensures var rs := Reports(counts, total, lastReported, interval);
      && rs != [] && rs[|rs| - 1] == 100 && lastReported < rs[0]
      && (forall i, j :: 0 <= i < j < |rs| ==> rs[i] < rs[j])
      && |rs| <= Allowance(lastReported, interval)
    decreases |counts|
  {
    var percent := PercentInt(counts[0], total);
    if |counts| == 1 {
      assert Reports(counts[1..], total, percent, interval) == [];
      if lastReported >= 0 {
        DivMonotone(lastReported, 99, interval);
      }
    } else {
      CopyCountsTail(counts, total);
      PercentIsMonotone(counts[0], counts[1], total);
      if ShouldReport(percent, lastReported, interval, false) {
        ReportsAreSparse(counts[1..], total, percent, interval);
        NextMultiple(lastReported, percent, interval);
      } else {
        ReportsAreSparse(counts[1..], total, lastReported, interval);
      }
    }
  }

  /** The percent last reported by a run of reports that began at `lastReported`. */
  function LastOf(reports: seq<nat>, lastReported: int): int {
    if reports == [] then lastReported else reports[|reports| - 1]
  }

  /** One more byte count adds its percent, if it is due after the last one reported. */
  lemma {:induction false} ReportsSnoc(counts: seq<nat>, x: nat, total: nat, lastReported: int, interval: nat)
    requires 0 < interval
    ensures var rs := Reports(counts, total, lastReported, interval);
      Reports(counts + [x], total, lastReported, interval)
        == if ShouldReport(PercentInt(x, total), LastOf(rs, lastReported), interval, total <= x)
           then rs + [PercentInt(x, total)] else rs
    decreases |counts|
  {
    var all := counts + [x];
    if counts == [] {
      assert all[1..] == [];
    } else {
      assert all[0] == counts[0] && all[1..] == counts[1..] + [x];
      var percent := PercentInt(counts[0], total);
      var reported := ShouldReport(percent, lastReported, interval, total <= counts[0]);
      ReportsSnoc(counts[1..], x, total, if reported then percent else lastReported, interval);
    }
  }

  // ----- The bound is reached

  /** Byte counts `k`, `k + 1`, ..., 100. */
  function OneByOne(k: nat): (s: seq<nat>)
    requires k <= 101
    decreases 101 - k
  {
    if k == 101 then [] else [k] + OneByOne(k + 1)
  }

  lemma {:induction false} TightFrom(k: nat, lastReported: int, interval: nat)
    requires 0 < interval <= 99 && 1 <= k <= 100
    requires if lastReported < 0 then k <= interval
      else lastReported < k && (k - 1) / interval == lastReported / interval
    ensures |Reports(OneByOne(k), 100, lastReported, interval)| == Allowance(lastReported, interval)
    decreases 100 - k
  {
    var counts := OneByOne(k);
    assert counts[1..] == OneByOne(k + 1) && PercentInt(k, 100) == k;
    if k < 100 {
      StepsOfDivision(k, interval);
      if ShouldReport(k, lastReported, interval, false) {
        TightFrom(k + 1, k, interval);
      } else {
        TightFrom(k + 1, lastReported, interval);
      }
    }
  }

  lemma StepsOfDivision(k: nat, interval: nat)
    requires 0 < interval && 0 < k
    ensures k / interval == (k - 1) / interval + (if k % interval == 0 then 1 else 0)
    ensures k < interval ==> k / interval == 0
    ensures k == interval ==> k / interval == 1 && k % interval == 0
  {
    var q, r := (k - 1) / interval, (k - 1) % interval;
    assert k - 1 == interval * q + r;
    if r + 1 == interval {
      assert k == interval * (q + 1);
      DivModUnique(k, interval, q + 1, 0);
    } else {
      DivModUnique(k, interval, q, r + 1);
    }
    if k <= interval {
      DivModUnique(k, interval, if k == interval then 1 else 0, if k == interval then 0 else k);
    }
  }

  lemma DivModUnique(x: nat, d: nat, q: nat, r: nat)
    requires 0 < d && r < d && x == d * q + r
    ensures x / d == q && x % d == r
  {
    var q', r' := x / d, x % d;
    assert x == d * q' + r' && r' < d;
    MulMonotone(d, q' + 1, q);
    MulMonotone(d, q + 1, q');
  }

  /** A 100 byte file copied byte by byte attains the bound for every interval below 100. */
  lemma BoundIsAttained(interval: nat)
    requires 0 < interval <= 99
    ensures |Reports(OneByOne(1), 100, -1, interval)| == 99 / interval + 1
  {
    TightFrom(1, -1, interval);
  }
}
