/** Choosing the current entry among the history a path has: three rank tables and one fold. */
module Selection {
  import opened Wrappers
  import opened TrackedFiles

  /** The three tables of the state manager. */
  datatype Table =
    | CurrentTable   // the sort key behind lookups by path
    | ActiveTable    // the sort key among active entries
    | FoldTable      // the comparison behind cleanup, queries by status and statistics

  function Rank(t: Table, s: FileStatus): nat {
    match s
    case Copying => 1
    case InQueue => 2
    case GrowingCopy => 3
    case ReadyToStartGrowing => 4
    case Ready => 5
    case Growing => 6
    case Discovered => 7
    case WaitingForSpace => 8
    case WaitingForNetwork => if t.CurrentTable? then 9 else 8
    case Completed => if t.CurrentTable? then 10 else if t.FoldTable? then 9 else 99
    case Failed => if t.CurrentTable? then 11 else if t.FoldTable? then 10 else 99
    case Removed => if t.CurrentTable? then 12 else if t.FoldTable? then 11 else 99
    case SpaceError => if t.CurrentTable? then 13 else if t.FoldTable? then 12 else 9
  }

  /** `a` ranks strictly before `b`; among equal ranks the later discovery does. */
  predicate Better(t: Table, a: TrackedFile, b: TrackedFile) {
    if Rank(t, a.status) != Rank(t, b.status) then Rank(t, a.status) < Rank(t, b.status)
    else a.discoveredAt > b.discoveredAt
  }

  datatype Filter = AnyStatus | ActiveOnly | Exactly(status: FileStatus)

  predicate Admits(filter: Filter, s: FileStatus) {
    match filter
    case AnyStatus => true
    case ActiveOnly => IsActive(s)
    case Exactly(status) => s == status
  }

  predicate Eligible(f: TrackedFile, p: Path, filter: Filter) {
    f.path == p && Admits(filter, f.status)
  }

  /** Keeps the candidate so far unless the newcomer is strictly better. */
  function Keep(t: Table, best: Option<TrackedFile>, f: TrackedFile): Option<TrackedFile> {
    if best.None? || Better(t, f, best.value) then Some(f) else best
  }

  /** The entry picked for path `p`, scanning in insertion order. */
  function Pick(t: Table, files: seq<TrackedFile>, p: Path, filter: Filter): Option<TrackedFile> {
    if files == [] then None
    else
      var best := Pick(t, files[..|files| - 1], p, filter);
      var f := files[|files| - 1];
      if Eligible(f, p, filter) then Keep(t, best, f) else best
  }

  /** Position `k` holds the best eligible entry, the first-inserted one among equals. */
  ghost predicate FirstBest(t: Table, files: seq<TrackedFile>, p: Path, filter: Filter, k: int) {
    && 0 <= k < |files| && Eligible(files[k], p, filter)
    && (forall j :: 0 <= j < |files| && Eligible(files[j], p, filter) ==> !Better(t, files[j], files[k]))
    && (forall j :: 0 <= j < k && Eligible(files[j], p, filter) ==> Better(t, files[k], files[j]))
  }

  /** Ranking is a strict weak order. */
  lemma BetterChain(t: Table, a: TrackedFile, b: TrackedFile, c: TrackedFile)
    ensures Better(t, a, b) && !Better(t, c, b) ==> Better(t, a, c)
    ensures Better(t, a, b) ==> !Better(t, b, a)
  {
  }

  /** Position `k` is still the best when the last entry does not replace it. */
  lemma BestStays(t: Table, files: seq<TrackedFile>, p: Path, filter: Filter, k: int)
    requires files != [] && FirstBest(t, files[..|files| - 1], p, filter, k)
    requires !(Eligible(files[|files| - 1], p, filter) && Better(t, files[|files| - 1], files[k]))
    ensures FirstBest(t, files, p, filter, k)
  {
    hide Better, Eligible;
    var front := files[..|files| - 1];
    assert forall j :: 0 <= j < |front| ==> front[j] == files[j];
  }

  /** The last entry is the first-inserted best one if it is better than the best before it. */
  lemma BestIsReplaced(t: Table, files: seq<TrackedFile>, p: Path, filter: Filter, k: int)
    requires files != [] && FirstBest(t, files[..|files| - 1], p, filter, k)
    requires Eligible(files[|files| - 1], p, filter) && Better(t, files[|files| - 1], files[k])
    ensures FirstBest(t, files, p, filter, |files| - 1)
  {
    hide Better, Eligible;
    var n := |files| - 1;
    var front := files[..n];
    forall j | 0 <= j < n && Eligible(files[j], p, filter)
      ensures Better(t, files[n], files[j]) && !Better(t, files[j], files[n])
    {
      assert front[j] == files[j] && front[k] == files[k];
      BetterChain(t, files[n], files[k], files[j]);
      BetterChain(t, files[n], files[j], files[k]);
    }
    BetterChain(t, files[n], files[n], files[n]);
  }

  /** The scan finds the first-inserted best entry, and finds one whenever there is one. */
  lemma {:induction false} PickIsFirstBest(t: Table, files: seq<TrackedFile>, p: Path, filter: Filter)
    ensures var best := Pick(t, files, p, filter);
      if best.Some? then exists k :: FirstBest(t, files, p, filter, k) && files[k] == best.value
      else forall j :: 0 <= j < |files| ==> !Eligible(files[j], p, filter)
    decreases |files|
  {
    hide Better, Eligible;
    if files != [] {
      var n := |files| - 1;
      var front := files[..n];
      PickIsFirstBest(t, front, p, filter);
      var best := Pick(t, front, p, filter);
      assert forall j :: 0 <= j < n ==> front[j] == files[j];
      if best.Some? {
        var k :| FirstBest(t, front, p, filter, k) && front[k] == best.value;
        hide FirstBest;
        if Eligible(files[n], p, filter) && Better(t, files[n], best.value) {
          BestIsReplaced(t, files, p, filter, k);
        } else {
          BestStays(t, files, p, filter, k);
        }
      } else if Eligible(files[n], p, filter) {
        BetterChain(t, files[n], files[n], files[n]);
        assert FirstBest(t, files, p, filter, n);
      }
    }
  }

  /** There is only one first-inserted best entry. */
  lemma FirstBestIsUnique(t: Table, files: seq<TrackedFile>, p: Path, filter: Filter, k: int)
    requires FirstBest(t, files, p, filter, k)
    ensures Pick(t, files, p, filter) == Some(files[k])
  {
    PickIsFirstBest(t, files, p, filter);
    var i :| FirstBest(t, files, p, filter, i) && files[i] == Pick(t, files, p, filter).value;
    assert !Better(t, files[i], files[k]) && !Better(t, files[k], files[i]);
    assert !(i < k) && !(k < i);
  }

  // ----- Where the tables disagree

  predicate Has(files: seq<TrackedFile>, p: Path, s: FileStatus) {
    exists j :: 0 <= j < |files| && files[j].path == p && files[j].status == s
  }

  predicate Waiting(s: FileStatus) {
    s == WaitingForSpace || s == WaitingForNetwork
  }

  /** The two tables order a pair alike, unless one waits for space and the other for the network. */
  lemma SameOrder(a: TrackedFile, b: TrackedFile)
    ensures a.status == b.status || !Waiting(a.status) || !Waiting(b.status) ==>
      (Better(CurrentTable, a, b) <==> Better(FoldTable, a, b))
    ensures a.status == WaitingForSpace && b.status == WaitingForNetwork ==>
      Better(CurrentTable, a, b) && !Better(CurrentTable, b, a)
  {
  }

  /**
   The lookup by path and the cleanup's fold pick the same entry, except exactly when the fold picks a
   file waiting for the network while another entry of the path waits for space.
   */
  lemma TablesAgreeIff(files: seq<TrackedFile>, p: Path)
    ensures Pick(CurrentTable, files, p, AnyStatus) == Pick(FoldTable, files, p, AnyStatus)
      <==> !(Pick(FoldTable, files, p, AnyStatus).Some?
             && Pick(FoldTable, files, p, AnyStatus).value.status == WaitingForNetwork
             && Has(files, p, WaitingForSpace))
  {
    hide Better, Pick;
    PickIsFirstBest(FoldTable, files, p, AnyStatus);
    PickIsFirstBest(CurrentTable, files, p, AnyStatus);
    var fold := Pick(FoldTable, files, p, AnyStatus);
    if fold.Some? {
      var k :| FirstBest(FoldTable, files, p, AnyStatus, k) && files[k] == fold.value;
      if fold.value.status == WaitingForNetwork && Has(files, p, WaitingForSpace) {
        var j :| 0 <= j < |files| && files[j].path == p && files[j].status == WaitingForSpace;
        SameOrder(files[j], files[k]);
        assert Eligible(files[j], p, AnyStatus);
      } else {
        forall j | 0 <= j < |files| && Eligible(files[j], p, AnyStatus)
          ensures !Better(CurrentTable, files[j], files[k]) && (j < k ==> Better(CurrentTable, files[k], files[j]))
        {
          SameOrder(files[j], files[k]);
          SameOrder(files[k], files[j]);
        }
        FirstBestIsUnique(CurrentTable, files, p, AnyStatus, k);
      }
    }
  }

  /** No path has two active entries. */
  ghost predicate OneActiveIn(files: seq<TrackedFile>) {
    forall i, j :: 0 <= i < j < |files| && files[i].path == files[j].path ==>
      !(IsActive(files[i].status) && IsActive(files[j].status))
  }

  /** With one active entry per path the tables never disagree. */
  lemma TablesAgree(files: seq<TrackedFile>, p: Path)
    requires OneActiveIn(files)
    ensures Pick(CurrentTable, files, p, AnyStatus) == Pick(FoldTable, files, p, AnyStatus)
  {
    hide Pick, Better;
    TablesAgreeIff(files, p);
    PickIsFirstBest(FoldTable, files, p, AnyStatus);
  }

  predicate HasTerminal(files: seq<TrackedFile>, p: Path) {
    exists j :: 0 <= j < |files| && files[j].path == p && IsTerminal(files[j].status)
  }

  lemma ActiveEntryIsPicked(files: seq<TrackedFile>, k: int)
    requires OneActiveIn(files) && 0 <= k < |files| && IsActive(files[k].status)
    ensures Pick(ActiveTable, files, files[k].path, ActiveOnly) == Some(files[k])
  {
    hide Pick, Better;
    BetterChain(ActiveTable, files[k], files[k], files[k]);
    assert forall j :: 0 <= j < |files| && j != k ==> !Eligible(files[j], files[k].path, ActiveOnly);
    assert FirstBest(ActiveTable, files, files[k].path, ActiveOnly, k);
    FirstBestIsUnique(ActiveTable, files, files[k].path, ActiveOnly, k);
  }

  /** Every active entry ranks before every terminal one, except a permanent space error. */
  lemma ActiveBeforeTerminal(a: TrackedFile, b: TrackedFile)
    requires IsActive(a.status) && IsTerminal(b.status)
    ensures if a.status == SpaceError then Better(CurrentTable, b, a) && !Better(CurrentTable, a, b)
            else Better(CurrentTable, a, b) && !Better(CurrentTable, b, a)
  {
  }

  /**
   With one active entry per path, the lookup by path returns the active entry, except exactly when
   that entry is in a permanent space error and the path has terminal history, which then shadows it.
   */
  lemma CurrentIsActiveIff(files: seq<TrackedFile>, k: int)
    requires OneActiveIn(files) && 0 <= k < |files| && IsActive(files[k].status)
    ensures Pick(CurrentTable, files, files[k].path, AnyStatus) == Some(files[k])
      <==> !(files[k].status == SpaceError && HasTerminal(files, files[k].path))
  {
    hide Better, Pick;
    var p := files[k].path;
    PickIsFirstBest(CurrentTable, files, p, AnyStatus);
    if files[k].status == SpaceError && HasTerminal(files, p) {
      var j :| 0 <= j < |files| && files[j].path == p && IsTerminal(files[j].status);
      ActiveBeforeTerminal(files[k], files[j]);
      assert Eligible(files[j], p, AnyStatus);
    } else {
      forall j | 0 <= j < |files| && Eligible(files[j], p, AnyStatus) && j != k
        ensures Better(CurrentTable, files[k], files[j]) && !Better(CurrentTable, files[j], files[k])
      {
        ActiveIsNotTerminal(files[j].status);
        ActiveBeforeTerminal(files[k], files[j]);
      }
      BetterChain(CurrentTable, files[k], files[k], files[k]);
      assert FirstBest(CurrentTable, files, p, AnyStatus, k);
      FirstBestIsUnique(CurrentTable, files, p, AnyStatus, k);
    }
  }
}
