/** The selection in terms of the order in which the statuses of a path's entries count. */
module SelectionOrder {
  import opened Wrappers
  import opened TrackedFiles
  import opened Selection

  /** Statuses of work in progress, the furthest along first. */
  const WORKING: seq<set<FileStatus>> := [
    {Copying}, {InQueue}, {GrowingCopy}, {ReadyToStartGrowing}, {Ready}, {Growing}, {Discovered}
  ]

  /** Which statuses count first; statuses listed together count alike. */
  function Order(t: Table): seq<set<FileStatus>> {
    match t
    case CurrentTable =>
      WORKING + [{WaitingForSpace}, {WaitingForNetwork}, {Completed}, {Failed}, {Removed}, {SpaceError}]
    case ActiveTable => WORKING + [{WaitingForSpace, WaitingForNetwork}, {SpaceError}, {Completed, Failed, Removed}]
    case FoldTable =>
      WORKING + [{WaitingForSpace, WaitingForNetwork}, {Completed}, {Failed}, {Removed}, {SpaceError}]
  }

  /**
   Entry `k` is eligible, no eligible entry has a status that counts before its own, and of those that count
   alike none was discovered later, nor at the same time and added earlier.
   */
  ghost predicate CountsFirst(t: Table, files: seq<TrackedFile>, p: Path, filter: Filter, k: int) {
    && 0 <= k < |files| && Eligible(files[k], p, filter)
    && exists g :: 0 <= g < |Order(t)| && files[k].status in Order(t)[g] && FirstOfGroup(t, files, p, filter, k, g)
  }

  ghost predicate FirstOfGroup(t: Table, files: seq<TrackedFile>, p: Path, filter: Filter, k: int, g: int)
    requires 0 <= k < |files| && 0 <= g < |Order(t)|
  {
    forall j :: 0 <= j < |files| && Eligible(files[j], p, filter) ==>
      && (forall h :: 0 <= h < g ==> files[j].status !in Order(t)[h])
      && (files[j].status in Order(t)[g] ==>
            && files[j].discoveredAt <= files[k].discoveredAt
            && (j < k ==> files[j].discoveredAt < files[k].discoveredAt))
  }

  /** The place of a status in the order. */
  function Place(t: Table, s: FileStatus): (g: nat)
    ensures g < |Order(t)| && s in Order(t)[g]
  {
    match s
    case Copying => 0
    case InQueue => 1
    case GrowingCopy => 2
    case ReadyToStartGrowing => 3
    case Ready => 4
    case Growing => 5
    case Discovered => 6
    case WaitingForSpace => 7
    case WaitingForNetwork => if t.CurrentTable? then 8 else 7
    case Completed => if t.FoldTable? then 8 else 9
    case Failed => if t.CurrentTable? then 10 else 9
    case Removed => if t.CurrentTable? then 11 else if t.ActiveTable? then 9 else 10
    case SpaceError => if t.CurrentTable? then 12 else if t.ActiveTable? then 8 else 11
  }

  /** Every status has one place only. */
  lemma PlaceIsUnique(t: Table, s: FileStatus, g: nat)
    requires g < |Order(t)| && s in Order(t)[g]
    ensures g == Place(t, s)
  {
    hide Order, Place;
    match t
    case CurrentTable => PlaceInCurrent(s, g);
    case ActiveTable => PlaceInActive(s, g);
    case FoldTable => PlaceInFold(s, g);
  }

  lemma PlaceInCurrent(s: FileStatus, g: nat)
    requires g < |Order(CurrentTable)| && s in Order(CurrentTable)[g]
    ensures g == Place(CurrentTable, s)
  {
  }

  lemma PlaceInActive(s: FileStatus, g: nat)
    requires g < |Order(ActiveTable)| && s in Order(ActiveTable)[g]
    ensures g == Place(ActiveTable, s)
  {
  }

  lemma PlaceInFold(s: FileStatus, g: nat)
    requires g < |Order(FoldTable)| && s in Order(FoldTable)[g]
    ensures g == Place(FoldTable, s)
  {
  }

  lemma BetterByPlace(t: Table, a: TrackedFile, b: TrackedFile)
    ensures Better(t, a, b)
      <==> || Place(t, a.status) < Place(t, b.status)
           || (Place(t, a.status) == Place(t, b.status) && a.discoveredAt > b.discoveredAt)
  {
    RankByPlace(t, a.status, b.status);
    RankByPlace(t, b.status, a.status);
    hide Rank, Place;
  }

  lemma RankByPlace(t: Table, a: FileStatus, b: FileStatus)
    ensures Rank(t, a) < Rank(t, b) <==> Place(t, a) < Place(t, b)
  {
  }

  /** Being best by rank is the same as counting first in the order. */
  lemma FirstBestIffCountsFirst(t: Table, files: seq<TrackedFile>, p: Path, filter: Filter, k: int)
    ensures FirstBest(t, files, p, filter, k) <==> CountsFirst(t, files, p, filter, k)
  {
    hide Better, Place, Order, Eligible;
    if 0 <= k < |files| && Eligible(files[k], p, filter) {
      var g := Place(t, files[k].status);
      forall j | 0 <= j < |files|
        ensures Better(t, files[j], files[k]) <==>
          || Place(t, files[j].status) < g
          || (Place(t, files[j].status) == g && files[j].discoveredAt > files[k].discoveredAt)
        ensures Better(t, files[k], files[j]) <==>
          || g < Place(t, files[j].status)
          || (Place(t, files[j].status) == g && files[k].discoveredAt > files[j].discoveredAt)
        ensures forall h :: 0 <= h < |Order(t)| && files[j].status in Order(t)[h] ==> h == Place(t, files[j].status)
      {
        BetterByPlace(t, files[j], files[k]);
        BetterByPlace(t, files[k], files[j]);
        forall h | 0 <= h < |Order(t)| && files[j].status in Order(t)[h] ensures h == Place(t, files[j].status) {
          PlaceIsUnique(t, files[j].status, h);
        }
      }
      assert FirstOfGroup(t, files, p, filter, k, g) <==> FirstBest(t, files, p, filter, k);
    }
  }

  /** The selection picks exactly the entry that counts first, and one whenever there is one. */
  lemma PickCountsFirst(t: Table, files: seq<TrackedFile>, p: Path, filter: Filter)
    ensures forall k :: 0 <= k < |files| && CountsFirst(t, files, p, filter, k) ==>
      Pick(t, files, p, filter) == Some(files[k])
    ensures var best := Pick(t, files, p, filter);
      if best.Some? then exists k :: CountsFirst(t, files, p, filter, k) && files[k] == best.value
      else forall j :: 0 <= j < |files| ==> !Eligible(files[j], p, filter)
  {
    hide Better, Order, Eligible, CountsFirst, Pick;
    PickIsFirstBest(t, files, p, filter);
    forall k | 0 <= k < |files| && CountsFirst(t, files, p, filter, k)
      ensures Pick(t, files, p, filter) == Some(files[k])
    {
      FirstBestIffCountsFirst(t, files, p, filter, k);
      FirstBestIsUnique(t, files, p, filter, k);
    }
    if Pick(t, files, p, filter).Some? {
      var k :| FirstBest(t, files, p, filter, k) && files[k] == Pick(t, files, p, filter).value;
      FirstBestIffCountsFirst(t, files, p, filter, k);
    }
  }

  /** Beside no active entry, one that is completed is what the lookup shows and what the fold keeps. */
  lemma CompletedIsShown(t: Table, files: seq<TrackedFile>, p: Path)
    requires !t.ActiveTable? && Has(files, p, Completed)
    requires forall j :: 0 <= j < |files| && files[j].path == p ==> IsTerminal(files[j].status)
    ensures var best := Pick(t, files, p, AnyStatus); best.Some? && best.value.status == Completed
  {
    hide Pick, Order, FirstOfGroup;
    PickCountsFirst(t, files, p, AnyStatus);
    var j :| 0 <= j < |files| && files[j].path == p && files[j].status == Completed;
    assert Eligible(files[j], p, AnyStatus);
    var k :| CountsFirst(t, files, p, AnyStatus, k) && files[k] == Pick(t, files, p, AnyStatus).value;
    var g :| 0 <= g < |Order(t)| && files[k].status in Order(t)[g] && FirstOfGroup(t, files, p, AnyStatus, k, g);
    CompletedComesFirst(t, files, p, j, k, g);
  }

  lemma CompletedComesFirst(t: Table, files: seq<TrackedFile>, p: Path, j: nat, k: nat, g: nat)
    requires !t.ActiveTable? && j < |files| && k < |files| && g < |Order(t)|
    requires files[j].path == p && files[j].status == Completed && IsTerminal(files[k].status)
    requires files[k].status in Order(t)[g] && FirstOfGroup(t, files, p, AnyStatus, k, g)
    ensures files[k].status == Completed
  {
    var h := Place(t, Completed);
    PlaceIsUnique(t, files[k].status, g);
    assert files[j].status in Order(t)[h];
    assert Eligible(files[j], p, AnyStatus);
  }
}
