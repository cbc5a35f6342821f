/** The table of current entries, one per path, and the statistics drawn from it. */
module CurrentFiles {
  import opened Wrappers
  import opened TrackedFiles
  import opened OrderedDict
  import opened Selection

  /** Whether the fold lets `f` take the place of its path's entry in `current`. */
  predicate TakesOver(current: Dict<Path, TrackedFile>, f: TrackedFile, filter: Filter) {
    Admits(filter, f.status) && (f.path !in current.vals || Better(FoldTable, f, current.vals[f.path]))
  }

  /** One pass over all entries in insertion order, keeping the current one of each path. */
  function Latest(files: seq<TrackedFile>, filter: Filter): (current: Dict<Path, TrackedFile>)
    ensures current.Valid()
  {
    if files == [] then Empty()
    else
      var current := Latest(files[..|files| - 1], filter);
      var f := files[|files| - 1];
      if TakesOver(current, f, filter) then current.Put(f.path, f) else current
  }

  /** The table holds, for each path, exactly the entry the path's own selection picks. */
  lemma {:induction false} LatestIsPick(files: seq<TrackedFile>, filter: Filter, p: Path)
    ensures var current := Latest(files, filter);
      Pick(FoldTable, files, p, filter) == if p in current.vals then Some(current.vals[p]) else None
    decreases |files|
  {
    hide Better;
    if files != [] {
      LatestIsPick(files[..|files| - 1], filter, p);
    }
  }

  lemma {:induction false} LatestKnowsItsPath(files: seq<TrackedFile>, filter: Filter)
    ensures forall p :: p in Latest(files, filter).vals ==>
      Latest(files, filter).vals[p].path == p && Latest(files, filter).vals[p] in files
    decreases |files|
  {
    hide Better;
    if files != [] {
      LatestKnowsItsPath(files[..|files| - 1], filter);
    }
  }

  /** The paths of a list of entries. */
  function PathsOf(files: seq<TrackedFile>): set<Path> {
    set f | f in files :: f.path
  }

  lemma {:induction false} LatestCoversPaths(files: seq<TrackedFile>)
    ensures Latest(files, AnyStatus).vals.Keys == PathsOf(files)
    decreases |files|
  {
    hide Better;
    if files != [] {
      var front, f := files[..|files| - 1], files[|files| - 1];
      LatestCoversPaths(front);
      assert files == front + [f];
      assert PathsOf(files) == PathsOf(front) + {f.path};
    }
  }

  // ----- Statistics

  function CountStatus(files: seq<TrackedFile>, s: FileStatus): nat {
    if files == [] then 0 else CountStatus(files[..|files| - 1], s) + (if files[|files| - 1].status == s then 1 else 0)
  }

  function TotalSize(files: seq<TrackedFile>): nat {
    if files == [] then 0 else TotalSize(files[..|files| - 1]) + files[|files| - 1].size
  }

  /** The total is the size of a single entry, and adds up over parts of a list. */
  lemma {:induction false} TotalSizeAddsUp(a: seq<TrackedFile>, b: seq<TrackedFile>)
    ensures TotalSize(a + b) == TotalSize(a) + TotalSize(b)
    ensures |b| == 1 ==> TotalSize(b) == b[0].size
    decreases |b|
  {
    if b == [] {
      assert a + b == a;
    } else {
      var front := b[..|b| - 1];
      assert (a + b)[..|a + b| - 1] == a + front;
      TotalSizeAddsUp(a, front);
    }
  }

  /** The sum of the counts of the given statuses. */
  function SumOfCounts(files: seq<TrackedFile>, statuses: seq<FileStatus>): nat {
    if statuses == [] then 0
    else SumOfCounts(files, statuses[..|statuses| - 1]) + CountStatus(files, statuses[|statuses| - 1])
  }

  lemma {:induction false} SumGrowsByOne(files: seq<TrackedFile>, statuses: seq<FileStatus>)
    requires files != []
    ensures SumOfCounts(files, statuses)
      == SumOfCounts(files[..|files| - 1], statuses) + multiset(statuses)[files[|files| - 1].status]
    decreases |statuses|
  {
    if statuses != [] {
      var front, s := statuses[..|statuses| - 1], statuses[|statuses| - 1];
      SumGrowsByOne(files, front);
      assert statuses == front + [s];
    }
  }

  lemma {:induction false} EmptySum(statuses: seq<FileStatus>)
    ensures SumOfCounts([], statuses) == 0
    decreases |statuses|
  {
    if statuses != [] {
      EmptySum(statuses[..|statuses| - 1]);
    }
  }

  lemma EachStatusOnce(s: FileStatus)
    ensures multiset(ALL_STATUSES)[s] == 1
  {
    ActiveIsNotTerminal(s);
    forall i, j | 0 <= i < j < |ALL_STATUSES| ensures ALL_STATUSES[i] != ALL_STATUSES[j] {
      StatusAtPosition(i);
      StatusAtPosition(j);
    }
    CountedOnce(ALL_STATUSES, s);
  }

  lemma {:induction false} CountedOnce(statuses: seq<FileStatus>, s: FileStatus)
    requires NoDuplicates(statuses)
    ensures multiset(statuses)[s] == if s in statuses then 1 else 0
    decreases |statuses|
  {
    if statuses != [] {
      var front, last := statuses[..|statuses| - 1], statuses[|statuses| - 1];
      CountedOnce(front, s);
      assert statuses == front + [last] && last !in front;
    }
  }

  lemma {:induction false} CountsAddUp(files: seq<TrackedFile>)
    ensures SumOfCounts(files, ALL_STATUSES) == |files|
    decreases |files|
  {
    if files == [] {
      EmptySum(ALL_STATUSES);
    } else {
      SumGrowsByOne(files, ALL_STATUSES);
      EachStatusOnce(files[|files| - 1].status);
      CountsAddUp(files[..|files| - 1]);
    }
  }

  /** The per-status counts of the statistics add up to the number of distinct tracked paths. */
  lemma CountsSumToPaths(files: seq<TrackedFile>)
    ensures var current := Latest(files, AnyStatus).Values();
      SumOfCounts(current, ALL_STATUSES) == |current| == |PathsOf(files)|
  {
    var table := Latest(files, AnyStatus);
    CountsAddUp(table.Values());
    LatestCoversPaths(files);
    DistinctCount(table.keys);
    assert ToSet(table.keys) == PathsOf(files);
  }
}
