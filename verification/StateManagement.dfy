/** The repository and the state manager as the objects the program runs. */
module StateManagement {
  import opened Wrappers
  import opened TrackedFiles
  import opened OrderedDict
  import opened Selection
  import opened SelectionOrder
  import opened CurrentFiles
  import opened Registries
  import opened NetworkRecovery

  /** The plain store: a dictionary of entries by id. */
  class FileRepository {
    var filesById: Dict<Id, TrackedFile>

    constructor ()
      ensures filesById == Empty()
    {
      filesById := Empty();
    }

    function GetById(id: Id): Option<TrackedFile>
      reads this
    {
      if id in filesById.vals then Some(filesById.vals[id]) else None
    }

    function GetAll(): seq<TrackedFile>
      requires filesById.Valid()
      reads this
    {
      filesById.Values()
    }

    method Add(f: TrackedFile)
      modifies this
      ensures filesById == old(filesById).Put(f.id, f)
    {
      filesById := filesById.Put(f.id, f);
    }

    method Remove(id: Id) returns (removed: bool)
      requires filesById.Valid()
      modifies this
      ensures removed == (id in old(filesById).vals)
      ensures filesById == old(filesById).Remove(id)
    {
      removed := id in filesById.vals;
      if removed {
        filesById := filesById.Remove(id);
      } else {
        RemoveAbsent(filesById, id);
      }
    }
  }

  lemma RemoveAbsent(d: Dict<Id, TrackedFile>, id: Id)
    requires d.Valid() && id !in d.vals
    ensures d.Remove(id) == d
  {
    WithoutAbsent(d.keys, id);
  }

  lemma {:induction false} WithoutAbsent(keys: seq<Id>, k: Id)
    requires k !in keys
    ensures Without(keys, k) == keys
    decreases |keys|
  {
    if keys != [] {
      WithoutAbsent(keys[..|keys| - 1], k);
    }
  }

  class StateManager {
    const repository: FileRepository
    var retryTasks: map<Id, RetryTask>
    var nextId: Id

    constructor (repository: FileRepository)
      requires repository.filesById == Empty()
      ensures this.repository == repository && Sound(State())
    {
      this.repository := repository;
      retryTasks := map[];
      nextId := 0;
    }

    /** The registry this object and its repository hold. */
    ghost function State(): Registry
      reads this, repository
    {
      Registry(repository.filesById, retryTasks, nextId)
    }

    /** The entry of a path that counts first, among those a filter admits. */
    method PickForPath(t: Table, path: Path, filter: Filter) returns (best: Option<TrackedFile>)
      requires State().Valid()
      ensures best == Pick(t, State().Listing(), path, filter)
      ensures best.Some? ==>
        exists k :: CountsFirst(t, State().Listing(), path, filter, k) && State().Listing()[k] == best.value
      ensures best.None? <==>
        forall k :: 0 <= k < |State().Listing()| ==> !Eligible(State().Listing()[k], path, filter)
    {
      hide FirstOfGroup, Order, Pick, Eligible;
      PickCountsFirst(t, State().Listing(), path, filter);
      best := PickAmong(t, repository.GetAll(), path, filter);
    }

    method AddFile(path: Path, size: nat, now: Time) returns (f: TrackedFile)
      requires Backed(State())
      modifies this, repository
      ensures State() == Registries.AddFile(old(State()), path, size, now).0
      ensures f.id == Registries.AddFile(old(State()), path, size, now).1
      ensures KeepsSound(old(State()), State()) && repository.GetById(f.id) == Some(f) && f.path == path
        && IsActive(f.status)
    {
      AddFileIsSound(State(), path, size, now);
      var active := PickForPath(ActiveTable, path, ActiveOnly);
      if active.Some? {
        PickedIsTracked(State(), ActiveTable, path, ActiveOnly);
        return active.value;
      }
      f := NewTrackedFile(nextId, path, size, now);
      nextId := nextId + 1;
      repository.Add(f);
    }

    /** The entry shown for a path; one marked removed is not shown. */
    method GetFileByPath(path: Path) returns (f: Option<TrackedFile>)
      requires State().Valid()
      ensures var current := Pick(CurrentTable, State().Listing(), path, AnyStatus);
        f == if current.Some? && current.value.status == Removed then None else current
      ensures forall k ::
        0 <= k < |State().Listing()| && CountsFirst(CurrentTable, State().Listing(), path, AnyStatus, k) ==>
          f == if State().Listing()[k].status == Removed then None else Some(State().Listing()[k])
    {
      hide CountsFirst;
      PickCountsFirst(CurrentTable, State().Listing(), path, AnyStatus);
      f := PickForPath(CurrentTable, path, AnyStatus);
      if f.Some? && f.value.status == Removed {
        f := None;
      }
    }

    /** Whether the scanner leaves the path alone because of a recent permanent space error. */
    method ShouldSkipFileProcessing(path: Path, cooldown: Time, now: Time) returns (skip: bool)
      requires State().Valid()
      ensures skip <==> exists k :: 0 <= k < |State().Listing()| && HoldsBack(State().Listing(), k, path, cooldown, now)
      ensures OneActive(State()) ==>
        (skip <==> exists k :: 0 <= k < |State().Listing()| && CoolsDown(State().Listing(), k, path, cooldown, now))
    {
      var current := PickForPath(CurrentTable, path, AnyStatus);
      skip := current.Some? && current.value.status == SpaceError && InCooldown(current.value, cooldown, now);
      SkipIffHeldBack(State().Listing(), path, cooldown, now);
      if OneActive(State()) {
        ListingHasOneActive(State());
        SkipIffCoolsDown(State().Listing(), path, cooldown, now);
      }
    }

    /** Takes the entry's retry out of the task table and off the entry. */
    method CancelExistingRetry(id: Id) returns (cancelled: bool)
      requires State().Valid()
      modifies this, repository
      ensures (State(), cancelled) == CancelRetry(old(State()), id) && State().Valid()
    {
      cancelled := id in retryTasks;
      retryTasks := retryTasks - {id};
      var f := repository.GetById(id);
      if f.Some? && f.value.retry.Some? {
        repository.Add(f.value.(retry := None));
        cancelled := true;
      }
    }

    /** Sets the status, drops a terminal entry's retry, applies the patch, stamps the time. */
    method UpdateFileStatusById(id: Id, status: FileStatus, patch: Patch, now: Time) returns (f: Option<TrackedFile>)
      requires State().Valid()
      modifies this, repository
      ensures State() == UpdateStatus(old(State()), id, status, patch, now) && State().Valid()
      ensures f == repository.GetById(id)
    {
      hide Apply, Stamp;
      f := repository.GetById(id);
      if f.None? {
        return;
      }
      UpdateStatusIsValid(State(), id, status, patch, now);
      ghost var before := repository.filesById;
      var g := f.value.(status := status);
      if IsTerminal(status) {
        PutTwice(before, id, f.value.(retry := None), Updated(f.value, status, patch, now));
        var cancelled := CancelExistingRetry(id);
        g := g.(retry := None);
      }
      g := Stamp(Apply(patch, g), now);
      assert g == Updated(f.value, status, patch, now);
      repository.Add(g);
      assert repository.filesById == before.Put(id, g);
      f := Some(g);
    }

    /** Replaces any retry of the entry by a new one due after `delay`. */
    method ScheduleRetry(id: Id, delay: nat, now: Time) returns (scheduled: bool)
      requires State().Valid()
      modifies this, repository
      ensures (State(), scheduled) == Registries.ScheduleRetry(old(State()), id, delay, now) && State().Valid()
    {
      var f := repository.GetById(id);
      if f.None? {
        return false;
      }
      RetryStepsAreValid(State(), id, delay, now);
      var scheduledFile := f.value.(retry := Some(RetryInfo(now, now + delay)));
      PutTwice(repository.filesById, id, f.value.(retry := None), scheduledFile);
      var cancelled := CancelExistingRetry(id);
      retryTasks := retryTasks[id := Pending(now + delay)];
      repository.Add(scheduledFile);
      scheduled := true;
    }

    /** What a retry task does once its sleep is over. */
    method ExecuteRetryTask(id: Id)
      requires Backed(State()) && id in retryTasks && retryTasks[id].Pending?
      modifies this, repository
      ensures State() == FireRetry(old(State()), id) && KeepsSound(old(State()), State())
    {
      FireRetryIsSound(State(), id);
      var f := repository.GetById(id);
      if f.None? || f.value.retry.None? || f.value.status != WaitingForSpace {
        retryTasks := retryTasks[id := Over];
        return;
      }
      repository.Add(f.value.(status := Ready, retry := None));
      retryTasks := retryTasks - {id};
    }

    method IncrementRetryCount(id: Id) returns (count: nat)
      requires State().Valid()
      modifies this, repository
      ensures (State(), count) == Registries.IncrementRetryCount(old(State()), id) && State().Valid()
    {
      var f := repository.GetById(id);
      if f.None? {
        return 0;
      }
      count := f.value.retryCount + 1;
      repository.Add(f.value.(retryCount := count));
    }

    /** The fold over all entries that keeps the current one of each path. */
    method CurrentByPath(filter: Filter) returns (current: Dict<Path, TrackedFile>)
      requires State().Valid()
      ensures current == Latest(State().Listing(), filter)
    {
      hide Better, TakesOver;
      var all := repository.GetAll();
      current := Empty();
      var i := 0;
      while i < |all|
        invariant 0 <= i <= |all|
        invariant current == Latest(all[..i], filter)
      {
        assert all[..i + 1][..i] == all[..i];
        if TakesOver(current, all[i], filter) {
          current := current.Put(all[i].path, all[i]);
        }
        i := i + 1;
      }
      assert all[..i] == all;
    }

    method GetFilesByStatus(status: FileStatus) returns (files: seq<TrackedFile>)
      requires State().Valid()
      ensures files == FilesByStatus(State(), status)
    {
      var current := CurrentByPath(Exactly(status));
      files := current.Values();
    }

    /** Marks the current entry of each missing path as removed and says how many it marked. */
    method CleanupMissingFiles(existing: set<Path>) returns (removedCount: nat)
      requires Backed(State())
      modifies repository
      ensures State() == CleanupMissing(old(State()), existing) && KeepsSound(old(State()), State())
      ensures removedCount == |Changed(old(State()), existing)|
    {
      hide MarkedUpTo, MarkedIds, CleanupMissing, Changed, KeepsSound, RetryHasTask, NoRevival, Latest;
      ghost var r := State();
      CleanupMissingIsSound(r, existing);
      MissingMarks(r, existing);
      var current := CurrentByPath(AnyStatus);
      NoneMarked(r, current, existing);
      removedCount := 0;
      ghost var marked: set<Id> := {};
      var i := 0;
      while i < |current.keys|
        invariant 0 <= i <= |current.keys|
        invariant State().files.keys == r.files.keys && State().tasks == r.tasks && State().nextId == r.nextId
        invariant State().files.vals == MarkedUpTo(r, current, existing, i)
        invariant marked == MarkedIds(r, current, existing, i) && removedCount == |marked|
      {
        CurrentEntry(r, i);
        var path := current.keys[i];
        var f := current.vals[path];
        MarkOneMore(r, existing, i);
        if path !in existing && !KeptWhenMissing(f.status) {
          repository.Add(f.(status := Removed));
          removedCount := removedCount + 1;
          marked := marked + {f.id};
        }
        i := i + 1;
      }
      AllMarked(r, existing);
      CleanupShape(r, existing);
    }

    /** The ids of all entries older than the cutoff, in insertion order. */
    method CollectOldIds(cutoff: Time) returns (ids: seq<Id>)
      requires State().Valid()
      ensures NoDuplicates(ids) && ToSet(ids) == OldIds(State(), cutoff)
    {
      hide AgeStamp, OldIds;
      var all := repository.GetAll();
      ids := [];
      var i := 0;
      while i < |all|
        invariant 0 <= i <= |all|
        invariant ids == OldAmong(all[..i], cutoff)
      {
        assert all[..i + 1][..i] == all[..i];
        if AgeStamp(all[i]) < cutoff {
          ids := ids + [all[i].id];
        }
        i := i + 1;
      }
      assert all[..i] == all;
      OldAmongIsOldIds(State(), cutoff);
    }

    /** Forgets all entries older than the cutoff and says how many there were. */
    method CleanupOldFiles(cutoff: Time) returns (removedCount: nat)
      requires Backed(State())
      modifies repository
      ensures State() == CleanupOld(old(State()), cutoff) && KeepsSound(old(State()), State())
      ensures removedCount == |OldIds(old(State()), cutoff)|
      ensures forall id :: old(State()).Tracks(id) ==>
        (State().Tracks(id) <==> Outlives(old(State()).files.vals[id], cutoff))
    {
      hide OneActive, RetryHasTask, OldIds, Dict.RemoveAll, Dict.Remove, Outlives;
      ghost var files := repository.filesById;
      CleanupOldIsSound(State(), cutoff);
      var toRemove := CollectOldIds(cutoff);
      DistinctCount(toRemove);
      OldIdsAreTracked(State(), cutoff);
      assert ToSet(toRemove[..0]) == {};
      RemoveNone(files);
      removedCount := 0;
      var i := 0;
      while i < |toRemove|
        invariant 0 <= i <= |toRemove| && removedCount == i
        invariant repository.filesById == files.RemoveAll(ToSet(toRemove[..i])) && repository.filesById.Valid()
      {
        var id := toRemove[i];
        assert toRemove[..i + 1] == toRemove[..i] + [id];
        ToSetSnoc(toRemove[..i], id);
        RemoveOneMore(files, ToSet(toRemove[..i]), id);
        assert id in ToSet(toRemove) && id !in toRemove[..i];
        var removed := repository.Remove(id);
        if removed {
          removedCount := removedCount + 1;
        }
        i := i + 1;
      }
      assert toRemove[..i] == toRemove;
    }

    /** One count for each status over the current entries, and their number and size. */
    method GetStatistics() returns (totalFiles: nat, statusCounts: map<FileStatus, nat>, totalSize: nat)
      requires State().Valid()
      ensures var current := CurrentOf(State()).Values();
        && totalFiles == |PathsOf(State().Listing())| == SumOfCounts(current, ALL_STATUSES)
        && (forall s: FileStatus :: s in statusCounts && statusCounts[s] == CountStatus(current, s))
        && totalSize == TotalSize(current)
    {
      hide Latest, SumOfCounts, CountStatus, TotalSize, PathsOf;
      var table := CurrentByPath(AnyStatus);
      var current := table.Values();
      totalFiles := |current|;
      CountsSumToPaths(State().Listing());
      statusCounts := map[];
      var i := 0;
      while i < |ALL_STATUSES|
        invariant 0 <= i <= |ALL_STATUSES|
        invariant forall s :: s in ALL_STATUSES[..i] ==> s in statusCounts
        invariant forall s :: s in statusCounts ==> statusCounts[s] == CountStatus(current, s)
      {
        var s := ALL_STATUSES[i];
        assert ALL_STATUSES[..i + 1] == ALL_STATUSES[..i] + [s];
        var count := CountWithStatus(current, s);
        statusCounts := statusCounts[s := count];
        i := i + 1;
      }
      assert ALL_STATUSES[..i] == ALL_STATUSES;
      forall s: FileStatus ensures s in statusCounts {
        ActiveIsNotTerminal(s);
      }
      totalSize := SumSizes(current);
    }
  }

  /** The minimum by rank and time over the eligible entries: the first one met among equals. */
  method PickAmong(t: Table, files: seq<TrackedFile>, path: Path, filter: Filter) returns (best: Option<TrackedFile>)
    ensures best == Pick(t, files, path, filter)
  {
    hide Better, Eligible;
    best := None;
    var i := 0;
    while i < |files|
      invariant 0 <= i <= |files|
      invariant best == Pick(t, files[..i], path, filter)
    {
      assert files[..i + 1][..i] == files[..i];
      if Eligible(files[i], path, filter) {
        best := Keep(t, best, files[i]);
      }
      i := i + 1;
    }
    assert files[..i] == files;
  }

  method CountWithStatus(files: seq<TrackedFile>, s: FileStatus) returns (count: nat)
    ensures count == CountStatus(files, s)
  {
    count := 0;
    var i := 0;
    while i < |files|
      invariant 0 <= i <= |files| && count == CountStatus(files[..i], s)
    {
      assert files[..i + 1][..i] == files[..i];
      if files[i].status == s {
        count := count + 1;
      }
      i := i + 1;
    }
    assert files[..i] == files;
  }

  method SumSizes(files: seq<TrackedFile>) returns (total: nat)
    ensures total == TotalSize(files)
  {
    total := 0;
    var i := 0;
    while i < |files|
      invariant 0 <= i <= |files| && total == TotalSize(files[..i])
    {
      assert files[..i + 1][..i] == files[..i];
      total := total + files[i].size;
      i := i + 1;
    }
    assert files[..i] == files;
  }

  function OldAmong(files: seq<TrackedFile>, cutoff: Time): seq<Id> {
    if files == [] then []
    else
      OldAmong(files[..|files| - 1], cutoff) +
      (if AgeStamp(files[|files| - 1]) < cutoff then [files[|files| - 1].id] else [])
  }

  lemma {:induction false} OldAmongCollects(files: seq<TrackedFile>, cutoff: Time)
    ensures forall id ::
      id in OldAmong(files, cutoff)
      <==> exists i :: 0 <= i < |files| && files[i].id == id && AgeStamp(files[i]) < cutoff
    decreases |files|
  {
    hide AgeStamp;
    if files != [] {
      var front := files[..|files| - 1];
      OldAmongCollects(front, cutoff);
      forall id
        ensures id in OldAmong(files, cutoff)
          <==> exists i :: 0 <= i < |files| && files[i].id == id && AgeStamp(files[i]) < cutoff
      {
        if id in OldAmong(front, cutoff) {
          var i :| 0 <= i < |front| && front[i].id == id && AgeStamp(front[i]) < cutoff;
          assert files[i] == front[i];
        }
      }
    }
  }

  lemma {:induction false} OldAmongIsDistinct(files: seq<TrackedFile>, cutoff: Time)
    requires forall i, j :: 0 <= i < j < |files| ==> files[i].id != files[j].id
    ensures NoDuplicates(OldAmong(files, cutoff))
    decreases |files|
  {
    hide AgeStamp;
    if files != [] {
      var front, last := files[..|files| - 1], files[|files| - 1];
      OldAmongIsDistinct(front, cutoff);
      OldAmongCollects(front, cutoff);
      assert last.id !in OldAmong(front, cutoff);
    }
  }

  lemma OldAmongIsOldIds(r: Registry, cutoff: Time)
    requires r.Valid()
    ensures NoDuplicates(OldAmong(r.Listing(), cutoff)) && ToSet(OldAmong(r.Listing(), cutoff)) == OldIds(r, cutoff)
  {
    hide AgeStamp, OldAmong;
    ListingOf(r);
    OldAmongCollects(r.Listing(), cutoff);
    forall i | 0 <= i < |r.Listing()| ensures r.Listing()[i].id == r.files.keys[i] {
    }
    OldAmongIsDistinct(r.Listing(), cutoff);
    forall id ensures id in OldAmong(r.Listing(), cutoff) <==> id in OldIds(r, cutoff) {
      if id in OldIds(r, cutoff) {
        var i :| 0 <= i < |r.Listing()| && r.Listing()[i] == r.files.vals[id];
      }
    }
  }

  lemma OldIdsAreTracked(r: Registry, cutoff: Time)
    ensures OldIds(r, cutoff) <= r.files.vals.Keys
  {
  }

  lemma CleanupShape(r: Registry, existing: set<Path>)
    requires r.Valid()
    ensures CleanupMissing(r, existing)
      == Registry(Dict(r.files.keys, CleanupMissing(r, existing).files.vals), r.tasks, r.nextId)
  {
  }

  lemma NoneMarked(r: Registry, current: Dict<Path, TrackedFile>, existing: set<Path>)
    ensures MarkedUpTo(r, current, existing, 0) == r.files.vals && MarkedIds(r, current, existing, 0) == {}
  {
  }

  /** The entries already marked when the first `n` paths have been visited. */
  function MarkedIds(r: Registry, current: Dict<Path, TrackedFile>, existing: set<Path>, n: nat): set<Id>
    requires n <= |current.keys|
  {
    set id | id in r.files.vals && MarkIfMissing(current, existing, r.files.vals[id]) != r.files.vals[id]
             && r.files.vals[id].path in current.keys[..n]
  }

  function MarkedUpTo(r: Registry, current: Dict<Path, TrackedFile>, existing: set<Path>, n: nat): map<Id, TrackedFile>
    requires n <= |current.keys|
  {
    map id | id in r.files.vals ::
      if r.files.vals[id].path in current.keys[..n] then MarkIfMissing(current, existing, r.files.vals[id])
      else r.files.vals[id]
  }

  /** The table of current entries of a registry. */
  function CurrentOf(r: Registry): Dict<Path, TrackedFile>
    requires r.Valid()
  {
    Latest(r.Listing(), AnyStatus)
  }

  lemma CurrentEntry(r: Registry, n: nat)
    requires r.Valid() && n < |CurrentOf(r).keys|
    ensures var path := CurrentOf(r).keys[n];
      && path in CurrentOf(r).vals && path !in CurrentOf(r).keys[..n]
      && CurrentOf(r).keys[..n + 1] == CurrentOf(r).keys[..n] + [path]
      && var f := CurrentOf(r).vals[path]; f.id in r.files.vals && r.files.vals[f.id] == f && f.path == path
  {
    hide Latest;
    assert CurrentOf(r).keys[n] in CurrentOf(r).keys;
    LatestKnowsItsPath(r.Listing(), AnyStatus);
    ListingOf(r);
  }

  /** The current entry of path number `n`. */
  function EntryAt(r: Registry, n: nat): TrackedFile
    requires r.Valid() && n < |CurrentOf(r).keys|
  {
    CurrentEntry(r, n);
    CurrentOf(r).vals[CurrentOf(r).keys[n]]
  }

  /** Whether visiting path number `n` marks its current entry. */
  predicate Marks(r: Registry, existing: set<Path>, n: nat)
    requires r.Valid() && n < |CurrentOf(r).keys|
  {
    EntryAt(r, n).path !in existing && !KeptWhenMissing(EntryAt(r, n).status)
  }

  lemma MarkOneMore(r: Registry, existing: set<Path>, n: nat)
    requires r.Valid() && n < |CurrentOf(r).keys|
    ensures var current, f := CurrentOf(r), EntryAt(r, n);
      && f.id !in MarkedIds(r, current, existing, n)
      && MarkedIds(r, current, existing, n + 1)
         == MarkedIds(r, current, existing, n) + (if Marks(r, existing, n) then {f.id} else {})
      && MarkedUpTo(r, current, existing, n).Keys == r.files.vals.Keys
      && MarkedUpTo(r, current, existing, n + 1)
        == (if Marks(r, existing, n) then MarkedUpTo(r, current, existing, n)[f.id := f.(status := Removed)]
            else MarkedUpTo(r, current, existing, n))
  {
    CurrentEntry(r, n);
    hide CurrentOf, KeptWhenMissing;
    var current := CurrentOf(r);
    var f := EntryAt(r, n);
    forall id | id in r.files.vals && r.files.vals[id].path == f.path
      ensures MarkIfMissing(current, existing, r.files.vals[id])
        == if id == f.id && Marks(r, existing, n) then f.(status := Removed) else r.files.vals[id]
    {
    }
  }

  lemma AllMarked(r: Registry, existing: set<Path>)
    requires r.Valid()
    ensures var current := CurrentOf(r);
      && MarkedUpTo(r, current, existing, |current.keys|) == CleanupMissing(r, existing).files.vals
      && MarkedIds(r, current, existing, |current.keys|) == Changed(r, existing)
  {
    hide Latest, KeptWhenMissing;
    var current := CurrentOf(r);
    assert current.keys[..|current.keys|] == current.keys;
    forall id | id in r.files.vals
      ensures MarkIfMissing(current, existing, r.files.vals[id]) != r.files.vals[id] ==>
        r.files.vals[id].path in current.keys
    {
    }
    assert MarkedUpTo(r, current, existing, |current.keys|) == CleanupMissing(r, existing).files.vals;
  }

  predicate InCooldown(f: TrackedFile, cooldown: Time, now: Time) {
    f.spaceErrorAt.Some? && now - f.spaceErrorAt.value < cooldown
  }

  /** Entry `k` is the newest of a path that has permanent space errors only, and in its cooldown. */
  ghost predicate HoldsBack(files: seq<TrackedFile>, k: int, path: Path, cooldown: Time, now: Time)
    requires 0 <= k < |files|
  {
    && files[k].path == path && files[k].status == SpaceError && InCooldown(files[k], cooldown, now)
    && (forall j :: 0 <= j < |files| && files[j].path == path ==>
          files[j].status == SpaceError && files[j].discoveredAt <= files[k].discoveredAt)
    && (forall j :: 0 <= j < k && files[j].path == path ==> files[j].discoveredAt < files[k].discoveredAt)
  }

  /** A permanent space error ranks last: everything else is better, and among such the newer one. */
  lemma SpaceErrorRanksLast(a: TrackedFile, b: TrackedFile)
    requires b.status == SpaceError
    ensures Better(CurrentTable, a, b) <==> a.status != SpaceError || a.discoveredAt > b.discoveredAt
    ensures Better(CurrentTable, b, a) <==> a.status == SpaceError && b.discoveredAt > a.discoveredAt
  {
  }

  /** An entry that holds its path back is the one the lookup shows. */
  lemma HoldingIsBest(files: seq<TrackedFile>, k: int, path: Path, cooldown: Time, now: Time)
    requires 0 <= k < |files| && HoldsBack(files, k, path, cooldown, now)
    ensures Pick(CurrentTable, files, path, AnyStatus) == Some(files[k])
  {
    hide Pick, Better, InCooldown;
    forall j | 0 <= j < |files| && Eligible(files[j], path, AnyStatus)
      ensures !Better(CurrentTable, files[j], files[k]) && (j < k ==> Better(CurrentTable, files[k], files[j]))
    {
      SpaceErrorRanksLast(files[j], files[k]);
    }
    assert FirstBest(CurrentTable, files, path, AnyStatus, k);
    FirstBestIsUnique(CurrentTable, files, path, AnyStatus, k);
  }

  /** A space error the lookup shows is the newest of a path that has nothing else. */
  lemma BestIsHolding(files: seq<TrackedFile>, k: int, path: Path, cooldown: Time, now: Time)
    requires FirstBest(CurrentTable, files, path, AnyStatus, k)
    requires files[k].status == SpaceError && InCooldown(files[k], cooldown, now)
    ensures HoldsBack(files, k, path, cooldown, now)
  {
    hide Better, InCooldown;
    forall j | 0 <= j < |files| && files[j].path == path
      ensures files[j].status == SpaceError && files[j].discoveredAt <= files[k].discoveredAt
      ensures j < k ==> files[j].discoveredAt < files[k].discoveredAt
    {
      assert Eligible(files[j], path, AnyStatus);
      SpaceErrorRanksLast(files[j], files[k]);
    }
  }

  /** So the lookup shows a space error in cooldown exactly if the path is held back by one. */
  lemma {:induction false} SkipIffHeldBack(files: seq<TrackedFile>, path: Path, cooldown: Time, now: Time)
    ensures var current := Pick(CurrentTable, files, path, AnyStatus);
      (current.Some? && current.value.status == SpaceError && InCooldown(current.value, cooldown, now))
      <==> exists k :: 0 <= k < |files| && HoldsBack(files, k, path, cooldown, now)
  {
    PickIsFirstBest(CurrentTable, files, path, AnyStatus);
    hide Pick, InCooldown, Better;
    var current := Pick(CurrentTable, files, path, AnyStatus);
    forall k | 0 <= k < |files| && HoldsBack(files, k, path, cooldown, now)
      ensures current.Some? && current.value.status == SpaceError && InCooldown(current.value, cooldown, now)
    {
      HoldingIsBest(files, k, path, cooldown, now);
    }
    if current.Some? && current.value.status == SpaceError && InCooldown(current.value, cooldown, now) {
      var k :| FirstBest(CurrentTable, files, path, AnyStatus, k) && files[k] == current.value;
      BestIsHolding(files, k, path, cooldown, now);
    }
  }

  /** Entry `k` is a permanent space error of the path in its cooldown, with no terminal history to hide it. */
  predicate CoolsDown(files: seq<TrackedFile>, k: int, path: Path, cooldown: Time, now: Time)
    requires 0 <= k < |files|
  {
    && files[k].path == path && files[k].status == SpaceError && InCooldown(files[k], cooldown, now)
    && !HasTerminal(files, path)
  }

  /** The lookup by path shows a space error in cooldown exactly when the path has one that cools down. */
  lemma {:induction false} SkipIffCoolsDown(files: seq<TrackedFile>, path: Path, cooldown: Time, now: Time)
    requires OneActiveIn(files)
    ensures var current := Pick(CurrentTable, files, path, AnyStatus);
      (current.Some? && current.value.status == SpaceError && InCooldown(current.value, cooldown, now))
      <==> exists k :: 0 <= k < |files| && CoolsDown(files, k, path, cooldown, now)
  {
    hide Pick, Better, HasTerminal, InCooldown;
    PickIsFirstBest(CurrentTable, files, path, AnyStatus);
    var current := Pick(CurrentTable, files, path, AnyStatus);
    forall k | 0 <= k < |files| && CoolsDown(files, k, path, cooldown, now)
      ensures current.Some? && current.value.status == SpaceError && InCooldown(current.value, cooldown, now)
    {
      SkipDependsOnHistory(files, k, cooldown, now);
    }
    if current.Some? && current.value.status == SpaceError && InCooldown(current.value, cooldown, now) {
      var k :| FirstBest(CurrentTable, files, path, AnyStatus, k) && files[k] == current.value;
      SkipDependsOnHistory(files, k, cooldown, now);
      assert CoolsDown(files, k, path, cooldown, now);
    }
  }

  /** The cooldown of a permanent space error is observed exactly when the path has no terminal history. */
  lemma {:induction false} SkipDependsOnHistory(files: seq<TrackedFile>, k: int, cooldown: Time, now: Time)
    requires OneActiveIn(files) && 0 <= k < |files| && IsActive(files[k].status)
    ensures var current := Pick(CurrentTable, files, files[k].path, AnyStatus);
      (current.Some? && current.value.status == SpaceError && InCooldown(current.value, cooldown, now))
      <==> (files[k].status == SpaceError && InCooldown(files[k], cooldown, now) && !HasTerminal(files, files[k].path))
  {
    hide Pick, Better;
    CurrentIsActiveIff(files, k);
    PickIsFirstBest(CurrentTable, files, files[k].path, AnyStatus);
  }
}
