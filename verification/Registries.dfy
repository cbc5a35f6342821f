/**
 What the state manager holds and what each of its lock-protected operations does to it, on values.
 The class `StateManager` is proved to implement these transitions.
 */
module Registries {
  import opened Wrappers
  import opened TrackedFiles
  import opened OrderedDict
  import opened Selection
  import opened CurrentFiles

  /** A retry task in the task table: asleep until `dueAt`, or over without having been taken out. */
  datatype RetryTask = Pending(dueAt: Time) | Over

  datatype Registry = Registry(files: Dict<Id, TrackedFile>, tasks: map<Id, RetryTask>, nextId: Id) {

    ghost predicate Valid() {
      && files.Valid()
      && (forall id :: id in files.vals ==> files.vals[id].id == id && id < nextId)
      && (forall id :: id in tasks ==> id < nextId)
    }

    /** All entries in insertion order. */
    function Listing(): seq<TrackedFile>
      requires files.Valid()
    {
      files.Values()
    }

    predicate Tracks(id: Id) {
      id in files.vals
    }

    function StatusOf(id: Id): FileStatus
      requires Tracks(id)
    {
      files.vals[id].status
    }

    function With(f: TrackedFile): Registry {
      this.(files := files.Put(f.id, f))
    }
  }

  // ----- Transitions

  /** Returns the active entry of the path if there is one, else adds a newly discovered entry. */
  function AddFile(r: Registry, path: Path, size: nat, now: Time): (Registry, Id)
    requires r.Valid()
  {
    var active := Pick(ActiveTable, r.Listing(), path, ActiveOnly);
    if active.Some? then (r, active.value.id)
    else
      var f := NewTrackedFile(r.nextId, path, size, now);
      (r.With(f).(nextId := r.nextId + 1), f.id)
  }

  /** The growth fields of a file that has never been looked at. */
  const UNSAMPLED: GrowthInfo := GrowthInfo(0, 0, None, None, 0.0)

  /** The extra attributes an update may set beside the status. */
  datatype Patch =
    | NoPatch
    | SetSize(size: nat)
    | SetGrowth(size: nat, growth: GrowthInfo)
    | ResetRetryCount
    | SetSpaceErrorAt(at: Time)

  function Apply(patch: Patch, f: TrackedFile): TrackedFile {
    match patch
    case NoPatch => f
    case SetSize(size) => f.(size := size)
    case SetGrowth(size, growth) => f.(size := size, growth := growth)
    case ResetRetryCount => f.(retryCount := 0)
    case SetSpaceErrorAt(at) => f.(spaceErrorAt := Some(at))
  }

  function Stamp(f: TrackedFile, now: Time): TrackedFile {
    if f.status == Completed && f.completedAt.None? then f.(completedAt := Some(now))
    else if f.status == Failed && f.failedAt.None? then f.(failedAt := Some(now))
    else f
  }

  /** The entry after a status update. A terminal status drops the entry's retry. */
  function Updated(f: TrackedFile, status: FileStatus, patch: Patch, now: Time): (g: TrackedFile)
    ensures g.id == f.id && g.path == f.path && g.status == status && g.discoveredAt == f.discoveredAt
    ensures g.retry == (if IsTerminal(status) then None else f.retry)
    ensures g.retryCount == (if patch.ResetRetryCount? then 0 else f.retryCount)
  {
    var g := f.(status := status, retry := if IsTerminal(status) then None else f.retry);
    Stamp(Apply(patch, g), now)
  }

  /** Sets the status by id, unconditionally; unknown ids are ignored. */
  function UpdateStatus(r: Registry, id: Id, status: FileStatus, patch: Patch, now: Time): Registry {
    if !r.Tracks(id) then r
    else
      var tasks := if IsTerminal(status) then r.tasks - {id} else r.tasks;
      Registry(r.files.Put(id, Updated(r.files.vals[id], status, patch, now)), tasks, r.nextId)
  }

  function CancelRetry(r: Registry, id: Id): (Registry, bool) {
    var had := id in r.tasks || (r.Tracks(id) && r.files.vals[id].retry.Some?);
    var r' := r.(tasks := r.tasks - {id});
    if r.Tracks(id) && r.files.vals[id].retry.Some? then
      (r'.(files := r.files.Put(id, r.files.vals[id].(retry := None))), had)
    else (r', had)
  }

  /** Replaces whatever retry the entry has by a new one. */
  function ScheduleRetry(r: Registry, id: Id, delay: nat, now: Time): (Registry, bool) {
    if !r.Tracks(id) then (r, false)
    else
      var r' := CancelRetry(r, id).0;
      var f := r.files.vals[id].(retry := Some(RetryInfo(now, now + delay)));
      (Registry(r'.files.Put(id, f), r'.tasks[id := Pending(now + delay)], r.nextId), true)
  }

  /** A pending retry wakes up: only an entry still waiting for space is made ready. */
  function FireRetry(r: Registry, id: Id): Registry
    requires id in r.tasks && r.tasks[id].Pending?
  {
    if !r.Tracks(id) || r.files.vals[id].retry.None? || r.StatusOf(id) != WaitingForSpace
    then r.(tasks := r.tasks[id := Over])
    else
      var f := r.files.vals[id].(status := Ready, retry := None);
      Registry(r.files.Put(id, f), r.tasks - {id}, r.nextId)
  }

  function IncrementRetryCount(r: Registry, id: Id): (Registry, nat) {
    if !r.Tracks(id) then (r, 0)
    else
      var f := r.files.vals[id];
      (r.(files := r.files.Put(id, f.(retryCount := f.retryCount + 1))), f.retryCount + 1)
  }

  /** Statuses the cleanup of missing files leaves alone. */
  predicate KeptWhenMissing(s: FileStatus) {
    s in {Completed, Copying, InQueue, GrowingCopy, Removed}
  }

  function MarkIfMissing(current: Dict<Path, TrackedFile>, existing: set<Path>, f: TrackedFile): TrackedFile {
    if f.path in existing || KeptWhenMissing(f.status) || f.path !in current.vals || current.vals[f.path] != f then f
    else f.(status := Removed)
  }

  /** Marks the current entry of every path that no longer exists, writing the status directly. */
  function CleanupMissing(r: Registry, existing: set<Path>): Registry
    requires r.Valid()
  {
    var current := Latest(r.Listing(), AnyStatus);
    var vals := map id | id in r.files.vals :: MarkIfMissing(current, existing, r.files.vals[id]);
    r.(files := Dict(r.files.keys, vals))
  }

  function AgeStamp(f: TrackedFile): Time {
    if f.completedAt.Some? then f.completedAt.value
    else if f.failedAt.Some? then f.failedAt.value
    else f.discoveredAt
  }

  function OldIds(r: Registry, cutoff: Time): set<Id> {
    set id | id in r.files.vals && AgeStamp(r.files.vals[id]) < cutoff
  }

  /** Forgets every entry older than the cutoff, whatever its status; retry tasks are left behind. */
  function CleanupOld(r: Registry, cutoff: Time): Registry {
    r.(files := r.files.RemoveAll(OldIds(r, cutoff)))
  }

  // ----- Invariants

  /** No path has two active entries. */
  ghost predicate OneActive(r: Registry) {
    forall i, j :: i in r.files.vals && j in r.files.vals && i != j && r.files.vals[i].path == r.files.vals[j].path ==>
      !(IsActive(r.StatusOf(i)) && IsActive(r.StatusOf(j)))
  }

  /** An entry with a scheduled retry has a task in the table. */
  ghost predicate RetryHasTask(r: Registry) {
    forall id :: id in r.files.vals && r.files.vals[id].retry.Some? ==> id in r.tasks
  }

  /** What every transition keeps, whoever makes it. */
  ghost predicate Backed(r: Registry) {
    r.Valid() && RetryHasTask(r)
  }

  ghost predicate Sound(r: Registry) {
    Backed(r) && OneActive(r)
  }

  /** `r'` is backed, and it has one active entry per path if `r` has. */
  ghost predicate KeepsSound(r: Registry, r': Registry) {
    Backed(r') && (OneActive(r) ==> OneActive(r'))
  }

  /** An update writes the entry named and nothing else. */
  lemma UpdateEffect(r: Registry, id: Id, status: FileStatus, patch: Patch, now: Time)
    ensures var r' := UpdateStatus(r, id, status, patch, now);
      && r'.files.vals
         == (if r.Tracks(id) then r.files.vals[id := Updated(r.files.vals[id], status, patch, now)] else r.files.vals)
      && r'.nextId == r.nextId
      && r'.tasks == (if r.Tracks(id) && IsTerminal(status) then r.tasks - {id} else r.tasks)
  {
  }

  lemma UpdateLeavesTasks(r: Registry, id: Id, status: FileStatus, patch: Patch, now: Time, x: Id)
    requires x != id && x in r.tasks
    ensures x in UpdateStatus(r, id, status, patch, now).tasks
    ensures UpdateStatus(r, id, status, patch, now).tasks[x] == r.tasks[x]
  {
  }

  lemma UpdateStatusIsValid(r: Registry, id: Id, status: FileStatus, patch: Patch, now: Time)
    requires r.Valid()
    ensures UpdateStatus(r, id, status, patch, now).Valid()
  {
  }

  lemma RetryStepsAreValid(r: Registry, id: Id, delay: nat, now: Time)
    requires r.Valid()
    ensures CancelRetry(r, id).0.Valid() && ScheduleRetry(r, id, delay, now).0.Valid()
      && IncrementRetryCount(r, id).0.Valid()
  {
  }

  lemma ListingOf(r: Registry)
    requires r.Valid()
    ensures forall i :: 0 <= i < |r.Listing()| ==>
      r.files.keys[i] in r.files.vals && r.Listing()[i] == r.files.vals[r.files.keys[i]]
    ensures forall id :: id in r.files.vals ==> r.files.vals[id] in r.Listing()
  {
    forall id | id in r.files.vals ensures r.files.vals[id] in r.Listing() {
      assert id in r.files.keys;
      var i :| 0 <= i < |r.files.keys| && r.files.keys[i] == id;
      assert r.Listing()[i] == r.files.vals[id];
    }
    forall i | 0 <= i < |r.Listing()| ensures r.files.keys[i] in r.files.vals {
      assert r.files.keys[i] in r.files.keys;
    }
  }

  lemma ListingHasOneActive(r: Registry)
    requires r.Valid() && OneActive(r)
    ensures OneActiveIn(r.Listing())
  {
    hide IsActive;
    ListingOf(r);
  }

  // ----- What each transition keeps

  /** Every entry left was there before, on the same path, and none was made active. */
  ghost predicate NoRevival(r: Registry, r': Registry) {
    forall id :: id in r'.files.vals ==>
      && id in r.files.vals && r'.files.vals[id].path == r.files.vals[id].path
      && (IsActive(r'.StatusOf(id)) ==> IsActive(r.StatusOf(id)))
  }

  lemma NoRevivalKeepsOneActive(r: Registry, r': Registry)
    requires OneActive(r) && NoRevival(r, r')
    ensures OneActive(r')
  {
    forall i, j | i in r'.files.vals && j in r'.files.vals && i != j && r'.files.vals[i].path == r'.files.vals[j].path
      ensures !(IsActive(r'.StatusOf(i)) && IsActive(r'.StatusOf(j)))
    {
      assert r.files.vals[i].path == r.files.vals[j].path;
    }
  }

  lemma NoActiveEntry(r: Registry, path: Path)
    requires r.Valid() && Pick(ActiveTable, r.Listing(), path, ActiveOnly).None?
    ensures forall x :: x in r.files.vals && r.files.vals[x].path == path ==> !IsActive(r.StatusOf(x))
  {
    hide Pick;
    ListingOf(r);
    PickIsFirstBest(ActiveTable, r.Listing(), path, ActiveOnly);
    forall x | x in r.files.vals && r.files.vals[x].path == path ensures !IsActive(r.StatusOf(x)) {
      var i :| 0 <= i < |r.Listing()| && r.Listing()[i] == r.files.vals[x];
      assert !Eligible(r.Listing()[i], path, ActiveOnly);
    }
  }

  lemma PickedIsTracked(r: Registry, t: Table, path: Path, filter: Filter)
    requires r.Valid() && Pick(t, r.Listing(), path, filter).Some?
    ensures var f := Pick(t, r.Listing(), path, filter).value;
      f.id in r.files.vals && r.files.vals[f.id] == f && Eligible(f, path, filter)
  {
    hide Pick;
    ListingOf(r);
    PickIsFirstBest(t, r.Listing(), path, filter);
  }

  /** Adding returns the path's active entry, new or old, and never makes a second one. */
  lemma AddFileIsSound(r: Registry, path: Path, size: nat, now: Time)
    requires Backed(r)
    ensures var (r', id) := AddFile(r, path, size, now);
      && KeepsSound(r, r') && r'.Tracks(id) && r'.files.vals[id].path == path && IsActive(r'.StatusOf(id))
      && (forall x :: x in r.files.vals ==> x in r'.files.vals && r'.files.vals[x] == r.files.vals[x])
      && (|| r' == r
          || (&& id == r.nextId
              && r'.files.vals[id] == TrackedFile(id, path, Discovered, size, now, None, None, None, 0, None, UNSAMPLED)
              && forall x :: x in r.files.vals && r.files.vals[x].path == path ==> !IsActive(r.StatusOf(x))))
  {
    hide Pick;
    if Pick(ActiveTable, r.Listing(), path, ActiveOnly).Some? {
      PickedIsTracked(r, ActiveTable, path, ActiveOnly);
    } else {
      NoActiveEntry(r, path);
    }
  }

  /** No other entry of the path of `id` is active. */
  ghost predicate AloneActive(r: Registry, id: Id)
    requires r.Tracks(id)
  {
    forall x :: x in r.files.vals && x != id && r.files.vals[x].path == r.files.vals[id].path ==>
      !IsActive(r.StatusOf(x))
  }

  /** Writing one entry, on its own path, keeps one active entry per path if and only if this holds. */
  lemma WriteKeepsOneActiveIff(r: Registry, r': Registry, id: Id)
    requires OneActive(r) && r'.files.vals.Keys == r.files.vals.Keys
    requires forall x :: r.Tracks(x) && x != id ==> r'.files.vals[x] == r.files.vals[x]
    requires r.Tracks(id) ==> r'.files.vals[id].path == r.files.vals[id].path
    ensures OneActive(r') <==> (r'.Tracks(id) && IsActive(r'.StatusOf(id)) ==> AloneActive(r, id))
  {
    hide IsActive;
    if r'.Tracks(id) && IsActive(r'.StatusOf(id)) && !AloneActive(r, id) {
      var x :| x in r.files.vals && x != id && r.files.vals[x].path == r.files.vals[id].path && IsActive(r.StatusOf(x));
      assert r'.files.vals[x] == r.files.vals[x];
    }
    if r'.Tracks(id) && IsActive(r'.StatusOf(id)) ==> AloneActive(r, id) {
      forall i, j | i in r'.files.vals && j in r'.files.vals && i != j && r'.files.vals[i].path == r'.files.vals[j].path
        ensures !(IsActive(r'.StatusOf(i)) && IsActive(r'.StatusOf(j)))
      {
        assert i != id ==> r'.files.vals[i] == r.files.vals[i];
        assert j != id ==> r'.files.vals[j] == r.files.vals[j];
      }
    }
  }

  /** An update by id has no guard; it keeps one active entry per path if and only if this holds. */
  lemma UpdateKeepsOneActiveIff(r: Registry, id: Id, status: FileStatus, patch: Patch, now: Time)
    requires r.Valid() && OneActive(r) && r.Tracks(id)
    ensures OneActive(UpdateStatus(r, id, status, patch, now)) <==> (IsActive(status) ==> AloneActive(r, id))
  {
    hide OneActive, AloneActive, UpdateStatus, Apply, Stamp;
    UpdateEffect(r, id, status, patch, now);
    WriteKeepsOneActiveIff(r, UpdateStatus(r, id, status, patch, now), id);
  }

  lemma UpdateIsBacked(r: Registry, id: Id, status: FileStatus, patch: Patch, now: Time)
    requires Backed(r)
    ensures Backed(UpdateStatus(r, id, status, patch, now))
  {
    hide Apply, Stamp;
  }

  /** An update is harmless when it deactivates the entry or when the entry was active already. */
  lemma UpdateIsSound(r: Registry, id: Id, status: FileStatus, patch: Patch, now: Time)
    requires Backed(r) && (r.Tracks(id) && IsActive(status) ==> IsActive(r.StatusOf(id)))
    ensures KeepsSound(r, UpdateStatus(r, id, status, patch, now))
      && NoRevival(r, UpdateStatus(r, id, status, patch, now))
  {
    hide OneActive;
    UpdateIsBacked(r, id, status, patch, now);
    if OneActive(r) {
      NoRevivalKeepsOneActive(r, UpdateStatus(r, id, status, patch, now));
    }
  }

  lemma CancelRetryIsSound(r: Registry, id: Id)
    requires Backed(r)
    ensures KeepsSound(r, CancelRetry(r, id).0) && NoRevival(r, CancelRetry(r, id).0)
  {
    hide OneActive;
    if OneActive(r) {
      NoRevivalKeepsOneActive(r, CancelRetry(r, id).0);
    }
  }

  lemma ScheduleRetryEffect(r: Registry, id: Id, delay: nat, now: Time)
    ensures var (r', scheduled) := ScheduleRetry(r, id, delay, now);
      && scheduled == r.Tracks(id) && r'.nextId == r.nextId && (r.Valid() ==> r'.Valid())
      && r'.tasks == (if scheduled then r.tasks[id := Pending(now + delay)] else r.tasks)
      && r'.files.vals
         == (if scheduled then r.files.vals[id := r.files.vals[id].(retry := Some(RetryInfo(now, now + delay)))]
             else r.files.vals)
  {
  }

  /** Scheduling leaves the entry with exactly one retry: the new one, backed by a pending task. */
  lemma ScheduleRetryIsSound(r: Registry, id: Id, delay: nat, now: Time)
    requires Backed(r)
    ensures KeepsSound(r, ScheduleRetry(r, id, delay, now).0) && NoRevival(r, ScheduleRetry(r, id, delay, now).0)
    ensures var (r', scheduled) := ScheduleRetry(r, id, delay, now);
      && scheduled == r.Tracks(id)
      && (scheduled ==>
            && r'.files.vals[id].retry == Some(RetryInfo(now, now + delay))
            && id in r'.tasks && r'.tasks[id] == Pending(now + delay))
      && (forall x :: x in r.tasks && x != id ==> x in r'.tasks && r'.tasks[x] == r.tasks[x])
  {
    hide OneActive, ScheduleRetry;
    ScheduleRetryEffect(r, id, delay, now);
    if OneActive(r) {
      NoRevivalKeepsOneActive(r, ScheduleRetry(r, id, delay, now).0);
    }
  }

  /** Rewriting one active entry in place, on its own path, revives nothing. */
  lemma OneEntryRewritten(r: Registry, r': Registry, id: Id, g: TrackedFile)
    requires r.Tracks(id) && r'.files.vals == r.files.vals[id := g]
    requires g.path == r.files.vals[id].path && (IsActive(g.status) ==> IsActive(r.StatusOf(id)))
    ensures NoRevival(r, r')
  {
  }

  lemma IncrementIsSound(r: Registry, id: Id)
    requires Backed(r)
    ensures var (r', count) := IncrementRetryCount(r, id);
      && KeepsSound(r, r') && NoRevival(r, r') && r'.tasks == r.tasks && r'.nextId == r.nextId
      && (if r.Tracks(id)
          then count == r.files.vals[id].retryCount + 1
            && r'.files.vals == r.files.vals[id := r.files.vals[id].(retryCount := count)]
          else r' == r)
  {
    hide OneActive;
    if OneActive(r) {
      NoRevivalKeepsOneActive(r, IncrementRetryCount(r, id).0);
    }
  }

  /** A firing retry revives nothing, even when the entry was removed without cancelling it. */
  lemma FireRetryIsSound(r: Registry, id: Id)
    requires Backed(r) && id in r.tasks && r.tasks[id].Pending?
    ensures KeepsSound(r, FireRetry(r, id)) && NoRevival(r, FireRetry(r, id))
  {
    hide OneActive;
    if OneActive(r) {
      NoRevivalKeepsOneActive(r, FireRetry(r, id));
    }
  }

  /** Whether the pending retry of `id`, when it wakes, finds its entry still waiting for it. */
  predicate Awaited(r: Registry, id: Id) {
    r.Tracks(id) && r.StatusOf(id) == WaitingForSpace && r.files.vals[id].retry.Some?
  }

  /**
   Firing a retry changes the status of no entry but its own, and that one only from waiting for space
   to ready; its task goes exactly when it does so, and otherwise stays in the table, over.
   */
  lemma FireOnlyWakesWaiting(r: Registry, id: Id, x: Id)
    requires Backed(r) && id in r.tasks && r.tasks[id].Pending? && x in r.files.vals
    ensures var r' := FireRetry(r, id);
      && x in r'.files.vals && r'.StatusOf(x) == (if x == id && Awaited(r, id) then Ready else r.StatusOf(x))
      && r'.tasks == (if Awaited(r, id) then r.tasks - {id} else r.tasks[id := Over])
  {
  }

  /**
   The entry's age does not reach back before the cutoff: it was completed since, or, if it never was, it
   failed since, or, if neither, it was discovered since.
   */
  predicate Outlives(f: TrackedFile, cutoff: Time) {
    && (f.completedAt.Some? ==> cutoff <= f.completedAt.value)
    && (f.completedAt.None? && f.failedAt.Some? ==> cutoff <= f.failedAt.value)
    && (f.completedAt.None? && f.failedAt.None? ==> cutoff <= f.discoveredAt)
  }

  /** Exactly the entries that do not outlive the cutoff go, whatever their status; the others stay as they are. */
  lemma CleanupOldIsSound(r: Registry, cutoff: Time)
    requires Backed(r)
    ensures var r' := CleanupOld(r, cutoff);
      && KeepsSound(r, r') && r'.tasks == r.tasks && r'.nextId == r.nextId && r'.files.vals.Keys <= r.files.vals.Keys
      && forall id :: id in r.files.vals ==>
           && (id in r'.files.vals <==> Outlives(r.files.vals[id], cutoff))
           && (id in r'.files.vals ==> r'.files.vals[id] == r.files.vals[id])
  {
    forall id | id in r.files.vals
      ensures cutoff <= AgeStamp(r.files.vals[id]) <==> Outlives(r.files.vals[id], cutoff)
    {
    }
    hide AgeStamp, OneActive, Outlives;
    if OneActive(r) {
      NoRevivalKeepsOneActive(r, CleanupOld(r, cutoff));
    }
  }

  // ----- Cleanup of missing files

  /** The entries the cleanup changes. */
  function Changed(r: Registry, existing: set<Path>): set<Id>
    requires r.Valid()
  {
    set id | id in r.files.vals && CleanupMissing(r, existing).files.vals[id] != r.files.vals[id]
  }

  lemma MissingMarks(r: Registry, existing: set<Path>)
    requires r.Valid()
    ensures var r' := CleanupMissing(r, existing);
      && r'.Valid() && r'.files.vals.Keys == r.files.vals.Keys && r'.tasks == r.tasks && r'.nextId == r.nextId
      && forall id :: id in r.files.vals ==>
           if id in Changed(r, existing)
           then r'.files.vals[id] == r.files.vals[id].(status := Removed)
             && !KeptWhenMissing(r.StatusOf(id)) && r.files.vals[id].path !in existing
             && var current, path := Latest(r.Listing(), AnyStatus), r.files.vals[id].path;
                path in current.vals && current.vals[path] == r.files.vals[id]
           else r'.files.vals[id] == r.files.vals[id]
  {
    hide Latest;
  }

  /**
   The cleanup only ever writes Removed, never on an entry that is completed, queued or being copied or
   whose path exists, and on at most one entry of each path.
   */
  lemma CleanupMissingIsSound(r: Registry, existing: set<Path>)
    requires Backed(r)
    ensures KeepsSound(r, CleanupMissing(r, existing)) && NoRevival(r, CleanupMissing(r, existing))
    ensures forall id :: id in Changed(r, existing) ==>
      && CleanupMissing(r, existing).files.vals[id] == r.files.vals[id].(status := Removed)
      && !KeptWhenMissing(r.StatusOf(id)) && r.files.vals[id].path !in existing
    ensures forall i, j ::
      i in Changed(r, existing) && j in Changed(r, existing) && r.files.vals[i].path == r.files.vals[j].path ==>
        i == j
  {
    hide CleanupMissing, Changed, Latest, OneActive;
    MissingMarks(r, existing);
    ChangedAreTracked(r, existing);
    if OneActive(r) {
      NoRevivalKeepsOneActive(r, CleanupMissing(r, existing));
    }
  }

  /**
   An entry is marked if and only if its path is missing, its status is not protected, and it is the
   entry the path's selection picks.
   */
  lemma CleanupMissingMarksIff(r: Registry, existing: set<Path>, id: Id)
    requires r.Valid() && r.Tracks(id)
    ensures id in Changed(r, existing) <==>
      var f := r.files.vals[id];
      f.path !in existing && !KeptWhenMissing(f.status) && Pick(FoldTable, r.Listing(), f.path, AnyStatus) == Some(f)
  {
    hide Latest, Pick;
    LatestIsPick(r.Listing(), AnyStatus, r.files.vals[id].path);
  }

  lemma ChangedAreTracked(r: Registry, existing: set<Path>)
    requires r.Valid()
    ensures Changed(r, existing) <= r.files.vals.Keys
  {
  }

  /** The number of entries not marked Removed. */
  function Present(r: Registry): nat {
    |set id | id in r.files.vals && r.StatusOf(id) != Removed|
  }

  /** The number of entries the cleanup reports is the number that stop being present. */
  lemma CleanupMissingCounts(r: Registry, existing: set<Path>)
    requires r.Valid()
    ensures Present(r) == Present(CleanupMissing(r, existing)) + |Changed(r, existing)|
  {
    hide CleanupMissing, Changed, OneActive, RetryHasTask;
    var r' := CleanupMissing(r, existing);
    MissingMarks(r, existing);
    ChangedAreTracked(r, existing);
    var before := set id | id in r.files.vals && r.StatusOf(id) != Removed;
    var after := set id | id in r'.files.vals && r'.StatusOf(id) != Removed;
    assert before == after + Changed(r, existing);
  }

  function CleanupTimes(r: Registry, existing: set<Path>, n: nat): (r': Registry)
    requires Backed(r)
    ensures Backed(r')
    decreases n
  {
    CleanupMissingIsSound(r, existing);
    if n == 0 then r else CleanupTimes(CleanupMissing(r, existing), existing, n - 1)
  }

  lemma NothingChanged(r: Registry, existing: set<Path>)
    requires r.Valid() && Changed(r, existing) == {}
    ensures CleanupMissing(r, existing) == r
  {
    var r' := CleanupMissing(r, existing);
    forall id | id in r.files.vals ensures r'.files.vals[id] == r.files.vals[id] {
      assert id !in Changed(r, existing);
    }
    assert r'.files.vals == r.files.vals;
  }

  /**
   One cleanup is not always enough, since removing the current entry of a path can uncover an older
   one; but repeating it with the same paths comes to rest after at most as many rounds as there are
   present entries.
   */
  lemma {:induction false} CleanupComesToRest(r: Registry, existing: set<Path>, n: nat)
    requires Backed(r) && Present(r) <= n
    ensures var rest := CleanupTimes(r, existing, n); CleanupMissing(rest, existing) == rest
    decreases n
  {
    hide CleanupMissing, Changed, Present, OneActive, RetryHasTask;
    CleanupMissingIsSound(r, existing);
    CleanupMissingCounts(r, existing);
    if Changed(r, existing) == {} {
      NothingChanged(r, existing);
      RestStays(r, existing, n);
    } else {
      CleanupComesToRest(CleanupMissing(r, existing), existing, n - 1);
    }
  }

  lemma {:induction false} RestStays(r: Registry, existing: set<Path>, n: nat)
    requires Backed(r) && CleanupMissing(r, existing) == r
    ensures CleanupTimes(r, existing, n) == r
    decreases n
  {
    if n != 0 {
      RestStays(r, existing, n - 1);
    }
  }
}
