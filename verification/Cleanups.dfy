/** What the two cleanups do, in terms of the entries' own fields. */
module Cleanups {
  import opened Wrappers
  import opened TrackedFiles
  import opened Selection
  import opened SelectionOrder
  import opened Registries

  // ----- Files that have gone

  /** Nothing was copied of the file yet, and it is not already marked as gone. */
  predicate Pending(s: FileStatus) {
    s in {Discovered, Ready, Growing, ReadyToStartGrowing, WaitingForSpace, WaitingForNetwork, SpaceError, Failed}
  }

  /**
   An entry is marked removed if and only if its path is missing, it is the one of its path that counts
   first, and it is pending: a file that is queued, being copied or completed is left alone.
   */
  lemma MissingFileIsMarkedIff(r: Registry, existing: set<Path>, k: int)
    requires r.Valid() && 0 <= k < |r.Listing()|
    ensures var f := r.Listing()[k];
      && r.Tracks(f.id) && CleanupMissing(r, existing).Tracks(f.id)
      && (CleanupMissing(r, existing).files.vals[f.id] != f
          <==> f.path !in existing && Pending(f.status) && CountsFirst(FoldTable, r.Listing(), f.path, AnyStatus, k))
      && (CleanupMissing(r, existing).files.vals[f.id] != f ==>
            CleanupMissing(r, existing).files.vals[f.id] == f.(status := Removed))
  {
    var f := r.Listing()[k];
    ListingOf(r);
    MissingMarks(r, existing);
    CleanupMissingMarksIff(r, existing, f.id);
    ActiveIsNotTerminal(f.status);
    assert KeptWhenMissing(f.status) <==> !Pending(f.status);
    hide CountsFirst, Pick, CleanupMissing, Pending, KeptWhenMissing;
    PickCountsFirst(FoldTable, r.Listing(), f.path, AnyStatus);
    if Pick(FoldTable, r.Listing(), f.path, AnyStatus) == Some(f) {
      SameEntrySamePlace(r, f.path, k);
    }
  }

  /** The entry picked stands at one place of the listing only. */
  lemma SameEntrySamePlace(r: Registry, p: Path, k: int)
    requires r.Valid() && 0 <= k < |r.Listing()| && Pick(FoldTable, r.Listing(), p, AnyStatus) == Some(r.Listing()[k])
    ensures CountsFirst(FoldTable, r.Listing(), p, AnyStatus, k)
  {
    hide Pick;
    ListingOf(r);
    PickCountsFirst(FoldTable, r.Listing(), p, AnyStatus);
    hide FirstOfGroup, Order;
    var j :| CountsFirst(FoldTable, r.Listing(), p, AnyStatus, j) && r.Listing()[j] == r.Listing()[k];
    assert r.files.keys[j] == r.Listing()[j].id && r.files.keys[k] == r.Listing()[k].id;
    assert j == k;
  }

  // ----- Old entries

  /** Further updates of an entry that leave its status as it is. */
  function Touched(r: Registry, id: Id, status: FileStatus, touches: seq<(Patch, Time)>): Registry
    decreases |touches|
  {
    if touches == [] then r
    else Touched(UpdateStatus(r, id, status, touches[0].0, touches[0].1), id, status, touches[1..])
  }

  /** The entry was completed at `t`, or failed at `t` without having been completed. */
  predicate FinishedAt(f: TrackedFile, status: FileStatus, t: Time) {
    && f.status == status
    && (status == Completed ==> f.completedAt == Some(t))
    && (status == Failed ==> f.completedAt == None && f.failedAt == Some(t))
  }

  lemma {:induction false} TouchesKeepTime(
    r: Registry, id: Id, status: FileStatus, t: Time, touches: seq<(Patch, Time)>)
    requires r.Tracks(id) && status in {Completed, Failed} && FinishedAt(r.files.vals[id], status, t)
    ensures var r' := Touched(r, id, status, touches); r'.Tracks(id) && FinishedAt(r'.files.vals[id], status, t)
    decreases |touches|
  {
    if touches != [] {
      TouchesKeepTime(UpdateStatus(r, id, status, touches[0].0, touches[0].1), id, status, t, touches[1..]);
    }
  }

  /**
   An entry that is completed for the first time, or fails without ever having done either, at time `t` is kept by
   the cleanup by age exactly while the cutoff is not after `t`, whenever it was discovered and however
   often it is updated later with the same status.
   */
  lemma FinishedEntryIsKeptIff(
    r: Registry, id: Id, status: FileStatus, patch: Patch, t: Time, touches: seq<(Patch, Time)>, cutoff: Time)
    requires r.Tracks(id) && status in {Completed, Failed} && r.files.vals[id].completedAt == None
    requires status == Failed ==> r.files.vals[id].failedAt == None
    ensures var r' := Touched(UpdateStatus(r, id, status, patch, t), id, status, touches);
      r'.Tracks(id) && (CleanupOld(r', cutoff).Tracks(id) <==> cutoff <= t)
  {
    TouchesKeepTime(UpdateStatus(r, id, status, patch, t), id, status, t, touches);
  }

  /** An entry that was never finished is kept exactly while the cutoff is not after its discovery. */
  lemma UnfinishedEntryIsKeptIff(r: Registry, id: Id, cutoff: Time)
    requires r.Tracks(id) && r.files.vals[id].completedAt == None && r.files.vals[id].failedAt == None
    ensures CleanupOld(r, cutoff).Tracks(id) <==> cutoff <= r.files.vals[id].discoveredAt
  {
  }
}
