/** What recovery of the network does to the files that waited for it. */
module NetworkRecovery {
  import opened TrackedFiles
  import opened Selection
  import opened CurrentFiles
  import opened Registries

  /** The query by status: one entry per path. */
  function FilesByStatus(r: Registry, status: FileStatus): seq<TrackedFile>
    requires r.Valid()
  {
    Latest(r.Listing(), Exactly(status)).Values()
  }

  /** Sets the listed entries back to discovered, one after the other. */
  function Reactivate(r: Registry, waiting: seq<TrackedFile>, now: Time): Registry {
    if waiting == [] then r
    else UpdateStatus(Reactivate(r, waiting[..|waiting| - 1], now), waiting[|waiting| - 1].id, Discovered, NoPatch, now)
  }

  function ProcessWaiting(r: Registry, now: Time): Registry
    requires r.Valid()
  {
    Reactivate(r, FilesByStatus(r, WaitingForNetwork), now)
  }

  predicate Lists(waiting: seq<TrackedFile>, id: Id) {
    exists i :: 0 <= i < |waiting| && waiting[i].id == id
  }

  lemma ListsLast(waiting: seq<TrackedFile>, id: Id)
    requires waiting != []
    ensures Lists(waiting, id) <==> Lists(waiting[..|waiting| - 1], id) || waiting[|waiting| - 1].id == id
  {
    var front := waiting[..|waiting| - 1];
    if Lists(front, id) {
      var i :| 0 <= i < |front| && front[i].id == id;
      assert waiting[i].id == id;
    }
  }

  lemma {:induction false} ReactivateEffect(r: Registry, waiting: seq<TrackedFile>, now: Time)
    ensures var r' := Reactivate(r, waiting, now);
      && r'.tasks == r.tasks && r'.nextId == r.nextId && r'.files.vals.Keys == r.files.vals.Keys
      && (r.Valid() ==> r'.Valid())
      && forall id :: id in r.files.vals ==>
           r'.files.vals[id] == if Lists(waiting, id) then r.files.vals[id].(status := Discovered) else r.files.vals[id]
    decreases |waiting|
  {
    if waiting != [] {
      hide UpdateStatus, Registry.Valid, Lists;
      var front, last := waiting[..|waiting| - 1], waiting[|waiting| - 1];
      var r1 := Reactivate(r, front, now);
      ReactivateEffect(r, front, now);
      UpdateEffect(r1, last.id, Discovered, NoPatch, now);
      if r.Valid() {
        UpdateStatusIsValid(r1, last.id, Discovered, NoPatch, now);
      }
      var r' := UpdateStatus(r1, last.id, Discovered, NoPatch, now);
      forall id | id in r.files.vals
        ensures r'.files.vals[id]
          == if Lists(waiting, id) then r.files.vals[id].(status := Discovered) else r.files.vals[id]
      {
        ListsLast(waiting, id);
      }
    }
  }

  lemma WaitingEntryIsListed(r: Registry, id: Id)
    requires r.Valid() && OneActive(r) && r.Tracks(id) && r.StatusOf(id) == WaitingForNetwork
    ensures Lists(FilesByStatus(r, WaitingForNetwork), id)
  {
    hide Latest, Pick, Better;
    var f := r.files.vals[id];
    var filter := Exactly(WaitingForNetwork);
    var table := Latest(r.Listing(), filter);
    ListingOf(r);
    LatestIsPick(r.Listing(), filter, f.path);
    PickIsFirstBest(FoldTable, r.Listing(), f.path, filter);
    var i :| 0 <= i < |r.Listing()| && r.Listing()[i] == f;
    assert Eligible(r.Listing()[i], f.path, filter);
    PickedIsTracked(r, FoldTable, f.path, filter);
    assert table.vals[f.path] == f && f.path in table.keys;
    var j :| 0 <= j < |table.keys| && table.keys[j] == f.path;
    assert table.Values()[j].id == id;
  }

  lemma ListedEntryIsWaiting(r: Registry, id: Id)
    requires r.Valid() && r.Tracks(id) && Lists(FilesByStatus(r, WaitingForNetwork), id)
    ensures r.StatusOf(id) == WaitingForNetwork
  {
    hide Latest, Pick, Better;
    var filter := Exactly(WaitingForNetwork);
    var table := Latest(r.Listing(), filter);
    var i :| 0 <= i < |table.Values()| && table.Values()[i].id == id;
    var p := table.keys[i];
    assert p in table.keys && table.vals[p] == table.Values()[i];
    LatestIsPick(r.Listing(), filter, p);
    PickedIsTracked(r, FoldTable, p, filter);
  }

  /** Whatever history the paths have, recovery sets entries that waited to discovered and touches no other. */
  lemma RecoveryTouchesOnlyWaiting(r: Registry, now: Time)
    requires Backed(r)
    ensures var r' := ProcessWaiting(r, now);
      && Backed(r') && r'.tasks == r.tasks && r'.nextId == r.nextId && r'.files.vals.Keys == r.files.vals.Keys
      && forall id :: id in r.files.vals ==>
           || r'.files.vals[id] == r.files.vals[id]
           || (r.StatusOf(id) == WaitingForNetwork && r'.files.vals[id] == r.files.vals[id].(status := Discovered))
  {
    hide FilesByStatus;
    ReactivateEffect(r, FilesByStatus(r, WaitingForNetwork), now);
    forall id | id in r.files.vals && Lists(FilesByStatus(r, WaitingForNetwork), id)
      ensures r.StatusOf(id) == WaitingForNetwork
    {
      ListedEntryIsWaiting(r, id);
    }
  }

  /**
   Although the query keeps one entry per path, recovery leaves no entry waiting for the network, sets
   every one that waited to discovered and touches no other, because no path has two active entries.
   */
  lemma RecoveryLeavesNoneWaiting(r: Registry, now: Time)
    requires Sound(r)
    ensures var r' := ProcessWaiting(r, now);
      && Sound(r') && NoRevival(r, r') && r'.tasks == r.tasks && r'.nextId == r.nextId
      && r'.files.vals == map id | id in r.files.vals ::
           if r.StatusOf(id) == WaitingForNetwork then r.files.vals[id].(status := Discovered) else r.files.vals[id]
  {
    hide FilesByStatus, OneActive;
    var r' := ProcessWaiting(r, now);
    ReactivateEffect(r, FilesByStatus(r, WaitingForNetwork), now);
    forall id | id in r.files.vals
      ensures r'.files.vals[id]
        == if r.StatusOf(id) == WaitingForNetwork then r.files.vals[id].(status := Discovered) else r.files.vals[id]
    {
      if r.StatusOf(id) == WaitingForNetwork {
        WaitingEntryIsListed(r, id);
      } else if Lists(FilesByStatus(r, WaitingForNetwork), id) {
        ListedEntryIsWaiting(r, id);
      }
    }
    NoRevivalKeepsOneActive(r, r');
  }
}
