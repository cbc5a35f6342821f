/** How long a file given up for want of space is left alone. */
module SpaceCooldown {
  import opened Wrappers
  import opened TrackedFiles
  import opened Selection
  import opened Registries
  import opened SpaceRetry
  import opened StateManagement

  /** The scanner leaves the path alone. */
  ghost predicate LeftAlone(r: Registry, path: Path, cooldown: Time, now: Time)
    requires r.Valid()
  {
    exists k :: 0 <= k < |r.Listing()| && HoldsBack(r.Listing(), k, path, cooldown, now)
  }

  /**
   After a shortage has used up the retries of an entry at time `t`, its path is left alone exactly until the
   cooldown since `t` has passed, provided the path has no finished history; if it has, it is not left
   alone at all.
   */
  lemma GivenUpIsLeftAloneIff(
    cfg: SpaceSettings, r: Registry, id: Id, s: Shortage, t: Time, cooldown: Time, now: Time)
    requires Sound(r) && r.Tracks(id) && IsActive(r.StatusOf(id))
    requires HandleShortage(cfg, r, id, s, t).1 == GaveUp
    ensures var r', path := HandleShortage(cfg, r, id, s, t).0, r.files.vals[id].path;
      && r'.Valid()
      && (LeftAlone(r', path, cooldown, now)
          <==> now - t < cooldown && !HasTerminal(r'.Listing(), path))
  {
    hide Backed, OneActive, HandleShortage, LeftAlone, HasTerminal, NoRevival;
    HandleShortageEffect(cfg, r, id, s, t);
    HandleShortageIsSound(cfg, r, id, s, t);
    ErrorIsLeftAloneIff(HandleShortage(cfg, r, id, s, t).0, id, t, cooldown, now);
  }

  /** An entry in a permanent space error since `t`. */
  lemma ErrorIsLeftAloneIff(r: Registry, id: Id, t: Time, cooldown: Time, now: Time)
    requires Sound(r) && r.Tracks(id) && r.StatusOf(id) == SpaceError && r.files.vals[id].spaceErrorAt == Some(t)
    ensures r.Valid()
    ensures LeftAlone(r, r.files.vals[id].path, cooldown, now)
      <==> now - t < cooldown && !HasTerminal(r.Listing(), r.files.vals[id].path)
  {
    hide Pick, Better, HasTerminal, HoldsBack, OneActive, RetryHasTask;
    var path := r.files.vals[id].path;
    ListingHasOneActive(r);
    ListingOf(r);
    SkipIffHeldBack(r.Listing(), path, cooldown, now);
    var k :| 0 <= k < |r.Listing()| && r.Listing()[k] == r.files.vals[id];
    SkipDependsOnHistory(r.Listing(), k, cooldown, now);
  }
}
