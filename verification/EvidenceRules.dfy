/** What a hit, a free view and the passing of time do to a cell, in terms of its
    fields alone. */
module EvidenceRules {
  import opened Basics
  import opened CellEvidence
  import OdomLayer

  // A frame's share of observed time: never negative, never above the frame limit.
  predicate IsShare(config: Config, dt: real, share: real) {
    if dt <= 0.0 then share == 0.0 else if dt >= config.maxFrame then share == config.maxFrame else share == dt
  }

  // A hit counts once per stamp. It starts a new occupancy, or adds its share of
  // time to the current one, and is promoted by enough time if no ray ever cleared
  // the cell.
  lemma HitRule(config: Config, c: Evidence, stamp: real, dt: real)
    requires config.Valid()
    ensures var (after, accepted) := ObserveHit(config, c, Some(stamp), dt);
            var occupied := c.state == Occupied;
            && (accepted <==> !occupied || stamp > c.lastHit)
            && (!accepted ==> after == c)
            && (accepted ==>
                  && after.state == Occupied && after.lastHit == after.lastVisible == stamp
                  && after.firstHit == (if occupied then c.firstHit else stamp)
                  && IsShare(config, dt, after.hitTime - if occupied then c.hitTime else 0.0)
                  && IsShare(config, dt, after.observed - if occupied then c.observed else 0.0)
                  && after.clearedOnce == c.clearedOnce && after.clearCount == c.clearCount
                  && (after.layer == Static <==>
                      (occupied && c.layer == Static) || (!c.clearedOnce && after.hitTime >= config.promotion)))
    ensures ObserveHit(config, c, None, dt) == (c, false)
  {
  }

  // A free view later than anything seen makes the cell free, and clears it for
  // good if it was occupied.
  lemma FreeViewRule(config: Config, c: Evidence, stamp: real, dt: real)
    requires config.Valid()
    ensures var (after, cleared) := ObserveFree(config, c, Some(stamp), dt);
            && (stamp <= c.lastVisible ==> after == c && !cleared)
            && (stamp > c.lastVisible ==>
                  && (cleared <==> c.state == Occupied) && after.state == Free && after.lastVisible == stamp
                  && IsShare(config, dt, after.observed - c.observed) && after.hitTime == c.hitTime
                  && after.firstHit == c.firstHit && after.lastHit == c.lastHit
                  && (cleared ==> after.clearedOnce && after.layer == Dynamic && after.clearCount == c.clearCount + 1)
                  && (!cleared ==> after.clearedOnce == c.clearedOnce && after.layer == c.layer &&
                                   after.clearCount == c.clearCount))
    ensures ObserveFree(config, c, None, dt) == (c, false)
  {
  }

  // A ray clears what is occupied; a sight keeps it in view. Neither goes back in time.
  lemma RayAndSightRules(c: Evidence, stamp: real)
    ensures ObserveRayClear(c, Some(stamp), true) ==
            if c.state == Occupied
            then (c.(state := Unknown, layer := Dynamic, clearedOnce := true, clearCount := c.clearCount + 1,
                     lastVisible := stamp), true)
            else (c.(lastVisible := stamp), false)
    ensures ObserveRayClear(c, Some(stamp), false) == ObserveRayClear(c, None, true) == (c, false)
    ensures var (after, seen) := ObserveVisible(c, Some(stamp));
            (seen <==> stamp >= c.lastVisible) && after == if seen then c.(lastVisible := stamp) else c
    ensures ObserveVisible(c, None) == (c, false)
  {
  }

  function Ticks(config: Config, c: Evidence, stamps: seq<Option<real>>): Evidence {
    if stamps == [] then c else Tick(config, Ticks(config, c, stamps[..|stamps| - 1]), stamps[|stamps| - 1])
  }

  // Later than the hold after both the last hit and the last sight.
  predicate IsLate(config: Config, c: Evidence, stamp: Option<real>) {
    stamp.Some? && stamp.value > c.lastHit + config.hold && stamp.value > c.lastVisible + config.hold
  }

  // However time passes, a dynamic cell is forgotten at the first late tick and
  // not before; everything else, static cells above all, is kept as it is.
  lemma {:induction false} DynamicCellsAgeAtTheFirstLateTick(config: Config, c: Evidence, stamps: seq<Option<real>>)
    ensures Ticks(config, c, stamps) ==
            if c.state == Occupied && c.layer == Dynamic && c.lastHit > 0.0 &&
               exists i :: 0 <= i < |stamps| && IsLate(config, c, stamps[i])
            then c.(state := Unknown) else c
  {
    if stamps != [] {
      var init, last := stamps[..|stamps| - 1], stamps[|stamps| - 1];
      DynamicCellsAgeAtTheFirstLateTick(config, c, init);
      assert (exists i :: 0 <= i < |stamps| && IsLate(config, c, stamps[i])) <==>
             (exists i :: 0 <= i < |init| && IsLate(config, c, init[i])) || IsLate(config, c, last) by {
        assert forall i | 0 <= i < |init| :: init[i] == stamps[i];
        assert stamps[|init|] == last;
      }
    }
  }

  // A return of the cloud counts the time since the last one, or the frame's time
  // if it is the first, and is promoted like a cell.
  lemma SightRule(config: Config, before: Evidence, stamp: real, dt: real)
    requires config.Valid()
    ensures var after := OdomLayer.Sight(config, before, stamp, dt);
            && after.state == Occupied && after.lastHit == stamp && after.observed == after.hitTime
            && IsShare(config, if before.lastHit > 0.0 then stamp - before.lastHit else dt,
                       after.hitTime - before.hitTime)
            && (after.layer == Static <==>
                before.layer == Static || (!before.clearedOnce && after.hitTime >= config.promotion))
            && after.clearedOnce == before.clearedOnce && after.clearCount == before.clearCount
            && after.firstHit == before.firstHit && after.lastVisible == before.lastVisible
  {
  }
}
