/** How connected ground is reached, and where a return is filed. */
module GroundPaths {
  import opened Basics
  import opened GroundColumns

  // The distance between the centres of two cells.
  predicate IsGap(config: Config, s: Spot, t: Spot, gap: real) {
    gap >= 0.0 &&
    Square(gap) == Square(config.resolution) * (Square((t.x - s.x) as real) + Square((t.y - s.y) as real))
  }

  // From one of the eight neighbours, without climbing or dropping more than the
  // slope allows over the distance.
  ghost predicate IsGentleStep(config: Config, ground: map<Spot, real>, s: Spot, t: Spot) {
    && s in ground && t in ground && s != t && -1 <= t.x - s.x <= 1 && -1 <= t.y - s.y <= 1
    && exists gap :: IsGap(config, s, t, gap) && Abs(ground[t] - ground[s]) <= config.slope * gap + 0.000001
  }

  predicate IsLowest(column: Column, z: real) {
    exists k :: k in column && column[k] == z && forall j :: j in column ==> k <= j
  }

  // The cell lies around the robot, and its lowest return at the robot's feet.
  ghost predicate IsAtTheFeet(config: Config, columns: map<Spot, Column>, robot: Point, s: Spot)
    requires robot.Point?
  {
    var dx, dy := OffsetX(config, robot, s), OffsetY(config, robot, s);
    && 0 <= s.x < config.width && 0 <= s.y < config.height && s in columns
    && Square(dx) + Square(dy) <= Square(config.seedRadius) && config.seedRadius >= 0.0
    && exists z :: IsLowest(columns[s], z) && robot.z - 0.05 <= z <= robot.z + 0.05
  }

  // A walk over the ground: from old ground or the robot's feet, by gentle steps
  // over cells that were no ground before.
  ghost predicate IsWalk(config: Config, columns: map<Spot, Column>, earlier: map<Spot, real>, robot: Point,
                         ground: map<Spot, real>, path: seq<Spot>)
    requires robot.Point?
  {
    && path != [] && (path[0] in earlier || IsAtTheFeet(config, columns, robot, path[0]))
    && (forall i | 0 < i < |path| :: path[i] !in earlier)
    && (forall i | 0 < i < |path| :: IsGentleStep(config, ground, path[i - 1], path[i]))
  }

  ghost predicate IsReached(config: Config, columns: map<Spot, Column>, earlier: map<Spot, real>, robot: Point,
                            ground: map<Spot, real>, s: Spot)
    requires robot.Point?
  {
    exists path :: IsWalk(config, columns, earlier, robot, ground, path) && path[|path| - 1] == s
  }

  lemma LowestIsLowest(column: Column)
    requires column != map[]
    ensures IsLowest(column, Lowest(column))
    ensures forall z :: IsLowest(column, z) ==> z == Lowest(column)
  {
  }

  lemma SeedIsAtTheFeet(config: Config, columns: map<Spot, Column>, robot: Point, s: Spot)
    requires robot.Point? && Seeds(config, columns, robot, s)
    ensures IsAtTheFeet(config, columns, robot, s)
  {
    hide Square, OffsetX, OffsetY;
    LowestIsLowest(columns[s]);
    assert IsLowest(columns[s], Lowest(columns[s]));
  }

  lemma RiseIsTheSlope(config: Config, s: Spot, t: Spot)
    requires config.Valid() && Adjacent(s, t)
    ensures exists gap :: IsGap(config, s, t, gap) &&
                          Rise(config, t.x - s.x, t.y - s.y) == config.slope * gap + 0.000001
  {
    var straight := t.x == s.x || t.y == s.y;
    var gap := if straight then config.resolution else config.resolution * config.diagonal;
    if straight {
      assert Square((t.x - s.x) as real) + Square((t.y - s.y) as real) == 1.0;
    } else {
      assert Square((t.x - s.x) as real) + Square((t.y - s.y) as real) == 2.0;
      ProductSign(config.resolution, config.diagonal, gap);
      assert Square(gap) == Square(config.resolution) * (config.diagonal * config.diagonal);
    }
    assert IsGap(config, s, t, gap);
    assert Rise(config, t.x - s.x, t.y - s.y) == config.slope * gap + 0.000001;
  }

  lemma SupportIsGentle(config: Config, columns: map<Spot, Column>, earlier: map<Spot, real>, robot: Point,
                        ground: map<Spot, real>, s: Spot, t: Spot)
    requires config.Valid() && robot.Point? && IsConnectedGround(config, columns, earlier, robot, ground)
    requires s in ground && t in ground && t !in earlier && Supports(config, columns, earlier, s, t)
    ensures IsGentleStep(config, ground, s, t)
  {
    hide Rise, Closed, Least, Lowest, IsGap;
    RiseIsTheSlope(config, s, t);
  }

  // Ground is only where a gentle walk leads: from what was ground before, or
  // from the robot's own feet.
  lemma GroundIsReachedByGentleSteps(config: Config, columns: map<Spot, Column>, earlier: map<Spot, real>, robot: Point,
                                     ground: map<Spot, real>, s: Spot)
    requires config.Valid() && robot.Point? && IsConnectedGround(config, columns, earlier, robot, ground)
    requires s in ground
    ensures IsReached(config, columns, earlier, robot, ground, s)
  {
    hide Seeds, Supports, IsAtTheFeet, IsGentleStep, IsReached, Heights, Config.Valid;
    var reached := set r | r in ground && IsReached(config, columns, earlier, robot, ground, r);
    forall b | Base(config, columns, earlier, robot, b) ensures b in reached {
      BaseIsReached(config, columns, earlier, robot, ground, b);
    }
    forall a, b | a in reached && Supports(config, columns, earlier, a, b) ensures b in reached {
      StepIsReached(config, columns, earlier, robot, ground, a, b);
    }
    assert Closed(config, columns, earlier, robot, reached);
  }

  lemma BaseIsReached(config: Config, columns: map<Spot, Column>, earlier: map<Spot, real>, robot: Point,
                      ground: map<Spot, real>, s: Spot)
    requires robot.Point? && Base(config, columns, earlier, robot, s)
    ensures IsReached(config, columns, earlier, robot, ground, s)
  {
    hide Seeds, IsAtTheFeet;
    if s !in earlier {
      SeedIsAtTheFeet(config, columns, robot, s);
    }
    assert IsWalk(config, columns, earlier, robot, ground, [s]);
  }

  lemma StepIsReached(config: Config, columns: map<Spot, Column>, earlier: map<Spot, real>, robot: Point,
                      ground: map<Spot, real>, s: Spot, t: Spot)
    requires config.Valid() && robot.Point? && IsConnectedGround(config, columns, earlier, robot, ground)
    requires s in ground && t in ground && Supports(config, columns, earlier, s, t)
    requires IsReached(config, columns, earlier, robot, ground, s)
    ensures IsReached(config, columns, earlier, robot, ground, t)
  {
    hide Supports, IsAtTheFeet, IsGentleStep, Seeds, IsConnectedGround;
    if t in earlier {
      BaseIsReached(config, columns, earlier, robot, ground, t);
    } else {
      var path :| IsWalk(config, columns, earlier, robot, ground, path) && path[|path| - 1] == s;
      SupportIsGentle(config, columns, earlier, robot, ground, s, t);
      var longer := path + [t];
      assert IsWalk(config, columns, earlier, robot, ground, longer) && longer[|longer| - 1] == t;
    }
  }

  lemma GapIsUnique(config: Config, s: Spot, t: Spot, a: real, b: real)
    requires IsGap(config, s, t, a) && IsGap(config, s, t, b)
    ensures a == b
  {
    hide IsGap, Square;
    if a < b {
      GapsAgree(config, s, t, a, b);
    } else if b < a {
      GapsAgree(config, s, t, b, a);
    }
  }

  lemma GapsAgree(config: Config, s: Spot, t: Spot, a: real, b: real)
    requires IsGap(config, s, t, a) && IsGap(config, s, t, b)
    ensures a >= b
  {
    SquareOrder(b, a);
  }

  // And wherever a gentle step leads from a grounded cell with a return to another
  // cell with a return, there is ground; so there is at the robot's feet.
  lemma GentleStepsLeadToGround(config: Config, columns: map<Spot, Column>, earlier: map<Spot, real>, robot: Point,
                                ground: map<Spot, real>, s: Spot, t: Spot, z: real, gap: real)
    requires config.Valid() && robot.Point? && IsConnectedGround(config, columns, earlier, robot, ground)
    requires s in ground && s in columns && columns[s] != map[] && t in columns && IsLowest(columns[t], z)
    requires 0 <= t.x < config.width && 0 <= t.y < config.height && s != t
    requires -1 <= t.x - s.x <= 1 && -1 <= t.y - s.y <= 1
    requires IsGap(config, s, t, gap) && Abs(z - ground[s]) <= config.slope * gap + 0.000001
    ensures t in ground && (t !in earlier ==> ground[t] == z)
  {
    LowestIsLowest(columns[t]);
    hide Least, IsGap, Rise, Lowest, Abs, IsLowest;
    RiseIsTheSlope(config, s, t);
    var rise :| IsGap(config, s, t, rise) && Rise(config, t.x - s.x, t.y - s.y) == config.slope * rise + 0.000001;
    GapIsUnique(config, s, t, gap, rise);
    assert Supports(config, columns, earlier, s, t);
  }

  lemma FeetAreOnGround(config: Config, columns: map<Spot, Column>, earlier: map<Spot, real>, robot: Point,
                        ground: map<Spot, real>, s: Spot)
    requires robot.Point? && IsConnectedGround(config, columns, earlier, robot, ground)
    requires IsAtTheFeet(config, columns, robot, s)
    ensures s in ground
  {
    hide Square, OffsetX, OffsetY;
    var z :| IsLowest(columns[s], z) && robot.z - 0.05 <= z <= robot.z + 0.05;
    LowestIsLowest(columns[s]);
    assert Base(config, columns, earlier, robot, s);
  }

  // Half a cell beyond its corner lies the cell's centre.
  lemma OffsetsLeadToTheCentre(config: Config, robot: Point, s: Spot)
    requires robot.Point?
    ensures var x, y := robot.x + OffsetX(config, robot, s), robot.y + OffsetY(config, robot, s);
            && 2.0 * (x - config.originX) == config.resolution * (2 * s.x + 1) as real
            && 2.0 * (y - config.originY) == config.resolution * (2 * s.y + 1) as real
  {
  }

  // A return is filed under the cell, and the bin of the column, that hold it.
  lemma ReturnIsFiledWhereItLies(config: Config, p: Point)
    requires config.Valid() && p.Point?
    ensures var s, k := config.SpotOf(p), config.Bin(p.z);
            && s.x as real * config.resolution <= p.x - config.originX < (s.x + 1) as real * config.resolution
            && s.y as real * config.resolution <= p.y - config.originY < (s.y + 1) as real * config.resolution
            && k as real * config.voxel <= p.z < (k + 1) as real * config.voxel
  {
    FloorHolds(p.x - config.originX, config.resolution);
    FloorHolds(p.y - config.originY, config.resolution);
    FloorHolds(p.z, config.voxel);
  }

  lemma FloorHolds(v: real, size: real)
    requires size > 0.0
    ensures var k := (v / size).Floor; k as real * size <= v < (k + 1) as real * size
  {
    var q := v / size;
    var k := q.Floor;
    assert q * size == v;
    ProductSign(q - k as real, size, (q - k as real) * size);
    ProductSign((k + 1) as real - q, size, ((k + 1) as real - q) * size);
  }
}
