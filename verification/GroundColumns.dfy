/** Connected ground: the lowest returns reachable from known support by bounded slopes. */
module GroundColumns {
  import opened Basics

  datatype Spot = Spot(x: int, y: int)
  datatype Point = Point(x: real, y: real, z: real) | NotFinite

  // The returns of one column by height bin; the lowest bin holds the ground candidate.
  type Column = map<int, real>

  // diagonal is the length of a unit square's diagonal.
  datatype Config = Config(
    width: nat, height: nat, resolution: real, originX: real, originY: real, voxel: real, seedRadius: real, slope: real,
    diagonal: real, surfaceMax: real)
  {
    ghost predicate Valid() {
      width > 0 && height > 0 && resolution > 0.0 && voxel > 0.0 && diagonal >= 0.0 && diagonal * diagonal == 2.0
    }

    predicate In(s: Spot) {
      0 <= s.x < width && 0 <= s.y < height
    }

    function SpotOf(p: Point): Spot
      requires resolution > 0.0 && p.Point?
    {
      Spot(((p.x - originX) / resolution).Floor, ((p.y - originY) / resolution).Floor)
    }

    function Bin(z: real): int
      requires voxel > 0.0
    {
      (z / voxel).Floor
    }
  }

  function At(columns: map<Spot, Column>, s: Spot): Column {
    if s in columns then columns[s] else map[]
  }

  predicate IsLeast(keys: set<int>, k: int) {
    k in keys && forall j :: j in keys ==> k <= j
  }

  lemma LowestBinExists(keys: set<int>) returns (least: int)
    requires exists k :: k in keys
    ensures IsLeast(keys, least)
  {
    var k :| k in keys;
    var rest := keys - {k};
    assert forall j :: j in keys ==> j == k || j in rest;
    least := k;
    if exists j :: j in rest {
      var m := LowestBinExists(rest);
      least := if m < k then m else k;
    }
  }

  function LowestBin(column: Column): (k: int)
    requires column != map[]
    ensures k in column && forall j :: j in column ==> k <= j
  {
    assert (forall k :: k !in column) ==> column == map[];
    assert exists k :: IsLeast(column.Keys, k) by {
      var least := LowestBinExists(column.Keys);
    }
    var k :| IsLeast(column.Keys, k);
    k
  }

  function Lowest(column: Column): real
    requires column != map[]
  {
    column[LowestBin(column)]
  }

  function Store(config: Config, columns: map<Spot, Column>, p: Point): map<Spot, Column>
    requires config.Valid() && p.Point?
  {
    var s := config.SpotOf(p);
    columns[s := At(columns, s)[config.Bin(p.z) := p.z]]
  }

  // The newest return of a bin replaces the older one.
  function Record(config: Config, columns: map<Spot, Column>, points: seq<Point>): map<Spot, Column>
    requires config.Valid()
  {
    if points == [] then columns
    else
      var before := Record(config, columns, points[..|points| - 1]);
      var p := points[|points| - 1];
      if p.Point? && config.In(config.SpotOf(p)) then Store(config, before, p) else before
  }

  // Finite points outside the grid.
  function Misses(config: Config, points: seq<Point>): nat
    requires config.Valid()
  {
    if points == [] then 0
    else
      var p := points[|points| - 1];
      Misses(config, points[..|points| - 1]) + if p.Point? && !config.In(config.SpotOf(p)) then 1 else 0
  }

  // From the robot to the centre of the cell.
  function OffsetX(config: Config, robot: Point, s: Spot): real
    requires robot.Point?
  {
    config.originX + (s.x as real + 0.5) * config.resolution - robot.x
  }

  function OffsetY(config: Config, robot: Point, s: Spot): real
    requires robot.Point?
  {
    config.originY + (s.y as real + 0.5) * config.resolution - robot.y
  }

  predicate Near(config: Config, robot: Point, s: Spot)
    requires robot.Point?
  {
    var dx, dy := OffsetX(config, robot, s), OffsetY(config, robot, s);
    config.seedRadius >= 0.0 && Square(dx) + Square(dy) <= Square(config.seedRadius)
  }

  predicate Seeds(config: Config, columns: map<Spot, Column>, robot: Point, s: Spot)
    requires robot.Point?
  {
    config.In(s) && At(columns, s) != map[] && Near(config, robot, s) && Abs(Lowest(At(columns, s)) - robot.z) <= 0.05
  }

  // The height that a column spreads from: its kept ground, else its lowest return.
  function Height(columns: map<Spot, Column>, earlier: map<Spot, real>, s: Spot): real
    requires At(columns, s) != map[]
  {
    if s in earlier then earlier[s] else Lowest(At(columns, s))
  }

  function Rise(config: Config, dx: int, dy: int): real {
    config.slope * config.resolution * (if dx == 0 || dy == 0 then 1.0 else config.diagonal) + 0.000001
  }

  predicate Adjacent(s: Spot, t: Spot) {
    s != t && -1 <= t.x - s.x <= 1 && -1 <= t.y - s.y <= 1
  }

  // Ground at s carries over to t.
  predicate Supports(config: Config, columns: map<Spot, Column>, earlier: map<Spot, real>, s: Spot, t: Spot) {
    && config.In(s) && config.In(t) && Adjacent(s, t) && At(columns, s) != map[] && At(columns, t) != map[]
    && Abs(Lowest(At(columns, t)) - Height(columns, earlier, s)) <= Rise(config, t.x - s.x, t.y - s.y)
  }

  predicate Base(config: Config, columns: map<Spot, Column>, earlier: map<Spot, real>, robot: Point, s: Spot)
    requires robot.Point?
  {
    s in earlier || Seeds(config, columns, robot, s)
  }

  ghost predicate Closed(config: Config, columns: map<Spot, Column>, earlier: map<Spot, real>, robot: Point,
                         spots: set<Spot>)
    requires robot.Point?
  {
    && (forall s :: Base(config, columns, earlier, robot, s) ==> s in spots)
    && (forall s, t :: s in spots && Supports(config, columns, earlier, s, t) ==> t in spots)
  }

  ghost predicate Least(config: Config, columns: map<Spot, Column>, earlier: map<Spot, real>, robot: Point,
                        spots: set<Spot>)
    requires robot.Point?
  {
    forall other: set<Spot> :: Closed(config, columns, earlier, robot, other) ==> spots <= other
  }

  // Earlier ground keeps its height; new ground takes the column's lowest return.
  ghost predicate Heights(config: Config, columns: map<Spot, Column>, earlier: map<Spot, real>,
                          ground: map<Spot, real>) {
    && earlier.Keys <= ground.Keys
    && forall s :: s in ground ==> config.In(s) && HeightIs(columns, earlier, s, ground[s])
  }

  predicate HeightIs(columns: map<Spot, Column>, earlier: map<Spot, real>, s: Spot, z: real) {
    if s in earlier then z == earlier[s] else At(columns, s) != map[] && z == Lowest(At(columns, s))
  }

  // The ground map that an observation leaves: the least set that holds earlier
  // ground and the seeds and is closed under support.
  ghost predicate IsConnectedGround(config: Config, columns: map<Spot, Column>, earlier: map<Spot, real>, robot: Point,
                                    ground: map<Spot, real>)
    requires robot.Point?
  {
    && Heights(config, columns, earlier, ground)
    && Closed(config, columns, earlier, robot, ground.Keys) && Least(config, columns, earlier, robot, ground.Keys)
  }

  // Whatever the order in which cells are visited, the result is the same.
  lemma ConnectedGroundIsUnique(config: Config, columns: map<Spot, Column>, earlier: map<Spot, real>, robot: Point,
                                a: map<Spot, real>, b: map<Spot, real>)
    requires robot.Point? && IsConnectedGround(config, columns, earlier, robot, a) &&
             IsConnectedGround(config, columns, earlier, robot, b)
    ensures a == b
  {
    hide Closed;
    assert a.Keys == b.Keys;
    forall s | s in a
      ensures a[s] == b[s]
    {
      assert s in b;
      assert HeightIs(columns, earlier, s, a[s]) && HeightIs(columns, earlier, s, b[s]);
    }
  }

  // Ground never starts from nothing: cells with no base among them and no
  // support from outside stay without it.
  lemma FloatingPlateHasNoGround(config: Config, columns: map<Spot, Column>, earlier: map<Spot, real>, robot: Point,
                                 ground: map<Spot, real>, plate: set<Spot>)
    requires robot.Point? && IsConnectedGround(config, columns, earlier, robot, ground)
    requires forall s | s in plate :: !Base(config, columns, earlier, robot, s)
    requires forall s, t | s !in plate && t in plate :: !Supports(config, columns, earlier, s, t)
    ensures plate !! ground.Keys
  {
    hide Supports, Base;
    var rest := ground.Keys - plate;
    assert Closed(config, columns, earlier, robot, rest);
  }

  // The newest point of a list that falls into a bin of a cell.
  function NewestIn(config: Config, points: seq<Point>, s: Spot, bin: int): Option<real>
    requires config.Valid()
  {
    if points == [] then None
    else
      var p := points[|points| - 1];
      if p.Point? && config.In(s) && config.SpotOf(p) == s && config.Bin(p.z) == bin then Some(p.z)
      else NewestIn(config, points[..|points| - 1], s, bin)
  }

  // Recording puts the newest point in each bin that has one, and nothing else.
  lemma {:induction false} RecordHoldsTheNewest(config: Config, columns: map<Spot, Column>, points: seq<Point>, s: Spot,
                                                bin: int)
    requires config.Valid()
    ensures var newest := NewestIn(config, points, s, bin);
            var after := At(Record(config, columns, points), s);
            && (bin in after <==> newest.Some? || bin in At(columns, s))
            && (bin in after ==> after[bin] == if newest.Some? then newest.value else At(columns, s)[bin])
  {
    if points != [] {
      hide Config.SpotOf, Config.Bin;
      RecordHoldsTheNewest(config, columns, points[..|points| - 1], s, bin);
    }
  }

  // The cells that a list of points touches.
  function Cells(config: Config, points: seq<Point>): set<Spot>
    requires config.Valid()
  {
    if points == [] then {}
    else
      var p := points[|points| - 1];
      Cells(config, points[..|points| - 1]) + if p.Point? && config.In(config.SpotOf(p)) then {config.SpotOf(p)} else {}
  }

  lemma {:induction false} RecordAddsCells(config: Config, columns: map<Spot, Column>, points: seq<Point>)
    requires config.Valid()
    ensures Record(config, columns, points).Keys == columns.Keys + Cells(config, points)
  {
    if points != [] {
      hide Config.SpotOf, Config.Bin, Config.In, At;
      RecordAddsCells(config, columns, points[..|points| - 1]);
    }
  }

  lemma RecordedTwice(config: Config, columns: map<Spot, Column>, points: seq<Point>, s: Spot)
    requires config.Valid()
    ensures var once := Record(config, columns, points); At(Record(config, once, points), s) == At(once, s)
  {
    hide Record, At, NewestIn;
    var once := Record(config, columns, points);
    var twice := Record(config, once, points);
    forall bin: int
      ensures bin in At(twice, s) <==> bin in At(once, s)
      ensures bin in At(once, s) ==> At(twice, s)[bin] == At(once, s)[bin]
    {
      RecordHoldsTheNewest(config, columns, points, s, bin);
      RecordHoldsTheNewest(config, once, points, s, bin);
    }
  }

  // Recording the same returns twice is recording them once.
  lemma RecordIsIdempotent(config: Config, columns: map<Spot, Column>, points: seq<Point>)
    requires config.Valid()
    ensures Record(config, Record(config, columns, points), points) == Record(config, columns, points)
  {
    hide Record, Cells;
    var once := Record(config, columns, points);
    var twice := Record(config, once, points);
    RecordAddsCells(config, columns, points);
    RecordAddsCells(config, once, points);
    forall s | s in once
      ensures twice[s] == once[s]
    {
      RecordedTwice(config, columns, points, s);
    }
  }

  // Observing the same returns again changes nothing: neither the columns nor the
  // ground that is connected over them.
  lemma ObservingAgainChangesNothing(config: Config, columns: map<Spot, Column>, points: seq<Point>,
                                     earlier: map<Spot, real>, robot: Point,
                                     ground: map<Spot, real>)
    requires config.Valid() && robot.Point?
    requires IsConnectedGround(config, Record(config, columns, points), earlier, robot, ground)
    ensures var once := Record(config, columns, points);
            Record(config, once, points) == once &&
            forall again :: IsConnectedGround(config, Record(config, once, points), ground, robot, again) ==>
                     again == ground
  {
    hide IsConnectedGround, Record;
    var once := Record(config, columns, points);
    RecordIsIdempotent(config, columns, points);
    ConnectedGroundIsStable(config, once, earlier, robot, ground);
    forall again | IsConnectedGround(config, Record(config, once, points), ground, robot, again)
      ensures again == ground
    {
      ConnectedGroundIsUnique(config, once, ground, robot, again, ground);
    }
  }

  // With the columns unchanged, connecting the ground again changes nothing.
  lemma ConnectedGroundIsStable(config: Config, columns: map<Spot, Column>, earlier: map<Spot, real>, robot: Point,
                                ground: map<Spot, real>)
    requires robot.Point? && IsConnectedGround(config, columns, earlier, robot, ground)
    ensures IsConnectedGround(config, columns, ground, robot, ground)
  {
    hide Lowest, Rise, Seeds;
    forall s, t | s in ground && Supports(config, columns, ground, s, t)
      ensures t in ground
    {
      assert HeightIs(columns, earlier, s, ground[s]);
      assert Supports(config, columns, earlier, s, t);
    }
    forall other: set<Spot> | Closed(config, columns, ground, robot, other)
      ensures ground.Keys <= other
    {
      forall s | s in ground
        ensures s in other
      {
        assert Base(config, columns, ground, robot, s);
      }
    }
    assert forall s :: Base(config, columns, ground, robot, s) ==> s in ground by {
      assert forall s :: Seeds(config, columns, robot, s) ==> Base(config, columns, earlier, robot, s);
    }
  }

  predicate Visited(s: Spot, x: int, y: int) {
    s.y < y || (s.y == y && s.x < x)
  }

  ghost predicate Seeded(config: Config, columns: map<Spot, Column>, earlier: map<Spot, real>, robot: Point,
                         ground: map<Spot, real>,
                         queue: seq<Spot>, x: int, y: int)
    requires robot.Point?
  {
    && Heights(config, columns, earlier, ground)
    && (forall s :: s in ground <==> s in earlier || (Visited(s, x, y) && Seeds(config, columns, robot, s)))
    && (forall s :: s in queue <==> s in ground && At(columns, s) != map[] && config.In(s) && Visited(s, x, y))
  }

  lemma RowEnds(config: Config, columns: map<Spot, Column>, earlier: map<Spot, real>, robot: Point,
                ground: map<Spot, real>,
                queue: seq<Spot>, y: int)
    requires robot.Point? && Seeded(config, columns, earlier, robot, ground, queue, config.width, y)
    ensures Seeded(config, columns, earlier, robot, ground, queue, 0, y + 1)
  {
    hide Near, Lowest;
    assert forall s :: config.In(s) ==> (Visited(s, config.width, y) <==> Visited(s, 0, y + 1));
  }

  lemma SeedsEnd(config: Config, columns: map<Spot, Column>, earlier: map<Spot, real>, robot: Point,
                 ground: map<Spot, real>,
                 queue: seq<Spot>)
    requires robot.Point? && Seeded(config, columns, earlier, robot, ground, queue, 0, config.height)
    ensures Heights(config, columns, earlier, ground)
    ensures forall s :: s in ground <==> Base(config, columns, earlier, robot, s)
    ensures forall s :: s in queue <==> s in ground && At(columns, s) != map[]
  {
    hide Near, Lowest;
    assert forall s :: config.In(s) ==> Visited(s, 0, config.height);
  }

  // What the flood keeps: nothing outside the least ground, and everything
  // outside the queue has already been spread from.
  ghost predicate Spread(config: Config, columns: map<Spot, Column>, earlier: map<Spot, real>, robot: Point,
                         ground: map<Spot, real>,
                         queue: seq<Spot>)
    requires robot.Point?
  {
    && Heights(config, columns, earlier, ground)
    && (forall s :: Base(config, columns, earlier, robot, s) ==> s in ground)
    && (forall s :: s in queue ==> s in ground && At(columns, s) != map[])
    && Least(config, columns, earlier, robot, ground.Keys)
  }

  ghost predicate SpreadFrom(config: Config, columns: map<Spot, Column>, earlier: map<Spot, real>,
                             ground: map<Spot, real>, s: Spot) {
    forall t :: Supports(config, columns, earlier, s, t) ==> t in ground
  }

  ghost predicate OthersSpread(config: Config, columns: map<Spot, Column>, earlier: map<Spot, real>,
                               ground: map<Spot, real>,
                               queue: seq<Spot>, but: set<Spot>)
  {
    forall s :: s in ground && s !in queue && s !in but ==> SpreadFrom(config, columns, earlier, ground, s)
  }

  lemma SupportIsAdjacent(config: Config, columns: map<Spot, Column>, earlier: map<Spot, real>, s: Spot)
    ensures forall t :: Supports(config, columns, earlier, s, t) ==> Adjacent(s, t)
  {
  }

  // Cells that the flood may still reach; each reached one leaves this finite set.
  ghost function Unreached(config: Config, ground: map<Spot, real>): set<Spot> {
    (set x: int, y: int | 0 <= x < config.width && 0 <= y < config.height :: Spot(x, y)) - ground.Keys
  }

  lemma UnreachedShrinks(config: Config, before: map<Spot, real>, after: map<Spot, real>, t: Spot)
    requires before.Keys <= after.Keys && (before == after || (t !in before && config.In(t) && t in after))
    ensures before == after || (Unreached(config, after) < Unreached(config, before))
  {
    if before != after {
      assert t in Unreached(config, before) && t !in Unreached(config, after);
    }
  }

  lemma ReachedIsLeast(config: Config, columns: map<Spot, Column>, earlier: map<Spot, real>, robot: Point,
                       before: map<Spot, real>,
                       after: map<Spot, real>, s: Spot, t: Spot)
    requires robot.Point? && Least(config, columns, earlier, robot, before.Keys) && s in before
    requires Supports(config, columns, earlier, s, t) && after.Keys == before.Keys + {t}
    ensures Least(config, columns, earlier, robot, after.Keys)
  {
    hide Supports, Base;
    forall other: set<Spot> | Closed(config, columns, earlier, robot, other)
      ensures after.Keys <= other
    {
      assert s in other;
    }
  }

  lemma FloodEnds(config: Config, columns: map<Spot, Column>, earlier: map<Spot, real>, robot: Point,
                  ground: map<Spot, real>)
    requires robot.Point? && Spread(config, columns, earlier, robot, ground, []) &&
             OthersSpread(config, columns, earlier, ground, [], {})
    ensures IsConnectedGround(config, columns, earlier, robot, ground)
  {
    forall s, t | s in ground && Supports(config, columns, earlier, s, t)
      ensures t in ground
    {
      assert SpreadFrom(config, columns, earlier, ground, s);
    }
  }

  lemma FloodStarts(config: Config, columns: map<Spot, Column>, earlier: map<Spot, real>, robot: Point,
                    ground: map<Spot, real>,
                    queue: seq<Spot>)
    requires robot.Point? && Heights(config, columns, earlier, ground)
    requires forall s :: s in ground <==> Base(config, columns, earlier, robot, s)
    requires forall s :: s in queue <==> s in ground && At(columns, s) != map[]
    ensures Spread(config, columns, earlier, robot, ground, queue) &&
            OthersSpread(config, columns, earlier, ground, queue, {})
  {
    hide Lowest, Rise, Seeds;
  }

  class GroundColumnGrid {
    const config: Config
    var columns: map<Spot, Column>
    var ground: map<Spot, real>
    var outOfRange: nat

    ghost predicate Valid()
      reads this
    {
      config.Valid() && forall s :: s in ground ==> config.In(s)
    }

    constructor (config: Config)
      requires config.Valid()
      ensures this.config == config && Valid() && columns == map[] && ground == map[] && outOfRange == 0
    {
      this.config := config;
      columns, ground, outOfRange := map[], map[], 0;
    }

    method RecordPoints(points: seq<Point>)
      requires config.Valid()
      modifies this`columns, this`outOfRange
      ensures columns == Record(config, old(columns), points) && outOfRange == old(outOfRange) + Misses(config, points)
    {
      for i := 0 to |points|
        invariant columns == Record(config, old(columns), points[..i]) &&
                  outOfRange == old(outOfRange) + Misses(config, points[..i])
      {
        var p := points[i];
        assert points[..i + 1][..i] == points[..i];
        if p.Point? {
          var s := config.SpotOf(p);
          if !config.In(s) {
            outOfRange := outOfRange + 1;
          } else {
            columns := columns[s := At(columns, s)[config.Bin(p.z) := p.z]];
          }
        }
      }
      assert points[..|points|] == points;
    }

    method SeedCell(s: Spot, robot: Point, queue: seq<Spot>, ghost earlier: map<Spot, real>) returns (longer: seq<Spot>)
      requires config.In(s) && robot.Point? && Seeded(config, columns, earlier, robot, ground, queue, s.x, s.y)
      modifies this`ground
      ensures Seeded(config, columns, earlier, robot, ground, longer, s.x + 1, s.y)
    {
      hide Near, Lowest;
      longer := queue;
      if At(columns, s) != map[] {
        var z := Lowest(At(columns, s));
        if s in ground || (Near(config, robot, s) && Abs(z - robot.z) <= 0.05) {
          if s !in ground {
            ground := ground[s := z];
          }
          longer := queue + [s];
        }
      }
    }

    // Earlier and seeded ground with a return now, in row order.
    method CollectSeeds(robot: Point) returns (queue: seq<Spot>)
      requires Valid() && robot.Point?
      modifies this`ground
      ensures Heights(config, columns, old(ground), ground)
      ensures forall s :: s in ground <==> Base(config, columns, old(ground), robot, s)
      ensures forall s :: s in queue <==> s in ground && At(columns, s) != map[]
    {
      ghost var earlier := ground;
      queue := [];
      for y := 0 to config.height
        invariant Seeded(config, columns, earlier, robot, ground, queue, 0, y)
      {
        for x := 0 to config.width
          invariant Seeded(config, columns, earlier, robot, ground, queue, x, y)
        {
          queue := SeedCell(Spot(x, y), robot, queue, earlier);
        }
        RowEnds(config, columns, earlier, robot, ground, queue, y);
      }
      SeedsEnd(config, columns, earlier, robot, ground, queue);
    }

    // One neighbour of a grounded cell.
    method Reach(s: Spot, t: Spot, queue: seq<Spot>, ghost earlier: map<Spot, real>, ghost robot: Point)
      returns (longer: seq<Spot>)
      requires config.Valid() && robot.Point? && Spread(config, columns, earlier, robot, ground, queue)
      requires s in ground && At(columns, s) != map[] && Adjacent(s, t)
      requires OthersSpread(config, columns, earlier, ground, queue, {s})
      modifies this`ground
      ensures Spread(config, columns, earlier, robot, ground, longer) &&
              OthersSpread(config, columns, earlier, ground, longer, {s})
      ensures old(ground).Keys <= ground.Keys && (Supports(config, columns, earlier, s, t) ==> t in ground)
      ensures (ground == old(ground) && longer == queue) || (t !in old(ground) && config.In(t) && t in ground)
      ensures s in ground && ground[s] == old(ground[s])
    {
      hide Lowest, Rise, Seeds;
      longer := queue;
      assert HeightIs(columns, earlier, s, ground[s]);
      if config.In(t) && t !in ground && At(columns, t) != map[] {
        var candidate := Lowest(At(columns, t));
        if Abs(candidate - ground[s]) <= Rise(config, t.x - s.x, t.y - s.y) {
          assert Supports(config, columns, earlier, s, t);
          ground := ground[t := candidate];
          longer := queue + [t];
          ReachedIsLeast(config, columns, earlier, robot, old(ground), ground, s, t);
          hide Least, Supports;
        }
      }
    }

    // Spreads from one cell to its eight neighbours.
    method Spill(s: Spot, queue: seq<Spot>, ghost earlier: map<Spot, real>, ghost robot: Point)
      returns (longer: seq<Spot>)
      requires config.Valid() && robot.Point? && Spread(config, columns, earlier, robot, ground, queue)
      requires s in ground && At(columns, s) != map[] && OthersSpread(config, columns, earlier, ground, queue, {s})
      modifies this`ground
      ensures Spread(config, columns, earlier, robot, ground, longer) &&
              OthersSpread(config, columns, earlier, ground, longer, {})
      ensures Unreached(config, ground) < Unreached(config, old(ground)) || (ground == old(ground) && longer == queue)
    {
      longer := queue;
      SupportIsAdjacent(config, columns, earlier, s);
      hide Spread, OthersSpread, Supports, Unreached;
      for dy := -1 to 2
        invariant Spread(config, columns, earlier, robot, ground, longer)
        invariant OthersSpread(config, columns, earlier, ground, longer, {s}) && s in ground
        invariant Unreached(config, ground) < Unreached(config, old(ground)) ||
                  (ground == old(ground) && longer == queue)
        invariant forall t :: Supports(config, columns, earlier, s, t) && t.y - s.y < dy ==> t in ground
      {
        for dx := -1 to 2
          invariant Spread(config, columns, earlier, robot, ground, longer)
          invariant OthersSpread(config, columns, earlier, ground, longer, {s}) && s in ground
          invariant Unreached(config, ground) < Unreached(config, old(ground)) ||
                    (ground == old(ground) && longer == queue)
          invariant forall t ::
                      Supports(config, columns, earlier, s, t) && Visited(t, s.x + dx, s.y + dy) ==> t in ground
        {
          if dx != 0 || dy != 0 {
            ghost var before := ground;
            longer := Reach(s, Spot(s.x + dx, s.y + dy), longer, earlier, robot);
            UnreachedShrinks(config, before, ground, Spot(s.x + dx, s.y + dy));
          }
        }
      }
      SpilledIsSpread(config, columns, earlier, ground, longer, s);
    }

    method Observe(points: seq<Point>, robot: Point)
      requires Valid() && robot.Point?
      modifies this
      ensures Valid() && columns == Record(config, old(columns), points)
      ensures outOfRange == old(outOfRange) + Misses(config, points)
      ensures IsConnectedGround(config, columns, old(ground), robot, ground)
    {
      ghost var earlier := ground;
      RecordPoints(points);
      var queue := CollectSeeds(robot);
      FloodStarts(config, columns, earlier, robot, ground, queue);
      hide Closed, Least, Base, Supports;
      while queue != []
        invariant columns == Record(config, old(columns), points) &&
                  outOfRange == old(outOfRange) + Misses(config, points)
        invariant Spread(config, columns, earlier, robot, ground, queue) &&
                  OthersSpread(config, columns, earlier, ground, queue, {})
        decreases Unreached(config, ground), |queue|
      {
        var s := queue[0];
        ghost var before := queue;
        queue := queue[1..];
        assert before == [s] + queue;
        queue := Spill(s, queue, earlier, robot);
      }
      FloodEnds(config, columns, earlier, robot, ground);
    }

    // The lowest connected surface of the 3x3 neighbourhood.
    method GroundAt(s: Spot) returns (lowest: Option<real>)
      requires Valid()
      ensures lowest.Some? ==> config.In(s) && exists t :: IsAround(s, t) && t in ground && ground[t] == lowest.value
      ensures config.In(s) ==> forall t | IsAround(s, t) && t in ground :: lowest.Some? && lowest.value <= ground[t]
    {
      if !config.In(s) {
        return None;
      }
      lowest := if s in ground then Some(ground[s]) else None;
      for dy := -1 to 2
        invariant lowest.Some? ==> exists t :: IsAround(s, t) && t in ground && ground[t] == lowest.value
        invariant forall t | IsAround(s, t) && t in ground && t.y - s.y < dy ::
                    lowest.Some? && lowest.value <= ground[t]
      {
        for dx := -1 to 2
          invariant lowest.Some? ==> exists t :: IsAround(s, t) && t in ground && ground[t] == lowest.value
          invariant forall t | IsAround(s, t) && t in ground && Visited(t, s.x + dx, s.y + dy) ::
                      lowest.Some? && lowest.value <= ground[t]
        {
          var t := Spot(s.x + dx, s.y + dy);
          if config.In(t) && t in ground && (lowest.None? || ground[t] < lowest.value) {
            assert IsAround(s, t);
            lowest := Some(ground[t]);
          }
        }
      }
    }

    // A ray passing above a return protects it while the return is the column's
    // own ground surface, or while the column has no ground; None is no ray height.
    method ClearVoxel(p: Point, rayZ: Option<real>)
      requires Valid() && p.Point?
      modifies this`columns
      ensures var s, bin := config.SpotOf(p), config.Bin(p.z);
              if config.In(s) && bin in At(old(columns), s) &&
                 !IsProtected(config, ground, s, At(old(columns), s)[bin], rayZ)
              then At(columns, s) == At(old(columns), s) - {bin} && forall t ::
                     t != s ==> At(columns, t) == At(old(columns), t)
              else columns == old(columns)
    {
      var s, bin := config.SpotOf(p), config.Bin(p.z);
      if !config.In(s) || bin !in At(columns, s) {
        return;
      }
      var column := At(columns, s);
      if rayZ.Some? && rayZ.value > column[bin] + 0.000000001 {
        if s !in ground || column[bin] <= ground[s] + config.surfaceMax + 0.000000001 {
          return;
        }
      }
      columns := columns[s := column - {bin}];
    }
  }

  predicate IsAround(s: Spot, t: Spot) {
    -1 <= t.x - s.x <= 1 && -1 <= t.y - s.y <= 1
  }

  predicate IsProtected(config: Config, ground: map<Spot, real>, s: Spot, z: real, rayZ: Option<real>) {
    rayZ.Some? && rayZ.value > z + 0.000000001 && (s !in ground || z <= ground[s] + config.surfaceMax + 0.000000001)
  }

  lemma SpilledIsSpread(config: Config, columns: map<Spot, Column>, earlier: map<Spot, real>, ground: map<Spot, real>,
                        queue: seq<Spot>,
                        s: Spot)
    requires OthersSpread(config, columns, earlier, ground, queue, {s}) &&
             SpreadFrom(config, columns, earlier, ground, s)
    ensures OthersSpread(config, columns, earlier, ground, queue, {})
  {
  }
}
