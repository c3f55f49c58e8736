/** Which cells of a traversability grid are obstacles, and the field built from them. */
module ObstacleMasks {
  import opened Basics
  import opened RowMajor
  import opened DistanceTransform
  import opened DistanceField

  // Side grids that passed the alignment check; values are -1 (unknown) to 127.
  datatype Layers = Layers(height: Option<seq<int>>, occupancy: Option<seq<int>>, ground: Option<seq<int>>)
  {
    predicate Fit(cells: nat) {
      (height.Some? ==> |height.value| >= cells) && (occupancy.Some? ==> |occupancy.value| >= cells) &&
      (ground.Some? ==> |ground.value| >= cells)
    }
  }

  datatype Policy = Policy(obstacleThreshold: int, lethalThreshold: int, unknownIsObstacle: bool)
  {
    function Safe(): int {
      if obstacleThreshold < 0 then 0 else if obstacleThreshold > 100 then 100 else obstacleThreshold
    }

    function Lethal(): int {
      var capped := if lethalThreshold > 100 then 100 else lethalThreshold;
      if capped > Safe() then capped else Safe()
    }
  }

  function Clamp01(v: real): real {
    Clamp(v, 0.0, 1.0)
  }

  function Normalized(v: int): real {
    if v < 0 then -1.0 else Clamp01(v as real / 100.0)
  }

  function Combine(traversability: real, height: real, occupancy: real, ground: real): real {
    Clamp01(0.45 * Clamp01(traversability) + 0.30 * Clamp01(height) + 0.15 * Clamp01(occupancy) +
            0.10 * (1.0 - Clamp01(ground)))
  }

  // The layers refine the score only when there is a height layer.
  function Score(value: int, layers: Layers, i: nat): real
    requires layers.Fit(i + 1)
  {
    var score := Normalized(value);
    if layers.height.None? then score
    else
      Combine(score, Normalized(layers.height.value[i]),
              if layers.occupancy.None? then score else Normalized(layers.occupancy.value[i]),
              if layers.ground.None? then score else Normalized(layers.ground.value[i]))
  }

  predicate IsObstacle(policy: Policy, value: int, layers: Layers, i: nat)
    requires layers.Fit(i + 1)
  {
    var score := Score(value, layers, i);
    || value >= policy.Lethal() || (policy.unknownIsObstacle && value < 0)
    || value >= policy.Safe()
    || (score >= 0.0 && score >= policy.Safe() as real / 100.0)
  }

  // Layers never clear a cell that the traversability grid calls an obstacle, and
  // without a height layer a known cell is an obstacle exactly at the threshold.
  lemma KnownCellsFollowTheThreshold(policy: Policy, value: int, layers: Layers, i: nat)
    requires layers.Fit(i + 1) && value >= 0
    ensures value >= policy.Safe() ==> IsObstacle(policy, value, layers, i)
    ensures layers.height.None? ==> (IsObstacle(policy, value, layers, i) <==> value >= policy.Safe())
  {
    if layers.height.None? && value < policy.Safe() {
      assert Normalized(value) == value as real / 100.0;
    }
  }

  // An unknown cell that the policy does not block is raised to an obstacle by the
  // layers exactly when there is a height layer whose combined score reaches the
  // threshold; a comment beside the test says that it never is.
  lemma UnknownCellIsRaisedIff(policy: Policy, value: int, layers: Layers, i: nat)
    requires layers.Fit(i + 1) && value < 0 && !policy.unknownIsObstacle
    ensures IsObstacle(policy, value, layers, i) <==>
            layers.height.Some? && Score(value, layers, i) >= policy.Safe() as real / 100.0
  {
    hide Combine;
    if layers.height.Some? {
      CombinedIsAScore(Normalized(value), Normalized(layers.height.value[i]),
                       if layers.occupancy.None? then Normalized(value) else Normalized(layers.occupancy.value[i]),
                       if layers.ground.None? then Normalized(value) else Normalized(layers.ground.value[i]));
    }
  }

  lemma CombinedIsAScore(traversability: real, height: real, occupancy: real, ground: real)
    ensures 0.0 <= Combine(traversability, height, occupancy, ground) <= 1.0
    ensures traversability < 0.0 ==> Combine(traversability, height, occupancy, ground) <= 0.55
  {
  }

  // Such cells exist for exactly the thresholds up to 55. The boundary is that of
  // the reals: in doubles 0.30 + 0.15 + 0.10 falls just below 0.55.
  lemma SomeUnknownCellIsRaisedIff(policy: Policy)
    requires !policy.unknownIsObstacle
    ensures (exists layers: Layers :: layers.Fit(1) && IsObstacle(policy, -1, layers, 0)) <==> policy.Safe() <= 55
  {
    var worst := Layers(Some([100]), Some([100]), None);
    assert Score(-1, worst, 0) == 0.55;
    UnknownCellIsRaisedIff(policy, -1, worst, 0);
    if policy.Safe() <= 55 {
      assert worst.Fit(1) && IsObstacle(policy, -1, worst, 0);
    }
    forall layers: Layers | layers.Fit(1) && IsObstacle(policy, -1, layers, 0)
      ensures policy.Safe() <= 55
    {
      UnknownCellIsRaisedIff(policy, -1, layers, 0);
      CombinedIsAScore(-1.0, Normalized(layers.height.value[0]),
                       if layers.occupancy.None? then -1.0 else Normalized(layers.occupancy.value[0]),
                       if layers.ground.None? then -1.0 else Normalized(layers.ground.value[0]));
    }
  }

  function Percent(v: int): int {
    if v < 0 then 0 else if v > 100 then 100 else v
  }

  // The combined score of a cell in hundredths of a percent: 45 parts the cell
  // itself, 30 its height, 15 its occupancy and 10 the lack of ground, the cell
  // itself standing in for a layer that is missing.
  function Points(value: int, layers: Layers, i: nat): int
    requires layers.Fit(i + 1) && layers.height.Some?
  {
    45 * Percent(value) + 30 * Percent(layers.height.value[i]) +
    15 * Percent(if layers.occupancy.Some? then layers.occupancy.value[i] else value) +
    10 * (100 - Percent(if layers.ground.Some? then layers.ground.value[i] else value))
  }

  lemma NormalizedIsPercent(v: int)
    ensures Clamp01(Normalized(v)) == Percent(v) as real / 100.0
  {
  }

  // Every cell, known or not, with layers or without, in whole numbers.
  // The lethal threshold decides nothing.
  lemma ObstacleIff(policy: Policy, value: int, layers: Layers, i: nat)
    requires layers.Fit(i + 1)
    ensures IsObstacle(policy, value, layers, i) <==>
            || (value < 0 && policy.unknownIsObstacle)
            || value >= Percent(policy.obstacleThreshold)
            || (layers.height.Some? && Points(value, layers, i) >= 100 * Percent(policy.obstacleThreshold))
  {
    NormalizedIsPercent(value);
    if layers.height.Some? {
      var height := layers.height.value[i];
      var occupancy := if layers.occupancy.Some? then layers.occupancy.value[i] else value;
      var ground := if layers.ground.Some? then layers.ground.value[i] else value;
      NormalizedIsPercent(height);
      NormalizedIsPercent(occupancy);
      NormalizedIsPercent(ground);
      assert Combine(Normalized(value), Normalized(height), Normalized(occupancy), Normalized(ground)) ==
             Points(value, layers, i) as real / 10000.0;
    }
  }

  ghost predicate AreMasks(policy: Policy, values: seq<int>, layers: Layers, cells: nat, obstacles: seq<bool>,
                           free: seq<bool>,
                           knownFree: seq<bool>)
    requires layers.Fit(cells) && cells <= |values|
  {
    && |obstacles| == |free| == |knownFree| == cells
    && (forall i | 0 <= i < cells :: obstacles[i] == IsObstacle(policy, values[i], layers, i))
    && (forall i | 0 <= i < cells :: free[i] == !obstacles[i])
    && (forall i | 0 <= i < cells :: knownFree[i] == (free[i] && values[i] >= 0))
  }

  ghost predicate MasksTo(policy: Policy, values: seq<int>, layers: Layers, cells: nat, obstacle: array<bool>,
                          clear: array<bool>,
                          known: array<bool>, n: nat)
    requires layers.Fit(cells) && cells <= |values|
    reads obstacle, clear, known
  {
    && obstacle.Length == clear.Length == known.Length == cells && n <= cells
    && (forall i | 0 <= i < n :: obstacle[i] == IsObstacle(policy, values[i], layers, i))
    && (forall i | 0 <= i < n :: clear[i] == !obstacle[i])
    && (forall i | 0 <= i < n :: known[i] == (clear[i] && values[i] >= 0))
  }

  method FillRow(policy: Policy, values: seq<int>, layers: Layers, cells: nat, start: nat, width: nat,
                 obstacle: array<bool>,
                 clear: array<bool>, known: array<bool>)
    requires layers.Fit(cells) && cells <= |values| && start + width <= cells
    requires MasksTo(policy, values, layers, cells, obstacle, clear, known, start)
    requires obstacle != clear && obstacle != known && clear != known
    modifies obstacle, clear, known
    ensures MasksTo(policy, values, layers, cells, obstacle, clear, known, start + width)
  {
    hide IsObstacle;
    for mx := 0 to width
      invariant MasksTo(policy, values, layers, cells, obstacle, clear, known, start + mx)
    {
      var idx := start + mx;
      if IsObstacle(policy, values[idx], layers, idx) {
        obstacle[idx], clear[idx], known[idx] := true, false, false;
      } else {
        obstacle[idx], clear[idx], known[idx] := false, true, values[idx] >= 0;
      }
    }
  }

  method FillMasks(policy: Policy, values: seq<int>, layers: Layers, width: nat, height: nat, cells: nat)
    returns (obstacles: seq<bool>, free: seq<bool>, knownFree: seq<bool>)
    requires cells == Cell(width, 0, height) <= |values| && layers.Fit(cells)
    ensures AreMasks(policy, values, layers, cells, obstacles, free, knownFree)
  {
    hide IsObstacle, Cell;
    var obstacle, clear, known := new bool[cells], new bool[cells], new bool[cells];
    var start: nat := 0;
    FirstRow(width);
    for my := 0 to height
      invariant start == Cell(width, 0, my) <= cells &&
                MasksTo(policy, values, layers, cells, obstacle, clear, known, start)
    {
      hide MasksTo;
      NextRow(width, height, my);
      FillRow(policy, values, layers, cells, start, width, obstacle, clear, known);
      start := start + width;
    }
    obstacles, free, knownFree := obstacle[..], clear[..], known[..];
  }

  lemma FirstRow(width: nat)
    ensures Cell(width, 0, 0) == 0
  {
  }

  lemma NextRow(width: nat, height: nat, my: nat)
    requires my < height
    ensures 0 <= Cell(width, 0, my) && Cell(width, 0, my + 1) == Cell(width, 0, my) + width <= Cell(width, 0, height)
  {
    RowsAscend(width, my, height);
  }

  class RcTraversabilityEsdfProvider {
    const root: real -> real
    var available: bool
    var width: nat
    var height: nat
    var resolution: real
    var distanceField: seq<Option<real>>

    constructor (root: real -> real)
      ensures this.root == root && !available
    {
      this.root := root;
      available, width, height, resolution, distanceField := false, 0, 0, 0.0, [];
    }

    // Each grid is a fresh snapshot: nothing of an earlier one survives it.
    method UpdateGrid(values: seq<int>, layers: Layers, policy: Policy, width: nat, height: nat, resolution: real)
      requires layers.Fit(width * height) && IsRoot(root)
      modifies this
      ensures this.width == width && this.height == height && this.resolution == resolution
      ensures available <==>
                width > 0 && height > 0 && resolution > 0.0 && values != [] && |values| >= width * height &&
                exists i | 0 <= i < width * height :: IsObstacle(policy, values[i], layers, i) || values[i] >= 0
      ensures !available ==> distanceField == []
      ensures available ==>
                |distanceField| == width * height &&
                forall x, y | 0 <= x < width && 0 <= y < height ::
                  Separates(policy, values, layers, x, y) && Measures(policy, values, layers, x, y)
    {
      available, distanceField := false, [];
      this.width, this.height, this.resolution := width, height, resolution;
      if width == 0 || height == 0 || resolution <= 0.0 || values == [] {
        return;
      }
      if |values| < width * height {
        return;
      }
      var obstacles, free, knownFree := FillMasks(policy, values, layers, width, height, width * height);
      hide IsObstacle, HoldsSigned;
      var hasObstacles := true in obstacles;
      var hasKnownFree := true in knownFree;
      AnyKnownOrObstacle(policy, values, layers, width * height, obstacles, free, knownFree);
      if !hasObstacles && !hasKnownFree {
        return;
      }
      distanceField := RebuildSignedDistanceField(obstacles, free, width, height, root, resolution);
      available := true;
      forall x, y | 0 <= x < width && 0 <= y < height
        ensures Separates(policy, values, layers, x, y) && Measures(policy, values, layers, x, y)
      {
        FieldMeasures(policy, values, layers, width, height, root, resolution, obstacles, free, knownFree,
                      distanceField, x, y);
        FieldSeparates(policy, values, layers, width, height, root, resolution, obstacles, free, knownFree,
                       distanceField, x, y);
      }
    }

    // Free cells are at least one cell away from every obstacle and from the
    // border, obstacles at least one cell inside; without any free cell all is 0.
    ghost predicate Separates(policy: Policy, values: seq<int>, layers: Layers, x: int, y: int)
      requires layers.Fit(width * height) && width * height <= |values|
      reads this
    {
      SeparatedBy(policy, values, layers, width, height, resolution, distanceField, x, y)
    }

    ghost predicate Measures(policy: Policy, values: seq<int>, layers: Layers, x: int, y: int)
      requires layers.Fit(width * height) && width * height <= |values|
      reads this
    {
      MeasuredBy(policy, values, layers, width, height, resolution, distanceField, x, y)
    }
  }

  ghost predicate SeparatedBy(policy: Policy, values: seq<int>, layers: Layers, width: nat, height: nat,
                              resolution: real,
                              field: seq<Option<real>>, x: int, y: int)
    requires layers.Fit(width * height) && width * height <= |values|
  {
    var i := Cell(width, x, y);
    && 0 <= i < width * height && i < |field| && field[i].Some?
    && var value := field[i].value;
    if forall j | 0 <= j < width * height :: IsObstacle(policy, values[j], layers, j) then value == 0.0
    else if IsObstacle(policy, values[i], layers, i) then value <= -resolution
    else value >= resolution
  }

  ghost function ObstaclesOf(policy: Policy, values: seq<int>, layers: Layers, cells: nat): (mask: seq<bool>)
    requires layers.Fit(cells) && cells <= |values|
    ensures |mask| == cells && forall i | 0 <= i < cells :: mask[i] == IsObstacle(policy, values[i], layers, i)
  {
    seq(cells, i requires 0 <= i < cells => IsObstacle(policy, values[i], layers, i))
  }

  ghost function FreeOf(policy: Policy, values: seq<int>, layers: Layers, cells: nat): (mask: seq<bool>)
    requires layers.Fit(cells) && cells <= |values|
    ensures |mask| == cells && forall i | 0 <= i < cells :: mask[i] == !IsObstacle(policy, values[i], layers, i)
  {
    seq(cells, i requires 0 <= i < cells => !IsObstacle(policy, values[i], layers, i))
  }

  // With a free cell anywhere, every cell reads its distance in metres: a free one
  // to the nearest obstacle or border, an obstacle minus that to the nearest free cell.
  ghost predicate MeasuredBy(policy: Policy, values: seq<int>, layers: Layers, width: nat, height: nat,
                             resolution: real, field: seq<Option<real>>, x: int, y: int)
    requires layers.Fit(width * height) && width * height <= |values|
  {
    var obstacles := ObstaclesOf(policy, values, layers, width * height);
    var free := FreeOf(policy, values, layers, width * height);
    var i := Cell(width, x, y);
    (exists j :: 0 <= j < |free| && free[j]) ==>
      0 <= i < |field| && field[i].Some? &&
      IsMetric(obstacles, free, width, height, resolution, x, y, field[i].value)
  }

  lemma FieldMeasures(policy: Policy, values: seq<int>, layers: Layers, width: nat, height: nat, root: real -> real,
                      resolution: real, obstacles: seq<bool>, free: seq<bool>, knownFree: seq<bool>,
                      field: seq<Option<real>>, x: int, y: int)
    requires layers.Fit(width * height) && width * height <= |values| && IsRoot(root) && resolution > 0.0
    requires AreMasks(policy, values, layers, width * height, obstacles, free, knownFree)
    requires 0 <= x < width && 0 <= y < height && |field| == width * height
    requires HoldsSigned(field, obstacles, free, width, height, root, resolution, x, y)
    ensures MeasuredBy(policy, values, layers, width, height, resolution, field, x, y)
  {
    hide IsObstacle, HoldsSigned, IsMetric, Cell;
    assert obstacles == ObstaclesOf(policy, values, layers, width * height);
    assert free == FreeOf(policy, values, layers, width * height);
    if exists j :: 0 <= j < |free| && free[j] {
      RebuiltFieldIsMetric(field, obstacles, free, width, height, root, resolution, x, y);
    }
  }

  lemma AnyKnownOrObstacle(policy: Policy, values: seq<int>, layers: Layers, cells: nat, obstacles: seq<bool>,
                           free: seq<bool>,
                           knownFree: seq<bool>)
    requires layers.Fit(cells) && cells <= |values| &&
             AreMasks(policy, values, layers, cells, obstacles, free, knownFree)
    ensures (true in obstacles || true in knownFree) <==>
            exists i | 0 <= i < cells :: IsObstacle(policy, values[i], layers, i) || values[i] >= 0
  {
    hide IsObstacle;
    if i :| 0 <= i < cells && (IsObstacle(policy, values[i], layers, i) || values[i] >= 0) {
      assert obstacles[i] || knownFree[i];
    }
    if true in obstacles {
      var i :| 0 <= i < cells && obstacles[i];
      assert IsObstacle(policy, values[i], layers, i);
    }
    if true in knownFree {
      var i :| 0 <= i < cells && knownFree[i];
      assert values[i] >= 0;
    }
  }

  lemma FieldSeparates(policy: Policy, values: seq<int>, layers: Layers, width: nat, height: nat, root: real -> real,
                       resolution: real,
                       obstacles: seq<bool>, free: seq<bool>, knownFree: seq<bool>, field: seq<Option<real>>, x: int,
                       y: int)
    requires layers.Fit(width * height) && width * height <= |values| && IsRoot(root) && resolution > 0.0
    requires AreMasks(policy, values, layers, width * height, obstacles, free, knownFree)
    requires 0 <= x < width && 0 <= y < height && |field| == width * height
    requires HoldsSigned(field, obstacles, free, width, height, root, resolution, x, y)
    ensures SeparatedBy(policy, values, layers, width, height, resolution, field, x, y)
  {
    hide IsObstacle, HoldsSigned;
    RebuiltFieldSeparates(field, obstacles, free, width, height, root, resolution, x, y);
    CellInRange(width, height, x, y);
    hide Cell;
  }
}
