/** What a column of returns over connected ground means to the robot. */
module GroundClassification {
  import opened Basics

  datatype ColumnState = UNKNOWN | FREE | OCCUPIED

  datatype Thresholds = Thresholds(
    minObserved: int, voxel: real, surfaceMax: real, wallSpanMin: real, wallRatioMin: real, tunnelSpanMin: real,
    tunnelSpanMax: real, tunnelRatioMax: real, robotHeight: real, topMargin: real)
  {
    function Clearance(): real {
      robotHeight + topMargin
    }
  }

  const EPSILON: real := 0.000000001

  // The returns after sorting and removing duplicates.
  ghost predicate Increasing(heights: seq<real>) {
    forall i, j | 0 <= i < j < |heights| :: heights[i] < heights[j]
  }

  function Span(heights: seq<real>): real
    requires heights != []
  {
    heights[|heights| - 1] - heights[0]
  }

  function Ratio(heights: seq<real>, t: Thresholds): real
    requires heights != []
  {
    if Span(heights) > EPSILON then Clamp((|heights| - 1) as real * t.voxel / Span(heights), 0.0, 1.0) else 1.0
  }

  predicate AboveSurface(z: real, ground: real, t: Thresholds) {
    z > ground + t.surfaceMax + EPSILON
  }

  // A return that would hit the robot.
  predicate InBand(z: real, ground: real, t: Thresholds) {
    AboveSurface(z, ground, t) && z - ground < t.Clearance() - EPSILON
  }

  predicate IsWall(heights: seq<real>, t: Thresholds)
    requires heights != []
  {
    Span(heights) >= t.wallSpanMin && Ratio(heights, t) >= t.wallRatioMin
  }

  predicate IsHollow(heights: seq<real>, t: Thresholds)
    requires heights != []
  {
    t.tunnelSpanMin <= Span(heights) <= t.tunnelSpanMax && Ratio(heights, t) <= t.tunnelRatioMax
  }

  // The lowest return above the surface, found from the bottom.
  function Ceiling(heights: seq<real>, ground: real, t: Thresholds): (z: Option<real>)
    decreases |heights|
  {
    if heights == [] then None
    else if AboveSurface(heights[0], ground, t) then Some(heights[0])
    else Ceiling(heights[1..], ground, t)
  }

  function Classify(heights: seq<real>, observed: int, ground: Option<real>, t: Thresholds): ColumnState {
    if observed < t.minObserved || ground.None? then UNKNOWN
    else if heights == [] then FREE
    else if !AboveSurface(heights[|heights| - 1], ground.value, t) then FREE
    else if IsWall(heights, t) then OCCUPIED
    else if exists i | 0 <= i < |heights| :: InBand(heights[i], ground.value, t) then OCCUPIED
    else
      var ceiling := Ceiling(heights, ground.value, t);
      if ceiling.Some? && ceiling.value - ground.value >= t.Clearance() - EPSILON &&
         (IsHollow(heights, t) || Span(heights) > t.tunnelSpanMax || heights[0] > ground.value + t.surfaceMax)
      then FREE else OCCUPIED
  }

  lemma {:induction false} CeilingIsAReturn(heights: seq<real>, ground: real, t: Thresholds)
    ensures Ceiling(heights, ground, t).Some? ==>
              Ceiling(heights, ground, t).value in heights && AboveSurface(Ceiling(heights, ground, t).value, ground, t)
    ensures Ceiling(heights, ground, t).None? ==> forall i | 0 <= i < |heights| :: !AboveSurface(heights[i], ground, t)
  {
    if heights != [] && !AboveSurface(heights[0], ground, t) {
      CeilingIsAReturn(heights[1..], ground, t);
      assert heights == [heights[0]] + heights[1..];
    }
  }

  // A free column has no return between the ground surface and the robot's clearance.
  lemma FreeMeansHeadroom(heights: seq<real>, observed: int, ground: Option<real>, t: Thresholds)
    requires Increasing(heights) && Classify(heights, observed, ground, t) == FREE
    ensures ground.Some? && forall i | 0 <= i < |heights| :: !InBand(heights[i], ground.value, t)
  {
    if heights != [] && !AboveSurface(heights[|heights| - 1], ground.value, t) {
      forall i | 0 <= i < |heights|
        ensures !InBand(heights[i], ground.value, t)
      {
        assert heights[i] <= heights[|heights| - 1];
      }
    }
  }

  // Exactly when a column with a return above the surface is free: the separate
  // test of the ceiling's height never decides anything.
  lemma FreeUnderACeilingIff(heights: seq<real>, observed: int, ground: Option<real>, t: Thresholds)
    requires observed >= t.minObserved && ground.Some? && heights != []
    requires AboveSurface(heights[|heights| - 1], ground.value, t)
    ensures Classify(heights, observed, ground, t) == FREE <==>
            && !IsWall(heights, t) && (forall i | 0 <= i < |heights| :: !InBand(heights[i], ground.value, t))
            && (IsHollow(heights, t) || Span(heights) > t.tunnelSpanMax || heights[0] > ground.value + t.surfaceMax)
  {
    hide IsWall, IsHollow, Span;
    CeilingIsAReturn(heights, ground.value, t);
  }

  // At least this share of the column's height holds returns, or at most; a
  // column with no height is full.
  predicate FilledAtLeast(heights: seq<real>, t: Thresholds, share: real)
    requires heights != []
  {
    var height := heights[|heights| - 1] - heights[0];
    share <= 0.0 ||
    (share <= 1.0 && (height > EPSILON ==> (|heights| - 1) as real * t.voxel >= share * height))
  }

  predicate FilledAtMost(heights: seq<real>, t: Thresholds, share: real)
    requires heights != []
  {
    var height := heights[|heights| - 1] - heights[0];
    share >= 1.0 ||
    (share >= 0.0 && height > EPSILON && (|heights| - 1) as real * t.voxel <= share * height)
  }

  lemma RatioMeans(heights: seq<real>, t: Thresholds, share: real)
    requires heights != []
    ensures Ratio(heights, t) >= share <==> FilledAtLeast(heights, t, share)
    ensures Ratio(heights, t) <= share <==> FilledAtMost(heights, t, share)
  {
    var height, filled := heights[|heights| - 1] - heights[0], (|heights| - 1) as real * t.voxel;
    if height > EPSILON {
      ClampedShare(filled / height, share);
      QuotientOrder(filled, height, share);
      hide Clamp;
    }
  }

  lemma ClampedShare(q: real, share: real)
    ensures Clamp(q, 0.0, 1.0) >= share <==> share <= 0.0 || (share <= 1.0 && q >= share)
    ensures Clamp(q, 0.0, 1.0) <= share <==> share >= 1.0 || (share >= 0.0 && q <= share)
  {
  }

  lemma QuotientOrder(a: real, d: real, share: real)
    requires d > 0.0
    ensures a / d >= share <==> a >= share * d
    ensures a / d <= share <==> a <= share * d
  {
    var q := a / d;
    assert q * d == a;
    if q > share {
      ProductSign(q - share, d, (q - share) * d);
    } else if q < share {
      ProductSign(share - q, d, (share - q) * d);
    }
  }

  // A column is unknown until it has been seen often enough over known ground.
  // From then on it is free when no return stands above the surface, or when none
  // is within the robot's reach, it is no wall, and what is overhead is a tunnel,
  // taller than one, or clear of the ground. Anything else is occupied.
  lemma ColumnStateIff(heights: seq<real>, observed: int, ground: Option<real>, t: Thresholds)
    requires Increasing(heights)
    ensures Classify(heights, observed, ground, t) == UNKNOWN <==> observed < t.minObserved || ground.None?
    ensures observed >= t.minObserved && ground.Some? ==>
              var floor, n := ground.value + t.surfaceMax, |heights|;
              Classify(heights, observed, ground, t) == FREE <==>
              || (forall i | 0 <= i < n :: heights[i] <= floor + EPSILON)
              || (&& n > 0
                  && (forall i | 0 <= i < n ::
                        heights[i] <= floor + EPSILON ||
                        heights[i] >= ground.value + t.robotHeight + t.topMargin - EPSILON)
                  && !(heights[n - 1] - heights[0] >= t.wallSpanMin && FilledAtLeast(heights, t, t.wallRatioMin))
                  && (|| (t.tunnelSpanMin <= heights[n - 1] - heights[0] <= t.tunnelSpanMax &&
                          FilledAtMost(heights, t, t.tunnelRatioMax))
                      || heights[n - 1] - heights[0] > t.tunnelSpanMax
                      || heights[0] > floor))
  {
    if heights != [] && ground.Some? {
      RatioMeans(heights, t, t.wallRatioMin);
      RatioMeans(heights, t, t.tunnelRatioMax);
      TopIsHighest(heights);
      hide Ratio, FilledAtLeast, FilledAtMost, Ceiling, Increasing;
      if observed >= t.minObserved && AboveSurface(heights[|heights| - 1], ground.value, t) {
        FreeUnderACeilingIff(heights, observed, ground, t);
        hide Classify;
      }
    }
  }

  lemma TopIsHighest(heights: seq<real>)
    requires Increasing(heights) && heights != []
    ensures forall i | 0 <= i < |heights| :: heights[i] <= heights[|heights| - 1]
  {
  }
}
