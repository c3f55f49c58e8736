/** What a whole frame of rays does to each stored voxel, whatever the order of
    the rays and of their visits. */
module FrameEffects {
  import opened Basics
  import opened CellEvidence
  import opened RayWalk
  import opened OdomLayer
  import opened RayGeometry
  import opened FramePass

  // The voxel can be cleared: stored, never cleared, hit before this frame, and
  // without a return in it.
  predicate IsOpen(seen: map<Key, Sighting>, endpoints: set<Key>, stamp: real, k: Key) {
    k in seen && k !in endpoints && !seen[k].evidence.clearedOnce && seen[k].evidence.lastHit < stamp
  }

  // A reported visit of a ray that speaks against what the voxel holds.
  predicate Strikes(config: StoreConfig, shared: bool, held: Point, sensor: Point, p: Point, visit: Visit, k: Key)
    requires config.Valid()
  {
    visit.key == k && Reported(config, shared, sensor, p, visit.time) && Contradicts(config, held, sensor, p)
  }

  predicate IsStruckAlong(config: StoreConfig, shared: bool, held: Point, sensor: Point, p: Point, visits: seq<Visit>,
                          n: nat, k: Key)
    requires config.Valid() && n <= |visits|
  {
    exists j :: 0 <= j < n && Strikes(config, shared, held, sensor, p, visits[j], k)
  }

  predicate IsStruck(config: StoreConfig, shared: bool, held: Point, sensor: Point, points: seq<Point>,
                     walks: seq<seq<Visit>>, n: nat, k: Key)
    requires config.Valid() && n <= |walks| && n <= |points|
  {
    exists i :: 0 <= i < n && IsStruckAlong(config, shared, held, sensor, points[i], walks[i], |walks[i]|, k)
  }

  function Wiped(e: Evidence): Evidence {
    e.(clearedOnce := true, state := Unknown, layer := Dynamic)
  }

  // One voxel, before and after, when it was struck or was not.
  predicate Becomes(seen: map<Key, Sighting>, after: map<Key, Sighting>, endpoints: set<Key>, stamp: real, k: Key,
                    struck: bool) {
    && (k in after <==> k in seen)
    && (k in seen ==>
          after[k] == if struck && IsOpen(seen, endpoints, stamp, k)
                      then Sighting(seen[k].point, Wiped(seen[k].evidence)) else seen[k])
  }

  lemma {:induction false} RayClearsIff(config: StoreConfig, seen: map<Key, Sighting>, shared: bool, visits: seq<Visit>,
                                        n: nat, endpoints: set<Key>, sensor: Point, p: Point, stamp: real, k: Key)
    requires config.Valid() && n <= |visits|
    ensures var after := ClearAlong(config, seen, shared, visits, n, endpoints, sensor, p, stamp);
            Becomes(seen, after, endpoints, stamp, k,
                    k in seen && IsStruckAlong(config, shared, seen[k].point, sensor, p, visits, n, k))
  {
    hide Reported, Contradicts, IsRoot;
    if n > 0 {
      RayClearsIff(config, seen, shared, visits, n - 1, endpoints, sensor, p, stamp, k);
      if k in seen {
        StruckNext(config, shared, seen[k].point, sensor, p, visits, n, k);
      }
      hide IsStruckAlong;
    }
  }

  lemma StruckNext(config: StoreConfig, shared: bool, held: Point, sensor: Point, p: Point, visits: seq<Visit>, n: nat,
                   k: Key)
    requires config.Valid() && 0 < n <= |visits|
    ensures IsStruckAlong(config, shared, held, sensor, p, visits, n, k) <==>
            IsStruckAlong(config, shared, held, sensor, p, visits, n - 1, k) ||
            Strikes(config, shared, held, sensor, p, visits[n - 1], k)
  {
    hide Strikes;
  }

  // A frame clears a voxel exactly when one of its rays, at a reported visit,
  // speaks against an open one; the order of rays and visits does not matter, and
  // nothing else of any voxel changes.
  lemma {:induction false} FrameClearsIff(config: StoreConfig, seen: map<Key, Sighting>, shared: bool,
                                          walks: seq<seq<Visit>>, points: seq<Point>, n: nat, endpoints: set<Key>,
                                          sensor: Point, stamp: real, k: Key)
    requires config.Valid() && n <= |walks| && n <= |points|
    ensures var after := ClearFrame(config, seen, shared, walks, points, n, endpoints, sensor, stamp);
            Becomes(seen, after, endpoints, stamp, k,
                    k in seen && IsStruck(config, shared, seen[k].point, sensor, points, walks, n, k))
  {
    hide IsStruckAlong, ClearAlong, IsRoot, StoreConfig.Valid;
    if n > 0 {
      FrameClearsIff(config, seen, shared, walks, points, n - 1, endpoints, sensor, stamp, k);
      var earlier := ClearFrame(config, seen, shared, walks, points, n - 1, endpoints, sensor, stamp);
      RayClearsIff(config, earlier, shared, walks[n - 1], |walks[n - 1]|, endpoints, sensor, points[n - 1], stamp, k);
    }
  }

  // The visit is reported unless it is shared and leaves the grid: what counts is
  // the point of the ray just before it leaves the voxel.
  lemma ReportedIff(config: StoreConfig, shared: bool, sensor: Point, p: Point, t: real)
    requires config.Valid()
    ensures Reported(config, shared, sensor, p, t) <==>
            !shared ||
            var s := Max(0.0, t - 0.00000001);
            var q := OnLine(sensor, p, s);
            && 0.0 <= q[0] - config.originX < config.width as real * config.resolution
            && 0.0 <= q[1] - config.originY < config.height as real * config.resolution
  {
    var s := Max(0.0, t - 0.00000001);
    assert Actual(sensor, p, t) == OnLine(sensor, p, s);
    OnGridIff(config, OnLine(sensor, p, s));
    hide OnLine, IsRoot;
  }

  lemma {:induction false} HorizonIsNotNegative(axes: seq<Axis>, visits: seq<Visit>, n: nat)
    requires IsRay(axes) && n <= |visits| && forall i | 0 <= i < n :: HoldsPiece(axes, visits, i)
    ensures Horizon(axes, visits, n) >= 0.0
  {
    if n > 0 {
      HorizonIsNotNegative(axes, visits, n - 1);
      assert HoldsPiece(axes, visits, n - 1);
    }
  }

  lemma PointHasTheKey(config: StoreConfig, sensor: Point, p: Point, s: real)
    requires config.Valid()
    ensures config.VoxelOf(OnLine(sensor, p, s)) == KeyOf(FrameAxes(config, sensor, p), s)
  {
    var axes, q := FrameAxes(config, sensor, p), OnLine(sensor, p, s);
    assert q[0] == axes[0].Position(s) && q[1] == axes[1].Position(s) && q[2] == axes[2].Position(s);
    hide IsRoot, OnLine, Axis.Position;
    SameCell(q[0], axes[0].Position(s), config.cloudResolution);
    SameCell(q[1], axes[1].Position(s), config.cloudResolution);
    SameCell(q[2], axes[2].Position(s), config.cloudResolution);
  }

  lemma SameCell(a: real, b: real, r: real)
    requires r > 0.0 && a == b
    ensures (a / r).Floor == (b / r).Floor
  {
  }

  lemma PieceHolds(axes: seq<Axis>, visits: seq<Visit>, n: nat, s: real)
    requires IsRay(axes) && n < |visits| && HoldsPiece(axes, visits, n)
    requires Horizon(axes, visits, n) < s < visits[n].time
    ensures KeyOf(axes, s) == visits[n].key
  {
  }

  // That point lies in the visited voxel, if the ray is in it for long enough.
  lemma ReportedPointIsInTheVoxel(config: StoreConfig, sensor: Point, p: Point, visits: seq<Visit>, n: nat)
    requires config.Valid() && IsRay(FrameAxes(config, sensor, p)) && n < |visits|
    requires forall i | 0 <= i <= n :: HoldsPiece(FrameAxes(config, sensor, p), visits, i)
    requires Horizon(FrameAxes(config, sensor, p), visits, n) + 0.00000001 < visits[n].time
    ensures config.VoxelOf(Actual(sensor, p, visits[n].time)) == visits[n].key
  {
    hide HoldsPiece, IsRoot, IsRay, KeyOf, StoreConfig.VoxelOf, OnLine, FrameAxes;
    var axes, s := FrameAxes(config, sensor, p), visits[n].time - 0.00000001;
    HorizonIsNotNegative(axes, visits, n);
    PieceHolds(axes, visits, n, s);
    PointHasTheKey(config, sensor, p, s);
  }

  // A ray of a frame that crosses at most ten thousand faces visits every voxel but
  // its endpoint's in which it stays for more than 1e-10 of its length.
  lemma FrameRayVisitsEveryPiece(config: StoreConfig, sensor: Point, p: Point, visits: seq<Visit>, k: Key, a: real,
                                 b: real)
    requires config.Valid() && IsRay(FrameAxes(config, sensor, p)) && IsWalk(config, sensor, p, visits)
    requires Span(FrameAxes(config, sensor, p)) <= 10000
    requires k != config.VoxelOf(p) && IsPiece(FrameAxes(config, sensor, p), k, a, b) && b - a > 0.0000000001
    ensures Visits(visits, k)
  {
    var axes := FrameAxes(config, sensor, p);
    assert Tolerance(axes) == 0.0000000001;
    RayEnds(config, sensor, p);
    hide FrameAxes, StoreConfig.VoxelOf, IsRoot, KeyOf, HoldsPiece, InOrder, CoversRay, IsRay, Span, Visits;
    PiecesAreVisited(axes, visits, k, a, b);
  }
}
