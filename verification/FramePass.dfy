/** The ray-clearing pass of one lidar frame over the cloud voxels: the mask of
    candidates decides which voxels are tried, and changes nothing by doing so. */
module FramePass {
  import opened Basics
  import opened CellEvidence
  import opened RowMajor
  import opened RayWalk
  import opened RayMask
  import opened OdomLayer
  import opened RayGeometry

  // The centre of a voxel.
  function Center(k: Key, r: real): Point {
    [(k[0] as real + 0.5) * r, (k[1] as real + 0.5) * r, (k[2] as real + 0.5) * r]
  }

  lemma FloorOfHalfway(i: int, x: real, r: real)
    requires r > 0.0 && x == (i as real + 0.5) * r
    ensures (x / r).Floor == i
  {
    var ax := Axis(x, 0.0, r, 0.0);
    KeyIs(ax, 0.0, i);
    assert x == i as real * r + 0.5 * r;
    assert ax.Position(0.0) == x;
    assert (i + 1) as real * r == i as real * r + r;
  }

  lemma CenterIsInside(config: StoreConfig, k: Key)
    requires config.Valid()
    ensures config.VoxelOf(Center(k, config.cloudResolution)) == k
  {
    var r := config.cloudResolution;
    var center := Center(k, r);
    FloorOfHalfway(k[0], center[0], r);
    FloorOfHalfway(k[1], center[1], r);
    FloorOfHalfway(k[2], center[2], r);
    assert config.VoxelOf(center) == [k[0], k[1], k[2]];
  }

  // Where the visitor is told the ray was, just before it left the voxel.
  function Actual(sensor: Point, p: Point, t: real): Point {
    OnLine(sensor, p, Max(0.0, t - 0.00000001))
  }

  // A walk at the column resolution only reports points on the grid; a walk of
  // its own at the cloud resolution reports them all.
  predicate Reported(config: StoreConfig, shared: bool, sensor: Point, p: Point, t: real)
    requires config.Valid()
  {
    !shared || config.OnGrid(Actual(sensor, p, t))
  }

  // The specification: every reported voxel that holds no return is tried.
  function ClearAlong(config: StoreConfig, seen: map<Key, Sighting>, shared: bool, visits: seq<Visit>, n: nat,
                      endpoints: set<Key>, sensor: Point, p: Point, stamp: real): map<Key, Sighting>
    requires config.Valid() && n <= |visits|
  {
    if n == 0 then seen
    else
      var earlier, visit := ClearAlong(config, seen, shared, visits, n - 1, endpoints, sensor, p, stamp), visits[n - 1];
      if visit.key !in endpoints && Reported(config, shared, sensor, p, visit.time)
      then TryClear(config, earlier, visit.key, sensor, p, stamp) else earlier
  }

  function ClearFrame(config: StoreConfig, seen: map<Key, Sighting>, shared: bool, walks: seq<seq<Visit>>,
                      points: seq<Point>,
                      n: nat, endpoints: set<Key>, sensor: Point, stamp: real): map<Key, Sighting>
    requires config.Valid() && n <= |walks| && n <= |points|
  {
    if n == 0 then seen
    else
      var earlier := ClearFrame(config, seen, shared, walks, points, n - 1, endpoints, sensor, stamp);
      ClearAlong(config, earlier, shared, walks[n - 1], |walks[n - 1]|, endpoints, sensor, points[n - 1], stamp)
  }

  // The ray of one return, with the program's tolerance.
  function FrameAxes(config: StoreConfig, sensor: Point, p: Point): (axes: seq<Axis>)
    ensures |axes| == 3
  {
    RayAxes(sensor, p, config.cloudResolution, TOLERANCE)
  }

  lemma RayEnds(config: StoreConfig, sensor: Point, p: Point)
    requires config.Valid() && IsRay(FrameAxes(config, sensor, p))
    ensures KeyOf(FrameAxes(config, sensor, p), 0.0) == config.VoxelOf(sensor)
    ensures KeyOf(FrameAxes(config, sensor, p), 1.0) == config.VoxelOf(p)
  {
    var axes := FrameAxes(config, sensor, p);
    forall a | 0 <= a < 3
      ensures axes[a].Position(0.0) == sensor[a] && axes[a].Position(1.0) == p[a] && axes[a].r == config.cloudResolution
    {
    }
  }

  // The mask's box holds every voxel the walk can visit.
  lemma WalkIsInBox(config: StoreConfig, sensor: Point, p: Point, visits: seq<Visit>, n: nat, minimum: Key,
                    maximum: Key)
    requires config.Valid() && IsRay(FrameAxes(config, sensor, p)) && n < |visits|
    requires HoldsPiece(FrameAxes(config, sensor, p), visits, n)
    requires InBox(config.VoxelOf(sensor), minimum, maximum) && InBox(config.VoxelOf(p), minimum, maximum)
    ensures InBox(visits[n].key, minimum, maximum)
  {
    RayEnds(config, sensor, p);
    hide Axis.KeyAt, StoreConfig.VoxelOf, FrameAxes;
  }

  // The mask's candidates are the voxels that can still be cleared.
  ghost predicate Agrees(mask: RayFrameMask, seen: map<Key, Sighting>, stamp: real)
    reads mask
  {
    forall k: Key | InBox(k, mask.minimum, mask.maximum) && k !in mask.endpoints ::
      k in mask.traversed <==> Clearable(seen, k, stamp)
  }

  lemma TryClearIsLocal(config: StoreConfig, seen: map<Key, Sighting>, k: Key, sensor: Point, p: Point, stamp: real)
    requires config.Valid()
    ensures !Clearable(seen, k, stamp) ==> TryClear(config, seen, k, sensor, p, stamp) == seen
    ensures forall l :: l != k ==>
              Clearable(TryClear(config, seen, k, sensor, p, stamp), l, stamp) == Clearable(seen, l, stamp)
  {
  }

  method KeysOf(config: StoreConfig, points: seq<Point>) returns (keys: seq<Key>)
    requires config.Valid()
    ensures |keys| == |points| && forall i | 0 <= i < |points| :: keys[i] == config.VoxelOf(points[i])
  {
    keys := [];
    for i := 0 to |points|
      invariant |keys| == i && forall j | 0 <= j < i :: keys[j] == config.VoxelOf(points[j])
    {
      keys := keys + [config.VoxelOf(points[i])];
    }
  }

  ghost predicate Ready(layer: OdomLayerStore, mask: RayFrameMask, stamp: real)
    reads layer, mask, mask.words
  {
    layer.Valid() && mask.Valid() && Agrees(mask, Seen(layer.voxels), stamp)
  }

  function Endpoints(config: StoreConfig, points: seq<Point>): set<Key>
    requires config.Valid()
  {
    set i | 0 <= i < |points| :: config.VoxelOf(points[i])
  }

  // The cloud mask before the first ray.
  method PrepareMask(layer: OdomLayerStore, points: seq<Point>, sensor: Point, stamp: real) returns (mask: RayFrameMask)
    requires layer.Valid()
    ensures fresh(mask) && fresh(mask.words) && Ready(layer, mask, stamp)
    ensures mask.endpoints == Endpoints(layer.config, points)
    ensures InBox(layer.config.VoxelOf(sensor), mask.minimum, mask.maximum)
    ensures forall i | 0 <= i < |points| :: InBox(layer.config.VoxelOf(points[i]), mask.minimum, mask.maximum)
  {
    var keys := KeysOf(layer.config, points);
    hide StoreConfig.VoxelOf, Clearable, Seen;
    mask := new RayFrameMask(keys, layer.config.VoxelOf(sensor));
    assert mask.endpoints == Endpoints(layer.config, points);
    forall i | 0 <= i < |points| ensures InBox(layer.config.VoxelOf(points[i]), mask.minimum, mask.maximum) {
      assert keys[i] in mask.endpoints;
    }
    AddCandidates(layer, mask, stamp);
  }

  method AddCandidates(layer: OdomLayerStore, mask: RayFrameMask, stamp: real)
    requires layer.Valid() && mask.Valid() && mask.traversed == {}
    modifies mask`traversedSet, mask`traversed, mask.words
    ensures Ready(layer, mask, stamp)
  {
    hide InBox, Clearable, Seen;
    var candidates := layer.RayClearCandidates(stamp);
    for i := 0 to |candidates|
      invariant layer.Valid() && mask.Valid()
      invariant forall k: Key | InBox(k, mask.minimum, mask.maximum) :: k in mask.traversed <==> k in candidates[..i]
    {
      assert candidates[..i + 1] == candidates[..i] + [candidates[i]];
      mask.AddCandidate(candidates[i]);
    }
    assert candidates[..|candidates|] == candidates;
  }

  // One visited voxel, tried only if it is a candidate.
  method ClearCloud(layer: OdomLayerStore, mask: RayFrameMask, k: Key, sensor: Point, p: Point, stamp: real)
    requires Ready(layer, mask, stamp) && InBox(k, mask.minimum, mask.maximum)
    modifies layer`voxels, layer`candidates, mask`traversedSet, mask`traversed, mask.words
    ensures Ready(layer, mask, stamp)
    ensures Seen(layer.voxels) ==
              if k in mask.endpoints then old(Seen(layer.voxels))
              else TryClear(layer.config, old(Seen(layer.voxels)), k, sensor, p, stamp)
  {
    hide TryClear, Seen, Clearable, InBox, StoreConfig.VoxelOf;
    TryClearIsLocal(layer.config, Seen(layer.voxels), k, sensor, p, stamp);
    var candidate := mask.Candidate(k);
    if !candidate {
      return;
    }
    CenterIsInside(layer.config, k);
    var center := Center(k, layer.config.cloudResolution);
    layer.ClearCloudVoxelAlongRay(center, sensor, p, stamp);
    var left := layer.HasRayClearCandidate(center, stamp);
    if !left {
      mask.RemoveCandidate(k);
    }
  }

  // What the traversal promises of one ray.
  ghost predicate IsWalk(config: StoreConfig, sensor: Point, p: Point, visits: seq<Visit>)
    requires config.Valid() && IsRay(FrameAxes(config, sensor, p))
  {
    var axes := FrameAxes(config, sensor, p);
    && (forall n | 0 <= n < |visits| :: HoldsPiece(axes, visits, n))
    && InOrder(axes, visits)
    && (Span(axes) <= MAX_ITERATIONS ==> CoversRay(axes, visits))
  }

  ghost predicate AreRays(config: StoreConfig, sensor: Point, points: seq<Point>)
    requires config.Valid()
  {
    forall i | 0 <= i < |points| :: IsRay(FrameAxes(config, sensor, points[i]))
  }

  ghost predicate AreWalks(config: StoreConfig, sensor: Point, points: seq<Point>, walks: seq<seq<Visit>>)
    requires config.Valid() && AreRays(config, sensor, points) && |walks| <= |points|
  {
    forall i | 0 <= i < |walks| :: IsWalk(config, sensor, points[i], walks[i])
  }

  // One ray.
  method ClearRay(layer: OdomLayerStore, mask: RayFrameMask, shared: bool, sensor: Point, p: Point, stamp: real)
    returns (visits: seq<Visit>)
    requires Ready(layer, mask, stamp) && IsRay(FrameAxes(layer.config, sensor, p))
    requires InBox(layer.config.VoxelOf(sensor), mask.minimum, mask.maximum)
    requires InBox(layer.config.VoxelOf(p), mask.minimum, mask.maximum)
    modifies layer`voxels, layer`candidates, mask`traversedSet, mask`traversed, mask.words
    ensures Ready(layer, mask, stamp) && IsWalk(layer.config, sensor, p, visits)
    ensures Seen(layer.voxels) ==
              ClearAlong(layer.config, old(Seen(layer.voxels)), shared, visits, |visits|, mask.endpoints, sensor, p,
                         stamp)
  {
    assert layer.config.Valid();
    hide HoldsPiece, InOrder, Ready, TryClear, Seen, InBox, FrameAxes, StoreConfig.VoxelOf, Covered, Span, IsRay,
      ClearAlong;
    visits := Ray(sensor, p, layer.config.cloudResolution, TOLERANCE);
    assert IsWalk(layer.config, sensor, p, visits);
    forall n | 0 <= n < |visits| ensures InBox(visits[n].key, mask.minimum, mask.maximum) {
      WalkIsInBox(layer.config, sensor, p, visits, n, mask.minimum, mask.maximum);
    }
    hide IsWalk;
    ClearVisits(layer, mask, shared, sensor, p, stamp, visits);
  }

  method ClearVisits(layer: OdomLayerStore, mask: RayFrameMask, shared: bool, sensor: Point, p: Point, stamp: real,
                     visits: seq<Visit>)
    requires Ready(layer, mask, stamp)
    requires forall n | 0 <= n < |visits| :: InBox(visits[n].key, mask.minimum, mask.maximum)
    modifies layer`voxels, layer`candidates, mask`traversedSet, mask`traversed, mask.words
    ensures Ready(layer, mask, stamp)
    ensures Seen(layer.voxels) ==
              ClearAlong(layer.config, old(Seen(layer.voxels)), shared, visits, |visits|, mask.endpoints, sensor, p,
                         stamp)
  {
    assert layer.config.Valid();
    assert ClearAlong(layer.config, Seen(layer.voxels), shared, visits, 0, mask.endpoints, sensor, p, stamp) ==
           Seen(layer.voxels);
    hide ClearAlong, Ready, TryClear, Seen, InBox, Reported;
    for n := 0 to |visits|
      invariant Ready(layer, mask, stamp)
      invariant Seen(layer.voxels) ==
                  ClearAlong(layer.config, old(Seen(layer.voxels)), shared, visits, n, mask.endpoints, sensor, p, stamp)
    {
      AlongNext(layer.config, old(Seen(layer.voxels)), shared, visits, n, mask.endpoints, sensor, p, stamp);
      if Reported(layer.config, shared, sensor, p, visits[n].time) {
        ClearCloud(layer, mask, visits[n].key, sensor, p, stamp);
      }
    }
  }

  // One more visit of a ray.
  lemma AlongNext(config: StoreConfig, seen: map<Key, Sighting>, shared: bool, visits: seq<Visit>, n: nat,
                  endpoints: set<Key>, sensor: Point, p: Point, stamp: real)
    requires config.Valid() && n < |visits|
    ensures ClearAlong(config, seen, shared, visits, n + 1, endpoints, sensor, p, stamp) ==
            var earlier := ClearAlong(config, seen, shared, visits, n, endpoints, sensor, p, stamp);
            if visits[n].key !in endpoints && Reported(config, shared, sensor, p, visits[n].time)
            then TryClear(config, earlier, visits[n].key, sensor, p, stamp) else earlier
  {
    hide Reported, TryClear;
  }

  // The whole pass leaves the store as if every reported voxel that holds no
  // return of this frame had been tried, mask or no mask.
  method ClearCloudRays(layer: OdomLayerStore, shared: bool, points: seq<Point>, sensor: Point, stamp: real)
    returns (walks: seq<seq<Visit>>)
    requires layer.Valid() && AreRays(layer.config, sensor, points)
    modifies layer`voxels, layer`candidates
    ensures layer.Valid() && |walks| == |points| && AreWalks(layer.config, sensor, points, walks)
    ensures Seen(layer.voxels) ==
              ClearFrame(layer.config, old(Seen(layer.voxels)), shared, walks, points, |points|,
                         Endpoints(layer.config, points), sensor, stamp)
  {
    var mask := PrepareMask(layer, points, sensor, stamp);
    assert layer.config.Valid();
    walks := ClearRays(layer, mask, shared, points, sensor, stamp);
  }

  method ClearRays(layer: OdomLayerStore, mask: RayFrameMask, shared: bool, points: seq<Point>, sensor: Point,
                   stamp: real)
    returns (walks: seq<seq<Visit>>)
    requires Ready(layer, mask, stamp) && AreRays(layer.config, sensor, points)
    requires InBox(layer.config.VoxelOf(sensor), mask.minimum, mask.maximum)
    requires forall i | 0 <= i < |points| :: InBox(layer.config.VoxelOf(points[i]), mask.minimum, mask.maximum)
    modifies layer`voxels, layer`candidates, mask`traversedSet, mask`traversed, mask.words
    ensures Ready(layer, mask, stamp) && |walks| == |points| && AreWalks(layer.config, sensor, points, walks)
    ensures Seen(layer.voxels) ==
              ClearFrame(layer.config, old(Seen(layer.voxels)), shared, walks, points, |points|, mask.endpoints, sensor,
                         stamp)
  {
    assert layer.config.Valid();
    FrameStarts(layer.config, Seen(layer.voxels), shared, points, mask.endpoints, sensor, stamp);
    hide IsWalk, AreWalks, Ready, TryClear, Seen, InBox, FrameAxes, StoreConfig.VoxelOf, ClearAlong, ClearFrame, IsRay;
    walks := [];
    for i := 0 to |points|
      invariant |walks| == i && Ready(layer, mask, stamp) && AreWalks(layer.config, sensor, points, walks)
      invariant Seen(layer.voxels) ==
                  ClearFrame(layer.config, old(Seen(layer.voxels)), shared, walks, points, i, mask.endpoints, sensor,
                             stamp)
    {
      var visits := ClearRay(layer, mask, shared, sensor, points[i], stamp);
      FrameNext(layer.config, old(Seen(layer.voxels)), shared, walks, visits, points, i, mask.endpoints, sensor, stamp);
      walks := walks + [visits];
    }
  }

  lemma FrameStarts(config: StoreConfig, seen: map<Key, Sighting>, shared: bool, points: seq<Point>,
                    endpoints: set<Key>, sensor: Point,
                    stamp: real)
    requires config.Valid() && AreRays(config, sensor, points)
    ensures AreWalks(config, sensor, points, []) &&
            ClearFrame(config, seen, shared, [], points, 0, endpoints, sensor, stamp) == seen
  {
    hide FrameAxes, IsRay;
  }

  // One more ray: its walk joins the walks, its clearing the clearing so far.
  lemma FrameNext(config: StoreConfig, seen: map<Key, Sighting>, shared: bool, walks: seq<seq<Visit>>,
                  visits: seq<Visit>,
                  points: seq<Point>, n: nat, endpoints: set<Key>, sensor: Point, stamp: real)
    requires config.Valid() && AreRays(config, sensor, points) && n == |walks| < |points|
    requires AreWalks(config, sensor, points, walks) && IsRay(FrameAxes(config, sensor, points[n]))
    requires IsWalk(config, sensor, points[n], visits)
    ensures AreWalks(config, sensor, points, walks + [visits])
    ensures ClearFrame(config, seen, shared, walks + [visits], points, n + 1, endpoints, sensor, stamp) ==
            ClearAlong(config, ClearFrame(config, seen, shared, walks, points, n, endpoints, sensor, stamp), shared,
                       visits, |visits|,
                       endpoints, sensor, points[n], stamp)
  {
    hide IsWalk, ClearAlong, IsRay, FrameAxes;
    FramePrefix(config, seen, shared, walks, walks + [visits], points, n, endpoints, sensor, stamp);
  }

  lemma {:induction false} FramePrefix(config: StoreConfig, seen: map<Key, Sighting>, shared: bool,
                                       walks: seq<seq<Visit>>,
                                       more: seq<seq<Visit>>, points: seq<Point>, n: nat, endpoints: set<Key>,
                                       sensor: Point, stamp: real)
    requires config.Valid() && n <= |walks| && n <= |points| && walks <= more
    ensures ClearFrame(config, seen, shared, walks, points, n, endpoints, sensor, stamp) ==
            ClearFrame(config, seen, shared, more, points, n, endpoints, sensor, stamp)
  {
    hide ClearAlong;
    if n > 0 {
      FramePrefix(config, seen, shared, walks, more, points, n - 1, endpoints, sensor, stamp);
    }
  }
}
