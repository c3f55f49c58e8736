/** The odom-layer store: the grid of cell evidence, the hashed cloud voxels, and
    the swap-removed list that indexes the voxels a ray may still clear. */
module OdomLayer {
  import opened Basics
  import opened CellEvidence
  import opened RowMajor
  import opened RayWalk

  type Point = p: seq<real> | |p| == 3 witness [0.0, 0.0, 0.0]

  datatype Candidate = Candidate(key: Key, lastHit: real)

  // A missing candidate index is the program's maximal size_t.
  datatype CloudVoxel = CloudVoxel(point: Point, evidence: Evidence, candidate: Option<nat>)

  // What is observable of a voxel; the index is bookkeeping.
  datatype Sighting = Sighting(point: Point, evidence: Evidence)

  datatype StoreConfig = StoreConfig(
    evidence: Config, width: nat, height: nat, resolution: real, originX: real, originY: real,
    cloudResolution: real, clearRadius: real, endpointMargin: real, root: real -> real)
  {
    ghost predicate Valid() {
      evidence.Valid() && resolution > 0.0 && cloudResolution > 0.0 && clearRadius >= 0.0 && endpointMargin >= 0.0 &&
      IsRoot(root)
    }

    function VoxelOf(p: Point): Key
      requires Valid()
    {
      [(p[0] / cloudResolution).Floor, (p[1] / cloudResolution).Floor, (p[2] / cloudResolution).Floor]
    }

    predicate ValidCell(x: int, y: int) {
      0 <= x < width && 0 <= y < height
    }

    predicate OnGrid(p: Point)
      requires Valid()
    {
      ValidCell(((p[0] - originX) / resolution).Floor, ((p[1] - originY) / resolution).Floor)
    }
  }

  function Dot(a: Point, b: Point): real {
    a[0] * b[0] + a[1] * b[1] + a[2] * b[2]
  }

  function Minus(a: Point, b: Point): Point {
    [a[0] - b[0], a[1] - b[1], a[2] - b[2]]
  }

  // The ray from sensor to endpoint contradicts a return stored at point: it
  // passes close by, well short of its own return.
  predicate Contradicts(config: StoreConfig, point: Point, sensor: Point, endpoint: Point)
    requires config.Valid()
  {
    var d, v := Minus(endpoint, sensor), Minus(point, sensor);
    var norm, projection := Dot(d, d), Dot(v, d);
    norm > 0.000000001 && projection > 0.0 &&
    var length := config.root(norm);
    assert length * length == norm;
    var along := projection / length;
    along < length - config.endpointMargin &&
    Max(0.0, Dot(v, v) - along * along) <= config.clearRadius * config.clearRadius
  }

  function Cleared(e: Evidence): Evidence {
    e.(clearedOnce := true, state := Unknown, layer := Dynamic)
  }

  function Clearable(seen: map<Key, Sighting>, key: Key, stamp: real): bool {
    key in seen && !seen[key].evidence.clearedOnce && seen[key].evidence.lastHit < stamp
  }

  // Trying one voxel against one ray.
  function TryClear(config: StoreConfig, seen: map<Key, Sighting>, key: Key, sensor: Point, endpoint: Point,
                    stamp: real): map<Key, Sighting>
    requires config.Valid()
  {
    if Clearable(seen, key, stamp) && Contradicts(config, seen[key].point, sensor, endpoint)
    then seen[key := seen[key].(evidence := Cleared(seen[key].evidence))]
    else seen
  }

  // One accepted return in a voxel.
  function Sight(config: Config, before: Evidence, stamp: real, dt: real): Evidence
    requires config.Valid()
  {
    var interval := if before.lastHit > 0.0 then stamp - before.lastHit else dt;
    var hitTime := before.hitTime + Clamp(interval, 0.0, config.maxFrame);
    var e := before.(state := Occupied, lastHit := stamp, hitTime := hitTime, observed := hitTime);
    if !e.clearedOnce && hitTime >= config.promotion then e.(layer := Static) else e
  }

  function Seen(voxels: map<Key, CloudVoxel>): map<Key, Sighting> {
    map k | k in voxels :: Sighting(voxels[k].point, voxels[k].evidence)
  }

  // The voxel map and the candidate list point at each other, and carry the
  // same times.
  ghost predicate Linked(voxels: map<Key, CloudVoxel>, candidates: seq<Candidate>) {
    && (forall i | 0 <= i < |candidates| ::
          candidates[i].key in voxels && voxels[candidates[i].key].candidate == Some(i) &&
          voxels[candidates[i].key].evidence.lastHit == candidates[i].lastHit)
    && (forall k | k in voxels && voxels[k].candidate.Some? ::
          voxels[k].candidate.value < |candidates| && candidates[voxels[k].candidate.value].key == k)
  }

  // Exactly the voxels no ray has cleared are candidates.
  ghost predicate Current(voxels: map<Key, CloudVoxel>) {
    forall k | k in voxels :: voxels[k].candidate.Some? <==> !voxels[k].evidence.clearedOnce
  }

  function EvidenceAt(seen: map<Key, Sighting>, key: Key): Evidence {
    if key in seen then seen[key].evidence else FRESH
  }

  // The effect of the swap-removal on the map and on the list.
  function WithoutCandidate(voxels: map<Key, CloudVoxel>, candidates: seq<Candidate>, key: Key): (map<Key, CloudVoxel>,
                                                                                                  seq<Candidate>)
    requires key in voxels && Linked(voxels, candidates)
  {
    if voxels[key].candidate.None? then (voxels, candidates)
    else
      var i, n := voxels[key].candidate.value, |candidates| - 1;
      var last := candidates[n];
      var moved := if i < n then voxels[last.key := voxels[last.key].(candidate := Some(i))] else voxels;
      (moved[key := moved[key].(candidate := None)], if i < n then candidates[i := last][..n] else candidates[..n])
  }

  lemma RemovalKeepsLinks(voxels: map<Key, CloudVoxel>, candidates: seq<Candidate>, key: Key)
    requires key in voxels && Linked(voxels, candidates)
    ensures Linked(WithoutCandidate(voxels, candidates, key).0, WithoutCandidate(voxels, candidates, key).1)
  {
    var (voxels', candidates') := WithoutCandidate(voxels, candidates, key);
    forall i | 0 <= i < |candidates'|
      ensures candidates'[i].key in voxels' && voxels'[candidates'[i].key].candidate == Some(i)
      ensures voxels'[candidates'[i].key].evidence.lastHit == candidates'[i].lastHit
    {
    }
    forall k | k in voxels' && voxels'[k].candidate.Some?
      ensures voxels'[k].candidate.value < |candidates'| && candidates'[voxels'[k].candidate.value].key == k
    {
    }
  }

  lemma RemovalTouchesOneVoxel(voxels: map<Key, CloudVoxel>, candidates: seq<Candidate>, key: Key)
    requires key in voxels && Linked(voxels, candidates)
    ensures var voxels' := WithoutCandidate(voxels, candidates, key).0;
            && voxels'.Keys == voxels.Keys && voxels'[key].candidate.None?
            && (forall k | k in voxels ::
                  voxels'[k].point == voxels[k].point && voxels'[k].evidence == voxels[k].evidence)
            && (forall k | k in voxels && k != key :: voxels'[k].candidate.Some? == voxels[k].candidate.Some?)
  {
  }

  lemma ClearingKeepsLinks(voxels: map<Key, CloudVoxel>, candidates: seq<Candidate>, key: Key)
    requires key in voxels && Linked(voxels, candidates) && Current(voxels)
    ensures var marked := voxels[key := voxels[key].(evidence := Cleared(voxels[key].evidence))];
            && Linked(marked, candidates)
            && var (voxels', candidates') := WithoutCandidate(marked, candidates, key);
            && Linked(voxels', candidates') && Current(voxels')
            && Seen(voxels') == Seen(voxels)[key := Sighting(voxels[key].point, Cleared(voxels[key].evidence))]
  {
    hide WithoutCandidate, Linked, Current, Seen;
    var marked := voxels[key := voxels[key].(evidence := Cleared(voxels[key].evidence))];
    MarkingKeepsLinks(voxels, candidates, key);
    RemovalKeepsLinks(marked, candidates, key);
    RemovalTouchesOneVoxel(marked, candidates, key);
    MarkingIsSeen(voxels, marked, WithoutCandidate(marked, candidates, key).0, key);
  }

  lemma MarkingKeepsLinks(voxels: map<Key, CloudVoxel>, candidates: seq<Candidate>, key: Key)
    requires key in voxels && Linked(voxels, candidates)
    ensures Linked(voxels[key := voxels[key].(evidence := Cleared(voxels[key].evidence))], candidates)
  {
  }

  lemma MarkingIsSeen(voxels: map<Key, CloudVoxel>, marked: map<Key, CloudVoxel>, voxels': map<Key, CloudVoxel>,
                      key: Key)
    requires key in voxels && Current(voxels)
    requires marked == voxels[key := voxels[key].(evidence := Cleared(voxels[key].evidence))]
    requires voxels'.Keys == voxels.Keys && voxels'[key].candidate.None?
    requires forall k | k in voxels ::
               voxels'[k].point == marked[k].point && voxels'[k].evidence == marked[k].evidence
    requires forall k | k in voxels && k != key :: voxels'[k].candidate.Some? == marked[k].candidate.Some?
    ensures Current(voxels')
    ensures Seen(voxels') == Seen(voxels)[key := Sighting(voxels[key].point, Cleared(voxels[key].evidence))]
  {
    assert Cleared(voxels[key].evidence).clearedOnce;
    hide Cleared, Seen;
    SeenFollows(voxels, voxels', key, Cleared(voxels[key].evidence));
  }

  lemma SeenFollows(voxels: map<Key, CloudVoxel>, voxels': map<Key, CloudVoxel>, key: Key, evidence: Evidence)
    requires key in voxels && voxels'.Keys == voxels.Keys
    requires voxels'[key].point == voxels[key].point && voxels'[key].evidence == evidence
    requires forall k | k in voxels && k != key ::
               voxels'[k].point == voxels[k].point && voxels'[k].evidence == voxels[k].evidence
    ensures Seen(voxels') == Seen(voxels)[key := Sighting(voxels[key].point, evidence)]
  {
  }

  lemma SightKeepsClearance(config: Config, before: Evidence, stamp: real, dt: real)
    requires config.Valid()
    ensures Sight(config, before, stamp, dt).clearedOnce == before.clearedOnce
    ensures Sight(config, before, stamp, dt).lastHit == stamp
  {
  }

  // Recording a return: an uncleared voxel gains a candidate or refreshes it.
  lemma SightingKeepsLinks(voxels: map<Key, CloudVoxel>, candidates: seq<Candidate>, key: Key, voxel: CloudVoxel,
                           point: Point, evidence: Evidence)
    requires Linked(voxels, candidates) && Current(voxels)
    requires if key in voxels then voxel == voxels[key] else voxel.candidate.None? && !voxel.evidence.clearedOnce
    requires evidence.clearedOnce == voxel.evidence.clearedOnce
    ensures voxel.candidate.Some? ==> !voxel.evidence.clearedOnce && voxel.candidate.value < |candidates|
    ensures !voxel.evidence.clearedOnce ==>
              var candidates' :=
                if voxel.candidate.None? then candidates + [Candidate(key, evidence.lastHit)]
                else
                  var i := voxel.candidate.value;
                  candidates[i := Candidate(candidates[i].key, evidence.lastHit)];
              var candidate := if voxel.candidate.None? then Some(|candidates|) else voxel.candidate;
              Linked(voxels[key := CloudVoxel(point, evidence, candidate)], candidates') &&
              Current(voxels[key := CloudVoxel(point, evidence, candidate)])
    ensures voxel.evidence.clearedOnce ==>
              Linked(voxels[key := CloudVoxel(point, evidence, voxel.candidate)], candidates) &&
              Current(voxels[key := CloudVoxel(point, evidence, voxel.candidate)])
  {
  }

  lemma SightingIsSeen(voxels: map<Key, CloudVoxel>, key: Key, point: Point, evidence: Evidence)
    ensures forall candidate :: Seen(voxels[key := CloudVoxel(point, evidence, candidate)]) ==
              Seen(voxels)[key := Sighting(point, evidence)]
  {
  }

  class OdomLayerStore {
    const config: StoreConfig
    const cells: array<Evidence>
    var voxels: map<Key, CloudVoxel>
    var candidates: seq<Candidate>

    ghost predicate Valid()
      reads this
    {
      config.Valid() && cells.Length == config.width * config.height && Linked(voxels, candidates) && Current(voxels)
    }

    constructor (config: StoreConfig)
      requires config.Valid()
      ensures Valid() && this.config == config && fresh(cells)
      ensures voxels == map[] && forall i | 0 <= i < cells.Length :: cells[i] == FRESH
    {
      this.config := config;
      cells := new Evidence[config.width * config.height](_ => FRESH);
      voxels, candidates := map[], [];
    }

    method ApplyAt(x: int, y: int, op: Operation) returns (result: bool)
      requires Valid()
      modifies cells
      ensures Valid()
      ensures !config.ValidCell(x, y) ==> !result && cells[..] == old(cells[..])
      ensures config.ValidCell(x, y) ==>
                var i := Cell(config.width, x, y);
                && 0 <= i < cells.Length && result == Perform(config.evidence, old(cells[..])[i], op).1
                && cells[..] == old(cells[..])[i := Apply(config.evidence, old(cells[..])[i], op)]
    {
      if !config.ValidCell(x, y) {
        return false;
      }
      CellInRange(config.width, config.height, x, y);
      var i := Cell(config.width, x, y);
      hide Cell;
      match op {
        case Hit(stamp, dt) =>
          var outcome := ObserveHit(config.evidence, cells[i], stamp, dt);
          cells[i], result := outcome.0, outcome.1;
        case Visible(stamp) =>
          var outcome := ObserveVisible(cells[i], stamp);
          cells[i], result := outcome.0, outcome.1;
        case RayClear(stamp, visible) =>
          var outcome := ObserveRayClear(cells[i], stamp, visible);
          cells[i], result := outcome.0, outcome.1;
        case FreeView(stamp, dt) =>
          var outcome := ObserveFree(config.evidence, cells[i], stamp, dt);
          cells[i], result := outcome.0, outcome.1;
        case Tock(stamp) =>
          cells[i], result := Tick(config.evidence, cells[i], stamp), true;
      }
    }

    // The out-of-view rule, over the whole grid.
    method TickAll(stamp: Option<real>)
      requires Valid()
      modifies cells
      ensures Valid()
      ensures forall i | 0 <= i < cells.Length :: cells[i] == Tick(config.evidence, old(cells[i]), stamp)
    {
      if stamp.None? {
        return;
      }
      for i := 0 to cells.Length
        invariant forall j | 0 <= j < i :: cells[j] == Tick(config.evidence, old(cells[j]), stamp)
        invariant forall j | i <= j < cells.Length :: cells[j] == old(cells[j])
      {
        cells[i] := Tick(config.evidence, cells[i], stamp);
      }
    }

    method ObservePoint(point: Point, stamp: Option<real>, dt: real) returns (accepted: bool)
      requires Valid()
      modifies this`voxels, this`candidates
      ensures Valid()
      ensures var before := EvidenceAt(Seen(old(voxels)), config.VoxelOf(point));
              && accepted == (stamp.Some? && config.OnGrid(point) &&
                              !(before.state == Occupied && stamp.value <= before.lastHit))
              && Seen(voxels) ==
                   if accepted
                   then Seen(old(voxels))[config.VoxelOf(point) := Sighting(point,
                                                                            Sight(config.evidence, before, stamp.value,
                                                                                  dt))]
                   else Seen(old(voxels))
    {
      if stamp.None? || !config.OnGrid(point) {
        return false;
      }
      hide Sight;
      var key := config.VoxelOf(point);
      var voxel := if key in voxels then voxels[key] else CloudVoxel([0.0, 0.0, 0.0], FRESH, None);
      assert voxel.evidence == EvidenceAt(Seen(voxels), key);
      if voxel.evidence.state == Occupied && stamp.value <= voxel.evidence.lastHit {
        return false;
      }
      var evidence := Sight(config.evidence, voxel.evidence, stamp.value, dt);
      SightKeepsClearance(config.evidence, voxel.evidence, stamp.value, dt);
      SightingKeepsLinks(voxels, candidates, key, voxel, point, evidence);
      SightingIsSeen(voxels, key, point, evidence);
      hide Linked, Current, Seen;
      var candidate := voxel.candidate;
      if !voxel.evidence.clearedOnce {
        if candidate.None? {
          candidates := candidates + [Candidate(key, stamp.value)];
          candidate := Some(|candidates| - 1);
        } else {
          candidates := candidates[candidate.value := Candidate(candidates[candidate.value].key, stamp.value)];
        }
      }
      voxels := voxels[key := CloudVoxel(point, evidence, candidate)];
      return true;
    }

    // Swap-remove: the last candidate takes the place of the removed one.
    method RemoveRayClearCandidate(key: Key)
      requires key in voxels && Linked(voxels, candidates)
      modifies this`voxels, this`candidates
      ensures (voxels, candidates) == WithoutCandidate(old(voxels), old(candidates), key)
    {
      var index := voxels[key].candidate;
      if index.None? {
        return;
      }
      var i := index.value;
      var last := candidates[|candidates| - 1];
      if i + 1 < |candidates| {
        candidates := candidates[i := last];
        voxels := voxels[last.key := voxels[last.key].(candidate := Some(i))];
      }
      candidates := candidates[..|candidates| - 1];
      voxels := voxels[key := voxels[key].(candidate := None)];
    }

    method ClearVoxel(key: Key)
      requires Valid() && key in voxels
      modifies this`voxels, this`candidates
      ensures Valid()
      ensures Seen(voxels) ==
                Seen(old(voxels))[key := Sighting(old(voxels)[key].point, Cleared(old(voxels)[key].evidence))]
    {
      hide Linked, Current, Seen, WithoutCandidate;
      ClearingKeepsLinks(voxels, candidates, key);
      voxels := voxels[key := voxels[key].(evidence := Cleared(voxels[key].evidence))];
      RemoveRayClearCandidate(key);
    }

    // Clears the voxel of a point, unless a hit as new as the stamp supports it.
    method ClearCloudVoxel(point: Point, stamp: real)
      requires Valid()
      modifies this`voxels, this`candidates
      ensures Valid()
      ensures var key := config.VoxelOf(point);
              Seen(voxels) ==
                if key in old(voxels) && old(voxels)[key].evidence.lastHit < stamp
                then Seen(old(voxels))[key := Sighting(old(voxels)[key].point, Cleared(old(voxels)[key].evidence))]
                else Seen(old(voxels))
    {
      hide Seen, StoreConfig.VoxelOf;
      var key := config.VoxelOf(point);
      if key !in voxels || voxels[key].evidence.lastHit >= stamp {
        return;
      }
      ClearVoxel(key);
    }

    method ClearCloudVoxelAlongRay(location: Point, sensor: Point, endpoint: Point, stamp: real)
      requires Valid()
      modifies this`voxels, this`candidates
      ensures Valid()
      ensures Seen(voxels) == TryClear(config, Seen(old(voxels)), config.VoxelOf(location), sensor, endpoint, stamp)
    {
      var key := config.VoxelOf(location);
      if key !in voxels || voxels[key].evidence.clearedOnce || voxels[key].evidence.lastHit >= stamp {
        return;
      }
      if Contradicts(config, voxels[key].point, sensor, endpoint) {
        ClearVoxel(key);
      }
    }

    method HasRayClearCandidate(location: Point, stamp: real) returns (has: bool)
      requires Valid()
      ensures has == Clearable(Seen(voxels), config.VoxelOf(location), stamp)
    {
      var key := config.VoxelOf(location);
      return key in voxels && !voxels[key].evidence.clearedOnce && voxels[key].evidence.lastHit < stamp;
    }

    // The list answers, without repeats, exactly what a scan of the map would.
    method RayClearCandidates(stamp: real) returns (keys: seq<Key>)
      requires Valid()
      ensures forall k :: k in keys <==> Clearable(Seen(voxels), k, stamp)
      ensures forall i, j | 0 <= i < j < |keys| :: keys[i] != keys[j]
    {
      keys := [];
      for i := 0 to |candidates|
        invariant forall k :: k in keys <==>
                    exists j :: 0 <= j < i && candidates[j].key == k && candidates[j].lastHit < stamp
        invariant forall a, b | 0 <= a < b < |keys| :: keys[a] != keys[b]
      {
        if candidates[i].lastHit < stamp {
          assert forall j | 0 <= j < i :: candidates[j].key != candidates[i].key;
          assert forall a | 0 <= a < |keys| :: keys[a] in keys;
          keys := keys + [candidates[i].key];
        }
      }
      ListMatchesMap(voxels, candidates, stamp);
    }
  }

  lemma ListMatchesMap(voxels: map<Key, CloudVoxel>, candidates: seq<Candidate>, stamp: real)
    requires Linked(voxels, candidates) && Current(voxels)
    ensures forall k :: Clearable(Seen(voxels), k, stamp) <==>
              exists j :: 0 <= j < |candidates| && candidates[j].key == k && candidates[j].lastHit < stamp
  {
    forall k
      ensures Clearable(Seen(voxels), k, stamp) <==>
              exists j :: 0 <= j < |candidates| && candidates[j].key == k && candidates[j].lastHit < stamp
    {
      if Clearable(Seen(voxels), k, stamp) {
        var j := voxels[k].candidate.value;
        assert candidates[j].key == k && candidates[j].lastHit < stamp;
      }
    }
  }
}
