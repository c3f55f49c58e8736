/** The Amanatides-Woo voxel traversal of one sensor ray. A point of the ray is
    named by its parameter: 0 at the sensor, 1 at the return. */
module RayWalk {
  import opened Basics

  // The program's tolerance; the theorems are about any other, zero included.
  const TOLERANCE: real := 0.0000000001
  const MAX_ITERATIONS := 10000

  // One coordinate of the ray: from start, running delta, over voxels of size r.
  // Boundary times within the tolerance are crossed in one step.
  datatype Axis = Axis(start: real, delta: real, r: real, tolerance: real) {
    ghost predicate Valid() {
      r > 0.0 && tolerance >= 0.0 && Abs(delta) * tolerance < r
    }

    function Step(): int {
      if delta > 0.0 then 1 else if delta < 0.0 then -1 else 0
    }

    function Position(s: real): real {
      start + delta * s
    }

    // The voxel coordinate of the point at parameter s.
    function KeyAt(s: real): int
      requires r > 0.0
    {
      (Position(s) / r).Floor
    }

    // The coordinate of the face through which the ray leaves voxel k.
    function ExitFace(k: int): real {
      (if delta > 0.0 then k + 1 else k) as real * r
    }

    function FirstCrossing(): Option<real>
      requires r > 0.0
    {
      if delta == 0.0 then None else Some((ExitFace(KeyAt(0.0)) - start) / delta)
    }

    function NextCrossing(n: real): real
      requires delta != 0.0
    {
      n + r / Abs(delta)
    }

    // n is the time at which the ray leaves voxel k; None is never.
    ghost predicate Leaves(k: int, n: Option<real>) {
      if delta == 0.0 then n.None? else n.Some? && Position(n.value) == ExitFace(k)
    }

    // Between lo and n the ray is in voxel k.
    ghost predicate Inside(k: int, n: Option<real>, lo: real)
      requires r > 0.0
    {
      forall s: real | lo < s && 0.0 < s && (n.Some? ==> s < n.value) :: KeyAt(s) == k
    }
  }

  // Floor division, by the two faces of the voxel.
  lemma KeyIs(ax: Axis, s: real, k: int)
    requires ax.r > 0.0
    ensures ax.KeyAt(s) == k <==> k as real * ax.r <= ax.Position(s) < (k + 1) as real * ax.r
  {
    hide Axis.Position;
    var p, q := ax.Position(s), ax.Position(s) / ax.r;
    FloorIs(q, k);
    Undivided(p, ax.r, q);
    BetweenFaces(p, q, ax.r, k as real, (k + 1) as real);
  }

  lemma FloorIs(q: real, k: int)
    ensures q.Floor == k <==> k as real <= q < (k + 1) as real
  {
  }

  lemma BetweenFaces(p: real, q: real, r: real, low: real, high: real)
    requires r > 0.0 && q * r == p
    ensures low <= q < high <==> low * r <= p < high * r
  {
    ScaleOrder(low, q, r);
    ScaleOrder(high, q, r);
  }

  lemma Undivided(p: real, r: real, q: real)
    requires r > 0.0 && q == p / r
    ensures q * r == p
  {
  }

  lemma ScaleOrder(a: real, b: real, r: real)
    requires r > 0.0
    ensures a <= b <==> a * r <= b * r
  {
    var gap := b * r - a * r;
    ScaledGap(a, b, r, gap);
    if a <= b {
      ProductSign(b - a, r, gap);
    } else {
      ProductSign(a - b, r, -gap);
    }
  }

  lemma ScaledGap(a: real, b: real, r: real, gap: real)
    requires gap == b * r - a * r
    ensures gap == (b - a) * r && -gap == (a - b) * r
  {
  }

  lemma PositionOrder(ax: Axis, s: real, t: real)
    requires s < t
    ensures ax.delta > 0.0 ==> ax.Position(s) < ax.Position(t)
    ensures ax.delta < 0.0 ==> ax.Position(s) > ax.Position(t)
    ensures ax.delta == 0.0 ==> ax.Position(s) == ax.Position(t)
  {
    var gap := t - s;
    assert ax.Position(t) == ax.Position(s) + ax.delta * gap;
    if ax.delta > 0.0 {
      assert ax.delta * gap > 0.0;
    } else if ax.delta < 0.0 {
      assert (-ax.delta) * gap > 0.0;
    }
  }

  // Voxel coordinates move one way along the ray.
  lemma KeysAreMonotone(ax: Axis, s: real, t: real)
    requires ax.r > 0.0 && s <= t
    ensures ax.delta >= 0.0 ==> ax.KeyAt(s) <= ax.KeyAt(t)
    ensures ax.delta <= 0.0 ==> ax.KeyAt(s) >= ax.KeyAt(t)
  {
    if s < t {
      PositionOrder(ax, s, t);
    }
    var p, q := ax.Position(s), ax.Position(t);
    QuotientOrder(p, q, ax.r);
    QuotientOrder(q, p, ax.r);
  }

  lemma QuotientOrder(p: real, q: real, r: real)
    requires r > 0.0
    ensures p <= q ==> (p / r).Floor <= (q / r).Floor
  {
    ScaleOrder(p / r, q / r, r);
    assert p / r * r == p && q / r * r == q;
  }

  lemma StartAxis(ax: Axis)
    requires ax.r > 0.0
    ensures ax.Leaves(ax.KeyAt(0.0), ax.FirstCrossing())
    ensures ax.FirstCrossing().Some? ==> ax.FirstCrossing().value >= 0.0
    ensures ax.Inside(ax.KeyAt(0.0), ax.FirstCrossing(), 0.0)
  {
    var k, n := ax.KeyAt(0.0), ax.FirstCrossing();
    KeyIs(ax, 0.0, k);
    if n.Some? {
      assert ax.delta * n.value == ax.ExitFace(k) - ax.start;
      if n.value < 0.0 {
        PositionOrder(ax, n.value, 0.0);
      }
    }
    forall s: real | 0.0 < s && (n.Some? ==> s < n.value) ensures ax.KeyAt(s) == k {
      PositionOrder(ax, 0.0, s);
      if n.Some? {
        PositionOrder(ax, s, n.value);
      }
      KeyIs(ax, s, k);
    }
  }

  // Crossing the exit face enters the adjacent voxel, which is left one voxel later.
  lemma CrossAxis(ax: Axis, k: int, n: real, lo: real)
    requires ax.Valid() && ax.delta != 0.0 && ax.Leaves(k, Some(n)) && n <= lo
    ensures ax.Leaves(k + ax.Step(), Some(ax.NextCrossing(n)))
    ensures ax.Inside(k + ax.Step(), Some(ax.NextCrossing(n)), lo)
    ensures ax.NextCrossing(n) > n + ax.tolerance
  {
    var k', n', span := k + ax.Step(), ax.NextCrossing(n), ax.r / Abs(ax.delta);
    assert span * Abs(ax.delta) == ax.r;
    assert ax.delta * span == ax.Step() as real * ax.r;
    ScaleOrder(span, ax.tolerance, Abs(ax.delta));
    assert ax.Position(n') == ax.Position(n) + ax.delta * span;
    assert ax.ExitFace(k') == ax.ExitFace(k) + ax.Step() as real * ax.r;
    forall s: real | lo < s && 0.0 < s && s < n' ensures ax.KeyAt(s) == k' {
      PositionOrder(ax, n, s);
      PositionOrder(ax, s, n');
      KeyIs(ax, s, k');
    }
  }

  type Key = k: seq<int> | |k| == 3 witness [0, 0, 0]
  type Times = t: seq<Option<real>> | |t| == 3 witness [None, None, None]

  // The three coordinates of a ray.
  ghost predicate IsRay(axes: seq<Axis>) {
    && |axes| == 3 && axes[0].Valid() && axes[1].Valid() && axes[2].Valid()
    && axes[0].tolerance == axes[1].tolerance == axes[2].tolerance
  }

  function Tolerance(axes: seq<Axis>): real
    requires |axes| > 0
  {
    axes[0].tolerance
  }

  function KeyOf(axes: seq<Axis>, s: real): Key
    requires |axes| == 3 && forall a | 0 <= a < 3 :: axes[a].r > 0.0
  {
    [axes[0].KeyAt(s), axes[1].KeyAt(s), axes[2].KeyAt(s)]
  }

  // The state of the walk is sound from lo on: k is the ray's voxel until the
  // first of the exit times.
  ghost predicate Tracks(axes: seq<Axis>, k: Key, next: Times, lo: real)
    requires IsRay(axes)
  {
    forall a | 0 <= a < 3 :: axes[a].Leaves(k[a], next[a]) && axes[a].Inside(k[a], next[a], lo)
  }

  ghost predicate Ahead(next: Times, lo: real) {
    forall a | 0 <= a < 3 :: next[a].Some? ==> next[a].value > lo
  }

  function Sooner(a: Option<real>, b: Option<real>): Option<real> {
    if a.None? then b else if b.None? then a else if a.value <= b.value then a else b
  }

  function Earliest(next: Times): (t: Option<real>)
    ensures t.None? ==> forall a | 0 <= a < 3 :: next[a].None?
    ensures t.Some? ==> t in next && forall a | 0 <= a < 3 :: next[a].Some? ==> t.value <= next[a].value
  {
    Sooner(Sooner(next[0], next[1]), next[2])
  }

  // Which coordinates cross a face in the step at time t.
  predicate Crosses(next: Option<real>, t: real, tolerance: real) {
    next.Some? && next.value <= t + tolerance
  }

  ghost predicate IsAdvance(axes: seq<Axis>, k: Key, next: Times, t: real, k': Key, next': Times)
    requires IsRay(axes)
  {
    forall a | 0 <= a < 3 ::
      if Crosses(next[a], t, Tolerance(axes))
      then axes[a].delta != 0.0 && k'[a] == k[a] + axes[a].Step() &&
           next'[a] == Some(axes[a].NextCrossing(next[a].value))
      else k'[a] == k[a] && next'[a] == next[a]
  }

  // Progress along the ray, in voxel faces crossed.
  function Travel(axes: seq<Axis>, k: Key): int
    requires |axes| == 3
  {
    axes[0].Step() * k[0] + axes[1].Step() * k[1] + axes[2].Step() * k[2]
  }

  ghost predicate Between(axes: seq<Axis>, k: Key)
    requires IsRay(axes)
  {
    forall a | 0 <= a < 3 ::
      var from, to := axes[a].KeyAt(0.0), axes[a].KeyAt(1.0);
      if from <= to then from <= k[a] <= to else to <= k[a] <= from
  }

  lemma StartTracks(axes: seq<Axis>)
    requires IsRay(axes)
    ensures Tracks(axes, KeyOf(axes, 0.0), seq(3, a requires 0 <= a < 3 => axes[a].FirstCrossing()), 0.0)
    ensures forall a | 0 <= a < 3 :: axes[a].FirstCrossing().Some? ==> axes[a].FirstCrossing().value >= 0.0
  {
    hide Axis.Leaves, Axis.Inside, Axis.FirstCrossing, Axis.KeyAt;
    forall a | 0 <= a < 3
      ensures axes[a].Leaves(axes[a].KeyAt(0.0), axes[a].FirstCrossing())
      ensures axes[a].Inside(axes[a].KeyAt(0.0), axes[a].FirstCrossing(), 0.0)
      ensures axes[a].FirstCrossing().Some? ==> axes[a].FirstCrossing().value >= 0.0
    {
      StartAxis(axes[a]);
    }
  }

  lemma StayInside(ax: Axis, k: int, next: Option<real>, lo: real, lo': real)
    requires ax.r > 0.0 && ax.Inside(k, next, lo) && lo <= lo'
    ensures ax.Inside(k, next, lo')
  {
  }

  lemma AdvanceAxis(ax: Axis, k: int, next: Option<real>, lo: real, t: real)
    requires ax.Valid() && ax.Leaves(k, next) && ax.Inside(k, next, lo)
    requires lo <= t && (next.Some? ==> t <= next.value)
    ensures Crosses(next, t, ax.tolerance) ==> ax.delta != 0.0
    ensures var k' := if Crosses(next, t, ax.tolerance) then k + ax.Step() else k;
            var next' := if Crosses(next, t, ax.tolerance) then Some(ax.NextCrossing(next.value)) else next;
            ax.Leaves(k', next') && ax.Inside(k', next', t + ax.tolerance) &&
            (next'.Some? ==> next'.value > t + ax.tolerance)
  {
    if Crosses(next, t, ax.tolerance) {
      assert ax.delta != 0.0;
      hide Axis.Leaves, Axis.Inside, Axis.Step, Axis.NextCrossing;
      CrossAxis(ax, k, next.value, t + ax.tolerance);
    } else {
      StayInside(ax, k, next, lo, t + ax.tolerance);
    }
  }

  lemma AdvanceTracks(axes: seq<Axis>, k: Key, next: Times, lo: real, t: real, k': Key, next': Times)
    requires IsRay(axes) && Tracks(axes, k, next, lo) && lo <= t && Earliest(next) == Some(t)
    requires IsAdvance(axes, k, next, t, k', next')
    ensures Tracks(axes, k', next', t + Tolerance(axes)) && Ahead(next', t + Tolerance(axes))
    ensures Travel(axes, k') > Travel(axes, k)
  {
    hide Axis.Leaves, Axis.Inside, Axis.NextCrossing;
    forall a | 0 <= a < 3
      ensures axes[a].Leaves(k'[a], next'[a]) && axes[a].Inside(k'[a], next'[a], t + Tolerance(axes))
      ensures next'[a].Some? ==> next'[a].value > t + Tolerance(axes)
      ensures axes[a].Step() * k'[a] >= axes[a].Step() * k[a]
      ensures next[a] == Some(t) ==> axes[a].Step() * k'[a] == axes[a].Step() * k[a] + 1
    {
      AdvanceAxis(axes[a], k[a], next[a], lo, t);
    }
    var first :| 0 <= first < 3 && next[first] == Some(t);
  }

  // Until the next exit time the ray is in voxel k.
  lemma TracksKey(axes: seq<Axis>, k: Key, next: Times, lo: real, s: real)
    requires IsRay(axes) && Tracks(axes, k, next, lo) && lo < s && 0.0 < s
    requires Earliest(next).Some? ==> s < Earliest(next).value
    ensures KeyOf(axes, s) == k
  {
    hide Axis.KeyAt, Axis.Leaves;
    forall a | 0 <= a < 3 ensures axes[a].KeyAt(s) == k[a] {
      assert axes[a].Inside(k[a], next[a], lo);
    }
  }

  lemma KeysBetween(axes: seq<Axis>, s: real)
    requires IsRay(axes) && 0.0 <= s <= 1.0
    ensures Between(axes, KeyOf(axes, s))
  {
    hide Axis.KeyAt;
    forall a | 0 <= a < 3
      ensures var from, to := axes[a].KeyAt(0.0), axes[a].KeyAt(1.0);
              if from <= to then from <= axes[a].KeyAt(s) <= to else to <= axes[a].KeyAt(s) <= from
    {
      KeysAreMonotone(axes[a], 0.0, s);
      KeysAreMonotone(axes[a], s, 1.0);
    }
  }

  // One call of the visitor: the voxel, and the time at which the ray leaves it.
  datatype Visit = Visit(key: Key, time: real)

  // The ray has been accounted for up to here once n voxels are visited.
  function Horizon(axes: seq<Axis>, visits: seq<Visit>, n: nat): real
    requires |axes| > 0 && n <= |visits|
  {
    if n == 0 then 0.0 else visits[n - 1].time + Tolerance(axes)
  }

  // The n-th visit is to a voxel that holds an open piece of the ray. The one
  // exception is the sensor's own voxel, when the sensor lies on its exit face.
  ghost predicate HoldsPiece(axes: seq<Axis>, visits: seq<Visit>, n: nat)
    requires IsRay(axes) && n < |visits|
  {
    && Between(axes, visits[n].key)
    && visits[n].key != KeyOf(axes, 1.0)
    && visits[n].time <= 1.0
    && (Horizon(axes, visits, n) < visits[n].time ||
        (n == 0 && visits[0].time == 0.0 && visits[0].key == KeyOf(axes, 0.0)))
    && forall s: real | Horizon(axes, visits, n) < s < visits[n].time :: KeyOf(axes, s) == visits[n].key
  }

  // A point of the ray is visited, up to the tolerance after a crossing.
  ghost predicate Covered(axes: seq<Axis>, visits: seq<Visit>, s: real)
    requires IsRay(axes)
  {
    exists n | 0 <= n < |visits| ::
      visits[n].key == KeyOf(axes, s) || visits[n].time <= s <= visits[n].time + Tolerance(axes)
  }

  // Visits follow the ray, and no voxel is visited twice.
  ghost predicate InOrder(axes: seq<Axis>, visits: seq<Visit>)
    requires IsRay(axes)
  {
    forall i, j | 0 <= i < j < |visits| ::
      visits[i].time < visits[j].time && visits[i].key != visits[j].key &&
      Travel(axes, visits[i].key) < Travel(axes, visits[j].key)
  }

  function Span(axes: seq<Axis>): int
    requires IsRay(axes)
  {
    Travel(axes, KeyOf(axes, 1.0)) - Travel(axes, KeyOf(axes, 0.0))
  }

  lemma {:induction false} CoveredUpToHorizon(axes: seq<Axis>, visits: seq<Visit>, n: nat, s: real)
    requires IsRay(axes) && n <= |visits| && forall i | 0 <= i < n :: HoldsPiece(axes, visits, i)
    requires 0.0 < s <= Horizon(axes, visits, n)
    ensures Covered(axes, visits, s)
  {
    hide KeyOf, Between;
    if s < visits[n - 1].time && s <= Horizon(axes, visits, n - 1) {
      CoveredUpToHorizon(axes, visits, n - 1, s);
    } else {
      assert HoldsPiece(axes, visits, n - 1);
    }
  }

  lemma TravelWithin(axes: seq<Axis>, k: Key)
    requires IsRay(axes) && Between(axes, k)
    ensures Travel(axes, k) <= Travel(axes, KeyOf(axes, 1.0))
    ensures Travel(axes, k) == Travel(axes, KeyOf(axes, 1.0)) ==> k == KeyOf(axes, 1.0)
  {
    hide Axis.KeyAt;
    forall a | 0 <= a < 3
      ensures axes[a].Step() * k[a] <= axes[a].Step() * axes[a].KeyAt(1.0)
      ensures axes[a].Step() * k[a] == axes[a].Step() * axes[a].KeyAt(1.0) ==> k[a] == axes[a].KeyAt(1.0)
    {
      KeysAreMonotone(axes[a], 0.0, 1.0);
    }
  }

  // From a to b the ray is in one voxel.
  ghost predicate IsPiece(axes: seq<Axis>, k: Key, a: real, b: real)
    requires IsRay(axes)
  {
    0.0 <= a < b <= 1.0 && forall s: real | a < s < b :: KeyOf(axes, s) == k
  }

  ghost predicate Visits(visits: seq<Visit>, k: Key) {
    exists n | 0 <= n < |visits| :: visits[n].key == k
  }

  ghost predicate CoversRay(axes: seq<Axis>, visits: seq<Visit>)
    requires IsRay(axes)
  {
    forall s: real | 0.0 < s <= 1.0 && KeyOf(axes, s) != KeyOf(axes, 1.0) :: Covered(axes, visits, s)
  }

  // The moment after a visit's exemption ends, within the piece that is exempt.
  function Beyond(axes: seq<Axis>, visits: seq<Visit>, n: nat, b: real): real
    requires |axes| > 0 && n < |visits|
  {
    var limit := if n + 1 < |visits| && visits[n + 1].time < b then visits[n + 1].time else b;
    (Horizon(axes, visits, n + 1) + limit) / 2.0
  }

  // No visit's exemption reaches that moment.
  lemma BeyondIsNotExempt(axes: seq<Axis>, visits: seq<Visit>, n: nat, b: real, m: nat)
    requires IsRay(axes) && InOrder(axes, visits) && n < |visits| && m < |visits|
    requires n + 1 < |visits| ==> Horizon(axes, visits, n + 1) < visits[n + 1].time
    requires Horizon(axes, visits, n + 1) < b
    ensures Horizon(axes, visits, n + 1) < Beyond(axes, visits, n, b) < b
    ensures var s := Beyond(axes, visits, n, b); !(visits[m].time <= s <= visits[m].time + Tolerance(axes))
  {
    hide Travel, Axis.Valid;
    if m < n {
      assert visits[m].time < visits[n].time;
    } else if m > n + 1 {
      assert visits[n + 1].time < visits[m].time;
    }
  }

  // Every voxel but the endpoint's that holds a piece longer than the tolerance
  // is visited; with a tolerance of zero, every voxel that holds any piece.
  lemma PiecesAreVisited(axes: seq<Axis>, visits: seq<Visit>, k: Key, a: real, b: real)
    requires IsRay(axes) && CoversRay(axes, visits) && forall n | 0 <= n < |visits| :: HoldsPiece(axes, visits, n)
    requires InOrder(axes, visits) && k != KeyOf(axes, 1.0)
    requires IsPiece(axes, k, a, b) && b - a > Tolerance(axes)
    ensures Visits(visits, k)
  {
    hide KeyOf, Between, Travel, InOrder, Axis.Valid;
    var early := a + (b - a - Tolerance(axes)) / 2.0;
    TolerancesAreNotNegative(axes);
    assert Covered(axes, visits, early);
    var n :| 0 <= n < |visits| && (visits[n].key == k || visits[n].time <= early <= visits[n].time + Tolerance(axes));
    if visits[n].key != k {
      if n + 1 < |visits| {
        assert HoldsPiece(axes, visits, n + 1);
      }
      BeyondIsNotExempt(axes, visits, n, b, n);
      var s := Beyond(axes, visits, n, b);
      assert HoldsPiece(axes, visits, n);
      assert Covered(axes, visits, s);
      var m :| 0 <= m < |visits| && (visits[m].key == k || visits[m].time <= s <= visits[m].time + Tolerance(axes));
      BeyondIsNotExempt(axes, visits, n, b, m);
    }
  }

  lemma TolerancesAreNotNegative(axes: seq<Axis>)
    requires IsRay(axes)
    ensures Tolerance(axes) >= 0.0
  {
  }

  // The loop's state after its first visits.
  ghost predicate Walking(axes: seq<Axis>, visits: seq<Visit>, k: Key, next: Times)
    requires IsRay(axes)
  {
    var lo := Horizon(axes, visits, |visits|);
    && (forall n | 0 <= n < |visits| :: HoldsPiece(axes, visits, n))
    && InOrder(axes, visits)
    && Tracks(axes, k, next, lo)
    && (if visits == [] then k == KeyOf(axes, 0.0) && forall a | 0 <= a < 3 :: next[a].Some? ==> next[a].value >= 0.0
        else lo >= 0.0 && Ahead(next, lo))
    && (forall n | 0 <= n < |visits| :: Travel(axes, visits[n].key) < Travel(axes, k))
    && |visits| <= Travel(axes, k) - Travel(axes, KeyOf(axes, 0.0))
  }

  // Before the horizon passes the return, the walk is between the two ends.
  lemma WalkStaysBetween(axes: seq<Axis>, visits: seq<Visit>, k: Key, next: Times)
    requires IsRay(axes) && Walking(axes, visits, k, next) && Horizon(axes, visits, |visits|) < 1.0
    ensures Between(axes, k)
  {
    hide KeyOf, Between, Travel, HoldsPiece, InOrder;
    var lo, t := Horizon(axes, visits, |visits|), Earliest(next);
    if visits == [] {
      KeysBetween(axes, 0.0);
    } else {
      var hi := if t.Some? && t.value < 1.0 then t.value else 1.0;
      var s := (lo + hi) / 2.0;
      TracksKey(axes, k, next, lo, s);
      KeysBetween(axes, s);
    }
  }

  lemma WalkStarts(axes: seq<Axis>)
    requires IsRay(axes)
    ensures Walking(axes, [], KeyOf(axes, 0.0), seq(3, a requires 0 <= a < 3 => axes[a].FirstCrossing()))
  {
    StartTracks(axes);
  }

  lemma WalkContinues(axes: seq<Axis>, visits: seq<Visit>, k: Key, next: Times, t: real, k': Key, next': Times)
    requires IsRay(axes) && Walking(axes, visits, k, next)
    requires k != KeyOf(axes, 1.0) && Earliest(next) == Some(t) && t <= 1.0
    requires IsAdvance(axes, k, next, t, k', next')
    ensures Walking(axes, visits + [Visit(k, t)], k', next')
  {
    hide KeyOf, Between, Travel, Earliest, IsAdvance, Tracks;
    var lo := Horizon(axes, visits, |visits|);
    var visits' := visits + [Visit(k, t)];
    assert lo < t || (visits == [] && lo == 0.0 <= t);
    WalkStaysBetween(axes, visits, k, next);
    AdvanceTracks(axes, k, next, lo, t, k', next');
    forall n | 0 <= n < |visits'| ensures HoldsPiece(axes, visits', n) {
      assert Horizon(axes, visits', n) == Horizon(axes, visits, n);
      if n < |visits| {
        assert HoldsPiece(axes, visits, n);
      } else {
        forall s: real | lo < s < t ensures KeyOf(axes, s) == k {
          TracksKey(axes, k, next, lo, s);
        }
      }
    }
    TimesAscend(axes, visits, t);
  }

  lemma {:induction false} TimesAscend(axes: seq<Axis>, visits: seq<Visit>, t: real)
    requires IsRay(axes) && InOrder(axes, visits)
    requires visits != [] ==> Horizon(axes, visits, |visits|) < t
    ensures forall i | 0 <= i < |visits| :: visits[i].time < t
  {
    hide Travel;
    assert axes[0].Valid() && Tolerance(axes) >= 0.0;
  }

  // However the walk stops, a short enough ray is covered in full.
  lemma WalkCovers(axes: seq<Axis>, visits: seq<Visit>, k: Key, next: Times, s: real)
    requires IsRay(axes) && Walking(axes, visits, k, next)
    requires k == KeyOf(axes, 1.0) || |visits| >= Span(axes) ||
             Earliest(next).None? || Earliest(next).value > 1.0
    requires 0.0 < s <= 1.0 && KeyOf(axes, s) != KeyOf(axes, 1.0)
    ensures Covered(axes, visits, s)
  {
    hide KeyOf, Between, Travel, Earliest, InOrder, Tracks, HoldsPiece, Covered;
    var lo := Horizon(axes, visits, |visits|);
    if s <= lo {
      CoveredUpToHorizon(axes, visits, |visits|, s);
    } else {
      WalkStaysBetween(axes, visits, k, next);
      TravelWithin(axes, k);
      if Earliest(next).None? || Earliest(next).value > 1.0 {
        TracksKey(axes, k, next, lo, s);
        TracksKey(axes, k, next, lo, 1.0);
      } else {
        assert k == KeyOf(axes, 1.0);
        ArrivedStays(axes, k, next, lo, s);
      }
      assert false;
    }
  }

  // In the voxel of the return the ray stays until it ends.
  lemma ArrivedStays(axes: seq<Axis>, k: Key, next: Times, lo: real, s: real)
    requires IsRay(axes) && Tracks(axes, k, next, lo) && k == KeyOf(axes, 1.0) && 0.0 <= lo < s <= 1.0
    ensures KeyOf(axes, s) == k
  {
    forall a | 0 <= a < 3 ensures axes[a].KeyAt(s) == k[a] {
      ArrivedAxisStays(axes[a], k[a], next[a], lo, s);
    }
  }

  lemma ArrivedAxisStays(ax: Axis, k: int, next: Option<real>, lo: real, s: real)
    requires ax.r > 0.0 && ax.Leaves(k, next) && ax.Inside(k, next, lo)
    requires k == ax.KeyAt(1.0) && 0.0 <= lo < s <= 1.0
    ensures ax.KeyAt(s) == k
  {
    if next.Some? && next.value <= s && s < 1.0 {
      KeyIs(ax, 1.0, k);
      KeyIs(ax, s, k);
      PositionOrder(ax, s, 1.0);
      if next.value < s {
        PositionOrder(ax, next.value, s);
      }
      hide Axis.Position, Axis.KeyAt;
      OneFaceApart(k, ax.r);
    }
  }

  lemma OneFaceApart(k: int, r: real)
    requires r > 0.0
    ensures k as real * r < (k + 1) as real * r
  {
    assert (k + 1) as real * r == k as real * r + r;
  }

  function RayAxes(start: seq<real>, end: seq<real>, r: real, tolerance: real): (axes: seq<Axis>)
    requires |start| == |end| == 3
    ensures |axes| == 3
  {
    [Axis(start[0], end[0] - start[0], r, tolerance), Axis(start[1], end[1] - start[1], r, tolerance),
     Axis(start[2], end[2] - start[2], r, tolerance)]
  }

  // The inner loop: equal boundary times advance together.
  method AdvanceAll(axes: seq<Axis>, k: Key, next: Times, t: real) returns (k': Key, next': Times)
    requires IsRay(axes) && forall a | 0 <= a < 3 :: axes[a].delta == 0.0 <==> next[a].None?
    ensures IsAdvance(axes, k, next, t, k', next')
  {
    k', next' := k, next;
    for a := 0 to 3
      invariant forall b | 0 <= b < a ::
                  if Crosses(next[b], t, Tolerance(axes))
                  then axes[b].delta != 0.0 && k'[b] == k[b] + axes[b].Step() &&
                       next'[b] == Some(axes[b].NextCrossing(next[b].value))
                  else k'[b] == k[b] && next'[b] == next[b]
      invariant forall b | a <= b < 3 :: k'[b] == k[b] && next'[b] == next[b]
    {
      if Crosses(next'[a], t, Tolerance(axes)) {
        k' := k'[a := k'[a] + axes[a].Step()];
        next' := next'[a := Some(axes[a].NextCrossing(next'[a].value))];
      }
    }
  }

  // The voxels handed to the visitor, each with the time at which the ray leaves
  // it. A return ends its ray: its own voxel is never visited.
  method Ray(start: seq<real>, end: seq<real>, r: real, tolerance: real) returns (visits: seq<Visit>)
    requires |start| == |end| == 3 && IsRay(RayAxes(start, end, r, tolerance))
    ensures forall n | 0 <= n < |visits| :: HoldsPiece(RayAxes(start, end, r, tolerance), visits, n)
    ensures InOrder(RayAxes(start, end, r, tolerance), visits)
    ensures Span(RayAxes(start, end, r, tolerance)) <= MAX_ITERATIONS ==>
              CoversRay(RayAxes(start, end, r, tolerance), visits)
  {
    var axes := RayAxes(start, end, r, tolerance);
    var k := KeyOf(axes, 0.0);
    var target := KeyOf(axes, 1.0);
    var next: Times := seq(3, a requires 0 <= a < 3 => axes[a].FirstCrossing());
    visits := [];
    WalkStarts(axes);
    hide KeyOf, Earliest, IsAdvance, HoldsPiece, InOrder, Covered, RayAxes, Span;
    var iteration := 0;
    while k != target && iteration < MAX_ITERATIONS
      invariant iteration == |visits| && iteration <= MAX_ITERATIONS
      invariant Walking(axes, visits, k, next)
    {
      hide Walking;
      var t := Earliest(next);
      if t.None? || t.value > 1.0 {
        break;
      }
      LeavesIffMoving(axes, visits, k, next);
      var k', next' := AdvanceAll(axes, k, next, t.value);
      WalkContinues(axes, visits, k, next, t.value, k', next');
      visits := visits + [Visit(k, t.value)];
      k, next := k', next';
      iteration := iteration + 1;
    }
    if Span(axes) <= MAX_ITERATIONS {
      forall s: real | 0.0 < s <= 1.0 && KeyOf(axes, s) != target ensures Covered(axes, visits, s) {
        WalkCovers(axes, visits, k, next, s);
      }
    }
  }

  lemma LeavesIffMoving(axes: seq<Axis>, visits: seq<Visit>, k: Key, next: Times)
    requires IsRay(axes) && Walking(axes, visits, k, next)
    ensures forall a | 0 <= a < 3 :: axes[a].delta == 0.0 <==> next[a].None?
  {
    forall a | 0 <= a < 3 ensures axes[a].delta == 0.0 <==> next[a].None? {
      assert axes[a].Leaves(k[a], next[a]);
    }
  }

  // Voxel keys are 32-bit integers in the program; that alone bounds the ray.
  lemma KeysThatFitBoundTheRay(ax: Axis)
    requires ax.r > 0.0 && 0.0 <= ax.tolerance <= TOLERANCE
    requires -0x8000_0000 <= ax.KeyAt(0.0) < 0x8000_0000 && -0x8000_0000 <= ax.KeyAt(1.0) < 0x8000_0000
    ensures ax.Valid()
  {
    KeyFits(ax, 0.0);
    KeyFits(ax, 1.0);
    assert ax.Position(1.0) - ax.Position(0.0) == ax.delta;
    assert Abs(ax.delta) <= 4294967296.0 * ax.r;
    ScaleOrder(Abs(ax.delta), 4294967296.0 * ax.r, TOLERANCE);
    SmallerTolerance(Abs(ax.delta), ax.tolerance);
  }

  lemma SmallerTolerance(distance: real, tolerance: real)
    requires distance >= 0.0 && 0.0 <= tolerance <= TOLERANCE
    ensures distance * tolerance <= distance * TOLERANCE
  {
    var gap := TOLERANCE - tolerance;
    ProductSign(distance, gap, distance * gap);
    assert distance * TOLERANCE == distance * tolerance + distance * gap;
  }

  lemma KeyFits(ax: Axis, s: real)
    requires ax.r > 0.0 && -0x8000_0000 <= ax.KeyAt(s) < 0x8000_0000
    ensures -2147483648.0 * ax.r <= ax.Position(s) <= 2147483648.0 * ax.r
  {
    var k := ax.KeyAt(s);
    KeyIs(ax, s, k);
    hide Axis.KeyAt, Axis.Position;
    Scaled(-2147483648, k, ax.r);
    Scaled(k + 1, 2147483648, ax.r);
    assert (k + 1) as real * ax.r <= 2147483648.0 * ax.r;
  }

  lemma Scaled(a: int, b: int, r: real)
    requires r > 0.0 && a <= b
    ensures a as real * r <= b as real * r
  {
    ScaleOrder(a as real, b as real, r);
  }

  // Span counts the voxel faces between the two ends.
  lemma SpanIsManhattan(axes: seq<Axis>)
    requires IsRay(axes)
    ensures Span(axes) ==
              AbsInt(axes[0].KeyAt(1.0) - axes[0].KeyAt(0.0)) + AbsInt(axes[1].KeyAt(1.0) - axes[1].KeyAt(0.0)) +
                          AbsInt(axes[2].KeyAt(1.0) - axes[2].KeyAt(0.0))
  {
    KeysAreMonotone(axes[0], 0.0, 1.0);
    KeysAreMonotone(axes[1], 0.0, 1.0);
    KeysAreMonotone(axes[2], 0.0, 1.0);
  }

  function AbsInt(i: int): int {
    if i < 0 then -i else i
  }
}
