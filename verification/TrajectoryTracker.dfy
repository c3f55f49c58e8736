/** Projection onto a timed trajectory: the nearest admissible foot point, up to a
    tolerance that lets the yaw decide, and a progress that only moves forward. */
module TrajectoryTracker {
  import opened Basics

  datatype TimedState = TimedState(time: real, x: real, y: real, yaw: real)
  datatype Pose = Pose(x: real, y: real, yaw: real)

  datatype Config = Config(backward: real, forward: real, slowdownStart: real, slowdownEnd: real, minimumScale: real)
  {
    // What the configuration setter leaves.
    predicate Valid() {
      backward >= 0.0 && forward >= 0.0 && 0.0 <= slowdownStart && slowdownStart + 0.000001 <= slowdownEnd &&
      0.0 <= minimumScale <= 1.0
    }
  }

  function Sanitize(c: Config): (r: Config)
    ensures r.Valid()
    ensures c.Valid() ==> r == c
  {
    var start := Max(0.0, c.slowdownStart);
    Config(Max(0.0, c.backward), Max(0.0, c.forward), start, Max(start + 0.000001, c.slowdownEnd),
           Clamp(c.minimumScale, 0.0, 1.0))
  }

  // Two nearby distances count as equal; a segment this short has no direction.
  const TOLERANCE: real := 0.000000000001

  datatype Window = Everything | Between(lo: real, hi: real)

  predicate Admits(w: Window, first: TimedState, second: TimedState) {
    w.Everything? || !(second.time < w.lo || first.time > w.hi)
  }

  function Product(a: real, b: real): real {
    a * b
  }

  function LengthSquared(first: TimedState, second: TimedState): real {
    Square(second.x - first.x) + Square(second.y - first.y)
  }

  function DistanceSquared(p: Pose, first: TimedState, second: TimedState, ratio: real): real {
    Square(p.x - (first.x + Product(ratio, second.x - first.x))) +
    Square(p.y - (first.y + Product(ratio, second.y - first.y)))
  }

  function Along(p: Pose, first: TimedState, second: TimedState): real {
    Product(p.x - first.x, second.x - first.x) + Product(p.y - first.y, second.y - first.y)
  }

  function Duration(first: TimedState, second: TimedState): real {
    Max(0.000000001, second.time - first.time)
  }

  function Quotient(a: real, d: real): real
    requires d > 0.0
  {
    a / d
  }

  function LowRatio(w: Window, first: TimedState, second: TimedState): real {
    if w.Everything? then 0.0 else Clamp(Quotient(w.lo - first.time, Duration(first, second)), 0.0, 1.0)
  }

  function HighRatio(w: Window, first: TimedState, second: TimedState): real {
    if w.Everything? then 1.0 else Clamp(Quotient(w.hi - first.time, Duration(first, second)), 0.0, 1.0)
  }

  predicate Ordered(w: Window) {
    w.Between? ==> w.lo <= w.hi
  }

  lemma RatiosAreOrdered(w: Window, first: TimedState, second: TimedState)
    requires Ordered(w)
    ensures 0.0 <= LowRatio(w, first, second) <= HighRatio(w, first, second) <= 1.0
  {
    if w.Between? {
      QuotientOrder(w.lo - first.time, w.hi - first.time, Duration(first, second));
    }
  }

  lemma QuotientOrder(a: real, b: real, d: real)
    requires d > 0.0 && a <= b
    ensures Quotient(a, d) <= Quotient(b, d)
  {
  }

  // The ratio before the window: the foot of the perpendicular, or for a turn in
  // place the share of the turn already made.
  function FreeRatio(normalize: real -> real, p: Pose, useYaw: bool, first: TimedState, second: TimedState): real {
    var length := LengthSquared(first, second);
    if length > TOLERANCE then Clamp(Along(p, first, second) / length, 0.0, 1.0)
    else
      var turn := normalize(second.yaw - first.yaw);
      if useYaw && Abs(turn) > 0.000000001 then Clamp(normalize(p.yaw - first.yaw) / turn, 0.0, 1.0) else 0.0
  }

  function Ratio(normalize: real -> real, p: Pose, useYaw: bool, w: Window, first: TimedState, second: TimedState): real
    requires Ordered(w)
  {
    RatiosAreOrdered(w, first, second);
    Clamp(FreeRatio(normalize, p, useYaw, first, second), LowRatio(w, first, second), HighRatio(w, first, second))
  }

  function TimeAt(first: TimedState, second: TimedState, ratio: real): real {
    first.time + Product(ratio, second.time - first.time)
  }

  function InterpolateAngle(normalize: real -> real, from: real, to: real, ratio: real): real {
    normalize(from + ratio * normalize(to - from))
  }

  function YawError(normalize: real -> real, p: Pose, useYaw: bool, first: TimedState, second: TimedState,
                    ratio: real): real {
    if useYaw then Abs(normalize(p.yaw - InterpolateAngle(normalize, first.yaw, second.yaw, ratio))) else 0.0
  }

  datatype Foot = Nowhere | Foot(time: real, index: nat, distance: real, yawError: real)

  function Candidate(normalize: real -> real, p: Pose, useYaw: bool, w: Window, trajectory: seq<TimedState>,
                     i: nat): Foot
    requires i + 1 < |trajectory| && Ordered(w)
  {
    var first, second := trajectory[i], trajectory[i + 1];
    var ratio := Ratio(normalize, p, useYaw, w, first, second);
    Foot(TimeAt(first, second, ratio), i, DistanceSquared(p, first, second, ratio),
         YawError(normalize, p, useYaw, first, second, ratio))
  }

  // Whether a later candidate replaces the best so far.
  predicate Improves(best: Foot, candidate: Foot)
    requires candidate.Foot?
  {
    best.Nowhere? ||
    !(candidate.distance > best.distance + TOLERANCE ||
      (Abs(candidate.distance - best.distance) <= TOLERANCE && candidate.yawError >= best.yawError))
  }

  // The choice among the first n segments.
  function Nearest(normalize: real -> real, p: Pose, useYaw: bool, w: Window, trajectory: seq<TimedState>, n: nat): Foot
    requires (n == 0 || n < |trajectory|) && Ordered(w)
  {
    if n == 0 then Nowhere
    else
      var best := Nearest(normalize, p, useYaw, w, trajectory, n - 1);
      if !Admits(w, trajectory[n - 1], trajectory[n]) then best
      else
        var candidate := Candidate(normalize, p, useYaw, w, trajectory, n - 1);
        if Improves(best, candidate) then candidate else best
  }

  // However the ties were broken, the chosen distance exceeds no admissible
  // segment's by more than one tolerance for each segment after it.
  lemma {:induction false} NearestIsNearest(normalize: real -> real, p: Pose, useYaw: bool, w: Window,
                                            trajectory: seq<TimedState>, n: nat,
                                            i: nat)
    requires n < |trajectory| && Ordered(w) && i < n && Admits(w, trajectory[i], trajectory[i + 1])
    ensures var best := Nearest(normalize, p, useYaw, w, trajectory, n);
            best.Foot? && best.distance <= Candidate(normalize, p, useYaw, w, trajectory, i).distance +
            (n - i) as real * TOLERANCE
  {
    hide Candidate;
    CandidateExists(normalize, p, useYaw, w, trajectory, n - 1);
    if i < n - 1 {
      NearestIsNearest(normalize, p, useYaw, w, trajectory, n - 1, i);
    }
    assert (n - i) as real * TOLERANCE == (n - 1 - i) as real * TOLERANCE + TOLERANCE;
    assert (n - 1 - i) as real * TOLERANCE >= 0.0;
  }

  lemma CandidateExists(normalize: real -> real, p: Pose, useYaw: bool, w: Window, trajectory: seq<TimedState>, i: nat)
    requires i + 1 < |trajectory| && Ordered(w)
    ensures Candidate(normalize, p, useYaw, w, trajectory, i).Foot? &&
            Candidate(normalize, p, useYaw, w, trajectory, i).index == i
  {
  }

  // The choice is itself one of the admissible candidates, and exists exactly when there is one.
  lemma {:induction false} NearestIsACandidate(normalize: real -> real, p: Pose, useYaw: bool, w: Window,
                                               trajectory: seq<TimedState>, n: nat)
    requires (n == 0 || n < |trajectory|) && Ordered(w)
    ensures var best := Nearest(normalize, p, useYaw, w, trajectory, n);
            best.Foot? ==> best.index < n && Admits(w, trajectory[best.index], trajectory[best.index + 1]) &&
                           best == Candidate(normalize, p, useYaw, w, trajectory, best.index)
    ensures Nearest(normalize, p, useYaw, w, trajectory, n).Nowhere? <==>
              forall i | 0 <= i < n :: !Admits(w, trajectory[i], trajectory[i + 1])
  {
    if n > 0 {
      hide Candidate, Admits;
      CandidateExists(normalize, p, useYaw, w, trajectory, n - 1);
      NearestIsACandidate(normalize, p, useYaw, w, trajectory, n - 1);
    }
  }

  // The squared distance is a parabola in the ratio, so the clamped foot is the
  // closest point of the admissible part of the segment.
  function Parabola(l: real, b: real, r: real): real {
    r * r * l - 2.0 * r * b
  }

  lemma ParabolaDifference(b: real, q: real, l: real, r: real, s: real, gap: real)
    requires b == q * l && gap == (r - s) * (r + s - 2.0 * q)
    ensures Parabola(l, b, r) - Parabola(l, b, s) == l * gap
  {
    calc {
      (r * r * l - 2.0 * r * b) - (s * s * l - 2.0 * s * b);
      (r * r * l - 2.0 * r * (q * l)) - (s * s * l - 2.0 * s * (q * l));
      l * (r * r - 2.0 * r * q - s * s + 2.0 * s * q);
      l * ((r - s) * (r + s - 2.0 * q));
    }
  }

  lemma AxisExpands(a: real, d: real, r: real)
    ensures Square(a - Product(r, d)) == Square(a) + Parabola(Square(d), Product(a, d), r)
  {
    assert (a - r * d) * (a - r * d) == a * a - 2.0 * r * (a * d) + r * r * (d * d);
  }

  lemma ParabolasAdd(l: real, b: real, m: real, c: real, r: real)
    ensures Parabola(l, b, r) + Parabola(m, c, r) == Parabola(l + m, b + c, r)
  {
  }

  lemma DistanceExpands(p: Pose, first: TimedState, second: TimedState, r: real)
    ensures DistanceSquared(p, first, second, r) ==
            Square(p.x - first.x) + Square(p.y - first.y) +
            Parabola(LengthSquared(first, second), Along(p, first, second), r)
  {
    var ax, dx := p.x - first.x, second.x - first.x;
    var ay, dy := p.y - first.y, second.y - first.y;
    hide Square, Parabola, Product;
    AxisExpands(ax, dx, r);
    AxisExpands(ay, dy, r);
    ParabolasAdd(Square(dx), Product(ax, dx), Square(dy), Product(ay, dy), r);
    assert p.x - (first.x + Product(r, dx)) == ax - Product(r, dx) &&
           p.y - (first.y + Product(r, dy)) == ay - Product(r, dy);
  }

  lemma SameSign(a: real, b: real)
    requires (a >= 0.0 && b >= 0.0) || (a <= 0.0 && b <= 0.0)
    ensures a * b >= 0.0
  {
  }

  lemma ClampedIsBest(q: real, lo: real, hi: real, r: real, gap: real)
    requires lo <= r <= hi && gap == (r - Clamp(q, lo, hi)) * (r + Clamp(q, lo, hi) - 2.0 * q)
    ensures gap >= 0.0
  {
    SameSign(r - Clamp(q, lo, hi), r + Clamp(q, lo, hi) - 2.0 * q);
  }

  lemma ClampTwice(q: real, lo: real, hi: real)
    requires 0.0 <= lo <= hi <= 1.0
    ensures Clamp(Clamp(q, 0.0, 1.0), lo, hi) == Clamp(q, lo, hi)
  {
  }

  // On a segment with a direction the ratio is the foot, clamped to the window.
  lemma RatioIsTheClampedFoot(normalize: real -> real, p: Pose, useYaw: bool, w: Window, first: TimedState,
                              second: TimedState)
    requires Ordered(w) && LengthSquared(first, second) > TOLERANCE
    ensures 0.0 <= LowRatio(w, first, second) <= HighRatio(w, first, second) <= 1.0
    ensures Ratio(normalize, p, useYaw, w, first, second) ==
            Clamp(Along(p, first, second) / LengthSquared(first, second), LowRatio(w, first, second),
                  HighRatio(w, first, second))
  {
    hide LowRatio, HighRatio, LengthSquared, Along, Clamp;
    RatiosAreOrdered(w, first, second);
    ClampTwice(Along(p, first, second) / LengthSquared(first, second), LowRatio(w, first, second),
               HighRatio(w, first, second));
  }

  lemma FootIsClosest(normalize: real -> real, p: Pose, useYaw: bool, w: Window, first: TimedState, second: TimedState,
                      r: real)
    requires Ordered(w) && LengthSquared(first, second) > TOLERANCE
    requires LowRatio(w, first, second) <= r <= HighRatio(w, first, second)
    ensures var foot := Ratio(normalize, p, useYaw, w, first, second);
            DistanceSquared(p, first, second, foot) <= DistanceSquared(p, first, second, r)
  {
    hide LowRatio, HighRatio, LengthSquared, Along, DistanceSquared, Parabola, Ratio, Clamp, Square;
    var lo, hi := LowRatio(w, first, second), HighRatio(w, first, second);
    var l, b := LengthSquared(first, second), Along(p, first, second);
    var q, s := b / l, Ratio(normalize, p, useYaw, w, first, second);
    RatioIsTheClampedFoot(normalize, p, useYaw, w, first, second);
    DistanceExpands(p, first, second, r);
    DistanceExpands(p, first, second, s);
    Undivided(b, l, q);
    ClampedFootIsLowest(b, q, l, lo, hi, r);
  }

  lemma Undivided(a: real, d: real, q: real)
    requires d > 0.0 && q == a / d
    ensures a == q * d
  {
  }

  lemma ClampedFootIsLowest(b: real, q: real, l: real, lo: real, hi: real, r: real)
    requires l > 0.0 && b == q * l && lo <= r <= hi
    ensures Parabola(l, b, Clamp(q, lo, hi)) <= Parabola(l, b, r)
  {
    hide Parabola, Clamp;
    var s := Clamp(q, lo, hi);
    var gap := (r - s) * (r + s - 2.0 * q);
    ClampedIsBest(q, lo, hi, r, gap);
    ParabolaDifference(b, q, l, r, s, gap);
    ProductSign(l, gap, l * gap);
  }

  // A turn in place has one point.
  lemma FootOfATurn(p: Pose, first: TimedState, second: TimedState, r: real, s: real)
    requires first.x == second.x && first.y == second.y
    ensures DistanceSquared(p, first, second, r) == DistanceSquared(p, first, second, s)
  {
    assert Product(r, second.x - first.x) == Product(s, second.x - first.x) == 0.0;
    assert Product(r, second.y - first.y) == Product(s, second.y - first.y) == 0.0;
  }

  // The chosen foot is as near as any admissible point of the trajectory, to
  // within a tolerance for each segment.
  lemma NearestIsNearestPoint(normalize: real -> real, p: Pose, useYaw: bool, w: Window, trajectory: seq<TimedState>,
                              i: nat, r: real)
    requires Ordered(w) && i + 1 < |trajectory| && Admits(w, trajectory[i], trajectory[i + 1])
    requires LowRatio(w, trajectory[i], trajectory[i + 1]) <= r <= HighRatio(w, trajectory[i], trajectory[i + 1])
    requires LengthSquared(trajectory[i], trajectory[i + 1]) > TOLERANCE ||
             (trajectory[i].x == trajectory[i + 1].x && trajectory[i].y == trajectory[i + 1].y)
    ensures var best := Nearest(normalize, p, useYaw, w, trajectory, |trajectory| - 1);
            best.Foot? &&
            best.distance <= DistanceSquared(p, trajectory[i], trajectory[i + 1], r) +
            (|trajectory| - 1) as real * TOLERANCE
  {
    hide LowRatio, HighRatio, DistanceSquared, Admits, Ratio;
    var first, second := trajectory[i], trajectory[i + 1];
    NearestIsNearest(normalize, p, useYaw, w, trajectory, |trajectory| - 1, i);
    if LengthSquared(first, second) > TOLERANCE {
      FootIsClosest(normalize, p, useYaw, w, first, second, r);
    } else {
      FootOfATurn(p, first, second, r, Ratio(normalize, p, useYaw, w, first, second));
    }
    hide Nearest;
    TolerancesAdd(i, |trajectory| - 1);
  }

  lemma TolerancesAdd(i: nat, n: nat)
    requires i <= n
    ensures (n - i) as real * TOLERANCE <= n as real * TOLERANCE
  {
  }

  // The ratios of an admissible segment are exactly its points inside the window.
  lemma RatiosAreTheWindow(w: Window, first: TimedState, second: TimedState, r: real)
    requires w.Between? && Ordered(w) && Admits(w, first, second) && second.time - first.time >= 0.000000001 &&
             0.0 <= r <= 1.0
    ensures LowRatio(w, first, second) <= r <= HighRatio(w, first, second) <==> w.lo <= TimeAt(first, second, r) <= w.hi
  {
    hide Quotient, Product, Clamp;
    var d := second.time - first.time;
    assert Duration(first, second) == d;
    QuotientBound(w.lo - first.time, d, r);
    QuotientBound(w.hi - first.time, d, r);
    QuotientBound(w.lo - first.time, d, 1.0);
    QuotientBound(w.hi - first.time, d, 0.0);
    Ends(d);
    ClampedBounds(Quotient(w.lo - first.time, d), Quotient(w.hi - first.time, d), r);
  }

  lemma Ends(d: real)
    ensures Product(1.0, d) == d && Product(0.0, d) == 0.0
  {
  }

  lemma ClampedBounds(low: real, high: real, r: real)
    requires low <= 1.0 && high >= 0.0 && 0.0 <= r <= 1.0
    ensures Clamp(low, 0.0, 1.0) <= r <==> low <= r
    ensures r <= Clamp(high, 0.0, 1.0) <==> r <= high
  {
  }

  lemma QuotientBound(a: real, d: real, r: real)
    requires d > 0.0
    ensures Quotient(a, d) <= r <==> a <= Product(r, d)
    ensures Quotient(a, d) >= r <==> a >= Product(r, d)
  {
    var q := a / d;
    assert a == q * d;
    if q <= r {
      ProductSign(r - q, d, (r - q) * d);
    } else {
      assert (q - r) * d > 0.0;
    }
    if q >= r {
      ProductSign(q - r, d, (q - r) * d);
    } else {
      assert (r - q) * d > 0.0;
    }
  }

  ghost predicate Timed(trajectory: seq<TimedState>) {
    forall i, j | 0 <= i < j < |trajectory| :: trajectory[i].time <= trajectory[j].time
  }

  // The slowdown of the reference: never below its floor, and never faster when farther off.
  function ProgressScale(c: Config, error: real): real
    requires c.Valid()
  {
    if error <= c.slowdownStart then 1.0
    else if error >= c.slowdownEnd then c.minimumScale
    else 1.0 - (error - c.slowdownStart) / (c.slowdownEnd - c.slowdownStart) * (1.0 - c.minimumScale)
  }

  lemma ProgressScaleIsBounded(c: Config, error: real)
    requires c.Valid()
    ensures c.minimumScale <= ProgressScale(c, error) <= 1.0
  {
    if c.slowdownStart < error < c.slowdownEnd {
      var share := (error - c.slowdownStart) / (c.slowdownEnd - c.slowdownStart);
      QuotientBound(error - c.slowdownStart, c.slowdownEnd - c.slowdownStart, 0.0);
      QuotientBound(error - c.slowdownStart, c.slowdownEnd - c.slowdownStart, 1.0);
      ProductSign(share, 1.0 - c.minimumScale, share * (1.0 - c.minimumScale));
      ProductSign(1.0 - share, 1.0 - c.minimumScale, (1.0 - share) * (1.0 - c.minimumScale));
      assert (1.0 - share) * (1.0 - c.minimumScale) == (1.0 - c.minimumScale) - share * (1.0 - c.minimumScale);
    }
  }

  lemma ProgressScaleDecreases(c: Config, near: real, far: real)
    requires c.Valid() && near <= far
    ensures ProgressScale(c, far) <= ProgressScale(c, near)
  {
    ProgressScaleIsBounded(c, near);
    ProgressScaleIsBounded(c, far);
    if c.slowdownStart < near && far < c.slowdownEnd {
      var span := c.slowdownEnd - c.slowdownStart;
      QuotientOrder(near - c.slowdownStart, far - c.slowdownStart, span);
      var a, b := (near - c.slowdownStart) / span, (far - c.slowdownStart) / span;
      ProductSign(b - a, 1.0 - c.minimumScale, (b - a) * (1.0 - c.minimumScale));
      assert (b - a) * (1.0 - c.minimumScale) == b * (1.0 - c.minimumScale) - a * (1.0 - c.minimumScale);
    }
  }

  // The progress along one trajectory, None before the first projection.
  function WindowOf(c: Config, progress: Option<real>): (w: Window)
    requires c.Valid()
    ensures Ordered(w)
  {
    if progress.None? then Everything else Between(progress.value - c.backward, progress.value + c.forward)
  }

  function FootOf(normalize: real -> real, c: Config, trajectory: seq<TimedState>, progress: Option<real>,
                  p: Option<Pose>, useYaw: bool): Foot
    requires c.Valid()
  {
    if |trajectory| < 2 || p.None? then Nowhere
    else
      var best := Nearest(normalize, p.value, useYaw, WindowOf(c, progress), trajectory, |trajectory| - 1);
      if best.Nowhere? && progress.Some?
      then Nearest(normalize, p.value, useYaw, Everything, trajectory, |trajectory| - 1) else best
  }

  ghost predicate InRange(trajectory: seq<TimedState>, progress: Option<real>) {
    progress.Some? ==> trajectory != [] && trajectory[0].time <= progress.value <= trajectory[|trajectory| - 1].time
  }

  function Limit(c: Config, trajectory: seq<TimedState>, progress: Option<real>, time: real): real
    requires trajectory != [] && trajectory[0].time <= trajectory[|trajectory| - 1].time
  {
    var forward := if progress.Some? then Min(progress.value + c.forward, Max(progress.value, time)) else time;
    Clamp(forward, trajectory[0].time, trajectory[|trajectory| - 1].time)
  }

  lemma EndsAreOrdered(trajectory: seq<TimedState>)
    requires Timed(trajectory) && trajectory != []
    ensures trajectory[0].time <= trajectory[|trajectory| - 1].time
  {
    if |trajectory| > 1 {
      assert trajectory[0].time <= trajectory[|trajectory| - 1].time;
    }
  }

  function Next(normalize: real -> real, c: Config, trajectory: seq<TimedState>, progress: Option<real>,
                p: Option<Pose>, useYaw: bool):
    Option<real>
    requires c.Valid() && Timed(trajectory)
  {
    var foot := FootOf(normalize, c, trajectory, progress, p, useYaw);
    if foot.Nowhere? then progress
    else
      EndsAreOrdered(trajectory);
      Some(Limit(c, trajectory, progress, foot.time))
  }

  // One projection moves the progress forward, by at most the window, and keeps
  // it on the trajectory.
  lemma NextIsForward(normalize: real -> real, c: Config, trajectory: seq<TimedState>, progress: Option<real>,
                      p: Option<Pose>, useYaw: bool)
    requires c.Valid() && Timed(trajectory) && InRange(trajectory, progress)
    ensures var next := Next(normalize, c, trajectory, progress, p, useYaw);
            InRange(trajectory, next) &&
            (progress.Some? ==> next.Some? && progress.value <= next.value <= progress.value + c.forward)
  {
    hide Nearest;
    if trajectory != [] {
      EndsAreOrdered(trajectory);
    }
  }

  function RunProgress(normalize: real -> real, c: Config, trajectory: seq<TimedState>, progress: Option<real>,
                       poses: seq<(Option<Pose>, bool)>): Option<real>
    requires c.Valid() && Timed(trajectory)
  {
    if poses == [] then progress
    else
      var before := RunProgress(normalize, c, trajectory, progress, poses[..|poses| - 1]);
      Next(normalize, c, trajectory, before, poses[|poses| - 1].0, poses[|poses| - 1].1)
  }

  // The furthest that n projections may advance.
  function Windows(n: nat, forward: real): real {
    n as real * forward
  }

  // Over any run of projections on one trajectory.
  lemma {:induction false} ProgressNeverDecreases(normalize: real -> real, c: Config, trajectory: seq<TimedState>,
                                                  progress: Option<real>,
                                                  poses: seq<(Option<Pose>, bool)>)
    requires c.Valid() && Timed(trajectory) && InRange(trajectory, progress)
    ensures var after := RunProgress(normalize, c, trajectory, progress, poses);
            InRange(trajectory, after) &&
            (progress.Some? ==>
               after.Some? && progress.value <= after.value <= progress.value + Windows(|poses|, c.forward))
  {
    if poses == [] {
      assert Windows(0, c.forward) == 0.0;
    } else {
      hide Next, Windows;
      var before := RunProgress(normalize, c, trajectory, progress, poses[..|poses| - 1]);
      ProgressNeverDecreases(normalize, c, trajectory, progress, poses[..|poses| - 1]);
      NextIsForward(normalize, c, trajectory, before, poses[|poses| - 1].0, poses[|poses| - 1].1);
      OneMoreWindow(|poses|, c.forward);
    }
  }

  lemma OneMoreWindow(n: nat, forward: real)
    requires n > 0
    ensures Windows(n, forward) == Windows(n - 1, forward) + forward
  {
    assert n as real == (n - 1) as real + 1.0;
  }

  // Some segment always meets the window, so the search without it never runs.
  lemma {:induction false} SegmentAt(trajectory: seq<TimedState>, time: real) returns (i: nat)
    requires Timed(trajectory) && |trajectory| >= 2 && trajectory[0].time <= time <= trajectory[|trajectory| - 1].time
    ensures i + 1 < |trajectory| && trajectory[i].time <= time <= trajectory[i + 1].time
  {
    if |trajectory| == 2 || trajectory[|trajectory| - 2].time <= time {
      i := |trajectory| - 2;
    } else {
      i := SegmentAt(trajectory[..|trajectory| - 1], time);
    }
  }

  lemma TheWindowAlwaysMeetsASegment(normalize: real -> real, c: Config, trajectory: seq<TimedState>,
                                     progress: Option<real>, p: Pose,
                                     useYaw: bool)
    requires c.Valid() && Timed(trajectory) && |trajectory| >= 2 && InRange(trajectory, progress)
    ensures Nearest(normalize, p, useYaw, WindowOf(c, progress), trajectory, |trajectory| - 1).Foot?
  {
    var w := WindowOf(c, progress);
    NearestIsACandidate(normalize, p, useYaw, w, trajectory, |trajectory| - 1);
    var i: nat := 0;
    if progress.Some? {
      i := SegmentAt(trajectory, progress.value);
    }
    assert Admits(w, trajectory[i], trajectory[i + 1]);
  }

  datatype Projection = NoProjection | Projection(time: real, crossTrackError: real, segment: nat)

  class Tracker {
    // The angle normalisation and the square root are parameters.
    const normalize: real -> real
    const root: real -> real
    var config: Config
    var trajectory: seq<TimedState>
    var hasProgress: bool
    var lastProgress: real

    ghost predicate Valid()
      reads this
    {
      config.Valid() && Timed(trajectory) && InRange(trajectory, Progress())
    }

    function Progress(): Option<real>
      reads this
    {
      if hasProgress then Some(lastProgress) else None
    }

    constructor (normalize: real -> real, root: real -> real, config: Config)
      ensures Valid() && Progress().None? && trajectory == [] && this.config == Sanitize(config)
      ensures this.normalize == normalize && this.root == root
    {
      this.normalize, this.root := normalize, root;
      this.config := Sanitize(config);
      trajectory, hasProgress, lastProgress := [], false, 0.0;
    }

    method SetTrajectory(trajectory: seq<TimedState>)
      requires Valid() && Timed(trajectory)
      modifies this
      ensures Valid() && this.trajectory == trajectory && Progress().None? && config == old(config)
    {
      this.trajectory := trajectory;
      hasProgress, lastProgress := false, 0.0;
    }

    method Clear()
      requires Valid()
      modifies this
      ensures Valid() && trajectory == [] && Progress().None? && config == old(config)
    {
      SetTrajectory([]);
    }

    method NearestProjection(p: Option<Pose>, useYaw: bool, restrict: bool) returns (best: Foot)
      requires Valid() && (restrict ==> hasProgress)
      ensures best == if |trajectory| < 2 || p.None? then Nowhere
                      else Nearest(normalize, p.value, useYaw, WindowOf(config, if restrict then Progress() else None),
                                   trajectory,
                                   |trajectory| - 1)
    {
      hide Candidate, Admits;
      best := Nowhere;
      if |trajectory| < 2 || p.None? {
        return;
      }
      var w := if restrict then Between(lastProgress - config.backward, lastProgress + config.forward) else Everything;
      for i := 0 to |trajectory| - 1
        invariant best == Nearest(normalize, p.value, useYaw, w, trajectory, i)
      {
        if Admits(w, trajectory[i], trajectory[i + 1]) {
          var candidate := Candidate(normalize, p.value, useYaw, w, trajectory, i);
          CandidateExists(normalize, p.value, useYaw, w, trajectory, i);
          if best.Nowhere? {
            best := candidate;
          } else {
            var farther := candidate.distance > best.distance + TOLERANCE;
            var equal := Abs(candidate.distance - best.distance) <= TOLERANCE;
            if !(farther || (equal && candidate.yawError >= best.yawError)) {
              best := candidate;
            }
          }
        }
      }
    }

    method Project(p: Option<Pose>, useYaw: bool) returns (projection: Projection)
      requires Valid()
      modifies this`hasProgress, this`lastProgress
      ensures Valid()
      ensures Progress() == Next(normalize, config, trajectory, old(Progress()), p, useYaw)
      ensures var foot := FootOf(normalize, config, trajectory, old(Progress()), p, useYaw);
              projection == if foot.Nowhere? then NoProjection
                            else Projection(Progress().value, root(foot.distance), foot.index)
    {
      hide Nearest;
      NextIsForward(normalize, config, trajectory, Progress(), p, useYaw);
      var foot := NearestProjection(p, useYaw, hasProgress);
      if foot.Nowhere? && hasProgress {
        foot := NearestProjection(p, useYaw, false);
      }
      if foot.Nowhere? {
        return NoProjection;
      }
      var time := foot.time;
      if hasProgress {
        time := Max(lastProgress, time);
        time := Min(lastProgress + config.forward, time);
      }
      EndsAreOrdered(trajectory);
      time := Clamp(time, trajectory[0].time, trajectory[|trajectory| - 1].time);
      lastProgress := time;
      hasProgress := true;
      return Projection(time, root(foot.distance), foot.index);
    }
  }
}
