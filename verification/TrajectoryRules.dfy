/** Which projection is chosen, how far the progress follows it, and how much the
    speed gives way. */
module TrajectoryRules {
  import opened Basics
  import opened TrajectoryTracker

  // Among segments that are equally far, the smallest yaw error wins, and the
  // first of those.
  lemma {:induction false} SmallerYawErrorWinsTheTie(normalize: real -> real, p: Pose, useYaw: bool, w: Window,
                                                     trajectory: seq<TimedState>, n: nat, distance: real, i: nat)
    requires n < |trajectory| && Ordered(w) && i < n && Admits(w, trajectory[i], trajectory[i + 1])
    requires forall j | 0 <= j < n && Admits(w, trajectory[j], trajectory[j + 1]) ::
               Candidate(normalize, p, useYaw, w, trajectory, j).distance == distance
    ensures var best := Nearest(normalize, p, useYaw, w, trajectory, n);
            var other := Candidate(normalize, p, useYaw, w, trajectory, i);
            best.Foot? && best.distance == distance && best.yawError <= other.yawError &&
            (best.yawError == other.yawError ==> best.index <= i)
  {
    hide Candidate, Admits;
    NearestIsACandidate(normalize, p, useYaw, w, trajectory, n - 1);
    var best := Nearest(normalize, p, useYaw, w, trajectory, n - 1);
    if best.Foot? {
      SmallerYawErrorWinsTheTie(normalize, p, useYaw, w, trajectory, n - 1, distance, best.index);
    }
    if i < n - 1 {
      SmallerYawErrorWinsTheTie(normalize, p, useYaw, w, trajectory, n - 1, distance, i);
    }
    CandidateExists(normalize, p, useYaw, w, trajectory, n - 1);
    CandidateExists(normalize, p, useYaw, w, trajectory, i);
  }

  // A later segment that is closer by more than the tolerance is always taken.
  lemma CloserSegmentWins(normalize: real -> real, p: Pose, useYaw: bool, w: Window, trajectory: seq<TimedState>,
                          n: nat)
    requires 0 < n < |trajectory| && Ordered(w) && Admits(w, trajectory[n - 1], trajectory[n])
    requires var best := Nearest(normalize, p, useYaw, w, trajectory, n - 1);
             best.Nowhere? ||
             Candidate(normalize, p, useYaw, w, trajectory, n - 1).distance < best.distance - TOLERANCE
    ensures Nearest(normalize, p, useYaw, w, trajectory, n) == Candidate(normalize, p, useYaw, w, trajectory, n - 1)
  {
    hide Candidate, Admits;
  }

  // Turning on the spot, the progress is the share of the turn that is done.
  lemma TurnAdvancesWithTheYaw(normalize: real -> real, p: Pose, useYaw: bool, first: TimedState, second: TimedState,
                               share: real)
    requires first.x == second.x && first.y == second.y
    requires var turn := normalize(second.yaw - first.yaw);
             Abs(turn) > 0.000000001 && normalize(p.yaw - first.yaw) == share * turn
    ensures FreeRatio(normalize, p, useYaw, first, second) ==
            if !useYaw || share <= 0.0 then 0.0 else if share >= 1.0 then 1.0 else share
  {
    assert LengthSquared(first, second) == 0.0;
    hide LengthSquared;
    QuotientOfProduct(share, normalize(second.yaw - first.yaw));
  }

  // Where the pose faces as the trajectory does, there is no yaw error.
  lemma FacingAlongHasNoError(normalize: real -> real, p: Pose, first: TimedState, second: TimedState, share: real)
    requires p.yaw == InterpolateAngle(normalize, first.yaw, second.yaw, share) && normalize(0.0) == 0.0
    ensures YawError(normalize, p, true, first, second, share) == 0.0
  {
    hide InterpolateAngle;
  }

  lemma QuotientOfProduct(a: real, b: real)
    requires b != 0.0
    ensures a * b / b == a
  {
  }

  lemma TimeIsBetween(first: TimedState, second: TimedState, r: real)
    requires first.time <= second.time && 0.0 <= r <= 1.0
    ensures first.time <= TimeAt(first, second, r) <= second.time
  {
    var d := second.time - first.time;
    ProductSign(r, d, r * d);
    ProductSign(1.0 - r, d, (1.0 - r) * d);
  }

  // With progress made, the foot is as near as any point of the trajectory whose
  // time is at most so far behind and so far ahead of it, to within the tolerance
  // of the ties.
  lemma FootIsNearestInTheWindow(normalize: real -> real, c: Config, trajectory: seq<TimedState>, progress: real,
                                 p: Pose, useYaw: bool, i: nat, r: real)
    requires c.Valid() && Timed(trajectory) && InRange(trajectory, Some(progress)) && i + 1 < |trajectory|
    requires trajectory[i + 1].time - trajectory[i].time >= 0.000000001 && 0.0 <= r <= 1.0
    requires LengthSquared(trajectory[i], trajectory[i + 1]) > TOLERANCE ||
             (trajectory[i].x == trajectory[i + 1].x && trajectory[i].y == trajectory[i + 1].y)
    requires progress - c.backward <= TimeAt(trajectory[i], trajectory[i + 1], r) <= progress + c.forward
    ensures var foot := FootOf(normalize, c, trajectory, Some(progress), Some(p), useYaw);
            && foot.Foot?
            && foot.distance <= DistanceSquared(p, trajectory[i], trajectory[i + 1], r) +
                                (|trajectory| - 1) as real * 0.000000000001
  {
    hide Nearest, LengthSquared, DistanceSquared, TimeAt, LowRatio, HighRatio;
    var w := Between(progress - c.backward, progress + c.forward);
    TimeIsBetween(trajectory[i], trajectory[i + 1], r);
    RatiosAreTheWindow(w, trajectory[i], trajectory[i + 1], r);
    NearestIsNearestPoint(normalize, p, useYaw, w, trajectory, i, r);
  }

  // And it is itself within that window.
  lemma FootIsInTheWindow(normalize: real -> real, c: Config, trajectory: seq<TimedState>, progress: real, p: Pose,
                          useYaw: bool)
    requires c.Valid() && Timed(trajectory) && InRange(trajectory, Some(progress)) && |trajectory| >= 2
    requires forall i | 0 <= i < |trajectory| - 1 :: trajectory[i + 1].time - trajectory[i].time >= 0.000000001
    ensures var foot := FootOf(normalize, c, trajectory, Some(progress), Some(p), useYaw);
            foot.Foot? && progress - c.backward <= foot.time <= progress + c.forward
  {
    hide Nearest, TimeAt, LowRatio, HighRatio, Ratio;
    var w := Between(progress - c.backward, progress + c.forward);
    TheWindowAlwaysMeetsASegment(normalize, c, trajectory, Some(progress), p, useYaw);
    NearestIsACandidate(normalize, p, useYaw, w, trajectory, |trajectory| - 1);
    var foot := Nearest(normalize, p, useYaw, w, trajectory, |trajectory| - 1);
    var first, second := trajectory[foot.index], trajectory[foot.index + 1];
    var ratio := Ratio(normalize, p, useYaw, w, first, second);
    RatiosAreOrdered(w, first, second);
    RatioIsWithin(normalize, p, useYaw, w, first, second);
    RatiosAreTheWindow(w, first, second, ratio);
  }

  lemma RatioIsWithin(normalize: real -> real, p: Pose, useYaw: bool, w: Window, first: TimedState, second: TimedState)
    requires Ordered(w)
    ensures LowRatio(w, first, second) <= Ratio(normalize, p, useYaw, w, first, second) <= HighRatio(w, first, second)
  {
    hide LowRatio, HighRatio, FreeRatio;
  }

  // The times that one projection may reach.
  predicate IsReachable(c: Config, trajectory: seq<TimedState>, progress: real, time: real)
    requires trajectory != []
  {
    progress <= time <= progress + c.forward && trajectory[0].time <= time <= trajectory[|trajectory| - 1].time
  }

  // The progress goes as near to the foot as it can without going back, leaving
  // the window or the trajectory; without a foot it stays.
  lemma ProgressFollowsTheFoot(normalize: real -> real, c: Config, trajectory: seq<TimedState>, progress: real,
                               p: Option<Pose>, useYaw: bool, time: real)
    requires c.Valid() && Timed(trajectory) && trajectory != [] && InRange(trajectory, Some(progress))
    requires IsReachable(c, trajectory, progress, time)
    ensures var foot, next := FootOf(normalize, c, trajectory, Some(progress), p, useYaw),
                              Next(normalize, c, trajectory, Some(progress), p, useYaw);
            && next.Some? && IsReachable(c, trajectory, progress, next.value)
            && (foot.Nowhere? ==> next.value == progress)
            && (foot.Foot? ==> Abs(next.value - foot.time) <= Abs(time - foot.time))
  {
    EndsAreOrdered(trajectory);
    hide FootOf;
  }

  // The first projection is the foot itself, kept on the trajectory.
  lemma FirstProgressIsTheFoot(normalize: real -> real, c: Config, trajectory: seq<TimedState>, p: Option<Pose>,
                               useYaw: bool)
    requires c.Valid() && Timed(trajectory) && trajectory != []
    ensures var foot, next := FootOf(normalize, c, trajectory, None, p, useYaw),
                              Next(normalize, c, trajectory, None, p, useYaw);
            var start, end := trajectory[0].time, trajectory[|trajectory| - 1].time;
            && (foot.Nowhere? ==> next.None?)
            && (foot.Foot? ==>
                  next == Some(if foot.time < start then start else if foot.time > end then end else foot.time))
  {
    EndsAreOrdered(trajectory);
    hide FootOf;
  }

  // Between its two errors the scale falls in a straight line from one to its floor.
  lemma ScaleFallsLinearly(c: Config, error: real)
    requires c.Valid()
    ensures error <= c.slowdownStart ==> ProgressScale(c, error) == 1.0
    ensures error >= c.slowdownEnd ==> ProgressScale(c, error) == c.minimumScale
    ensures c.slowdownStart <= error <= c.slowdownEnd ==>
              (1.0 - ProgressScale(c, error)) * (c.slowdownEnd - c.slowdownStart) ==
              (error - c.slowdownStart) * (1.0 - c.minimumScale)
  {
    if c.slowdownStart < error < c.slowdownEnd {
      var width, beyond, drop := c.slowdownEnd - c.slowdownStart, error - c.slowdownStart, 1.0 - c.minimumScale;
      var share := beyond / width;
      assert 1.0 - ProgressScale(c, error) == share * drop;
      ShareOf(share, width, beyond, drop);
    }
  }

  lemma ShareOf(share: real, width: real, beyond: real, drop: real)
    requires width > 0.0 && share == beyond / width
    ensures share * drop * width == beyond * drop
  {
    assert share * width == beyond;
  }
}
