/** The audit of a QP candidate: one running maximum of violations stands for
    every hard limit of every step, with the steering angle checked only where the
    zero-speed guard says a direction exists. */
module LtvQpAudit {
  import opened Basics
  import opened Actuator
  import LtvQpPlan
  import LtvQpTracking
  import LtvQpConstraints

  const CONSTRAINT_TOLERANCE: real := 0.000000001

  datatype GuardConfig = GuardConfig(enter: real, exit: real)
  {
    function Enter(): real {
      Max(0.000001, enter)
    }

    function Exit(): real {
      Max(Enter() + 0.000001, exit)
    }
  }

  datatype Settings = Settings(
    maxIterations: int, timeLimit: real, maxPrimalResidual: real, maxDualResidual: real, maxSlack: real,
    maxViolation: real)
  {
    predicate Valid() {
      maxIterations > 0 && timeLimit > 0.0 && maxPrimalResidual >= 0.0 && maxDualResidual >= 0.0 && maxSlack >= 0.0 &&
      maxViolation >= 0.0
    }
  }

  datatype Safety = Safety(
    inputsHealthy: bool, emergencyStop: bool, collisionFree: bool, localizationFresh: bool, referenceFresh: bool,
    leaseValid: bool,
    gimbalValid: bool, mapFresh: bool)
  {
    predicate Allows() {
      inputsHealthy && !emergencyStop && collisionFree && localizationFresh && referenceFresh && leaseValid &&
      gimbalValid && mapFresh
    }
  }

  // What the backend reports: wellFormed stands for sizes and finite entries.
  datatype Report = Report(
    wellFormed: bool, solved: bool, iterations: int, times: seq<real>, primalResidual: real, dualResidual: real,
    slackMaximum: real,
    slacks: seq<real>, hardViolation: real)
  {
    predicate NonNegative() {
      slackMaximum >= 0.0 && hardViolation >= 0.0 && primalResidual >= 0.0 && dualResidual >= 0.0 &&
      forall i | 0 <= i < |times| :: times[i] >= 0.0
    }

    predicate InTime(settings: Settings) {
      0 <= iterations <= settings.maxIterations && forall i | 0 <= i < |times| :: times[i] <= settings.timeLimit
    }
  }

  predicate Verifiable(config: Config) {
    && config.maxVx >= 0.0 && config.maxVy >= 0.0 && config.maxWz >= 0.0
    && config.maxAx >= 0.0 && config.maxAy >= 0.0 && config.maxAwz >= 0.0
    && config.wheelBaseX > 0.0 && config.wheelBaseY > 0.0 && config.maxWheelSpeed > 0.0 &&
       config.maxWheelAcceleration > 0.0
    && config.maxSteerRate > 0.0
  }

  // Everything that rejects before the hard limits are looked at.
  predicate Admitted(config: Config, settings: Settings, safety: Safety, report: Report) {
    && settings.Valid() && config.dt > 0.0 && report.wellFormed && report.NonNegative() && report.solved &&
       report.InTime(settings)
    && report.primalResidual <= settings.maxPrimalResidual && report.dualResidual <= settings.maxDualResidual
    && safety.Allows() && Verifiable(config) && report.slacks == [] && report.slackMaximum <= settings.maxSlack
  }

  function UpperViolation(value: real, upper: real): real {
    Max(0.0, value - upper)
  }

  function AbsoluteViolation(value: real, bound: real): real {
    UpperViolation(Abs(value), bound)
  }

  // The guard's hysteresis over the four wheel speeds.
  function GuardUpdate(guard: GuardConfig, active: bool, config: Config, c: Control): bool {
    var fastest := Fastest(config, ModuleVelocities(config, c), 4);
    if active then !(fastest >= guard.Exit()) else fastest <= guard.Enter()
  }

  function Fastest(config: Config, wheels: seq<Vector>, n: nat): real
    requires n <= |wheels|
  {
    if n == 0 then 0.0 else Max(Fastest(config, wheels, n - 1), Abs(Norm(config, wheels[n - 1])))
  }

  predicate AngleDefined(guard: GuardConfig, active: bool, previousSpeed: real, candidateSpeed: real) {
    !active && previousSpeed > guard.Enter() && candidateSpeed > guard.Enter()
  }

  function SteerAngle(config: Config, candidate: Vector, previous: Vector): real {
    var a, b := Norm(config, candidate), Norm(config, previous);
    if a > 0.0 && b > 0.0 then config.arccos(Cosine(Dot(candidate, previous), a, b)) else 0.0
  }

  // The violations of one step, in the order in which they are taken.
  function BodyViolations(config: Config, candidate: Control, previous: Control): seq<real> {
    var delta := Subtract(candidate, previous);
    [AbsoluteViolation(candidate.vx, config.maxVx), AbsoluteViolation(candidate.vy, config.maxVy),
     AbsoluteViolation(candidate.wz, config.maxWz), AbsoluteViolation(delta.vx, Budget(config.maxAx, config.dt)),
     AbsoluteViolation(delta.vy, Budget(config.maxAy, config.dt)),
     AbsoluteViolation(delta.wz, Budget(config.maxAwz, config.dt))]
  }

  function WheelViolations(config: Config, guard: GuardConfig, active: bool, candidate: Vector,
                           previous: Vector): seq<real> {
    [UpperViolation(Norm(config, candidate), config.maxWheelSpeed),
     UpperViolation(Norm(config, Difference(candidate, previous)), Budget(config.maxWheelAcceleration, config.dt))] +
    if AngleDefined(guard, active, Norm(config, previous), Norm(config, candidate))
    then [UpperViolation(SteerAngle(config, candidate, previous), Budget(config.maxSteerRate, config.dt))] else []
  }

  // Each limit of one step, exceeded by no more than the tolerance.
  predicate Within(value: real, bound: real, tolerance: real) {
    value <= bound + tolerance
  }

  predicate BodyWithin(config: Config, candidate: Control, previous: Control, tolerance: real) {
    var delta := Subtract(candidate, previous);
    && Within(Abs(candidate.vx), config.maxVx, tolerance) && Within(Abs(candidate.vy), config.maxVy, tolerance)
    && Within(Abs(candidate.wz), config.maxWz, tolerance) &&
       Within(Abs(delta.vx), Budget(config.maxAx, config.dt), tolerance)
    && Within(Abs(delta.vy), Budget(config.maxAy, config.dt), tolerance) &&
       Within(Abs(delta.wz), Budget(config.maxAwz, config.dt), tolerance)
  }

  predicate WheelWithin(config: Config, guard: GuardConfig, active: bool, candidate: Vector, previous: Vector,
                        tolerance: real) {
    && Within(Norm(config, candidate), config.maxWheelSpeed, tolerance)
    && Within(Norm(config, Difference(candidate, previous)), Budget(config.maxWheelAcceleration, config.dt), tolerance)
    && (AngleDefined(guard, active, Norm(config, previous), Norm(config, candidate)) ==>
          Within(SteerAngle(config, candidate, previous), Budget(config.maxSteerRate, config.dt), tolerance))
  }

  predicate StepWithin(config: Config, guard: GuardConfig, active: bool, candidate: Control, previous: Control,
                       tolerance: real) {
    && BodyWithin(config, candidate, previous, tolerance)
    && forall i | 0 <= i < 4 ::
         WheelWithin(config, guard, active, ModuleVelocities(config, candidate)[i],
                     ModuleVelocities(config, previous)[i], tolerance)
  }

  function Predecessor(candidates: seq<Control>, last: Control, k: nat): Control
    requires k <= |candidates|
  {
    if k == 0 then last else candidates[k - 1]
  }

  // The guard's state when step k is looked at.
  function GuardBefore(config: Config, guard: GuardConfig, candidates: seq<Control>, last: Control, k: nat): bool
    requires k <= |candidates|
  {
    if k == 0 then GuardUpdate(guard, false, config, last)
    else GuardUpdate(guard, GuardBefore(config, guard, candidates, last, k - 1), config, candidates[k - 1])
  }

  predicate EveryStepWithin(config: Config, guard: GuardConfig, candidates: seq<Control>, last: Control, n: nat,
                            tolerance: real)
    requires n <= |candidates|
  {
    forall k | 0 <= k < n ::
      StepWithin(config, guard, GuardBefore(config, guard, candidates, last, k), candidates[k],
                 Predecessor(candidates, last, k), tolerance)
  }

  // Raises a running maximum by a list of violations.
  method Raise(worst: real, violations: seq<real>, ghost limit: real) returns (raised: real)
    ensures raised <= limit <==> worst <= limit && AllAtMost(violations, limit)
  {
    raised := worst;
    for i := 0 to |violations|
      invariant raised <= limit <==> worst <= limit && forall j | 0 <= j < i :: violations[j] <= limit
    {
      raised := Max(raised, violations[i]);
    }
  }

  predicate AllAtMost(violations: seq<real>, limit: real) {
    forall i | 0 <= i < |violations| :: violations[i] <= limit
  }

  lemma ViolationMeans(value: real, bound: real, limit: real)
    requires limit >= 0.0
    ensures UpperViolation(value, bound) <= limit <==> Within(value, bound, limit)
  {
  }

  lemma SixAtMost(v: seq<real>, limit: real)
    requires |v| == 6
    ensures AllAtMost(v, limit) <==>
            v[0] <= limit && v[1] <= limit && v[2] <= limit && v[3] <= limit && v[4] <= limit && v[5] <= limit
  {
  }

  lemma FewAtMost(v: seq<real>, limit: real)
    requires |v| == 2 || |v| == 3
    ensures AllAtMost(v, limit) <==> v[0] <= limit && v[1] <= limit && (|v| == 3 ==> v[2] <= limit)
  {
  }

  lemma BodyMeans(config: Config, candidate: Control, previous: Control, limit: real)
    requires limit >= 0.0
    ensures AllAtMost(BodyViolations(config, candidate, previous), limit) <==>
            BodyWithin(config, candidate, previous, limit)
  {
    hide AllAtMost, UpperViolation, Within, Abs, Budget;
    var delta := Subtract(candidate, previous);
    SixAtMost(BodyViolations(config, candidate, previous), limit);
    ViolationMeans(Abs(candidate.vx), config.maxVx, limit);
    ViolationMeans(Abs(candidate.vy), config.maxVy, limit);
    ViolationMeans(Abs(candidate.wz), config.maxWz, limit);
    ViolationMeans(Abs(delta.vx), Budget(config.maxAx, config.dt), limit);
    ViolationMeans(Abs(delta.vy), Budget(config.maxAy, config.dt), limit);
    ViolationMeans(Abs(delta.wz), Budget(config.maxAwz, config.dt), limit);
  }

  lemma WheelMeans(config: Config, guard: GuardConfig, active: bool, candidate: Vector, previous: Vector, limit: real)
    requires limit >= 0.0
    ensures AllAtMost(WheelViolations(config, guard, active, candidate, previous), limit) <==>
            WheelWithin(config, guard, active, candidate, previous, limit)
  {
    hide AllAtMost, UpperViolation, Within, SteerAngle, Norm, AngleDefined, Difference, Budget;
    FewAtMost(WheelViolations(config, guard, active, candidate, previous), limit);
    ViolationMeans(Norm(config, candidate), config.maxWheelSpeed, limit);
    ViolationMeans(Norm(config, Difference(candidate, previous)), Budget(config.maxWheelAcceleration, config.dt),
                   limit);
    ViolationMeans(SteerAngle(config, candidate, previous), Budget(config.maxSteerRate, config.dt), limit);
  }

  // One step: the body limits, then the four wheels.
  method AuditStep(config: Config, guard: GuardConfig, active: bool, candidate: Control, previous: Control, worst: real,
                   ghost limit: real)
    returns (raised: real)
    requires limit >= 0.0
    ensures raised <= limit <==> worst <= limit && StepWithin(config, guard, active, candidate, previous, limit)
  {
    hide BodyViolations, BodyWithin, WheelViolations, WheelWithin, AllAtMost;
    raised := Raise(worst, BodyViolations(config, candidate, previous), limit);
    BodyMeans(config, candidate, previous, limit);
    var candidates, previouses := ModuleVelocities(config, candidate), ModuleVelocities(config, previous);
    for i := 0 to 4
      invariant raised <= limit <==>
                worst <= limit && BodyWithin(config, candidate, previous, limit) &&
                forall j | 0 <= j < i :: WheelWithin(config, guard, active, candidates[j], previouses[j], limit)
    {
      raised := Raise(raised, WheelViolations(config, guard, active, candidates[i], previouses[i]), limit);
      WheelMeans(config, guard, active, candidates[i], previouses[i], limit);
    }
  }

  // Every step, with the guard carried along.
  method AuditSteps(config: Config, guard: GuardConfig, candidates: seq<Control>, last: Control, ghost limit: real)
    returns (worst: real)
    requires limit >= 0.0
    ensures worst <= limit <==> EveryStepWithin(config, guard, candidates, last, |candidates|, limit)
  {
    hide StepWithin, GuardUpdate;
    worst := 0.0;
    var previous := last;
    var active := GuardUpdate(guard, false, config, last);
    for step := 0 to |candidates|
      invariant previous == Predecessor(candidates, last, step) &&
                active == GuardBefore(config, guard, candidates, last, step)
      invariant worst <= limit <==> EveryStepWithin(config, guard, candidates, last, step, limit)
    {
      worst := AuditStep(config, guard, active, candidates[step], previous, worst, limit);
      active := GuardUpdate(guard, active, config, candidates[step]);
      previous := candidates[step];
    }
  }

  predicate Accepted(config: Config, guard: GuardConfig, settings: Settings, safety: Safety, report: Report,
                     candidates: seq<Control>,
                     last: Control)
  {
    && Admitted(config, settings, safety, report)
    && report.hardViolation <= settings.maxViolation + CONSTRAINT_TOLERANCE
    && EveryStepWithin(config, guard, candidates, last, |candidates|, settings.maxViolation + CONSTRAINT_TOLERANCE)
  }

  // The node passes a safety record without a collision check and without map
  // freshness. Either alone refuses every candidate.
  lemma UncheckedCandidatesAreRefused(config: Config, guard: GuardConfig, settings: Settings, safety: Safety,
                                      report: Report,
                                      candidates: seq<Control>, last: Control)
    requires !safety.collisionFree || !safety.mapFresh
    ensures !Accepted(config, guard, settings, safety, report, candidates, last)
  {
  }

  // The audit accepts exactly the admitted candidates that keep every limit at
  // every step, to within the permitted violation.
  method Validate(config: Config, guard: GuardConfig, settings: Settings, safety: Safety, report: Report,
                  candidates: seq<Control>,
                  last: Control) returns (feasible: bool)
    ensures feasible <==> Accepted(config, guard, settings, safety, report, candidates, last)
  {
    if !Admitted(config, settings, safety, report) {
      return false;
    }
    var limit := settings.maxViolation + CONSTRAINT_TOLERANCE;
    hide EveryStepWithin, Admitted;
    var worst := AuditSteps(config, guard, candidates, last, limit);
    return Max(worst, report.hardViolation) <= limit;
  }

  // The candidate controls of a decision.
  function ControlOf(v: LtvQpPlan.Triple): Control {
    Control(v.x, v.y, v.w)
  }

  ghost predicate SharesLimits(config: Config, plan: LtvQpPlan.Plan) {
    && plan.limits.dt == config.dt
    && plan.limits.velocity == LtvQpPlan.Triple(config.maxVx, config.maxVy, config.maxWz)
    && plan.limits.acceleration == LtvQpPlan.Triple(config.maxAx, config.maxAy, config.maxAwz)
  }

  // A decision that satisfies the problem's rows passes every body check of the
  // audit exactly: only the wheels, which the problem leaves out, can reject it.
  lemma FeasibleDecisionsPassTheBodyChecks(config: Config, plan: LtvQpPlan.Plan, z: seq<real>, k: nat, tolerance: real)
    requires |z| == plan.Size() && k < plan.Horizon() && LtvQpConstraints.Feasible(plan, z) &&
             SharesLimits(config, plan) && tolerance >= 0.0
    ensures BodyWithin(config, ControlOf(LtvQpTracking.ControlAt(plan, z, k)),
                       ControlOf(LtvQpTracking.ControlBefore(plan, z, k)), tolerance)
  {
    LtvQpConstraints.ConstraintsAreTheModel(plan, z);
    hide LtvQpConstraints.Feasible, LtvQpConstraints.StateOf, LtvQpConstraints.FollowsModel,
      LtvQpConstraints.MaximumDelta,
      LtvQpTracking.ControlAt, LtvQpTracking.ControlBefore, BodyWithin;
    forall axis: nat | axis < 3
      ensures Keeps(LtvQpTracking.ControlAt(plan, z, k), LtvQpTracking.ControlBefore(plan, z, k), plan.limits.velocity,
                    LtvQpConstraints.MaximumDelta(plan), axis)
    {
      assert LtvQpConstraints.ChangesModerately(plan, z, k, axis) && LtvQpConstraints.MovesModerately(plan, z, k, axis);
    }
    LimitsAgree(config, plan);
    KeepingIsWithin(config, LtvQpTracking.ControlAt(plan, z, k), LtvQpTracking.ControlBefore(plan, z, k),
                    plan.limits.velocity,
                    LtvQpConstraints.MaximumDelta(plan), tolerance);
  }

  predicate Keeps(u: LtvQpPlan.Triple, p: LtvQpPlan.Triple, velocity: LtvQpPlan.Triple, change: LtvQpPlan.Triple,
                  axis: nat)
    requires axis < 3
  {
    LtvQpConstraints.Moderate(velocity.At(axis), u.At(axis)) &&
    LtvQpConstraints.Moderate(change.At(axis), u.Minus(p).At(axis))
  }

  lemma KeepingIsWithin(config: Config, u: LtvQpPlan.Triple, p: LtvQpPlan.Triple, velocity: LtvQpPlan.Triple,
                        change: LtvQpPlan.Triple,
                        tolerance: real)
    requires velocity == LtvQpPlan.Triple(config.maxVx, config.maxVy, config.maxWz) && tolerance >= 0.0
    requires change == LtvQpPlan.Triple(Budget(config.maxAx, config.dt), Budget(config.maxAy, config.dt),
                                        Budget(config.maxAwz, config.dt))
    requires forall axis: nat | axis < 3 :: Keeps(u, p, velocity, change, axis)
    ensures BodyWithin(config, ControlOf(u), ControlOf(p), tolerance)
  {
    assert Keeps(u, p, velocity, change, 0) && Keeps(u, p, velocity, change, 1) && Keeps(u, p, velocity, change, 2);
  }

  lemma LimitsAgree(config: Config, plan: LtvQpPlan.Plan)
    requires SharesLimits(config, plan)
    ensures LtvQpConstraints.MaximumDelta(plan) ==
            LtvQpPlan.Triple(Budget(config.maxAx, config.dt), Budget(config.maxAy, config.dt),
                             Budget(config.maxAwz, config.dt))
  {
  }
}
