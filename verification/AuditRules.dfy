/** What the audit asks of a candidate, in terms of Twists and wheel velocities,
    and when it asks for a steering angle at all. */
module AuditRules {
  import opened Basics
  import opened Actuator
  import opened MotionLimits
  import opened WheelMotion
  import opened LtvQpAudit

  predicate AllSlowerThan(config: Config, c: Control, square: real) {
    forall i | 0 <= i < 4 :: Dot(ModuleVelocities(config, c)[i], ModuleVelocities(config, c)[i]) < square
  }

  predicate AllWithinSpeed(config: Config, c: Control, square: real) {
    forall i | 0 <= i < 4 :: Dot(ModuleVelocities(config, c)[i], ModuleVelocities(config, c)[i]) <= square
  }

  // The guard closes once every wheel is at most at the entry speed, and opens
  // only when some wheel reaches the exit speed, which is always the larger one.
  lemma GuardIsHysteretic(guard: GuardConfig, active: bool, config: Config, c: Control)
    requires config.Valid()
    ensures 0.000001 <= guard.Enter() < guard.Exit() && guard.Enter() >= guard.enter && guard.Exit() >= guard.exit
    ensures GuardUpdate(guard, active, config, c) <==>
            if active then AllSlowerThan(config, c, Square(guard.Exit()))
            else AllWithinSpeed(config, c, Square(guard.Enter()))
  {
    var wheels := ModuleVelocities(config, c);
    FastestIsTheFastest(config, wheels, 4, guard.Enter());
    FastestBelow(config, wheels, 4, guard.Exit());
    hide Dot, Square, Fastest, ModuleVelocities;
  }

  lemma {:induction false} FastestIsTheFastest(config: Config, wheels: seq<Vector>, n: nat, speed: real)
    requires config.Valid() && n <= |wheels| && speed > 0.0
    ensures Fastest(config, wheels, n) <= speed <==> forall i | 0 <= i < n :: Dot(wheels[i], wheels[i]) <= Square(speed)
  {
    hide Dot, Square, IsRoot, Norm;
    if n > 0 {
      FastestIsTheFastest(config, wheels, n - 1, speed);
      NormIsBounded(config, wheels[n - 1], speed);
    }
  }

  lemma {:induction false} FastestBelow(config: Config, wheels: seq<Vector>, n: nat, speed: real)
    requires config.Valid() && n <= |wheels| && speed > 0.0
    ensures Fastest(config, wheels, n) < speed <==> forall i | 0 <= i < n :: Dot(wheels[i], wheels[i]) < Square(speed)
  {
    hide Dot, Square, IsRoot, Norm;
    if n > 0 {
      FastestBelow(config, wheels, n - 1, speed);
      NormIsBounded(config, wheels[n - 1], speed);
    }
  }

  lemma NormIsBounded(config: Config, v: Vector, bound: real)
    requires config.Valid() && bound >= 0.0
    ensures Norm(config, v) >= 0.0
    ensures Norm(config, v) <= bound <==> Dot(v, v) <= Square(bound)
    ensures Norm(config, v) >= bound <==> Dot(v, v) >= Square(bound)
  {
    DotIsNotNegative(v);
    RootOrder(config.root, Dot(v, v), bound);
    SquareOrder(bound, config.root(Dot(v, v)));
    hide Dot;
  }

  // Where a steering angle means something: away from standstill before and after,
  // while the guard is open.
  ghost predicate SteersWithin(config: Config, guard: GuardConfig, active: bool, v: Vector, p: Vector,
                               tolerance: real) {
    !active && Dot(v, v) > Square(guard.Enter()) && Dot(p, p) > Square(guard.Enter()) ==>
      forall cosine | IsCosine(cosine, config.root(Dot(v, v)), config.root(Dot(p, p)), Dot(v, p)) ::
        config.arccos(cosine) <= Allowance(config.dt, config.maxSteerRate) + tolerance
  }

  // The audit of one wheel, in squares.
  lemma WheelAuditMeans(config: Config, guard: GuardConfig, active: bool, v: Vector, p: Vector, tolerance: real)
    requires config.Valid() && Verifiable(config) && tolerance >= 0.0
    ensures WheelWithin(config, guard, active, v, p, tolerance) <==>
            && Dot(v, v) <= Square(config.maxWheelSpeed + tolerance)
            && Square(v.x - p.x) + Square(v.y - p.y) <=
               Square(Allowance(config.dt, config.maxWheelAcceleration) + tolerance)
            && SteersWithin(config, guard, active, v, p, tolerance)
  {
    ProductSign(config.maxWheelAcceleration, config.dt, Allowance(config.dt, config.maxWheelAcceleration));
    assert Budget(config.maxWheelAcceleration, config.dt) == Allowance(config.dt, config.maxWheelAcceleration);
    assert Dot(Difference(v, p), Difference(v, p)) == Square(v.x - p.x) + Square(v.y - p.y);
    SteeringAuditMeans(config, guard, active, v, p, tolerance);
    hide Dot, Difference, Square, Norm, SteersWithin, SteerAngle, AngleDefined, Allowance, Budget, IsRoot;
    NormIsBounded(config, v, config.maxWheelSpeed + tolerance);
    NormIsBounded(config, Difference(v, p), Allowance(config.dt, config.maxWheelAcceleration) + tolerance);
  }

  lemma SteeringAuditMeans(config: Config, guard: GuardConfig, active: bool, v: Vector, p: Vector, tolerance: real)
    requires config.Valid()
    ensures (AngleDefined(guard, active, Norm(config, p), Norm(config, v)) ==>
               Within(SteerAngle(config, v, p), Budget(config.maxSteerRate, config.dt), tolerance)) <==>
            SteersWithin(config, guard, active, v, p, tolerance)
  {
    hide Dot, IsCosine, Cosine, Square, Norm, IsRoot, Budget, Allowance;
    NormIsBounded(config, v, guard.Enter());
    NormIsBounded(config, p, guard.Enter());
    NormIsTheRoot(config, v);
    NormIsTheRoot(config, p);
    CauchySchwarz(v, p);
    BudgetIsTheAllowance(config.dt, config.maxSteerRate);
    if Norm(config, v) > guard.Enter() && Norm(config, p) > guard.Enter() {
      CosineIsExact(Dot(v, p), Norm(config, v), Norm(config, p), Dot(v, v), Dot(p, p));
    }
  }

  lemma NormIsTheRoot(config: Config, v: Vector)
    requires config.Valid()
    ensures Norm(config, v) == config.root(Dot(v, v)) && Norm(config, v) * Norm(config, v) == Dot(v, v)
  {
    DotIsNotNegative(v);
  }

  // The audit of the body, axis by axis.
  lemma BodyAuditMeans(config: Config, u: Control, p: Control, tolerance: real)
    ensures BodyWithin(config, u, p, tolerance) <==>
            && ChangesBy(0.0, u.vx, config.maxVx + tolerance) && ChangesBy(0.0, u.vy, config.maxVy + tolerance)
            && ChangesBy(0.0, u.wz, config.maxWz + tolerance)
            && ChangesBy(p.vx, u.vx, Allowance(config.dt, config.maxAx) + tolerance)
            && ChangesBy(p.vy, u.vy, Allowance(config.dt, config.maxAy) + tolerance)
            && ChangesBy(p.wz, u.wz, Allowance(config.dt, config.maxAwz) + tolerance)
  {
    assert Budget(config.maxAx, config.dt) == Allowance(config.dt, config.maxAx);
    assert Budget(config.maxAy, config.dt) == Allowance(config.dt, config.maxAy);
    assert Budget(config.maxAwz, config.dt) == Allowance(config.dt, config.maxAwz);
    hide Budget, Allowance;
  }

  // Only a solved report within its limits, with every input and safety signal
  // good, is looked at; and every such report is.
  lemma AdmittedIff(config: Config, settings: Settings, safety: Safety, report: Report)
    ensures Admitted(config, settings, safety, report) <==>
            && safety.inputsHealthy && !safety.emergencyStop && safety.collisionFree && safety.localizationFresh
            && safety.referenceFresh && safety.leaseValid && safety.gimbalValid && safety.mapFresh
            && report.wellFormed && report.solved && 0 <= report.iterations <= settings.maxIterations
            && settings.maxIterations > 0 && settings.timeLimit > 0.0 && settings.maxViolation >= 0.0
            && (forall i | 0 <= i < |report.times| :: 0.0 <= report.times[i] <= settings.timeLimit)
            && 0.0 <= report.primalResidual <= settings.maxPrimalResidual
            && 0.0 <= report.dualResidual <= settings.maxDualResidual
            && report.slacks == [] && 0.0 <= report.slackMaximum <= settings.maxSlack && report.hardViolation >= 0.0
            && config.dt > 0.0 && Verifiable(config)
  {
  }
}
