/** What the projection onto the modules means: the limits it keeps and the
    requests it honours, in terms of Twists and wheels alone. */
module MotionLimits {
  import opened Basics
  import opened Actuator

  // As close to the target as a step allows.
  predicate StepsTowards(from: real, target: real, to: real, step: real) {
    if target - from > step then to == from + step
    else if from - target > step then to == from - step
    else to == target
  }

  predicate ChangesBy(from: real, to: real, step: real) {
    from - step <= to <= from + step
  }

  // What a rate allows in one period.
  function Allowance(dt: real, rate: real): real {
    rate * dt
  }

  // No axis changes by more than the body acceleration allows in one period.
  predicate KeepsTheAcceleration(config: Config, from: Control, to: Control) {
    ChangesBy(from.vx, to.vx, Allowance(config.dt, config.maxAx)) &&
    ChangesBy(from.vy, to.vy, Allowance(config.dt, config.maxAy)) &&
    ChangesBy(from.wz, to.wz, Allowance(config.dt, config.maxAwz))
  }

  lemma NearestStep(from: real, target: real, step: real)
    requires step >= 0.0
    ensures var to := from + Clamp(target - from, -step, step);
            StepsTowards(from, target, to, step) && ChangesBy(from, to, step)
  {
  }

  lemma BudgetIsTheAllowance(dt: real, rate: real)
    ensures Budget(rate, dt) == Allowance(dt, rate)
    ensures dt >= 0.0 && rate >= 0.0 ==> Allowance(dt, rate) >= 0.0
  {
    if dt >= 0.0 && rate >= 0.0 {
      ProductSign(rate, dt, rate * dt);
    }
  }

  // A request is the target, or as near to it as one period of body acceleration goes.
  lemma RequestIsNearest(config: Config, target: Control, previous: Control)
    requires config.Valid()
    ensures var u := Requested(config, target, previous);
            && StepsTowards(previous.vx, target.vx, u.vx, Allowance(config.dt, config.maxAx))
            && StepsTowards(previous.vy, target.vy, u.vy, Allowance(config.dt, config.maxAy))
            && StepsTowards(previous.wz, target.wz, u.wz, Allowance(config.dt, config.maxAwz))
            && KeepsTheAcceleration(config, previous, u)
  {
    hide IsRoot, StepsTowards, ChangesBy, Clamp, Budget, Allowance;
    BudgetIsTheAllowance(config.dt, config.maxAx);
    BudgetIsTheAllowance(config.dt, config.maxAy);
    BudgetIsTheAllowance(config.dt, config.maxAwz);
    NearestStep(previous.vx, target.vx, Allowance(config.dt, config.maxAx));
    NearestStep(previous.vy, target.vy, Allowance(config.dt, config.maxAy));
    NearestStep(previous.wz, target.wz, Allowance(config.dt, config.maxAwz));
  }

  lemma PartOfAChange(from: real, to: real, step: real, scale: real, part: real)
    requires ChangesBy(from, to, step) && 0.0 <= scale <= 1.0 && part == from + scale * (to - from)
    ensures ChangesBy(from, part, step)
  {
    AxisScales(scale, to - from, scale * (to - from), step);
  }

  lemma PartKeepsTheAcceleration(config: Config, from: Control, to: Control, scale: real)
    requires KeepsTheAcceleration(config, from, to) && 0.0 <= scale <= 1.0
    ensures KeepsTheAcceleration(config, from, Along(from, to, scale))
  {
    AlongAxes(from, to, scale);
    hide ChangesBy, Along, Allowance;
    var part := Along(from, to, scale);
    PartOfAChange(from.vx, to.vx, Allowance(config.dt, config.maxAx), scale, part.vx);
    PartOfAChange(from.vy, to.vy, Allowance(config.dt, config.maxAy), scale, part.vy);
    PartOfAChange(from.wz, to.wz, Allowance(config.dt, config.maxAwz), scale, part.wz);
  }

  lemma AlongAxes(from: Control, to: Control, scale: real)
    ensures var part := Along(from, to, scale);
            && part.vx == from.vx + scale * (to.vx - from.vx) && part.vy == from.vy + scale * (to.vy - from.vy)
            && part.wz == from.wz + scale * (to.wz - from.wz)
  {
    var gap := Subtract(to, from);
    assert gap.vx == to.vx - from.vx && gap.vy == to.vy - from.vy && gap.wz == to.wz - from.wz;
  }

  // One period keeps the body acceleration, as long as the request itself is
  // inside the envelope.
  lemma StepKeepsTheAcceleration(config: Config, target: Control, previous: Control)
    requires config.Valid() && InEnvelope(config, previous) && InEnvelope(config, Requested(config, target, previous))
    ensures KeepsTheAcceleration(config, previous, ClampIncrement(config, target, previous))
  {
    hide InEnvelope, ModuleIncrementFeasible, Requested, ClampControl, ClampIncrement, KeepsTheAcceleration,
      StepsTowards, Along, IsRoot;
    var request, u := Requested(config, target, previous), ClampIncrement(config, target, previous);
    RequestIsNearest(config, target, previous);
    ClampControlProjects(config, request);
    ClampIncrementIsFeasible(config, target, previous);
    if u != request {
      var scale, upper :| IsBracket(config, previous, request, u, scale, upper);
      PartKeepsTheAcceleration(config, previous, request, scale);
    }
  }

  lemma {:induction false} ProjectedAt(config: Config, targets: seq<Control>, last: Control, i: nat)
    requires config.Valid() && i < |targets|
    ensures var controls := ProjectAll(config, targets, last);
            controls[i] == ClampIncrement(config, targets[i], Before(controls, last, i))
  {
    hide ClampIncrement, Config.Valid;
    if i < |targets| - 1 {
      ProjectedAt(config, targets[..|targets| - 1], last, i);
    }
  }

  // The same of every step of a projected sequence.
  lemma ChainKeepsTheAcceleration(config: Config, targets: seq<Control>, last: Control, i: nat)
    requires config.Valid() && InEnvelope(config, last) && i < |targets|
    requires var controls := ProjectAll(config, targets, last);
             InEnvelope(config, Requested(config, targets[i], Before(controls, last, i)))
    ensures var controls := ProjectAll(config, targets, last);
            KeepsTheAcceleration(config, Before(controls, last, i), controls[i])
  {
    ProjectAllIsAChain(config, targets, last);
    ProjectedAt(config, targets, last, i);
    var controls := ProjectAll(config, targets, last);
    assert i > 0 ==> InEnvelope(config, controls[i - 1]);
    hide InEnvelope, ModuleIncrementFeasible, ProjectAll, Requested, ClampIncrement, KeepsTheAcceleration;
    StepKeepsTheAcceleration(config, targets[i], Before(controls, last, i));
  }

  // A chassis with no wheel acceleration or steering limits.
  function Brakeless(root: real -> real, arccos: real -> real): Config {
    Config(1, 1.0, 1.0, 1.0, 1.0, 0.1, 0.1, 1.0, 0.0, 1.0, 1.0, 0.0, 0.0, root, arccos)
  }

  lemma BrakelessEnvelope(root: real -> real, arccos: real -> real)
    requires IsRoot(root) && arccos(1.0) == 0.0
    ensures var config := Brakeless(root, arccos);
            config.Valid() && InEnvelope(config, Control(1.0, 0.0, 0.0)) && InEnvelope(config, Control(0.5, 0.0, 0.5))
  {
    var config := Brakeless(root, arccos);
    assert config.Valid() && config.X() == 0.0 && config.Y() == 1.0;
    hide IsRoot;
    assert Corner(config, Control(1.0, 0.0, 0.0)) == 1.0;
    assert Corner(config, Control(0.5, 0.0, 0.5)) == 1.0;
  }

  lemma BrakelessRequest(root: real -> real, arccos: real -> real)
    requires IsRoot(root) && arccos(1.0) == 0.0
    ensures Brakeless(root, arccos).Valid()
    ensures Requested(Brakeless(root, arccos), Control(1.0, 0.0, 1.0), Control(1.0, 0.0, 0.0)) == Control(1.0, 0.0, 1.0)
  {
    assert Brakeless(root, arccos).Valid();
    assert Budget(0.1, 1.0) == 0.1 && Budget(1.0, 1.0) == 1.0;
    hide IsRoot, Budget;
  }

  lemma BrakelessClamp(root: real -> real, arccos: real -> real)
    requires IsRoot(root) && arccos(1.0) == 0.0
    ensures ClampControl(Brakeless(root, arccos), Control(1.0, 0.0, 1.0)) == Control(0.5, 0.0, 0.5)
  {
    var config, target := Brakeless(root, arccos), Control(1.0, 0.0, 1.0);
    assert Corner(config, target) == 4.0;
    MaxModuleSpeedIsCorner(config, target);
    hide MaxModuleSpeed, Corner, IsRoot;
    SquareOrder(MaxModuleSpeed(config, target), 2.0);
    SquareOrder(2.0, MaxModuleSpeed(config, target));
    assert MaxModuleSpeed(config, target) == 2.0;
  }

  lemma BrakelessIsFeasible(config: Config, candidate: Control, previous: Control)
    requires config.Valid() && InEnvelope(config, candidate)
    requires config.maxWheelAcceleration == config.maxSteerRate == 0.0
    ensures ModuleIncrementFeasible(config, candidate, previous)
  {
    var v := ModuleVelocities(config, candidate);
    forall i | 0 <= i < 4 ensures SpeedFeasible(config, v[i]) {
      var sx, sy := (if i < 2 then 1.0 else -1.0), (if i % 2 == 0 then 1.0 else -1.0);
      assert v[i] == Wheel(config, candidate, sx, sy);
      WheelBelowCorner(config, candidate, sx, sy);
      hide Corner, Dot, Wheel;
      SpeedWithinLimit(config, Dot(v[i], v[i]));
    }
    hide Wheel, SpeedFeasible, IsRoot;
  }

  lemma BrakelessBrakes(root: real -> real, arccos: real -> real)
    ensures var config := Brakeless(root, arccos);
            config.maxWheelAcceleration == config.maxSteerRate == 0.0 &&
            !KeepsTheAcceleration(config, Control(1.0, 0.0, 0.0), Control(0.5, 0.0, 0.5))
  {
    assert Allowance(1.0, 0.1) == 0.1;
  }

  // Outside the envelope the wheel-speed limit comes first: asked to turn at full
  // speed, this chassis brakes five times harder than its body limit.
  lemma WheelLimitOutrunsTheBrake(root: real -> real, arccos: real -> real)
    requires IsRoot(root) && arccos(1.0) == 0.0
    ensures var config, previous := Brakeless(root, arccos), Control(1.0, 0.0, 0.0);
            && config.Valid() && InEnvelope(config, previous)
            && ClampIncrement(config, Control(1.0, 0.0, 1.0), previous) == Control(0.5, 0.0, 0.5)
            && !KeepsTheAcceleration(config, previous, Control(0.5, 0.0, 0.5))
  {
    hide Brakeless, InEnvelope, ModuleIncrementFeasible, Requested, ClampControl, IsRoot, KeepsTheAcceleration;
    BrakelessEnvelope(root, arccos);
    BrakelessRequest(root, arccos);
    BrakelessClamp(root, arccos);
    BrakelessBrakes(root, arccos);
    BrakelessIsFeasible(Brakeless(root, arccos), Control(0.5, 0.0, 0.5), Control(1.0, 0.0, 0.0));
  }

  predicate IsMultiple(k: real, c: Control, u: Control) {
    u.vx == k * c.vx && u.vy == k * c.vy && u.wz == k * c.wz
  }

  // Clamping takes each axis to its limit and then slows the whole Twist: by as
  // little as the wheels allow.
  lemma ClampControlKeepsTheDirection(config: Config, c: Control) returns (body: Control, k: real)
    requires config.Valid()
    ensures StepsTowards(0.0, c.vx, body.vx, config.maxVx) && StepsTowards(0.0, c.vy, body.vy, config.maxVy) &&
            StepsTowards(0.0, c.wz, body.wz, config.maxWz)
    ensures 0.0 < k <= 1.0 && IsMultiple(k, body, ClampControl(config, c))
    ensures k < 1.0 ==> config.maxWheelSpeed > 0.000001 &&
                        Corner(config, ClampControl(config, c)) == Square(config.maxWheelSpeed)
  {
    body := ClampBody(config, c);
    BodyIsNearest(config, c);
    MaxModuleSpeedIsCorner(config, body);
    hide MaxModuleSpeed, Corner, IsRoot, Scale, StepsTowards, ClampBody, Square, IsMultiple;
    var speed := MaxModuleSpeed(config, body);
    if config.WheelLimited() && speed > config.maxWheelSpeed {
      k := SlowedToTheWheels(config, body, speed);
    } else {
      k := 1.0;
      WholeAxes(body);
    }
  }

  lemma SlowedToTheWheels(config: Config, body: Control, speed: real) returns (k: real)
    requires 0.0 < config.maxWheelSpeed < speed && Square(speed) == Corner(config, body)
    ensures var u := Scale(config.maxWheelSpeed / speed, body);
            0.0 < k < 1.0 && IsMultiple(k, body, u) && Corner(config, u) == Square(config.maxWheelSpeed)
  {
    k := config.maxWheelSpeed / speed;
    var u := Scale(k, body);
    hide Corner, Scale, Square;
    PositiveQuotient(config.maxWheelSpeed, speed, k);
    ScaledAxes(k, body, u);
    CornerScales(config, body, u, k, speed, config.maxWheelSpeed);
  }

  lemma WholeAxes(c: Control)
    ensures IsMultiple(1.0, c, c)
  {
  }

  lemma BodyIsNearest(config: Config, c: Control)
    requires config.Valid()
    ensures var body := ClampBody(config, c);
            StepsTowards(0.0, c.vx, body.vx, config.maxVx) && StepsTowards(0.0, c.vy, body.vy, config.maxVy) &&
            StepsTowards(0.0, c.wz, body.wz, config.maxWz)
  {
    hide IsRoot;
  }

  lemma PositiveQuotient(a: real, b: real, q: real)
    requires 0.0 < a < b && q == a / b
    ensures 0.0 < q < 1.0 && a == q * b
  {
    assert q * b == a;
    if q <= 0.0 {
      ProductSign(-q, b, -q * b);
    } else if q >= 1.0 {
      ProductSign(q - 1.0, b, (q - 1.0) * b);
    }
  }

  // The planar speed times the time constant is at most the distance.
  predicate IsSlowEnough(c: Control, tau: real, distance: real) {
    (Square(c.vx) + Square(c.vy)) * Square(tau) <= Square(distance)
  }

  // Near the goal the planar speed is at most distance over time constant, in the
  // direction that was asked for; a slow enough request passes unchanged.
  lemma ApproachIsSlowEnough(config: Config, c: Control, distance: real, tau: real)
    requires config.Valid() && tau > 0.0
    ensures var u := LimitTerminalApproachSpeed(config, c, distance, tau);
            && IsSlowEnough(u, tau, Max(0.0, distance)) && u.wz == c.wz
            && (IsSlowEnough(c, tau, Max(0.0, distance)) ==> u == c)
            && exists k :: IsPart(k, c, u)
  {
    hide IsRoot, Square, LimitTerminalApproachSpeed, IsPart, IsSlowEnough, IsApproach;
    var limit, speed := ApproachOf(config, c, distance, tau);
    SlowEnoughMeans(config, c, distance, tau, limit, speed);
    if speed <= limit {
      ApproachPasses(config, c, distance, tau, limit, speed);
    } else {
      var k := ApproachSlows(config, c, distance, tau, limit, speed);
    }
  }

  // The speed limit for the distance, and the planar speed.
  predicate IsApproach(config: Config, c: Control, distance: real, tau: real, limit: real, speed: real) {
    && tau > 0.0 && limit >= 0.0 && limit == Max(0.0, distance) / tau
    && speed == config.root(Square(c.vx) + Square(c.vy)) && speed >= 0.0 && speed * speed == Square(c.vx) + Square(c.vy)
  }

  lemma ApproachOf(config: Config, c: Control, distance: real, tau: real) returns (limit: real, speed: real)
    requires config.Valid() && tau > 0.0
    ensures IsApproach(config, c, distance, tau, limit, speed)
  {
    limit, speed := Max(0.0, distance) / tau, config.root(Square(c.vx) + Square(c.vy));
    SquareSign(c.vx);
    SquareSign(c.vy);
    QuotientSign(Max(0.0, distance), tau, limit);
  }

  lemma SlowEnoughMeans(config: Config, c: Control, distance: real, tau: real, limit: real, speed: real)
    requires IsApproach(config, c, distance, tau, limit, speed)
    ensures IsSlowEnough(c, tau, Max(0.0, distance)) <==> speed <= limit
  {
    SquareSign(c.vx);
    SquareSign(c.vy);
    SquareOrder(speed, limit);
    SpeedTimesTau(Square(c.vx) + Square(c.vy), tau, limit, Max(0.0, distance));
  }

  lemma ApproachPasses(config: Config, c: Control, distance: real, tau: real, limit: real, speed: real)
    requires IsApproach(config, c, distance, tau, limit, speed) && speed <= limit
    ensures LimitTerminalApproachSpeed(config, c, distance, tau) == c && IsPart(1.0, c, c)
  {
    assert Dot(Vector(c.vx, c.vy), Vector(c.vx, c.vy)) == Square(c.vx) + Square(c.vy);
  }

  lemma ApproachSlows(config: Config, c: Control, distance: real, tau: real, limit: real, speed: real)
    returns (k: real)
    requires IsApproach(config, c, distance, tau, limit, speed) && speed > limit
    ensures var u := LimitTerminalApproachSpeed(config, c, distance, tau);
            IsPart(k, c, u) && u.wz == c.wz && IsSlowEnough(u, tau, Max(0.0, distance))
  {
    k := limit / speed;
    assert Dot(Vector(c.vx, c.vy), Vector(c.vx, c.vy)) == Square(c.vx) + Square(c.vy);
    var u := LimitTerminalApproachSpeed(config, c, distance, tau);
    FractionOf(limit, speed, k);
    assert IsPart(k, c, u);
    hide LimitTerminalApproachSpeed, IsSlowEnough, IsPart, Dot, Square;
    SlowedApproach(c, u, tau, k, limit, speed, Max(0.0, distance));
  }

  lemma SlowedApproach(c: Control, u: Control, tau: real, k: real, limit: real, speed: real, distance: real)
    requires IsPart(k, c, u) && limit == k * speed && speed * speed == Square(c.vx) + Square(c.vy)
    requires tau > 0.0 && limit == distance / tau
    ensures IsSlowEnough(u, tau, distance)
  {
    SquareSign(u.vx);
    SquareSign(u.vy);
    hide Square;
    assert u.vx == k * c.vx && u.vy == k * c.vy;
    PlanarSpeed(c.vx, c.vy, k, u.vx, u.vy, speed, limit);
    SpeedTimesTau(Square(u.vx) + Square(u.vy), tau, limit, distance);
  }

  predicate IsPart(k: real, c: Control, u: Control) {
    0.0 <= k <= 1.0 && u.vx == c.vx * k && u.vy == c.vy * k
  }

  lemma PlanarSpeed(x: real, y: real, k: real, kx: real, ky: real, speed: real, limit: real)
    requires kx == k * x && ky == k * y && limit == k * speed && speed * speed == Square(x) + Square(y)
    ensures Square(kx) + Square(ky) == Square(limit)
  {
    assert Square(kx) == k * k * (x * x) && Square(ky) == k * k * (y * y);
    assert Square(limit) == k * k * (speed * speed);
  }

  lemma SpeedTimesTau(square: real, tau: real, limit: real, distance: real)
    requires tau > 0.0 && limit == distance / tau && square >= 0.0
    ensures square <= Square(limit) <==> square * Square(tau) <= Square(distance)
  {
    assert limit * tau == distance;
    assert Square(distance) == Square(limit) * Square(tau);
    ProductSign(tau, tau, Square(tau));
    var gap := Square(limit) - square;
    assert gap * Square(tau) == Square(distance) - square * Square(tau);
    if gap >= 0.0 {
      ProductSign(gap, Square(tau), gap * Square(tau));
    } else {
      ProductSign(-gap, Square(tau), -gap * Square(tau));
    }
  }

  // Every axis brakes towards a standstill by its body acceleration.
  lemma DecelerationStepsTowardsZero(config: Config, last: Control)
    requires config.Valid()
    ensures var u := TerminalDeceleration(config, last);
            && StepsTowards(last.vx, 0.0, u.vx, Allowance(config.dt, config.maxAx))
            && StepsTowards(last.vy, 0.0, u.vy, Allowance(config.dt, config.maxAy))
            && StepsTowards(last.wz, 0.0, u.wz, Allowance(config.dt, config.maxAwz))
  {
    hide IsRoot, StepsTowards, SlowAxis, Budget, Allowance;
    BudgetIsTheAllowance(config.dt, config.maxAx);
    BudgetIsTheAllowance(config.dt, config.maxAy);
    BudgetIsTheAllowance(config.dt, config.maxAwz);
    SlowAxisIsNearest(last.vx, Allowance(config.dt, config.maxAx));
    SlowAxisIsNearest(last.vy, Allowance(config.dt, config.maxAy));
    SlowAxisIsNearest(last.wz, Allowance(config.dt, config.maxAwz));
  }

  lemma SlowAxisIsNearest(v: real, step: real)
    requires step >= 0.0
    ensures StepsTowards(v, 0.0, SlowAxis(v, step), step)
  {
  }

  function Braked(config: Config, c: Control, periods: nat): Control {
    if periods == 0 then c else TerminalDeceleration(config, Braked(config, c, periods - 1))
  }

  function Leftover(v: real, step: real, periods: nat): real
    decreases periods
  {
    if periods == 0 then Abs(v) else Max(0.0, Leftover(v, step, periods - 1) - step)
  }

  // What is left of a speed after some periods is what the steps have not taken.
  lemma {:induction false} LeftoverIsTheRest(v: real, step: real, periods: nat)
    requires step >= 0.0
    ensures Leftover(v, step, periods) == Max(0.0, Abs(v) - Steps(periods, step))
  {
    if periods > 0 {
      LeftoverIsTheRest(v, step, periods - 1);
      OneMoreStep(periods, step);
      if periods > 1 {
        StepsAreNotNegative(periods - 1, step);
      }
    }
  }

  function Steps(periods: nat, step: real): real {
    periods as real * step
  }

  lemma OneMoreStep(periods: nat, step: real)
    requires periods > 0
    ensures Steps(periods, step) == Steps(periods - 1, step) + step && Steps(0, step) == 0.0
  {
    assert periods as real == (periods - 1) as real + 1.0;
  }

  lemma StepsAreNotNegative(periods: nat, step: real)
    requires step >= 0.0
    ensures Steps(periods, step) >= 0.0
  {
    ProductSign(periods as real, step, Steps(periods, step));
  }

  lemma {:induction false} BrakedAxes(config: Config, c: Control, periods: nat)
    requires config.Valid()
    ensures var u := Braked(config, c, periods);
            && Abs(u.vx) == Leftover(c.vx, Allowance(config.dt, config.maxAx), periods)
            && Abs(u.vy) == Leftover(c.vy, Allowance(config.dt, config.maxAy), periods)
            && Abs(u.wz) == Leftover(c.wz, Allowance(config.dt, config.maxAwz), periods)
  {
    if periods > 0 {
      var before := Braked(config, c, periods - 1);
      BrakedAxes(config, c, periods - 1);
      DecelerationStepsTowardsZero(config, before);
      hide TerminalDeceleration, Allowance, IsRoot;
    }
  }

  // Braking ends: enough periods bring the Twist to a standstill, and no fewer.
  lemma BrakingEnds(config: Config, c: Control, periods: nat)
    requires config.Valid()
    ensures Braked(config, c, periods) == ZERO <==>
            Abs(c.vx) <= Steps(periods, Allowance(config.dt, config.maxAx)) &&
            Abs(c.vy) <= Steps(periods, Allowance(config.dt, config.maxAy)) &&
            Abs(c.wz) <= Steps(periods, Allowance(config.dt, config.maxAwz))
  {
    ProductSign(config.maxAx, config.dt, Allowance(config.dt, config.maxAx));
    ProductSign(config.maxAy, config.dt, Allowance(config.dt, config.maxAy));
    ProductSign(config.maxAwz, config.dt, Allowance(config.dt, config.maxAwz));
    BrakedAxes(config, c, periods);
    hide Braked, Allowance, Leftover, Steps, IsRoot;
    LeftoverIsTheRest(c.vx, Allowance(config.dt, config.maxAx), periods);
    LeftoverIsTheRest(c.vy, Allowance(config.dt, config.maxAy), periods);
    LeftoverIsTheRest(c.wz, Allowance(config.dt, config.maxAwz), periods);
  }
}
