/** The projection of a requested body Twist onto what four swerve modules can
    do within one control period. */
module Actuator {
  import opened Basics

  datatype Control = Control(vx: real, vy: real, wz: real)
  datatype Vector = Vector(x: real, y: real)

  const ZERO := Control(0.0, 0.0, 0.0)
  const BISECTIONS: nat := 40

  datatype Config = Config(
    horizon: int, dt: real, maxVx: real, maxVy: real, maxWz: real, maxAx: real, maxAy: real, maxAwz: real,
    wheelBaseX: real, wheelBaseY: real, maxWheelSpeed: real, maxWheelAcceleration: real, maxSteerRate: real,
    root: real -> real, arccos: real -> real)
  {
    // std::clamp needs ordered limits; std::sqrt and std::acos are parameters.
    ghost predicate Bounded() {
      && maxVx >= 0.0 && maxVy >= 0.0 && maxWz >= 0.0 && maxAx >= 0.0 && maxAy >= 0.0 && maxAwz >= 0.0
      && IsRoot(root) && arccos(1.0) == 0.0
    }

    ghost predicate Valid() {
      dt > 0.0 && Bounded()
    }

    function X(): real {
      Max(0.0, wheelBaseX)
    }

    function Y(): real {
      Max(0.0, wheelBaseY)
    }

    predicate WheelLimited() {
      maxWheelSpeed > 0.000001
    }
  }

  function Add(a: Control, b: Control): Control {
    Control(a.vx + b.vx, a.vy + b.vy, a.wz + b.wz)
  }

  function Subtract(a: Control, b: Control): Control {
    Control(a.vx - b.vx, a.vy - b.vy, a.wz - b.wz)
  }

  function Scale(k: real, c: Control): Control {
    Control(k * c.vx, k * c.vy, k * c.wz)
  }

  // The velocity of the wheel mounted at (sx * X, sy * Y).
  function Wheel(config: Config, c: Control, sx: real, sy: real): Vector {
    Vector(c.vx - c.wz * (sy * config.Y()), c.vy + c.wz * (sx * config.X()))
  }

  function ModuleVelocities(config: Config, c: Control): (v: seq<Vector>)
    ensures |v| == 4
  {
    [Wheel(config, c, 1.0, 1.0), Wheel(config, c, 1.0, -1.0), Wheel(config, c, -1.0, 1.0), Wheel(config, c, -1.0, -1.0)]
  }

  function Dot(a: Vector, b: Vector): real {
    a.x * b.x + a.y * b.y
  }

  function Difference(a: Vector, b: Vector): Vector {
    Vector(a.x - b.x, a.y - b.y)
  }

  function Norm(config: Config, v: Vector): real {
    config.root(Dot(v, v))
  }

  function MaxModuleSpeed(config: Config, c: Control): real {
    var v := ModuleVelocities(config, c);
    Max(Max(Max(Max(0.0, Norm(config, v[0])), Norm(config, v[1])), Norm(config, v[2])), Norm(config, v[3]))
  }

  // The squared speed of the fastest wheel of the symmetric layout.
  function Corner(config: Config, c: Control): real {
    Square(Leg(c.vx, c.wz, config.Y())) + Square(Leg(c.vy, c.wz, config.X()))
  }

  function Leg(v: real, wz: real, arm: real): real {
    Abs(v) + Abs(wz) * arm
  }

  // The actuator envelope every published Twist must stay in.
  predicate InEnvelope(config: Config, c: Control) {
    && Abs(c.vx) <= config.maxVx && Abs(c.vy) <= config.maxVy && Abs(c.wz) <= config.maxWz
    && (config.WheelLimited() ==> Corner(config, c) <= Square(config.maxWheelSpeed))
  }

  function ClampBody(config: Config, c: Control): Control
    requires config.Valid()
  {
    Control(Clamp(c.vx, -config.maxVx, config.maxVx), Clamp(c.vy, -config.maxVy, config.maxVy),
            Clamp(c.wz, -config.maxWz, config.maxWz))
  }

  function ClampControl(config: Config, c: Control): Control
    requires config.Valid()
  {
    var clamped := ClampBody(config, c);
    var speed := MaxModuleSpeed(config, clamped);
    if config.WheelLimited() && speed > config.maxWheelSpeed then Scale(config.maxWheelSpeed / speed, clamped)
    else clamped
  }

  // What a rate allows in one period.
  function Budget(rate: real, dt: real): real {
    rate * dt
  }

  predicate SpeedFeasible(config: Config, candidate: Vector) {
    !(config.maxWheelSpeed > 0.000001 && Norm(config, candidate) > config.maxWheelSpeed + 0.000000001)
  }

  predicate AccelerationFeasible(config: Config, candidate: Vector, previous: Vector) {
    !(config.maxWheelAcceleration > 0.000001 &&
      Norm(config, Difference(candidate, previous)) > Budget(config.maxWheelAcceleration, config.dt) + 0.000000001)
  }

  predicate SteerFeasible(config: Config, candidate: Vector, previous: Vector) {
    var candidateSpeed, previousSpeed := Norm(config, candidate), Norm(config, previous);
    !(config.maxSteerRate > 0.000001 && candidateSpeed > 0.0001 && previousSpeed > 0.0001 &&
      config.arccos(Cosine(Dot(candidate, previous), candidateSpeed, previousSpeed)) >
        Budget(config.maxSteerRate, config.dt) + 0.000000001)
  }

  predicate WheelFeasible(config: Config, candidate: Vector, previous: Vector) {
    SpeedFeasible(config, candidate) && AccelerationFeasible(config, candidate, previous) &&
    SteerFeasible(config, candidate, previous)
  }

  function Cosine(dot: real, a: real, b: real): real
    requires a > 0.0 && b > 0.0
  {
    assert a * b > 0.0;
    Clamp(dot / (a * b), -1.0, 1.0)
  }

  predicate ModuleIncrementFeasible(config: Config, candidate: Control, previous: Control) {
    var candidates, previouses := ModuleVelocities(config, candidate), ModuleVelocities(config, previous);
    forall i | 0 <= i < 4 :: WheelFeasible(config, candidates[i], previouses[i])
  }

  // A point of the segment from previous to limited.
  function Along(previous: Control, limited: Control, scale: real): Control {
    Add(previous, Scale(scale, Subtract(limited, previous)))
  }

  // The request after the body acceleration limits.
  function Requested(config: Config, target: Control, previous: Control): Control
    requires config.Valid()
  {
    var delta := Subtract(target, previous);
    var x, y, w := Budget(config.maxAx, config.dt), Budget(config.maxAy, config.dt), Budget(config.maxAwz, config.dt);
    assert x >= 0.0 && y >= 0.0 && w >= 0.0;
    Add(previous, Control(Clamp(delta.vx, -x, x), Clamp(delta.vy, -y, y), Clamp(delta.wz, -w, w)))
  }

  function Limited(config: Config, target: Control, previous: Control): Control
    requires config.Valid()
  {
    ClampControl(config, Requested(config, target, previous))
  }

  // The feasible end of the bracket after n halvings.
  function Bisect(config: Config, previous: Control, limited: Control, feasible: real, infeasible: real, n: nat): real
    decreases n
  {
    if n == 0 then feasible
    else
      var scale := 0.5 * (feasible + infeasible);
      if ModuleIncrementFeasible(config, Along(previous, limited, scale), previous)
      then Bisect(config, previous, limited, scale, infeasible, n - 1)
      else Bisect(config, previous, limited, feasible, scale, n - 1)
  }

  function ClampIncrement(config: Config, target: Control, previous: Control): Control
    requires config.Valid()
  {
    var limited := Limited(config, target, previous);
    if ModuleIncrementFeasible(config, limited, previous) then limited
    else ClampControl(config, Along(previous, limited, Bisect(config, previous, limited, 0.0, 1.0, BISECTIONS)))
  }

  function Halved(n: nat, gap: real): real
    decreases n
  {
    if n == 0 then gap else Halved(n - 1, 0.5 * gap)
  }

  // One leg of the wheel mounted on the side s of an arm.
  function TurnedLeg(v: real, wz: real, s: real, arm: real): real {
    v + wz * (s * arm)
  }

  // The side on which the turn adds to the translation.
  function AddingSide(v: real, wz: real): real {
    if v >= 0.0 <==> wz >= 0.0 then 1.0 else -1.0
  }

  lemma LegBounds(v: real, wz: real, s: real, arm: real)
    requires (s == 1.0 || s == -1.0) && arm >= 0.0
    ensures 0.0 <= Square(TurnedLeg(v, wz, s, arm)) <= Square(Leg(v, wz, arm))
    ensures s == AddingSide(v, wz) ==> Square(TurnedLeg(v, wz, s, arm)) == Square(Leg(v, wz, arm))
  {
    var turn, leg, reach := wz * arm, TurnedLeg(v, wz, s, arm), Leg(v, wz, arm);
    assert leg == if s == 1.0 then v + turn else v - turn;
    TurnSign(wz, arm, turn);
    hide TurnedLeg, Leg, Square;
    SquareSign(leg);
    SquareDominates(leg, reach);
    if s == AddingSide(v, wz) {
      SquareDominates(reach, leg);
    }
  }

  lemma TurnSign(wz: real, arm: real, turn: real)
    requires arm >= 0.0 && turn == wz * arm
    ensures (wz >= 0.0 ==> turn >= 0.0) && (wz <= 0.0 ==> turn <= 0.0)
    ensures forall v :: Leg(v, wz, arm) == Abs(v) + Abs(turn)
  {
    if wz >= 0.0 {
      ProductSign(wz, arm, turn);
    } else {
      ProductSign(-wz, arm, -turn);
    }
  }

  lemma WheelSquares(config: Config, c: Control, sx: real, sy: real)
    ensures Dot(Wheel(config, c, sx, sy), Wheel(config, c, sx, sy)) ==
            Square(TurnedLeg(c.vx, c.wz, -sy, config.Y())) + Square(TurnedLeg(c.vy, c.wz, sx, config.X()))
  {
    assert c.vx - c.wz * (sy * config.Y()) == c.vx + c.wz * (-sy * config.Y());
  }

  // No wheel is faster than the corner speed.
  lemma WheelBelowCorner(config: Config, c: Control, sx: real, sy: real)
    requires (sx == 1.0 || sx == -1.0) && (sy == 1.0 || sy == -1.0)
    ensures 0.0 <= Dot(Wheel(config, c, sx, sy), Wheel(config, c, sx, sy)) <= Corner(config, c)
  {
    hide Leg, TurnedLeg, Dot, Wheel, Square, AddingSide;
    WheelSquares(config, c, sx, sy);
    LegBounds(c.vx, c.wz, -sy, config.Y());
    LegBounds(c.vy, c.wz, sx, config.X());
  }

  // The wheel whose signs make both legs add up is as fast.
  lemma FastestWheel(config: Config, c: Control) returns (sx: real, sy: real)
    ensures (sx == 1.0 || sx == -1.0) && (sy == 1.0 || sy == -1.0)
    ensures Dot(Wheel(config, c, sx, sy), Wheel(config, c, sx, sy)) == Corner(config, c)
  {
    sx, sy := AddingSide(c.vy, c.wz), -AddingSide(c.vx, c.wz);
    hide Leg, TurnedLeg, Dot, Wheel, Square;
    WheelSquares(config, c, sx, sy);
    LegBounds(c.vx, c.wz, -sy, config.Y());
    LegBounds(c.vy, c.wz, sx, config.X());
  }

  // The closed form: the fastest of the four wheels, squared.
  lemma MaxModuleSpeedIsCorner(config: Config, c: Control)
    requires config.Valid()
    ensures MaxModuleSpeed(config, c) >= 0.0 && Square(MaxModuleSpeed(config, c)) == Corner(config, c)
  {
    hide Corner, Wheel, Dot;
    var top := config.root(Corner(config, c));
    var sx, sy := FastestWheel(config, c);
    forall sx, sy | (sx == 1.0 || sx == -1.0) && (sy == 1.0 || sy == -1.0)
      ensures 0.0 <= Norm(config, Wheel(config, c, sx, sy)) <= top && Corner(config, c) >= 0.0
    {
      WheelBelowCorner(config, c, sx, sy);
      RootOrder(config.root, Dot(Wheel(config, c, sx, sy), Wheel(config, c, sx, sy)), Corner(config, c));
    }
    assert Norm(config, Wheel(config, c, sx, sy)) == top;
    assert MaxModuleSpeed(config, c) == top;
  }

  lemma AbsScales(k: real, v: real)
    requires k >= 0.0
    ensures Abs(k * v) == k * Abs(v)
  {
    if v >= 0.0 {
      assert k * v >= 0.0;
    } else {
      assert k * -v >= 0.0;
    }
  }

  lemma LegScales(v: real, wz: real, v': real, wz': real, arm: real, k: real, leg: real)
    requires k >= 0.0 && v' == k * v && wz' == k * wz && leg == Leg(v, wz, arm)
    ensures Leg(v', wz', arm) == k * leg
  {
    AbsScales(k, v);
    AbsScales(k, wz);
    assert Abs(wz') * arm == k * (Abs(wz) * arm);
  }

  lemma SquaresScale(k: real, p: real, q: real, p': real, q': real, speed: real, limit: real)
    requires p' == k * p && q' == k * q && limit == k * speed && Square(speed) == Square(p) + Square(q)
    ensures Square(p') + Square(q') == Square(limit)
  {
    assert Square(p') == k * k * (p * p) && Square(q') == k * k * (q * q);
    assert Square(limit) == k * k * (speed * speed);
    assert k * k * (speed * speed) == k * k * (p * p + q * q);
  }

  // Scaling a Twist scales its fastest wheel.
  lemma CornerScales(config: Config, c: Control, d: Control, k: real, speed: real, limit: real)
    requires k >= 0.0 && d == Scale(k, c) && limit == k * speed && Square(speed) == Corner(config, c)
    ensures Corner(config, d) == Square(limit)
  {
    var p, q := Leg(c.vx, c.wz, config.Y()), Leg(c.vy, c.wz, config.X());
    var p', q' := Leg(d.vx, d.wz, config.Y()), Leg(d.vy, d.wz, config.X());
    hide Leg, Square;
    LegScales(c.vx, c.wz, d.vx, d.wz, config.Y(), k, p);
    LegScales(c.vy, c.wz, d.vy, d.wz, config.X(), k, q);
    SquaresScale(k, p, q, p', q', speed, limit);
  }

  lemma LegShrinks(v: real, wz: real, v': real, wz': real, arm: real)
    requires Abs(v') <= Abs(v) && Abs(wz') <= Abs(wz) && arm >= 0.0
    ensures Square(Leg(v', wz', arm)) <= Square(Leg(v, wz, arm))
  {
    assert (Abs(wz) - Abs(wz')) * arm >= 0.0 && Abs(wz') * arm >= 0.0;
    SquareDominates(Leg(v', wz', arm), Leg(v, wz, arm));
  }

  // A Twist no larger on any axis stays in the envelope.
  lemma ShrinkingStaysInEnvelope(config: Config, c: Control, d: Control)
    requires InEnvelope(config, c)
    requires Abs(d.vx) <= Abs(c.vx) && Abs(d.vy) <= Abs(c.vy) && Abs(d.wz) <= Abs(c.wz)
    ensures InEnvelope(config, d)
  {
    hide Leg, Square;
    LegShrinks(c.vx, c.wz, d.vx, d.wz, config.Y());
    LegShrinks(c.vy, c.wz, d.vy, d.wz, config.X());
  }

  lemma AxisScales(k: real, v: real, v': real, limit: real)
    requires 0.0 <= k <= 1.0 && v' == k * v && Abs(v) <= limit
    ensures Abs(v') <= limit
  {
    AbsScales(k, v);
    assert (1.0 - k) * Abs(v) >= 0.0;
  }

  lemma SlowedToLimit(config: Config, c: Control, speed: real)
    requires config.Valid() && config.WheelLimited() && speed > config.maxWheelSpeed
    requires Square(speed) == Corner(config, c)
    requires Abs(c.vx) <= config.maxVx && Abs(c.vy) <= config.maxVy && Abs(c.wz) <= config.maxWz
    ensures InEnvelope(config, Scale(config.maxWheelSpeed / speed, c))
  {
    hide Corner, Square, IsRoot;
    var k, d := config.maxWheelSpeed / speed, Scale(config.maxWheelSpeed / speed, c);
    FractionOf(config.maxWheelSpeed, speed, k);
    AxisScales(k, c.vx, d.vx, config.maxVx);
    AxisScales(k, c.vy, d.vy, config.maxVy);
    AxisScales(k, c.wz, d.wz, config.maxWz);
    CornerScales(config, c, d, k, speed, config.maxWheelSpeed);
  }

  lemma ClampControlProjects(config: Config, c: Control)
    requires config.Valid()
    ensures InEnvelope(config, ClampControl(config, c))
    ensures InEnvelope(config, c) ==> ClampControl(config, c) == c
  {
    var clamped := ClampBody(config, c);
    var speed := MaxModuleSpeed(config, clamped);
    MaxModuleSpeedIsCorner(config, clamped);
    hide Corner, MaxModuleSpeed, Square, Scale;
    if config.WheelLimited() {
      SquareOrder(speed, config.maxWheelSpeed);
      if speed > config.maxWheelSpeed {
        SlowedToLimit(config, clamped, speed);
      }
    }
  }

  // Holding the previous Twist asks nothing of the modules.
  lemma HoldingIsFeasible(config: Config, c: Control)
    requires config.Valid() && InEnvelope(config, c)
    ensures ModuleIncrementFeasible(config, c, c)
  {
    var v := ModuleVelocities(config, c);
    forall i | 0 <= i < 4 ensures WheelFeasible(config, v[i], v[i]) {
      var sx, sy := (if i < 2 then 1.0 else -1.0), (if i % 2 == 0 then 1.0 else -1.0);
      assert v[i] == Wheel(config, c, sx, sy);
      WheelBelowCorner(config, c, sx, sy);
      WheelHolds(config, v[i], Corner(config, c));
    }
  }

  lemma WheelHolds(config: Config, v: Vector, corner: real)
    requires config.Valid() && 0.0 <= Dot(v, v) <= corner
    requires config.WheelLimited() ==> corner <= Square(config.maxWheelSpeed)
    ensures WheelFeasible(config, v, v)
  {
    hide Dot, SteerFeasible, AccelerationFeasible, IsRoot;
    SpeedWithinLimit(config, Dot(v, v));
    AccelerationHolds(config, v);
    SteeringHolds(config, v);
  }

  lemma AccelerationHolds(config: Config, v: Vector)
    requires config.Valid()
    ensures AccelerationFeasible(config, v, v)
  {
    hide Norm, Difference, IsRoot, Config.Valid;
    if config.maxWheelAcceleration > 0.000001 {
      BudgetsArePositive(config);
      StandstillHasNoNorm(config, v);
    }
  }

  lemma SteeringHolds(config: Config, v: Vector)
    requires config.Valid() && Dot(v, v) >= 0.0
    ensures SteerFeasible(config, v, v)
  {
    BudgetsArePositive(config);
    if Norm(config, v) > 0.0001 {
      FullCosine(config, v);
    }
    hide Dot, Norm, Cosine, IsRoot;
  }

  lemma BudgetsArePositive(config: Config)
    requires config.Valid()
    ensures config.maxWheelAcceleration > 0.000001 ==> Budget(config.maxWheelAcceleration, config.dt) > 0.0
    ensures config.maxSteerRate > 0.000001 ==> Budget(config.maxSteerRate, config.dt) > 0.0
  {
    hide IsRoot;
    if config.maxWheelAcceleration > 0.000001 {
      ProductSign(config.maxWheelAcceleration, config.dt, Budget(config.maxWheelAcceleration, config.dt));
    }
    if config.maxSteerRate > 0.000001 {
      ProductSign(config.maxSteerRate, config.dt, Budget(config.maxSteerRate, config.dt));
    }
  }

  lemma SpeedWithinLimit(config: Config, square: real)
    requires config.Valid() && square >= 0.0
    requires config.WheelLimited() ==> square <= Square(config.maxWheelSpeed)
    ensures config.WheelLimited() ==> config.root(square) <= config.maxWheelSpeed
  {
    if config.WheelLimited() {
      SquareOrder(config.root(square), config.maxWheelSpeed);
    }
  }

  lemma StandstillHasNoNorm(config: Config, v: Vector)
    requires config.Valid()
    ensures Norm(config, Difference(v, v)) == 0.0
  {
    RootOfZero(config.root);
    hide IsRoot;
    assert Difference(v, v) == Vector(0.0, 0.0);
  }

  lemma FullCosine(config: Config, v: Vector)
    requires config.Valid() && Dot(v, v) >= 0.0 && Norm(config, v) > 0.0
    ensures Cosine(Dot(v, v), Norm(config, v), Norm(config, v)) == 1.0
  {
    hide Dot, Cosine;
    UnitCosine(Dot(v, v), Norm(config, v));
  }

  lemma SelfQuotient(a: real, b: real, q: real)
    requires b > 0.0 && a == b && q == a / b
    ensures q == 1.0
  {
  }

  lemma UnitCosine(dot: real, speed: real)
    requires speed > 0.0 && speed * speed == dot
    ensures Cosine(dot, speed, speed) == 1.0
  {
    ProductSign(speed, speed, dot);
    SelfQuotient(dot, dot, dot / dot);
  }

  // The envelope is convex.
  lemma SegmentStaysInEnvelope(config: Config, a: Control, b: Control, t: real)
    requires config.Valid() && InEnvelope(config, a) && InEnvelope(config, b) && 0.0 <= t <= 1.0
    ensures InEnvelope(config, Along(a, b, t))
  {
    var m := Along(a, b, t);
    AbsConvex(a.vx, b.vx, t, m.vx);
    AbsConvex(a.vy, b.vy, t, m.vy);
    AbsConvex(a.wz, b.wz, t, m.wz);
    hide Corner, Mix, Abs, Along;
    MixBelow(Abs(a.vx), Abs(b.vx), t, config.maxVx);
    MixBelow(Abs(a.vy), Abs(b.vy), t, config.maxVy);
    MixBelow(Abs(a.wz), Abs(b.wz), t, config.maxWz);
    CornerConvex(config, a, b, t);
    if config.WheelLimited() {
      MixBelow(Corner(config, a), Corner(config, b), t, Square(config.maxWheelSpeed));
    }
  }

  lemma AlongMixes(a: Control, b: Control, t: real)
    ensures var m := Along(a, b, t);
            m.vx == Mix(a.vx, b.vx, t) && m.vy == Mix(a.vy, b.vy, t) && m.wz == Mix(a.wz, b.wz, t)
  {
    var gap := Subtract(b, a);
    var step := Scale(t, gap);
    assert gap.vx == b.vx - a.vx && gap.vy == b.vy - a.vy && gap.wz == b.wz - a.wz;
    ScaledAxes(t, gap, step);
    hide Scale, Subtract;
    MixOf(a.vx, b.vx, t, gap.vx, step.vx);
    MixOf(a.vy, b.vy, t, gap.vy, step.vy);
    MixOf(a.wz, b.wz, t, gap.wz, step.wz);
    hide Mix;
  }

  lemma ScaledAxes(k: real, c: Control, scaled: Control)
    requires scaled == Scale(k, c)
    ensures scaled.vx == k * c.vx && scaled.vy == k * c.vy && scaled.wz == k * c.wz
  {
  }

  lemma MixOf(a: real, b: real, t: real, gap: real, step: real)
    requires gap == b - a && step == t * gap
    ensures a + step == Mix(a, b, t)
  {
  }

  lemma CornerConvex(config: Config, a: Control, b: Control, t: real)
    requires 0.0 <= t <= 1.0
    ensures Corner(config, Along(a, b, t)) <= Mix(Corner(config, a), Corner(config, b), t)
  {
    hide Leg, Mix, Square, Along, Abs;
    var m := Along(a, b, t);
    var p, q, r := Leg(a.vx, a.wz, config.Y()), Leg(b.vx, b.wz, config.Y()), Leg(m.vx, m.wz, config.Y());
    var p', q', r' := Leg(a.vy, a.wz, config.X()), Leg(b.vy, b.wz, config.X()), Leg(m.vy, m.wz, config.X());
    AlongMixes(a, b, t);
    AbsConvex(a.vx, b.vx, t, m.vx);
    AbsConvex(a.vy, b.vy, t, m.vy);
    AbsConvex(a.wz, b.wz, t, m.wz);
    LegConvex(a.vx, a.wz, b.vx, b.wz, m.vx, m.wz, config.Y(), t, p, q, r);
    LegConvex(a.vy, a.wz, b.vy, b.wz, m.vy, m.wz, config.X(), t, p', q', r');
    SquareConvex(p, q, t, r);
    SquareConvex(p', q', t, r');
    MixAdds(Square(p), Square(p'), Corner(config, a), Square(q), Square(q'), Corner(config, b), t);
  }

  function Mix(a: real, b: real, t: real): real {
    a + t * (b - a)
  }

  lemma MixIsMonotone(a: real, a': real, b: real, b': real, t: real)
    requires 0.0 <= t <= 1.0 && a <= a' && b <= b'
    ensures Mix(a, b, t) <= Mix(a', b', t)
  {
    var left, right := (1.0 - t) * (a' - a), t * (b' - b);
    ProductSign(1.0 - t, a' - a, left);
    ProductSign(t, b' - b, right);
    MixGap(a, a', b, b', t, left, right);
  }

  lemma MixGap(a: real, a': real, b: real, b': real, t: real, left: real, right: real)
    requires left == (1.0 - t) * (a' - a) && right == t * (b' - b)
    ensures Mix(a', b', t) - Mix(a, b, t) == left + right
  {
  }

  lemma AbsConvex(a: real, b: real, t: real, m: real)
    requires 0.0 <= t <= 1.0 && m == Mix(a, b, t)
    ensures Abs(m) <= Mix(Abs(a), Abs(b), t)
  {
    hide Mix;
    MixIsMonotone(a, Abs(a), b, Abs(b), t);
    MixIsMonotone(-a, Abs(a), -b, Abs(b), t);
    MixNegates(a, b, t);
  }

  lemma MixNegates(a: real, b: real, t: real)
    ensures Mix(-a, -b, t) == -Mix(a, b, t)
  {
  }

  lemma MixBelow(a: real, b: real, t: real, limit: real)
    requires 0.0 <= t <= 1.0 && a <= limit && b <= limit
    ensures Mix(a, b, t) <= limit
  {
    MixIsMonotone(a, limit, b, limit, t);
  }

  lemma MixAdds(a: real, a': real, sum: real, b: real, b': real, sum': real, t: real)
    requires sum == a + a' && sum' == b + b'
    ensures Mix(sum, sum', t) == Mix(a, b, t) + Mix(a', b', t)
  {
  }

  lemma SquareConvex(a: real, b: real, t: real, m: real)
    requires 0.0 <= t <= 1.0 && 0.0 <= m <= Mix(a, b, t)
    ensures Square(m) <= Mix(Square(a), Square(b), t)
  {
    var x := Mix(a, b, t);
    SquareOrder(m, x);
    MixOfSquares(a, b, t, x, b - a);
    SquareSign(b - a);
    ProductSign(t, 1.0 - t, t * (1.0 - t));
    ProductSign(t * (1.0 - t), Square(b - a), t * (1.0 - t) * Square(b - a));
  }

  lemma MixOfSquares(a: real, b: real, t: real, x: real, gap: real)
    requires x == Mix(a, b, t) && gap == b - a
    ensures Mix(Square(a), Square(b), t) == Square(x) + t * (1.0 - t) * Square(gap)
  {
    assert x == a + t * gap && b == a + gap;
    assert Square(b) == a * a + 2.0 * (a * gap) + gap * gap;
    assert Square(x) == a * a + 2.0 * t * (a * gap) + t * t * (gap * gap);
  }

  lemma LegConvex(v: real, wz: real, v': real, wz': real, mv: real, mwz: real, arm: real, t: real, p: real, q: real,
                  leg: real)
    requires arm >= 0.0 && Abs(mv) <= Mix(Abs(v), Abs(v'), t) && Abs(mwz) <= Mix(Abs(wz), Abs(wz'), t)
    requires p == Leg(v, wz, arm) && q == Leg(v', wz', arm) && leg == Leg(mv, mwz, arm)
    ensures 0.0 <= leg <= Mix(p, q, t)
  {
    AbsSign(mwz);
    AbsSign(mv);
    hide Abs, Mix;
    TurnBelow(Abs(mwz), Abs(wz), Abs(wz'), t, arm);
    MixAdds(Abs(v), Abs(wz) * arm, p, Abs(v'), Abs(wz') * arm, q, t);
    ProductSign(Abs(mwz), arm, Abs(mwz) * arm);
  }

  lemma AbsSign(a: real)
    ensures Abs(a) >= 0.0
  {
  }

  lemma TurnBelow(m: real, a: real, b: real, t: real, arm: real)
    requires arm >= 0.0 && m <= Mix(a, b, t)
    ensures m * arm <= Mix(a * arm, b * arm, t)
  {
    assert (Mix(a, b, t) - m) * arm >= 0.0;
    assert Mix(a, b, t) * arm == Mix(a * arm, b * arm, t);
  }

  // The bracket: feasible below, infeasible above, halved n times.
  lemma {:induction false} BisectKeepsBracket(config: Config, previous: Control, limited: Control, feasible: real,
                                              infeasible: real, n: nat)
    returns (upper: real)
    requires feasible < infeasible
    requires ModuleIncrementFeasible(config, Along(previous, limited, feasible), previous)
    requires !ModuleIncrementFeasible(config, Along(previous, limited, infeasible), previous)
    ensures var scale := Bisect(config, previous, limited, feasible, infeasible, n);
            && feasible <= scale < upper <= infeasible
            && ModuleIncrementFeasible(config, Along(previous, limited, scale), previous)
            && !ModuleIncrementFeasible(config, Along(previous, limited, upper), previous)
            && upper - scale == Halved(n, infeasible - feasible)
    decreases n
  {
    hide ModuleIncrementFeasible, Along;
    if n == 0 {
      upper := infeasible;
    } else {
      var scale := 0.5 * (feasible + infeasible);
      if ModuleIncrementFeasible(config, Along(previous, limited, scale), previous) {
        upper := BisectKeepsBracket(config, previous, limited, scale, infeasible, n - 1);
      } else {
        upper := BisectKeepsBracket(config, previous, limited, feasible, scale, n - 1);
      }
    }
  }

  lemma EndsOfSegment(a: Control, b: Control)
    ensures Along(a, b, 0.0) == a && Along(a, b, 1.0) == b
  {
  }

  lemma TenHalvings(n: nat, gap: real)
    requires n >= 10
    ensures Halved(n, gap) == Halved(n - 10, gap / 1024.0)
  {
    assert Halved(n, gap) == Halved(n - 2, gap / 4.0);
    assert Halved(n - 2, gap / 4.0) == Halved(n - 4, gap / 16.0);
    assert Halved(n - 4, gap / 16.0) == Halved(n - 6, gap / 64.0);
    assert Halved(n - 6, gap / 64.0) == Halved(n - 8, gap / 256.0);
    assert Halved(n - 8, gap / 256.0) == Halved(n - 10, gap / 1024.0);
  }

  lemma FortyHalvings()
    ensures Halved(BISECTIONS, 1.0) == 1.0 / 1099511627776.0
  {
    TenHalvings(40, 1.0);
    TenHalvings(30, 1.0 / 1024.0);
    TenHalvings(20, 1.0 / 1048576.0);
    TenHalvings(10, 1.0 / 1073741824.0);
  }

  // An infeasible scale lies 2^-40 above the feasible one that was taken.
  ghost predicate IsBracket(config: Config, previous: Control, limited: Control, result: Control, scale: real,
                            upper: real) {
    && 0.0 <= scale < upper <= 1.0 && upper - scale == 1.0 / 1099511627776.0
    && result == Along(previous, limited, scale)
    && !ModuleIncrementFeasible(config, Along(previous, limited, upper), previous)
  }

  ghost predicate CutBack(config: Config, previous: Control, limited: Control, result: Control) {
    exists scale, upper :: IsBracket(config, previous, limited, result, scale, upper)
  }

  lemma SearchIsFeasible(config: Config, previous: Control, limited: Control, result: Control)
    requires config.Valid() && InEnvelope(config, previous) && InEnvelope(config, limited)
    requires !ModuleIncrementFeasible(config, limited, previous)
    requires result == Along(previous, limited, Bisect(config, previous, limited, 0.0, 1.0, BISECTIONS))
    ensures InEnvelope(config, result) && ModuleIncrementFeasible(config, result, previous)
    ensures CutBack(config, previous, limited, result)
  {
    hide ModuleIncrementFeasible, Along, Bisect, Halved, InEnvelope, IsRoot;
    HoldingIsFeasible(config, previous);
    EndsOfSegment(previous, limited);
    var scale := Bisect(config, previous, limited, 0.0, 1.0, BISECTIONS);
    var upper := BisectKeepsBracket(config, previous, limited, 0.0, 1.0, BISECTIONS);
    assert IsBracket(config, previous, limited, result, scale, upper) by {
      FortyHalvings();
    }
    SegmentStaysInEnvelope(config, previous, limited, scale);
  }

  // Whatever is asked for, the modules can follow.
  lemma ClampIncrementIsFeasible(config: Config, target: Control, previous: Control)
    requires config.Valid() && InEnvelope(config, previous)
    ensures InEnvelope(config, ClampIncrement(config, target, previous))
    ensures ModuleIncrementFeasible(config, ClampIncrement(config, target, previous), previous)
    ensures ClampIncrement(config, target, previous) == Limited(config, target, previous) ||
            CutBack(config, previous, Limited(config, target, previous), ClampIncrement(config, target, previous))
  {
    hide ModuleIncrementFeasible, Along, Bisect, InEnvelope, ClampControl, Requested, CutBack;
    var limited := Limited(config, target, previous);
    ClampControlProjects(config, Requested(config, target, previous));
    if !ModuleIncrementFeasible(config, limited, previous) {
      var result := Along(previous, limited, Bisect(config, previous, limited, 0.0, 1.0, BISECTIONS));
      SearchIsFeasible(config, previous, limited, result);
      ClampControlProjects(config, result);
    }
  }

  // The terminal approach limiter scales the planar speed down to distance / tau.
  function LimitTerminalApproachSpeed(config: Config, command: Control, distance: real, tau: real): Control
    requires tau > 0.0
  {
    var limit := Max(0.0, distance) / tau;
    var speed := Norm(config, Vector(command.vx, command.vy));
    if speed <= limit || speed <= 0.0 then command
    else Control(command.vx * (limit / speed), command.vy * (limit / speed), command.wz)
  }

  lemma ApproachStaysInEnvelope(config: Config, command: Control, distance: real, tau: real)
    requires config.Valid() && tau > 0.0 && InEnvelope(config, command)
    ensures InEnvelope(config, LimitTerminalApproachSpeed(config, command, distance, tau))
  {
    var limit := Max(0.0, distance) / tau;
    var speed := Norm(config, Vector(command.vx, command.vy));
    hide InEnvelope, Norm, IsRoot;
    if speed > limit && speed > 0.0 {
      QuotientSign(Max(0.0, distance), tau, limit);
      FractionOf(limit, speed, limit / speed);
      PlanarScalingStaysInEnvelope(config, command, limit / speed,
                                   LimitTerminalApproachSpeed(config, command, distance, tau));
    }
  }

  lemma PlanarScalingStaysInEnvelope(config: Config, c: Control, k: real, d: Control)
    requires InEnvelope(config, c) && 0.0 <= k <= 1.0
    requires d.vx == c.vx * k && d.vy == c.vy * k && d.wz == c.wz
    ensures InEnvelope(config, d)
  {
    hide InEnvelope, Abs;
    AxisScales(k, c.vx, d.vx, Abs(c.vx));
    AxisScales(k, c.vy, d.vy, Abs(c.vy));
    ShrinkingStaysInEnvelope(config, c, d);
  }

  lemma QuotientSign(a: real, b: real, q: real)
    requires a >= 0.0 && b > 0.0 && q == a / b
    ensures q >= 0.0
  {
    assert q * b == a;
    if q < 0.0 {
      ProductSign(-q, b, -q * b);
    }
  }

  lemma FractionOf(limit: real, speed: real, k: real)
    requires 0.0 <= limit < speed && k == limit / speed
    ensures 0.0 <= k <= 1.0 && limit == k * speed
  {
    QuotientUndone(limit, speed, k);
    if k < 0.0 {
      ProductSign(-k, speed, -limit);
    } else if k > 1.0 {
      ProductSign(k - 1.0, speed, limit - speed);
    }
  }

  lemma QuotientUndone(a: real, b: real, q: real)
    requires b != 0.0 && q == a / b
    ensures a == q * b && -a == -q * b && a - b == (q - 1.0) * b
  {
  }

  // One axis of the terminal deceleration: a step towards zero, never past it.
  function SlowAxis(v: real, step: real): real {
    var magnitude := Max(0.0, Abs(v) - step);
    if v < 0.0 then -magnitude else magnitude
  }

  function TerminalDeceleration(config: Config, last: Control): Control {
    Control(SlowAxis(last.vx, Budget(config.maxAx, config.dt)), SlowAxis(last.vy, Budget(config.maxAy, config.dt)),
            SlowAxis(last.wz, Budget(config.maxAwz, config.dt)))
  }

  lemma DecelerationStaysInEnvelope(config: Config, last: Control)
    requires config.Valid() && InEnvelope(config, last)
    ensures InEnvelope(config, TerminalDeceleration(config, last))
  {
    hide InEnvelope, IsRoot;
    ProductSign(config.maxAx, config.dt, Budget(config.maxAx, config.dt));
    ProductSign(config.maxAy, config.dt, Budget(config.maxAy, config.dt));
    ProductSign(config.maxAwz, config.dt, Budget(config.maxAwz, config.dt));
    ShrinkingStaysInEnvelope(config, last, TerminalDeceleration(config, last));
  }

  lemma ZeroIsInEnvelope(config: Config)
    requires config.Valid()
    ensures InEnvelope(config, ZERO)
  {
    SquareSign(config.maxWheelSpeed);
    assert Leg(0.0, 0.0, config.X()) == 0.0 && Leg(0.0, 0.0, config.Y()) == 0.0;
  }

  // The line search along the segment, forty halvings of the bracket.
  method BisectScale(config: Config, previous: Control, limited: Control) returns (feasibleScale: real)
    ensures feasibleScale == Bisect(config, previous, limited, 0.0, 1.0, BISECTIONS)
  {
    hide ModuleIncrementFeasible, Along;
    feasibleScale := 0.0;
    var infeasibleScale := 1.0;
    for iteration := 0 to BISECTIONS
      invariant Bisect(config, previous, limited, feasibleScale, infeasibleScale, BISECTIONS - iteration) ==
                Bisect(config, previous, limited, 0.0, 1.0, BISECTIONS)
    {
      var scale := 0.5 * (feasibleScale + infeasibleScale);
      if ModuleIncrementFeasible(config, Along(previous, limited, scale), previous) {
        feasibleScale := scale;
      } else {
        infeasibleScale := scale;
      }
    }
  }

  function Before(controls: seq<Control>, last: Control, i: nat): Control
    requires i <= |controls|
  {
    if i == 0 then last else controls[i - 1]
  }

  // Each control is in the envelope and follows from the one before it.
  ghost predicate Chain(config: Config, controls: seq<Control>, last: Control) {
    forall i | 0 <= i < |controls| ::
      InEnvelope(config, controls[i]) && ModuleIncrementFeasible(config, controls[i], Before(controls, last, i))
  }

  lemma ChainExtends(config: Config, controls: seq<Control>, last: Control, target: Control)
    requires config.Valid() && InEnvelope(config, last) && Chain(config, controls, last)
    ensures Chain(config, controls + [ClampIncrement(config, target, Before(controls, last, |controls|))], last)
  {
    hide InEnvelope, ModuleIncrementFeasible, ClampIncrement, IsRoot, CutBack, Limited;
    var previous := Before(controls, last, |controls|);
    var u := ClampIncrement(config, target, previous);
    var extended := controls + [u];
    ClampIncrementIsFeasible(config, target, previous);
    forall i | 0 <= i < |extended|
      ensures InEnvelope(config, extended[i]) && ModuleIncrementFeasible(config, extended[i], Before(extended, last, i))
    {
      assert Before(extended, last, i) == Before(controls, last, i);
    }
  }

  // Each target projected after the control before it.
  function ProjectAll(config: Config, targets: seq<Control>, last: Control): (controls: seq<Control>)
    requires config.Valid()
    ensures |controls| == |targets|
  {
    if targets == [] then []
    else
      var controls := ProjectAll(config, targets[..|targets| - 1], last);
      controls + [ClampIncrement(config, targets[|targets| - 1], Before(controls, last, |controls|))]
  }

  lemma {:induction false} ProjectAllIsAChain(config: Config, targets: seq<Control>, last: Control)
    requires config.Valid() && InEnvelope(config, last)
    ensures Chain(config, ProjectAll(config, targets, last), last)
  {
    if targets != [] {
      ProjectAllIsAChain(config, targets[..|targets| - 1], last);
      hide Chain, InEnvelope, ClampIncrement;
      ChainExtends(config, ProjectAll(config, targets[..|targets| - 1], last), last, targets[|targets| - 1]);
    }
  }

  lemma ProjectNext(config: Config, targets: seq<Control>, target: Control, last: Control)
    requires config.Valid()
    ensures var controls := ProjectAll(config, targets, last);
            ProjectAll(config, targets + [target], last) ==
            controls + [ClampIncrement(config, target, Before(controls, last, |controls|))]
  {
    assert (targets + [target])[..|targets|] == targets;
  }

  // What a cycle starts from: the references, or the previous controls shifted by
  // one and blended with them.
  function Seed(config: Config, warm: Option<seq<Control>>, references: seq<Control>, step: nat): Control
    requires step < config.horizon <= |references|
  {
    if warm.None? then references[step]
    else Add(Scale(0.7, Shifted(config, warm.value, step)), Scale(0.3, references[step]))
  }

  function Shifted(config: Config, warm: seq<Control>, step: nat): Control
    requires step < config.horizon
  {
    if |warm| != config.horizon then ZERO else if step + 1 < |warm| then warm[step + 1] else warm[0]
  }

  function Seeds(config: Config, warm: Option<seq<Control>>, references: seq<Control>, n: nat): (seeds: seq<Control>)
    requires n <= config.horizon <= |references|
    ensures |seeds| == n
  {
    if n == 0 then [] else Seeds(config, warm, references, n - 1) + [Seed(config, warm, references, n - 1)]
  }

  function Sums(controls: seq<Control>, updates: seq<Control>): (sums: seq<Control>)
    requires |controls| == |updates|
    ensures |sums| == |controls|
  {
    if controls == [] then []
    else Sums(controls[..|controls| - 1], updates[..|updates| - 1]) +
         [Add(controls[|controls| - 1], updates[|updates| - 1])]
  }

  lemma SumNext(controls: seq<Control>, updates: seq<Control>, n: nat)
    requires n < |controls| == |updates|
    ensures Sums(controls[..n + 1], updates[..n + 1]) ==
              Sums(controls[..n], updates[..n]) + [Add(controls[n], updates[n])]
  {
    assert controls[..n + 1][..n] == controls[..n] && updates[..n + 1][..n] == updates[..n];
  }

  // A line-search candidate: an update of every control, and whether its cost is
  // lower. A pass without certified gains stops the iteration.
  datatype Trial = Trial(updates: seq<Control>, cheaper: bool)
  datatype Iteration = Iteration(certified: bool, trials: seq<Trial>, converged: bool)

  predicate Sized(iteration: Iteration, n: nat) {
    forall i | 0 <= i < |iteration.trials| :: |iteration.trials[i].updates| == n
  }

  // The first cheaper candidate of a line search.
  function Accepted(config: Config, controls: seq<Control>, trials: seq<Trial>, last: Control): Option<seq<Control>>
    requires config.Valid() && forall i | 0 <= i < |trials| :: |trials[i].updates| == |controls|
  {
    if trials == [] then None
    else if trials[0].cheaper then Some(ProjectAll(config, Sums(controls, trials[0].updates), last))
    else Accepted(config, controls, trials[1..], last)
  }

  lemma {:induction false} AcceptedIsAChain(config: Config, controls: seq<Control>, trials: seq<Trial>, last: Control)
    requires config.Valid() && InEnvelope(config, last) && forall i | 0 <= i < |trials| ::
               |trials[i].updates| == |controls|
    ensures var accepted := Accepted(config, controls, trials, last);
            accepted.Some? ==> |accepted.value| == |controls| && Chain(config, accepted.value, last)
  {
    hide Chain, InEnvelope;
    if trials != [] {
      if trials[0].cheaper {
        ProjectAllIsAChain(config, Sums(controls, trials[0].updates), last);
      } else {
        AcceptedIsAChain(config, controls, trials[1..], last);
      }
    }
  }

  // The iterations: whether one was certified, and the controls they end with.
  function Descend(config: Config, controls: seq<Control>, iterations: seq<Iteration>, last: Control): (bool,
                                                                                                        seq<Control>)
    requires config.Valid() && forall i | 0 <= i < |iterations| :: Sized(iterations[i], |controls|)
    decreases |iterations|
  {
    if iterations == [] || !iterations[0].certified then (false, controls)
    else
      assert Sized(iterations[0], |controls|);
      var accepted := Accepted(config, controls, iterations[0].trials, last);
      if accepted.None? then (true, controls)
      else if iterations[0].converged then (true, accepted.value)
      else
        AcceptedSize(config, controls, iterations[0].trials, last);
        (true, Descend(config, accepted.value, iterations[1..], last).1)
  }

  lemma {:induction false} AcceptedSize(config: Config, controls: seq<Control>, trials: seq<Trial>, last: Control)
    requires config.Valid() && forall i | 0 <= i < |trials| :: |trials[i].updates| == |controls|
    ensures Accepted(config, controls, trials, last).Some? ==>
              |Accepted(config, controls, trials, last).value| == |controls|
  {
    if trials != [] && !trials[0].cheaper {
      AcceptedSize(config, controls, trials[1..], last);
    }
  }

  // Whatever the gains and costs, every sequence the solver may end with is one
  // the modules can follow from the last published control.
  lemma {:induction false} DescentIsAChain(config: Config, controls: seq<Control>, iterations: seq<Iteration>,
                                           last: Control)
    requires config.Valid() && InEnvelope(config, last) && Chain(config, controls, last)
    requires forall i | 0 <= i < |iterations| :: Sized(iterations[i], |controls|)
    ensures Chain(config, Descend(config, controls, iterations, last).1, last)
    ensures |Descend(config, controls, iterations, last).1| == |controls|
    decreases |iterations|
  {
    hide Chain, InEnvelope;
    if iterations != [] && iterations[0].certified {
      assert Sized(iterations[0], |controls|);
      AcceptedIsAChain(config, controls, iterations[0].trials, last);
      var accepted := Accepted(config, controls, iterations[0].trials, last);
      if accepted.Some? && !iterations[0].converged {
        DescentIsAChain(config, accepted.value, iterations[1..], last);
      }
    }
  }

  // The first control is some request, projected after the last published one.
  ghost predicate StartsFrom(config: Config, controls: seq<Control>, last: Control)
    requires config.Valid()
  {
    controls != [] && exists target :: controls[0] == ClampIncrement(config, target, last)
  }

  lemma {:induction false} ProjectionStartsFrom(config: Config, targets: seq<Control>, last: Control)
    requires config.Valid() && targets != []
    ensures ProjectAll(config, targets, last)[0] == ClampIncrement(config, targets[0], last)
    ensures StartsFrom(config, ProjectAll(config, targets, last), last)
  {
    hide ClampIncrement, Config.Valid;
    if |targets| > 1 {
      ProjectionStartsFrom(config, targets[..|targets| - 1], last);
    }
  }

  lemma {:induction false} AcceptedStartsFrom(config: Config, controls: seq<Control>, trials: seq<Trial>, last: Control)
    requires config.Valid() && controls != [] && forall i | 0 <= i < |trials| :: |trials[i].updates| == |controls|
    ensures var accepted := Accepted(config, controls, trials, last);
            accepted.Some? ==> StartsFrom(config, accepted.value, last)
  {
    hide StartsFrom, Config.Valid;
    if trials != [] {
      if trials[0].cheaper {
        ProjectionStartsFrom(config, Sums(controls, trials[0].updates), last);
      } else {
        AcceptedStartsFrom(config, controls, trials[1..], last);
      }
    }
  }

  // However many iterations follow, the control that is published is a projected request.
  lemma {:induction false} DescentStartsFrom(config: Config, controls: seq<Control>, iterations: seq<Iteration>,
                                             last: Control)
    requires config.Valid() && StartsFrom(config, controls, last)
    requires forall i | 0 <= i < |iterations| :: Sized(iterations[i], |controls|)
    ensures StartsFrom(config, Descend(config, controls, iterations, last).1, last)
    decreases |iterations|
  {
    assert controls != [];
    hide StartsFrom, Config.Valid;
    if iterations != [] && iterations[0].certified {
      assert Sized(iterations[0], |controls|);
      AcceptedStartsFrom(config, controls, iterations[0].trials, last);
      AcceptedSize(config, controls, iterations[0].trials, last);
      var accepted := Accepted(config, controls, iterations[0].trials, last);
      if accepted.Some? && !iterations[0].converged {
        DescentStartsFrom(config, accepted.value, iterations[1..], last);
      }
    }
  }

  class Se2MpcController {
    const config: Config
    var warmControls: seq<Control>
    var hasWarmStart: bool

    constructor (config: Config)
      ensures this.config == config && warmControls == [] && !hasWarmStart
    {
      this.config := config;
      warmControls, hasWarmStart := [], false;
    }

    function Warm(): Option<seq<Control>>
      reads this
    {
      if hasWarmStart then Some(warmControls) else None
    }

    method ClampIncrementTo(target: Control, previous: Control) returns (u: Control, incrementLimited: bool)
      requires config.Valid()
      ensures u == ClampIncrement(config, target, previous)
      ensures incrementLimited <==> !ModuleIncrementFeasible(config, Limited(config, target, previous), previous)
    {
      hide ModuleIncrementFeasible, Along, ClampControl, Requested, Bisect;
      var limited := Limited(config, target, previous);
      if ModuleIncrementFeasible(config, limited, previous) {
        return limited, false;
      }
      var scale := BisectScale(config, previous, limited);
      return ClampControl(config, Along(previous, limited, scale)), true;
    }

    // The previous controls one step on, or zeros when there are none to shift.
    method Rotate() returns (rotated: seq<Control>)
      requires config.horizon > 0
      ensures |rotated| == config.horizon
      ensures hasWarmStart ==> forall k | 0 <= k < config.horizon :: rotated[k] == Shifted(config, warmControls, k)
    {
      if !hasWarmStart || |warmControls| != config.horizon {
        return seq(config.horizon, _ => ZERO);
      }
      return warmControls[1..] + warmControls[..1];
    }

    method InitializeControls(references: seq<Control>, last: Control)
      requires config.Valid() && 0 < config.horizon <= |references|
      modifies this
      ensures warmControls == ProjectAll(config, Seeds(config, old(Warm()), references, config.horizon), last) &&
              hasWarmStart
    {
      hide ModuleIncrementFeasible, ClampIncrement, Add, Scale, Shifted, ProjectAll, Config.Valid;
      ghost var warm := Warm();
      var rotated := Rotate();
      warmControls := [];
      assert ProjectAll(config, [], last) == [];
      var previous := last;
      for step := 0 to config.horizon
        invariant |warmControls| == step &&
                  warmControls == ProjectAll(config, Seeds(config, warm, references, step), last)
        invariant previous == Before(warmControls, last, |warmControls|) && hasWarmStart == warm.Some?
      {
        var seed := if hasWarmStart then Add(Scale(0.7, rotated[step]), Scale(0.3, references[step]))
          else references[step];
        assert seed == Seed(config, warm, references, step);
        ProjectNext(config, Seeds(config, warm, references, step), seed, last);
        var u, _ := ClampIncrementTo(seed, previous);
        warmControls := warmControls + [u];
        previous := u;
      }
      hasWarmStart := true;
    }

    // One candidate of the line search, projected step by step.
    method ProjectCandidate(controls: seq<Control>, updates: seq<Control>, last: Control)
      returns (candidate: seq<Control>)
      requires config.Valid() && |controls| == |updates|
      ensures candidate == ProjectAll(config, Sums(controls, updates), last)
    {
      hide ModuleIncrementFeasible, ClampIncrement;
      candidate := [];
      var previous := last;
      for step := 0 to |controls|
        invariant |candidate| == step && candidate == ProjectAll(config, Sums(controls[..step], updates[..step]), last)
        invariant previous == Before(candidate, last, |candidate|)
      {
        SumNext(controls, updates, step);
        ProjectNext(config, Sums(controls[..step], updates[..step]), Add(controls[step], updates[step]), last);
        var u, _ := ClampIncrementTo(Add(controls[step], updates[step]), previous);
        candidate := candidate + [u];
        previous := u;
      }
      assert controls[..|controls|] == controls && updates[..|updates|] == updates;
    }

    method LineSearch(controls: seq<Control>, trials: seq<Trial>, last: Control)
      returns (accepted: Option<seq<Control>>)
      requires config.Valid() && forall i | 0 <= i < |trials| :: |trials[i].updates| == |controls|
      ensures accepted == Accepted(config, controls, trials, last)
    {
      hide ProjectAll;
      for j := 0 to |trials|
        invariant Accepted(config, controls, trials, last) == Accepted(config, controls, trials[j..], last)
      {
        var candidate := ProjectCandidate(controls, trials[j].updates, last);
        if trials[j].cheaper {
          return Some(candidate);
        }
        assert trials[j..][1..] == trials[j + 1..];
      }
      return None;
    }

    // The solver loop over whatever gains and costs it meets; whether the final
    // cost is finite is an input.
    method Solve(references: seq<Control>, last: Control, iterations: seq<Iteration>, finiteCost: bool)
      returns (success: bool, controls: seq<Control>)
      requires config.Bounded() && InEnvelope(config, last)
      requires config.horizon > 0 ==> forall i | 0 <= i < |iterations| :: Sized(iterations[i], config.horizon)
      modifies this
      ensures Chain(config, controls, last)
      ensures if config.horizon <= 0 || config.dt <= 0.0 || |references| < config.horizon + 1
              then !success && controls == [] && unchanged(this)
              else
                var descent :=
                  Descend(config, ProjectAll(config, Seeds(config, old(Warm()), references, config.horizon), last),
                          iterations, last);
                success == (descent.0 && finiteCost) && controls == warmControls == descent.1 && hasWarmStart &&
                StartsFrom(config, controls, last)
    {
      success, controls := false, [];
      EmptyChain(config, last);
      if config.horizon <= 0 || config.dt <= 0.0 || |references| < config.horizon + 1 {
        return;
      }
      assert config.Valid();
      hide Chain, InEnvelope, ProjectAll, Seeds, StartsFrom, Config.Valid, Config.Bounded;
      ghost var seeds := Seeds(config, Warm(), references, config.horizon);
      InitializeControls(references, last);
      ProjectAllIsAChain(config, seeds, last);
      ProjectionStartsFrom(config, seeds, last);
      DescentIsAChain(config, warmControls, iterations, last);
      DescentStartsFrom(config, warmControls, iterations, last);
      var certified;
      certified, controls := Iterate(warmControls, iterations, last);
      warmControls := controls;
      success := certified && finiteCost;
    }

    method Iterate(start: seq<Control>, iterations: seq<Iteration>, last: Control)
      returns (success: bool, controls: seq<Control>)
      requires config.Valid() && forall i | 0 <= i < |iterations| :: Sized(iterations[i], |start|)
      ensures (success, controls) == Descend(config, start, iterations, last)
    {
      hide Accepted;
      success, controls := false, start;
      for i := 0 to |iterations|
        invariant |controls| == |start|
        invariant Descend(config, start, iterations, last).1 == Descend(config, controls, iterations[i..], last).1
        invariant i == 0 ==> controls == start && !success
        invariant i > 0 ==> success && Descend(config, start, iterations, last).0
      {
        var iteration := iterations[i];
        assert iterations[i..][0] == iteration && iterations[i..][1..] == iterations[i + 1..];
        if !iteration.certified {
          return;
        }
        success := true;
        assert Sized(iteration, |start|);
        var accepted := LineSearch(controls, iteration.trials, last);
        AcceptedSize(config, controls, iteration.trials, last);
        if accepted.None? {
          return;
        }
        controls := accepted.value;
        if iteration.converged {
          return;
        }
      }
    }
  }

  lemma EmptyChain(config: Config, last: Control)
    ensures Chain(config, [], last)
  {
  }
}
