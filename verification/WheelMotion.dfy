/** The four wheels as parts of one rigid body, and what one period may ask of
    each of them, in squares and cosines of the wheel velocities. */
module WheelMotion {
  import opened Basics
  import opened Actuator
  import opened MotionLimits

  // Where wheel i is mounted: front left, front right, rear left, rear right.
  function Mount(config: Config, i: nat): Vector {
    Vector(if i < 2 then config.X() else -config.X(), if i % 2 == 0 then config.Y() else -config.Y())
  }

  function Cross(a: Vector, b: Vector): real {
    a.x * b.y - a.y * b.x
  }

  // What a wheel moves beyond the body is at right angles to its mount, and turns
  // about the centre at the body's rate.
  lemma WheelsTurnRigidly(config: Config, c: Control, i: nat)
    requires i < 4
    ensures var mount, beyond := Mount(config, i), Difference(ModuleVelocities(config, c)[i], Vector(c.vx, c.vy));
            && mount.x * beyond.x + mount.y * beyond.y == 0.0
            && Cross(mount, beyond) == c.wz * (mount.x * mount.x + mount.y * mount.y)
  {
    var mount := Mount(config, i);
    var beyond := Difference(ModuleVelocities(config, c)[i], Vector(c.vx, c.vy));
    BeyondTheBody(config, c, i);
    TurnsAbout(mount.x, mount.y, c.wz, beyond.x, beyond.y);
  }

  lemma BeyondTheBody(config: Config, c: Control, i: nat)
    requires i < 4
    ensures var mount, beyond := Mount(config, i), Difference(ModuleVelocities(config, c)[i], Vector(c.vx, c.vy));
            beyond.x == -(c.wz * mount.y) && beyond.y == c.wz * mount.x
  {
    assert -1.0 * config.Y() == -config.Y() && -1.0 * config.X() == -config.X();
  }

  lemma TurnsAbout(x: real, y: real, w: real, bx: real, up: real)
    requires bx == -(w * y) && up == w * x
    ensures x * bx + y * up == 0.0
    ensures x * up - y * bx == w * (x * x + y * y)
  {
  }

  // The cosine of the angle between vectors of lengths a and b.
  predicate IsCosine(cosine: real, a: real, b: real, dot: real) {
    cosine * (a * b) == dot
  }

  // What one period may ask of a wheel that turned with velocity p: a speed, a
  // change of velocity, and unless it stands still before or after, an angle.
  ghost predicate Follows(config: Config, v: Vector, p: Vector) {
    && (config.maxWheelSpeed > 0.000001 ==> Dot(v, v) <= Square(config.maxWheelSpeed + 0.000000001))
    && (config.maxWheelAcceleration > 0.000001 ==>
          Square(v.x - p.x) + Square(v.y - p.y) <= Square(Allowance(config.dt, config.maxWheelAcceleration) +
                                                          0.000000001))
    && (config.maxSteerRate > 0.000001 && Dot(v, v) > 0.00000001 && Dot(p, p) > 0.00000001 ==>
          forall cosine | IsCosine(cosine, config.root(Dot(v, v)), config.root(Dot(p, p)), Dot(v, p)) ::
            config.arccos(cosine) <= Allowance(config.dt, config.maxSteerRate) + 0.000000001)
  }

  lemma LengthIsBounded(config: Config, square: real, bound: real)
    requires config.Valid() && square >= 0.0 && bound >= 0.0
    ensures config.root(square) <= bound <==> square <= Square(bound)
  {
    RootOrder(config.root, square, bound);
  }

  lemma DotIsNotNegative(v: Vector)
    ensures Dot(v, v) >= 0.0
  {
    SquareSign(v.x);
    SquareSign(v.y);
  }

  lemma SpeedMeans(config: Config, v: Vector)
    requires config.Valid()
    ensures SpeedFeasible(config, v) <==>
            (config.maxWheelSpeed > 0.000001 ==> Dot(v, v) <= Square(config.maxWheelSpeed + 0.000000001))
  {
    DotIsNotNegative(v);
    hide Dot, Square, IsRoot;
    if config.maxWheelSpeed > 0.000001 {
      LengthIsBounded(config, Dot(v, v), config.maxWheelSpeed + 0.000000001);
    }
  }

  lemma AccelerationMeans(config: Config, v: Vector, p: Vector)
    requires config.Valid()
    ensures AccelerationFeasible(config, v, p) <==>
            (config.maxWheelAcceleration > 0.000001 ==>
               Square(v.x - p.x) + Square(v.y - p.y) <=
               Square(Allowance(config.dt, config.maxWheelAcceleration) + 0.000000001))
  {
    var gap := Difference(v, p);
    assert Dot(gap, gap) == Square(v.x - p.x) + Square(v.y - p.y);
    DotIsNotNegative(gap);
    if config.maxWheelAcceleration > 0.000001 {
      var change := Budget(config.maxWheelAcceleration, config.dt);
      BudgetIsTheAllowance(config.dt, config.maxWheelAcceleration);
      LengthIsBounded(config, Dot(gap, gap), change + 0.000000001);
    }
    hide Dot, Square, Difference;
  }

  lemma CauchySchwarz(v: Vector, p: Vector)
    ensures Square(Dot(v, p)) <= Dot(v, v) * Dot(p, p)
  {
    var cross := v.x * p.y - v.y * p.x;
    SquareSign(cross);
    assert Dot(v, v) * Dot(p, p) == Square(Dot(v, p)) + Square(cross);
  }

  // The clamp before arccos changes nothing.
  lemma CosineIsExact(dot: real, a: real, b: real, vv: real, pp: real)
    requires a > 0.0 && b > 0.0 && a * a == vv && b * b == pp && Square(dot) <= vv * pp
    ensures forall cosine :: IsCosine(cosine, a, b, dot) <==> cosine == Cosine(dot, a, b)
  {
    var ab := a * b;
    ProductSign(a, b, ab);
    assert Square(ab) == vv * pp;
    SquareOrder(Abs(dot), ab);
    assert Square(Abs(dot)) == Square(dot);
    var q := dot / ab;
    QuotientWithin(dot, ab, q);
    forall cosine ensures IsCosine(cosine, a, b, dot) <==> cosine == q {
      QuotientIsUnique(dot, ab, q, cosine);
    }
  }

  lemma QuotientWithin(dot: real, ab: real, q: real)
    requires ab > 0.0 && Abs(dot) <= ab && q == dot / ab
    ensures -1.0 <= q <= 1.0 && q * ab == dot
  {
    assert q * ab == dot;
    if q > 1.0 {
      ProductSign(q - 1.0, ab, (q - 1.0) * ab);
    } else if q < -1.0 {
      ProductSign(-1.0 - q, ab, (-1.0 - q) * ab);
    }
  }

  lemma QuotientIsUnique(dot: real, ab: real, q: real, cosine: real)
    requires ab > 0.0 && q * ab == dot
    ensures cosine * ab == dot <==> cosine == q
  {
    if cosine > q {
      ProductSign(cosine - q, ab, (cosine - q) * ab);
    } else if cosine < q {
      ProductSign(q - cosine, ab, (q - cosine) * ab);
    }
  }

  lemma SteeringMeans(config: Config, v: Vector, p: Vector)
    requires config.Valid()
    ensures SteerFeasible(config, v, p) <==>
            (config.maxSteerRate > 0.000001 && Dot(v, v) > 0.00000001 && Dot(p, p) > 0.00000001 ==>
               forall cosine | IsCosine(cosine, config.root(Dot(v, v)), config.root(Dot(p, p)), Dot(v, p)) ::
                 config.arccos(cosine) <= Allowance(config.dt, config.maxSteerRate) + 0.000000001)
  {
    hide Dot, IsCosine, Cosine, Square, IsRoot, Budget, Allowance;
    DotIsNotNegative(v);
    DotIsNotNegative(p);
    RootsBeyondStandstill(config, Dot(v, v));
    RootsBeyondStandstill(config, Dot(p, p));
    CauchySchwarz(v, p);
    BudgetIsTheAllowance(config.dt, config.maxSteerRate);
    if Dot(v, v) > 0.00000001 && Dot(p, p) > 0.00000001 {
      CosineIsExact(Dot(v, p), config.root(Dot(v, v)), config.root(Dot(p, p)), Dot(v, v), Dot(p, p));
    }
  }

  lemma RootsBeyondStandstill(config: Config, square: real)
    requires config.Valid() && square >= 0.0
    ensures config.root(square) > 0.0001 <==> square > 0.00000001
    ensures config.root(square) * config.root(square) == square
  {
    LengthIsBounded(config, square, 0.0001);
  }

  // The check the solver makes of a candidate asks exactly that of each wheel.
  lemma ModulesFollowIff(config: Config, candidate: Control, previous: Control)
    requires config.Valid()
    ensures ModuleIncrementFeasible(config, candidate, previous) <==>
            forall i | 0 <= i < 4 ::
              Follows(config, ModuleVelocities(config, candidate)[i], ModuleVelocities(config, previous)[i])
  {
    hide ModuleVelocities, SpeedFeasible, AccelerationFeasible, SteerFeasible, Follows, Config.Valid;
    forall i | 0 <= i < 4
      ensures var v, p := ModuleVelocities(config, candidate)[i], ModuleVelocities(config, previous)[i];
              WheelFeasible(config, v, p) <==> Follows(config, v, p)
    {
      WheelFollowsIff(config, ModuleVelocities(config, candidate)[i], ModuleVelocities(config, previous)[i]);
    }
  }

  lemma WheelFollowsIff(config: Config, v: Vector, p: Vector)
    requires config.Valid()
    ensures WheelFeasible(config, v, p) <==> Follows(config, v, p)
  {
    hide SpeedFeasible, AccelerationFeasible, SteerFeasible, Dot, Square, IsCosine, Allowance, IsRoot;
    SpeedMeans(config, v);
    AccelerationMeans(config, v, p);
    SteeringMeans(config, v, p);
  }
}
