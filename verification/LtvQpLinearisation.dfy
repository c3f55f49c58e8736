/** What the motion model of the LTV problem is, and that its Jacobians are the
    model's own derivatives. */
module LtvQpLinearisation {
  import opened Basics
  import opened LtvQpPlan
  import opened LtvQpConstraints
  import LtvQpCost

  // How far the body moves in one period, seen from the ground.
  function Displacement(stage: Stage, dt: real): Triple {
    Dynamics(stage, dt).Minus(stage.state)
  }

  // Seen from the body, a period moves it by its own velocity times the period.
  lemma DynamicsIsRigidMotion(stage: Stage, dt: real)
    requires stage.cosine * stage.cosine + stage.sine * stage.sine == 1.0
    ensures var d, c, s := Displacement(stage, dt), stage.cosine, stage.sine;
            c * d.x + s * d.y == dt * stage.control.x && c * d.y - s * d.x == dt * stage.control.y
    ensures Dynamics(stage, dt).w == stage.heading
  {
    var d, c, s, u := Displacement(stage, dt), stage.cosine, stage.sine, stage.control;
    DisplacementIs(stage, dt);
    RotatedBack(c, s, u.x, u.y, dt, d.x, d.y);
  }

  lemma DisplacementIs(stage: Stage, dt: real)
    ensures var d, c, s, u := Displacement(stage, dt), stage.cosine, stage.sine, stage.control;
            d.x == dt * (u.x * c - u.y * s) && d.y == dt * (u.x * s + u.y * c)
  {
  }

  lemma RotatedBack(c: real, s: real, x: real, y: real, dt: real, dx: real, dy: real)
    requires c * c + s * s == 1.0 && dx == dt * (x * c - y * s) && dy == dt * (x * s + y * c)
    ensures c * dx + s * dy == dt * x && c * dy - s * dx == dt * y
  {
    var one := c * c + s * s;
    assert c * dx + s * dy == dt * x * one;
    assert c * dy - s * dx == dt * y * one;
  }

  // The model is linear in the control: the control Jacobian is its exact change.
  lemma ControlJacobianIsTheChange(stage: Stage, dt: real, d: Triple)
    ensures var moved := Dynamics(stage.(control := stage.control.Plus(d)), dt).Minus(Dynamics(stage, dt));
            && moved.x == Along(ControlJacobian(stage, dt, 0), d) && moved.y == Along(ControlJacobian(stage, dt, 1), d)
  {
    LinearIn(stage.cosine, stage.sine, stage.control.x, stage.control.y, d.x, d.y, dt);
  }

  lemma LinearIn(c: real, s: real, x: real, y: real, dx: real, dy: real, dt: real)
    ensures dt * ((x + dx) * c - (y + dy) * s) - dt * (x * c - y * s) == dt * c * dx + -dt * s * dy
    ensures dt * ((x + dx) * s + (y + dy) * c) - dt * (x * s + y * c) == dt * s * dx + dt * c * dy
  {
  }

  // The same stage with its heading turned by the angle of cosine p and sine q.
  function Turned(stage: Stage, p: real, q: real): Stage {
    stage.(cosine := stage.cosine * p - stage.sine * q, sine := stage.sine * p + stage.cosine * q)
  }

  function HeadingColumn(stage: Stage, dt: real): Triple {
    Triple(StateJacobian(stage, dt, 0).w, StateJacobian(stage, dt, 1).w, 1.0)
  }

  // The heading column is the displacement turned left by a right angle, which is
  // the rate at which the displacement changes as the body turns.
  lemma HeadingColumnIsTheTurnedDisplacement(stage: Stage, dt: real)
    ensures var d, column := Displacement(Turned(stage, 0.0, 1.0), dt), HeadingColumn(stage, dt);
            column.x == d.x && column.y == d.y
    ensures var d, column := Displacement(stage, dt), HeadingColumn(stage, dt); column.x == -d.y && column.y == d.x
  {
    DisplacementIs(stage, dt);
    DisplacementIs(Turned(stage, 0.0, 1.0), dt);
  }

  // For any turn, sine times the column and versed sine times the displacement
  // make up the whole change: the column is the derivative at no turn.
  lemma HeadingColumnIsTheDerivative(stage: Stage, dt: real, p: real, q: real)
    ensures var before, after, column := Displacement(stage, dt), Displacement(Turned(stage, p, q), dt),
                                         HeadingColumn(stage, dt);
            && after.x == before.x + q * column.x - (1.0 - p) * before.x
            && after.y == before.y + q * column.y - (1.0 - p) * before.y
  {
    hide Displacement, HeadingColumn, Turned;
    var before := Displacement(stage, dt);
    TurnedDisplacement(stage, dt, p, q);
    HeadingColumnIsTheTurnedDisplacement(stage, dt);
    Regroup(before.x, before.y, p, q);
    Regroup(before.y, -before.x, p, q);
  }

  lemma Regroup(x: real, y: real, p: real, q: real)
    ensures x * p - y * q == x + q * -y - (1.0 - p) * x
  {
  }

  // A turned body moves as before, turned.
  lemma TurnedDisplacement(stage: Stage, dt: real, p: real, q: real)
    ensures var before, after := Displacement(stage, dt), Displacement(Turned(stage, p, q), dt);
            after.x == before.x * p - before.y * q && after.y == before.y * p - -before.x * q
  {
    var before, u := Displacement(stage, dt), stage.control;
    DisplacementIs(stage, dt);
    DisplacementIs(Turned(stage, p, q), dt);
    hide Displacement;
    TurnedMotion(stage.cosine, stage.sine, u.x, u.y, dt, p, q, before.x, before.y);
  }

  lemma TurnedMotion(c: real, s: real, x: real, y: real, dt: real, p: real, q: real, dx: real, dy: real)
    requires dx == dt * (x * c - y * s) && dy == dt * (x * s + y * c)
    ensures dt * (x * (c * p - s * q) - y * (s * p + c * q)) == dx * p - dy * q
    ensures dt * (x * (s * p + c * q) + y * (c * p - s * q)) == dy * p + dx * q
  {
  }

  // Moving the start moves the end by as much, and nothing else of the position
  // columns is there; the heading row adds the turn of the period.
  lemma PositionCarriesOver(stage: Stage, dt: real, d: Triple)
    ensures var moved := Dynamics(stage.(state := stage.state.Plus(d)), dt).Minus(Dynamics(stage, dt));
            moved.x == d.x && moved.y == d.y
    ensures StateJacobian(stage, dt, 0) == Triple(1.0, 0.0, HeadingColumn(stage, dt).x)
    ensures StateJacobian(stage, dt, 1) == Triple(0.0, 1.0, HeadingColumn(stage, dt).y)
  {
  }

  // Before it is normalised, the next heading is the old one plus the turn.
  function NextHeading(heading: real, rate: real, dt: real): real {
    heading + rate * dt
  }

  lemma HeadingRowIsTheChange(stage: Stage, dt: real, d: Triple, u: Triple)
    ensures NextHeading(stage.state.w + d.w, stage.control.w + u.w, dt) -
            NextHeading(stage.state.w, stage.control.w, dt) ==
            Along(StateJacobian(stage, dt, 2), d) + Along(ControlJacobian(stage, dt, 2), u)
  {
    assert (stage.control.w + u.w) * dt - stage.control.w * dt == dt * u.w;
  }
}
