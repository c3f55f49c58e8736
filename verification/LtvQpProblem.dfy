/** The preallocated buffers of the LTV problem, refilled in place for one plan. */
module LtvQpProblem {
  import opened Basics
  import opened LtvQpCost
  import opened LtvQpPlan
  import opened LtvQpTracking
  import opened LtvQpConstraints
  import LtvQpDimensions

  ghost predicate EqualityRows(m: array2<real>, plan: Plan, rows: nat)
    reads m
  {
    && m.Length0 == 3 * (plan.Horizon() + 1) && m.Length1 == plan.Size() && rows <= m.Length0
    && (forall r, c | 0 <= r < rows && 0 <= c < m.Length1 :: m[r, c] == EqualityEntry(plan, r, c))
    && (forall r, c | rows <= r < m.Length0 && 0 <= c < m.Length1 :: m[r, c] == 0.0)
  }

  ghost predicate EqualityBounds(lower: array<real>, upper: array<real>, plan: Plan, rows: nat)
    reads lower, upper
  {
    && lower.Length == upper.Length == 3 * (plan.Horizon() + 1) && rows <= lower.Length
    && (forall r | 0 <= r < rows :: lower[r] == upper[r] == EqualityBound(plan, r))
  }

  lemma EntryIsDynamics(plan: Plan, row: nat, k: nat, axis: nat)
    requires k < plan.Horizon() && axis < 3 && row == 3 * (k + 1) + axis
    ensures forall c: nat :: EqualityEntry(plan, row, c) == DynamicsEntry(plan, k, axis, c)
  {
    hide DynamicsEntry;
    assert row / 3 - 1 == k && row % 3 == axis;
  }

  // One row of the linearised dynamics: two negated Jacobian rows and a unit.
  method WriteDynamicsRow(m: array2<real>, plan: Plan, k: nat, axis: nat)
    requires k < plan.Horizon() && axis < 3 && EqualityRows(m, plan, 3 * (k + 1) + axis)
    modifies m
    ensures EqualityRows(m, plan, 3 * (k + 1) + axis + 1)
  {
    hide StateJacobian, ControlJacobian, EqualityEntry;
    var row, s, c := 3 * (k + 1) + axis, plan.StateOffset(k), plan.ControlOffset(k);
    EntryIsDynamics(plan, row, k, axis);
    var a := StateJacobian(plan.stages[k], plan.limits.dt, axis);
    var b := ControlJacobian(plan.stages[k], plan.limits.dt, axis);
    m[row, s] := -a.x;
    m[row, s + 1] := -a.y;
    m[row, s + 2] := -a.w;
    m[row, c] := -b.x;
    m[row, c + 1] := -b.y;
    m[row, c + 2] := -b.w;
    m[row, s + 3 + axis] := 1.0;
  }

  method WriteInitialRows(m: array2<real>, plan: Plan)
    requires EqualityRows(m, plan, 0)
    modifies m
    ensures EqualityRows(m, plan, 3)
  {
    m[0, 0] := 1.0;
    m[1, 1] := 1.0;
    m[2, 2] := 1.0;
  }

  method ClearMatrix(m: array2<real>)
    modifies m
    ensures forall r, c | 0 <= r < m.Length0 && 0 <= c < m.Length1 :: m[r, c] == 0.0
  {
    forall r, c | 0 <= r < m.Length0 && 0 <= c < m.Length1 {
      m[r, c] := 0.0;
    }
  }

  method BuildEqualityMatrix(m: array2<real>, plan: Plan)
    requires m.Length0 == 3 * (plan.Horizon() + 1) && m.Length1 == plan.Size()
    modifies m
    ensures EqualityRows(m, plan, m.Length0)
  {
    ClearMatrix(m);
    WriteInitialRows(m, plan);
    hide EqualityRows;
    for step := 0 to plan.Horizon()
      invariant EqualityRows(m, plan, 3 * (step + 1))
    {
      WriteDynamicsRow(m, plan, step, 0);
      WriteDynamicsRow(m, plan, step, 1);
      WriteDynamicsRow(m, plan, step, 2);
    }
  }

  // The equality bounds: the initial error, then the residual of each step.
  lemma InitialBounds(plan: Plan)
    ensures var error := plan.current.Minus(plan.StateAt(0));
            EqualityBound(plan, 0) == error.x && EqualityBound(plan, 1) == error.y && EqualityBound(plan, 2) == error.w
  {
  }

  lemma ResidualBounds(plan: Plan, step: nat)
    requires step < plan.Horizon()
    ensures var row, residual := 3 * (step + 1), Residual(plan, step);
            && EqualityBound(plan, row) == residual.x
            && EqualityBound(plan, row + 1) == residual.y && EqualityBound(plan, row + 2) == residual.w
  {
    hide Residual;
    var row := 3 * (step + 1);
    assert (row + 1) / 3 == (row + 2) / 3 == step + 1;
  }

  method BuildEqualityBounds(lower: array<real>, upper: array<real>, plan: Plan)
    requires lower.Length == upper.Length == 3 * (plan.Horizon() + 1) && lower != upper
    modifies lower, upper
    ensures EqualityBounds(lower, upper, plan, lower.Length)
  {
    InitialBounds(plan);
    hide Residual, EqualityBound;
    var error := plan.current.Minus(plan.StateAt(0));
    lower[0], lower[1], lower[2] := error.x, error.y, error.w;
    upper[0], upper[1], upper[2] := error.x, error.y, error.w;
    for step := 0 to plan.Horizon()
      invariant EqualityBounds(lower, upper, plan, 3 * (step + 1))
    {
      var row, residual := 3 * (step + 1), Residual(plan, step);
      ResidualBounds(plan, step);
      lower[row], lower[row + 1], lower[row + 2] := residual.x, residual.y, residual.w;
      upper[row], upper[row + 1], upper[row + 2] := residual.x, residual.y, residual.w;
    }
  }

  ghost predicate InequalityRows(m: array2<real>, plan: Plan, rows: nat)
    reads m
  {
    && m.Length0 == 3 * plan.Horizon() && m.Length1 == plan.Size() && rows <= m.Length0
    && (forall r, c | 0 <= r < rows && 0 <= c < m.Length1 :: m[r, c] == InequalityEntry(plan, r, c))
    && (forall r, c | rows <= r < m.Length0 && 0 <= c < m.Length1 :: m[r, c] == 0.0)
  }

  method WriteIncrementRow(m: array2<real>, plan: Plan, k: nat, axis: nat)
    requires k < plan.Horizon() && axis < 3 && InequalityRows(m, plan, 3 * k + axis)
    modifies m
    ensures InequalityRows(m, plan, 3 * k + axis + 1)
  {
    var row, c := 3 * k + axis, plan.ControlOffset(k) + axis;
    assert row / 3 == k && row % 3 == axis;
    m[row, c] := 1.0;
    if k > 0 {
      m[row, c - 3] := -1.0;
    }
  }

  method BuildInequalityMatrix(m: array2<real>, plan: Plan)
    requires m.Length0 == 3 * plan.Horizon() && m.Length1 == plan.Size()
    modifies m
    ensures InequalityRows(m, plan, m.Length0)
  {
    ClearMatrix(m);
    assert InequalityRows(m, plan, 0);
    hide InequalityRows;
    for step := 0 to plan.Horizon()
      invariant InequalityRows(m, plan, 3 * step)
    {
      WriteIncrementRow(m, plan, step, 0);
      WriteIncrementRow(m, plan, step, 1);
      WriteIncrementRow(m, plan, step, 2);
    }
  }

  ghost predicate InequalityBounds(lower: array<real>, upper: array<real>, plan: Plan, rows: nat)
    reads lower, upper
  {
    && lower.Length == upper.Length == 3 * plan.Horizon() && rows <= lower.Length
    && (forall r | 0 <= r < rows :: lower[r] == InequalityLower(plan, r) && upper[r] == InequalityUpper(plan, r))
  }

  method BuildInequalityBounds(lower: array<real>, upper: array<real>, plan: Plan)
    requires lower.Length == upper.Length == 3 * plan.Horizon() && lower != upper
    modifies lower, upper
    ensures InequalityBounds(lower, upper, plan, lower.Length)
  {
    hide MaximumDelta;
    var limit := MaximumDelta(plan);
    for step := 0 to plan.Horizon()
      invariant InequalityBounds(lower, upper, plan, 3 * step)
    {
      var row, delta := 3 * step, plan.NominalDelta(step);
      assert (row + 1) / 3 == (row + 2) / 3 == step;
      lower[row], lower[row + 1], lower[row + 2] := -limit.x - delta.x, -limit.y - delta.y, -limit.w - delta.w;
      upper[row], upper[row + 1], upper[row + 2] := limit.x - delta.x, limit.y - delta.y, limit.w - delta.w;
    }
  }

  ghost predicate VariableBounds(lower: array<Option<real>>, upper: array<Option<real>>, plan: Plan, columns: nat)
    reads lower, upper
  {
    && lower.Length == upper.Length == plan.Size() && columns <= lower.Length
    && (forall c | 0 <= c < columns :: lower[c] == LowerBound(plan, c) && upper[c] == UpperBound(plan, c))
  }

  // The bounds on the control of one step.
  lemma StepBounds(plan: Plan, k: nat)
    requires k < plan.Horizon()
    ensures var c, limit, control := plan.ControlOffset(k), plan.limits.velocity, plan.stages[k].control;
            && c + 3 == plan.ControlOffset(k + 1) <= plan.Size()
            && LowerBound(plan, c) == Some(-limit.x - control.x) && UpperBound(plan, c) == Some(limit.x - control.x)
            && LowerBound(plan, c + 1) == Some(-limit.y - control.y)
            && UpperBound(plan, c + 1) == Some(limit.y - control.y)
            && LowerBound(plan, c + 2) == Some(-limit.w - control.w)
            && UpperBound(plan, c + 2) == Some(limit.w - control.w)
  {
    var j := plan.ControlOffset(k) - plan.ControlOffset(0);
    assert j / 3 == (j + 1) / 3 == (j + 2) / 3 == k;
  }

  method WriteVariableBounds(lower: array<Option<real>>, upper: array<Option<real>>, plan: Plan, k: nat)
    requires k < plan.Horizon() && VariableBounds(lower, upper, plan, plan.ControlOffset(k)) && lower != upper
    modifies lower, upper
    ensures VariableBounds(lower, upper, plan, plan.ControlOffset(k + 1))
  {
    var c, limit, control := plan.ControlOffset(k), plan.limits.velocity, plan.stages[k].control;
    StepBounds(plan, k);
    hide LowerBound, UpperBound;
    lower[c], lower[c + 1], lower[c + 2] :=
      Some(-limit.x - control.x), Some(-limit.y - control.y), Some(-limit.w - control.w);
    upper[c], upper[c + 1], upper[c + 2] :=
      Some(limit.x - control.x), Some(limit.y - control.y), Some(limit.w - control.w);
  }

  method BuildVariableBounds(lower: array<Option<real>>, upper: array<Option<real>>, plan: Plan)
    requires lower.Length == upper.Length == plan.Size() && lower != upper
    modifies lower, upper
    ensures VariableBounds(lower, upper, plan, lower.Length)
  {
    forall c | 0 <= c < lower.Length {
      lower[c] := None;
    }
    forall c | 0 <= c < upper.Length {
      upper[c] := None;
    }
    assert VariableBounds(lower, upper, plan, plan.ControlOffset(0));
    hide VariableBounds;
    for step := 0 to plan.Horizon()
      invariant VariableBounds(lower, upper, plan, plan.ControlOffset(step))
    {
      WriteVariableBounds(lower, upper, plan, step);
    }
  }

  predicate ValidWheels(wheels: Wheels) {
    wheels.baseX >= 0.0 && wheels.baseY >= 0.0 && wheels.speed >= 0.0 && wheels.acceleration >= 0.0 &&
    wheels.steerRate >= 0.0
  }

  predicate ValidPlan(plan: Plan) {
    && plan.limits.dt > 0.0 && NonNegative(plan.limits.velocity) && NonNegative(plan.limits.acceleration)
    && ValidWheels(plan.limits.wheels) && ValidWeights(plan.weights)
  }

  class Problem {
    const horizon: nat
    const hessian: array2<real>
    const gradient: array<real>
    const equality: array2<real>
    const equalityLower: array<real>
    const equalityUpper: array<real>
    const inequality: array2<real>
    const inequalityLower: array<real>
    const inequalityUpper: array<real>
    const lower: array<Option<real>>
    const upper: array<Option<real>>
    var valid: bool

    // The buffers have the sizes of the horizon, and share no storage.
    ghost predicate HasLayout() {
      && 1 <= horizon <= LtvQpDimensions.MAXIMUM_HORIZON
      && hessian.Length0 == hessian.Length1 == gradient.Length == 6 * horizon + 3
      && equality.Length0 == equalityLower.Length == equalityUpper.Length == 3 * (horizon + 1) &&
         equality.Length1 == 6 * horizon + 3
      && inequality.Length0 == inequalityLower.Length == inequalityUpper.Length == 3 * horizon &&
         inequality.Length1 == 6 * horizon + 3
      && lower.Length == upper.Length == 6 * horizon + 3
      && hessian != equality && hessian != inequality && equality != inequality && lower != upper
      && gradient != equalityLower && gradient != equalityUpper && gradient != inequalityLower &&
         gradient != inequalityUpper
      && equalityLower != equalityUpper && equalityLower != inequalityLower && equalityLower != inequalityUpper
      && equalityUpper != inequalityLower && equalityUpper != inequalityUpper && inequalityLower != inequalityUpper
    }

    constructor (horizon: nat)
      requires 1 <= horizon <= LtvQpDimensions.MAXIMUM_HORIZON
      ensures this.horizon == horizon && HasLayout() && !valid
      ensures fresh(hessian) && fresh(gradient) && fresh(equality) && fresh(equalityLower) && fresh(equalityUpper)
      ensures fresh(inequality) && fresh(inequalityLower) && fresh(inequalityUpper) && fresh(lower) && fresh(upper)
    {
      this.horizon := horizon;
      hessian := new real[6 * horizon + 3, 6 * horizon + 3];
      gradient := new real[6 * horizon + 3];
      equality := new real[3 * (horizon + 1), 6 * horizon + 3];
      equalityLower := new real[3 * (horizon + 1)];
      equalityUpper := new real[3 * (horizon + 1)];
      inequality := new real[3 * horizon, 6 * horizon + 3];
      inequalityLower := new real[3 * horizon];
      inequalityUpper := new real[3 * horizon];
      lower := new Option<real>[6 * horizon + 3];
      upper := new Option<real>[6 * horizon + 3];
      valid := false;
    }

    ghost predicate Describes(plan: Plan)
      requires HasLayout()
      reads hessian, gradient, equality, equalityLower, equalityUpper, inequality, inequalityLower, inequalityUpper,
            lower, upper
    {
      && plan.Horizon() == horizon
      && Holds(hessian, gradient, plan.Size(), AllTerms(plan))
      && EqualityRows(equality, plan, equality.Length0) &&
         EqualityBounds(equalityLower, equalityUpper, plan, equalityLower.Length)
      && InequalityRows(inequality, plan, inequality.Length0)
      && InequalityBounds(inequalityLower, inequalityUpper, plan, inequalityLower.Length)
      && VariableBounds(lower, upper, plan, lower.Length)
    }

    // Refills every number for the plan; refuses plans that are not valid.
    method Build(plan: Plan) returns (built: bool)
      requires HasLayout()
      modifies this`valid, hessian, gradient, equality, equalityLower, equalityUpper, inequality, inequalityLower,
               inequalityUpper,
               lower, upper
      ensures valid == built == (plan.Horizon() == horizon && ValidPlan(plan))
      ensures built ==> Describes(plan)
    {
      valid := false;
      if plan.Horizon() != horizon || !ValidPlan(plan) {
        return false;
      }
      hide Holds, AllTerms, EqualityRows, EqualityBounds, InequalityRows, InequalityBounds, VariableBounds, ValidPlan;
      FillMatrices(plan);
      FillBounds(plan);
      valid := true;
      return true;
    }

    method FillMatrices(plan: Plan)
      requires HasLayout() && plan.Horizon() == horizon
      modifies hessian, gradient, equality, inequality
      ensures Holds(hessian, gradient, plan.Size(), AllTerms(plan))
      ensures EqualityRows(equality, plan, equality.Length0) && InequalityRows(inequality, plan, inequality.Length0)
    {
      hide Holds, AllTerms, EqualityRows, InequalityRows;
      BuildCost(hessian, gradient, plan);
      BuildEqualityMatrix(equality, plan);
      BuildInequalityMatrix(inequality, plan);
    }

    method FillBounds(plan: Plan)
      requires HasLayout() && plan.Horizon() == horizon
      modifies equalityLower, equalityUpper, inequalityLower, inequalityUpper, lower, upper
      ensures EqualityBounds(equalityLower, equalityUpper, plan, equalityLower.Length)
      ensures InequalityBounds(inequalityLower, inequalityUpper, plan, inequalityLower.Length)
      ensures VariableBounds(lower, upper, plan, lower.Length)
    {
      hide EqualityBounds, InequalityBounds, VariableBounds;
      BuildEqualityBounds(equalityLower, equalityUpper, plan);
      BuildInequalityBounds(inequalityLower, inequalityUpper, plan);
      BuildVariableBounds(lower, upper, plan);
    }
  }

  // The final check for ordered bounds refuses nothing that the input checks admit.
  lemma BoundsAreOrdered(plan: Plan)
    requires ValidPlan(plan)
    ensures forall r | 0 <= r < 3 * plan.Horizon() :: InequalityLower(plan, r) <= InequalityUpper(plan, r)
    ensures forall c | 0 <= c < plan.Size() && LowerBound(plan, c).Some? ::
              UpperBound(plan, c).Some? && LowerBound(plan, c).value <= UpperBound(plan, c).value
  {
    var a, dt := plan.limits.acceleration, plan.limits.dt;
    assert dt * a.x >= 0.0 && dt * a.y >= 0.0 && dt * a.w >= 0.0;
    assert NonNegative(MaximumDelta(plan));
    hide MaximumDelta;
  }
}
