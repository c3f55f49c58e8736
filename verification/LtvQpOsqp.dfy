/** The solver adapter: layouts fixed at construction, values refilled per cycle. */
module LtvQpOsqp {
  import opened Basics
  import opened LtvQpPlan
  import opened LtvQpCost
  import opened LtvQpTracking
  import opened LtvQpSparse
  import LtvQpProblem
  import LtvQpDimensions
  import opened Csc

  // The bounds of the stack: equality, inequality, then the variables.
  function StackedBound(equality: array<real>, inequality: array<real>, variables: array<Option<real>>,
                        r: nat): Option<real>
    requires r < equality.Length + inequality.Length + variables.Length
    reads equality, inequality, variables
  {
    if r < equality.Length then Some(equality[r])
    else if r < equality.Length + inequality.Length then Some(inequality[r - equality.Length])
    else variables[r - equality.Length - inequality.Length]
  }

  class LtvQpOsqpSolver {
    const horizon: nat
    const hessianStructure: Structure
    const constraintStructure: Structure
    ghost const hessianColumns: seq<seq<int>>
    ghost const constraintColumns: seq<seq<int>>
    const hessianValues: array<real>
    const constraintValues: array<real>
    const gradient: array<real>
    const lower: array<Option<real>>
    const upper: array<Option<real>>

    ghost predicate Valid() {
      && horizon > 0
      && Csc.Valid(hessianStructure) && hessianStructure.rows == hessianStructure.columns == Decision(horizon)
      && HessianStarted(hessianStructure, horizon, Decision(horizon), hessianColumns)
      && Csc.Valid(constraintStructure) && constraintStructure.rows == Rows(horizon) &&
         constraintStructure.columns == Decision(horizon)
      && Lays(constraintStructure, constraintColumns) && |constraintColumns| == Decision(horizon)
      && (forall c | 0 <= c < Decision(horizon) :: HoldsTouched(horizon, c, constraintColumns[c]))
      && hessianValues.Length == |hessianStructure.indices| && constraintValues.Length == |constraintStructure.indices|
      && gradient.Length == Decision(horizon) && lower.Length == upper.Length == Rows(horizon)
      && hessianValues != constraintValues && hessianValues != gradient && constraintValues != gradient &&
         lower != upper
    }

    constructor (horizon: nat)
      requires 1 <= horizon <= LtvQpDimensions.MAXIMUM_HORIZON
      ensures this.horizon == horizon && Valid()
      ensures fresh(hessianValues) && fresh(constraintValues) && fresh(gradient) && fresh(lower) && fresh(upper)
    {
      hide Csc.Valid, HessianStarted, Lays, HoldsTouched;
      this.horizon := horizon;
      var hessian, ghostColumns := LtvHessianPattern(horizon);
      var constraints, ghostRows := LtvConstraintPattern(horizon);
      hessianStructure, hessianColumns := hessian, ghostColumns;
      constraintStructure, constraintColumns := constraints, ghostRows;
      hessianValues := new real[|hessian.indices|];
      constraintValues := new real[|constraints.indices|];
      gradient := new real[Decision(horizon)];
      lower := new Option<real>[Rows(horizon)];
      upper := new Option<real>[Rows(horizon)];
    }

    ghost predicate Apart(problem: LtvQpProblem.Problem) {
      && {hessianValues, constraintValues, gradient} !!
         {problem.gradient, problem.equalityLower, problem.equalityUpper, problem.inequalityLower,
          problem.inequalityUpper}
      && {lower, upper} !! {problem.lower, problem.upper}
    }

    // Copies a valid problem of this horizon, or refuses and changes nothing.
    method CopyLtvNumericalValues(problem: LtvQpProblem.Problem) returns (copied: bool)
      requires Valid() && problem.HasLayout() && Apart(problem)
      modifies hessianValues, constraintValues, gradient, lower, upper
      ensures copied <==> problem.valid && problem.horizon == horizon
      ensures !copied ==> unchanged(hessianValues, constraintValues, gradient, lower, upper)
      ensures copied ==>
                HessianFilled(hessianStructure, hessianValues, problem.hessian, |hessianStructure.indices|) &&
                ConstraintsFilled(constraintStructure, constraintValues, problem.equality, problem.inequality,
                                  |constraintStructure.indices|) &&
                gradient[..] == problem.gradient[..] &&
                (forall r | 0 <= r < Rows(horizon) ::
                   lower[r] == StackedBound(problem.equalityLower, problem.inequalityLower, problem.lower, r) &&
                   upper[r] == StackedBound(problem.equalityUpper, problem.inequalityUpper, problem.upper, r))
    {
      if !problem.valid || problem.horizon != horizon {
        return false;
      }
      hide Csc.Valid, HessianStarted, Lays, HoldsTouched, HessianFilled, ConstraintsFilled;
      CopyHessian(hessianStructure, problem.hessian, hessianValues);
      CopyConstraints(constraintStructure, problem.equality, problem.inequality, constraintValues);
      CopyGradient(problem.gradient, gradient);
      CopyBounds(problem.equalityLower, problem.inequalityLower, problem.lower, lower);
      CopyBounds(problem.equalityUpper, problem.inequalityUpper, problem.upper, upper);
      return true;
    }
  }

  method CopyGradient(source: array<real>, target: array<real>)
    requires source.Length == target.Length && source != target
    modifies target
    ensures target[..] == source[..]
  {
    for column := 0 to target.Length
      invariant target[..column] == source[..column]
    {
      target[column] := source[column];
    }
    assert target[..] == target[..target.Length] == source[..source.Length] == source[..];
  }

  method CopyBounds(equality: array<real>, inequality: array<real>, variables: array<Option<real>>,
                    target: array<Option<real>>)
    requires target.Length == equality.Length + inequality.Length + variables.Length && target != variables
    modifies target
    ensures forall r | 0 <= r < target.Length :: target[r] == StackedBound(equality, inequality, variables, r)
  {
    for row := 0 to equality.Length
      invariant forall r | 0 <= r < row :: target[r] == StackedBound(equality, inequality, variables, r)
    {
      target[row] := Some(equality[row]);
    }
    var start := equality.Length;
    for row := 0 to inequality.Length
      invariant forall r | 0 <= r < start + row :: target[r] == StackedBound(equality, inequality, variables, r)
    {
      target[start + row] := Some(inequality[row]);
    }
    start := equality.Length + inequality.Length;
    for row := 0 to variables.Length
      invariant forall r | 0 <= r < start + row :: target[r] == StackedBound(equality, inequality, variables, r)
    {
      target[start + row] := variables[row];
    }
  }

  // From a plan to the solver: what is handed over is the plan's own cost and
  // constraints. The stored Hessian's upper triangle and the stored constraint
  // matrix are the dense ones, entry by entry.
  lemma HandedOverIsThePlan(problem: LtvQpProblem.Problem, solver: LtvQpOsqpSolver, plan: Plan, r: nat, c: nat)
    requires problem.HasLayout() && problem.Describes(plan) && solver.Valid() && problem.horizon == solver.horizon
    requires HessianFilled(solver.hessianStructure, solver.hessianValues, problem.hessian,
                           |solver.hessianStructure.indices|)
    requires ConstraintsFilled(solver.constraintStructure, solver.constraintValues, problem.equality,
                               problem.inequality,
                               |solver.constraintStructure.indices|)
    requires r < Rows(solver.horizon) && c < Decision(solver.horizon)
    ensures r < Decision(solver.horizon) ==>
              ColumnInRange(solver.hessianStructure, c) &&
              Entry(solver.hessianStructure, solver.hessianValues[..], r, c) == if r <= c
              then Hessian(AllTerms(plan), r, c) else 0.0
    ensures ColumnInRange(solver.constraintStructure, c) &&
            Entry(solver.constraintStructure, solver.constraintValues[..], r, c) == StackEntry(plan, r, c)
  {
    hide Csc.Valid, Lays, HoldsTouched, HessianFilled, ConstraintsFilled, AllTerms, Hessian, StackEntry, ColumnInRange,
      Entry,
      LtvQpProblem.EqualityRows, LtvQpProblem.InequalityRows;
    ConstraintsAreRestored(plan, solver.constraintStructure, solver.constraintColumns, solver.constraintValues,
                           problem.equality,
                           problem.inequality, r, c);
    if r < Decision(solver.horizon) {
      HessianIsRestored(plan, solver.hessianStructure, solver.hessianColumns, solver.hessianValues, problem.hessian,
                        problem.gradient, r, c);
    }
  }
}
