/** The constraint rows of the LTV problem and what they mean: initial state,
    linearised dynamics, control increments, and control bounds. */
module LtvQpConstraints {
  import opened Basics
  import opened LtvQpCost
  import opened LtvQpPlan
  import opened LtvQpTracking

  // The discrete dynamics at a nominal step and the rows of their Jacobians.
  function Dynamics(stage: Stage, dt: real): Triple {
    Triple(stage.state.x + dt * (stage.control.x * stage.cosine - stage.control.y * stage.sine),
           stage.state.y + dt * (stage.control.x * stage.sine + stage.control.y * stage.cosine),
           stage.heading)
  }

  function StateJacobian(stage: Stage, dt: real, axis: nat): Triple {
    if axis == 0 then Triple(1.0, 0.0, dt * (-stage.control.x * stage.sine - stage.control.y * stage.cosine))
    else if axis == 1 then Triple(0.0, 1.0, dt * (stage.control.x * stage.cosine - stage.control.y * stage.sine))
    else Triple(0.0, 0.0, 1.0)
  }

  function ControlJacobian(stage: Stage, dt: real, axis: nat): Triple {
    if axis == 0 then Triple(dt * stage.cosine, -dt * stage.sine, 0.0)
    else if axis == 1 then Triple(dt * stage.sine, dt * stage.cosine, 0.0)
    else Triple(0.0, 0.0, dt)
  }

  function Residual(plan: Plan, k: nat): Triple
    requires k < plan.Horizon()
  {
    Dynamics(plan.stages[k], plan.limits.dt).Minus(plan.StateAt(k + 1))
  }

  // The part of a row inside a block of three columns that starts at an offset.
  function Within(offset: nat, col: nat): bool {
    offset <= col < offset + 3
  }

  function DynamicsEntry(plan: Plan, k: nat, axis: nat, col: nat): real
    requires k < plan.Horizon() && axis < 3
  {
    var stage, dt := plan.stages[k], plan.limits.dt;
    if Within(plan.StateOffset(k), col) then -StateJacobian(stage, dt, axis).At(col - plan.StateOffset(k))
    else if Within(plan.StateOffset(k + 1), col) then (if col == plan.StateOffset(k + 1) + axis then 1.0 else 0.0)
    else if Within(plan.ControlOffset(k), col) then -ControlJacobian(stage, dt, axis).At(col - plan.ControlOffset(k))
    else 0.0
  }

  function IncrementEntry(plan: Plan, k: nat, axis: nat, col: nat): real {
    if col == plan.ControlOffset(k) + axis then 1.0
    else if k > 0 && col == plan.ControlOffset(k - 1) + axis then -1.0
    else 0.0
  }

  // The two matrices, row by row.
  function EqualityEntry(plan: Plan, row: nat, col: nat): real
    requires row < 3 * (plan.Horizon() + 1)
  {
    if row < 3 then (if col == row then 1.0 else 0.0) else DynamicsEntry(plan, row / 3 - 1, row % 3, col)
  }

  function InequalityEntry(plan: Plan, row: nat, col: nat): real {
    IncrementEntry(plan, row / 3, row % 3, col)
  }

  function EqualityBound(plan: Plan, row: nat): real
    requires row < 3 * (plan.Horizon() + 1)
  {
    if row < 3 then plan.current.Minus(plan.StateAt(0)).At(row) else Residual(plan, row / 3 - 1).At(row % 3)
  }

  function MaximumDelta(plan: Plan): Triple {
    plan.limits.acceleration.Times(plan.limits.dt)
  }

  function InequalityLower(plan: Plan, row: nat): real
    requires row < 3 * plan.Horizon()
  {
    -MaximumDelta(plan).At(row % 3) - plan.NominalDelta(row / 3).At(row % 3)
  }

  function InequalityUpper(plan: Plan, row: nat): real
    requires row < 3 * plan.Horizon()
  {
    MaximumDelta(plan).At(row % 3) - plan.NominalDelta(row / 3).At(row % 3)
  }

  // None is an infinite bound.
  function LowerBound(plan: Plan, col: nat): Option<real>
    requires col < plan.Size()
  {
    var k := col - plan.ControlOffset(0);
    if k < 0 then None else Some(-plan.limits.velocity.At(k % 3) - plan.stages[k / 3].control.At(k % 3))
  }

  function UpperBound(plan: Plan, col: nat): Option<real>
    requires col < plan.Size()
  {
    var k := col - plan.ControlOffset(0);
    if k < 0 then None else Some(plan.limits.velocity.At(k % 3) - plan.stages[k / 3].control.At(k % 3))
  }

  // A row times a decision, over the columns [lo, hi).
  function Row(plan: Plan, equality: bool, row: nat, col: nat): real
    requires equality ==> row < 3 * (plan.Horizon() + 1)
  {
    if equality then EqualityEntry(plan, row, col) else InequalityEntry(plan, row, col)
  }

  function RowSum(plan: Plan, equality: bool, row: nat, lo: nat, hi: nat, z: seq<real>): real
    requires lo <= hi <= |z| && (equality ==> row < 3 * (plan.Horizon() + 1))
    decreases hi
  {
    if lo == hi then 0.0
    else RowSum(plan, equality, row, lo, hi - 1, z) + Times(Row(plan, equality, row, hi - 1), z[hi - 1])
  }

  function Product(plan: Plan, equality: bool, row: nat, z: seq<real>): real
    requires equality ==> row < 3 * (plan.Horizon() + 1)
  {
    RowSum(plan, equality, row, 0, |z|, z)
  }

  lemma {:induction false} SplitSum(plan: Plan, equality: bool, row: nat, lo: nat, mid: nat, hi: nat, z: seq<real>)
    requires lo <= mid <= hi <= |z| && (equality ==> row < 3 * (plan.Horizon() + 1))
    ensures RowSum(plan, equality, row, lo, hi, z) ==
              RowSum(plan, equality, row, lo, mid, z) + RowSum(plan, equality, row, mid, hi, z)
    decreases hi
  {
    hide Row, Times;
    if mid < hi {
      SplitSum(plan, equality, row, lo, mid, hi - 1, z);
    }
  }

  lemma {:induction false} ZeroSum(plan: Plan, equality: bool, row: nat, lo: nat, hi: nat, z: seq<real>)
    requires lo <= hi <= |z| && (equality ==> row < 3 * (plan.Horizon() + 1))
    requires forall c | lo <= c < hi :: Row(plan, equality, row, c) == 0.0
    ensures RowSum(plan, equality, row, lo, hi, z) == 0.0
    decreases hi
  {
    hide Row;
    if lo < hi {
      ZeroSum(plan, equality, row, lo, hi - 1, z);
    }
  }

  function Along(v: Triple, u: Triple): real {
    LtvQpCost.Times(v.x, u.x) + LtvQpCost.Times(v.y, u.y) + LtvQpCost.Times(v.w, u.w)
  }

  function Three(z: seq<real>, offset: nat): Triple
    requires offset + 2 < |z|
  {
    Triple(z[offset], z[offset + 1], z[offset + 2])
  }

  lemma BlockSum(plan: Plan, equality: bool, row: nat, offset: nat, v: Triple, z: seq<real>)
    requires offset + 2 < |z| && (equality ==> row < 3 * (plan.Horizon() + 1))
    requires Row(plan, equality, row, offset) == v.x && Row(plan, equality, row, offset + 1) == v.y &&
             Row(plan, equality, row, offset + 2) == v.w
    ensures RowSum(plan, equality, row, offset, offset + 3, z) == Along(v, Three(z, offset))
  {
    hide Row, Times;
    assert RowSum(plan, equality, row, offset, offset, z) == 0.0;
    assert RowSum(plan, equality, row, offset, offset + 1, z) == LtvQpCost.Times(v.x, z[offset]);
    assert RowSum(plan, equality, row, offset, offset + 2, z) ==
             LtvQpCost.Times(v.x, z[offset]) + LtvQpCost.Times(v.y, z[offset + 1]);
  }

  function Negated(v: Triple): Triple {
    Triple(-v.x, -v.y, -v.w)
  }

  lemma NegatedAlong(v: Triple, u: Triple)
    ensures Along(Negated(v), u) == -Along(v, u)
  {
  }

  function Unit(axis: nat): Triple {
    Triple(if axis == 0 then 1.0 else 0.0, if axis == 1 then 1.0 else 0.0, if axis == 2 then 1.0 else 0.0)
  }

  lemma UnitAlong(axis: nat, u: Triple)
    requires axis < 3
    ensures Along(Unit(axis), u) == u.At(axis)
  {
  }

  // A row holds these three entries at an offset.
  ghost predicate HasBlock(plan: Plan, equality: bool, row: nat, offset: nat, v: Triple)
    requires equality ==> row < 3 * (plan.Horizon() + 1)
  {
    Row(plan, equality, row, offset) == v.x && Row(plan, equality, row, offset + 1) == v.y &&
    Row(plan, equality, row, offset + 2) == v.w
  }

  ghost predicate IsZero(plan: Plan, equality: bool, row: nat, lo: nat, hi: nat)
    requires equality ==> row < 3 * (plan.Horizon() + 1)
  {
    forall c | lo <= c < hi :: Row(plan, equality, row, c) == 0.0
  }

  // What one dynamics row of the matrix contains.
  lemma DynamicsRowBlocks(plan: Plan, k: nat, axis: nat, row: nat)
    requires k < plan.Horizon() && axis < 3 && row == 3 * (k + 1) + axis
    ensures HasBlock(plan, true, row, 3 * k, Negated(StateJacobian(plan.stages[k], plan.limits.dt, axis)))
    ensures HasBlock(plan, true, row, 3 * k + 3, Unit(axis))
    ensures HasBlock(plan, true, row, plan.ControlOffset(k),
                     Negated(ControlJacobian(plan.stages[k], plan.limits.dt, axis)))
    ensures IsZero(plan, true, row, 0, 3 * k) && IsZero(plan, true, row, 3 * k + 6, plan.ControlOffset(k)) &&
            IsZero(plan, true, row, plan.ControlOffset(k) + 3, plan.Size())
  {
    hide StateJacobian, ControlJacobian;
    assert row / 3 - 1 == k && row % 3 == axis;
  }

  // A sum over all columns, cut at the blocks of a dynamics row.
  lemma DynamicsParts(plan: Plan, row: nat, s: nat, c: nat, z: seq<real>)
    requires s + 6 <= c && c + 3 <= |z| && row < 3 * (plan.Horizon() + 1)
    ensures RowSum(plan, true, row, 0, |z|, z) ==
            RowSum(plan, true, row, 0, s, z) + RowSum(plan, true, row, s, s + 3, z) +
            RowSum(plan, true, row, s + 3, s + 6, z) + RowSum(plan, true, row, s + 6, c, z) +
            RowSum(plan, true, row, c, c + 3, z) + RowSum(plan, true, row, c + 3, |z|, z)
  {
    hide Row, RowSum;
    SplitSum(plan, true, row, 0, s, |z|, z);
    SplitSum(plan, true, row, s, s + 3, |z|, z);
    SplitSum(plan, true, row, s + 3, s + 6, |z|, z);
    SplitSum(plan, true, row, s + 6, c, |z|, z);
    SplitSum(plan, true, row, c, c + 3, |z|, z);
  }

  // A block holds the negated row of a Jacobian.
  lemma NegatedBlockSum(plan: Plan, row: nat, offset: nat, v: Triple, z: seq<real>)
    requires offset + 2 < |z| && row < 3 * (plan.Horizon() + 1) && HasBlock(plan, true, row, offset, Negated(v))
    ensures RowSum(plan, true, row, offset, offset + 3, z) == -Along(v, Three(z, offset))
  {
    hide Row, RowSum, Negated, Along;
    BlockSum(plan, true, row, offset, Negated(v), z);
    NegatedAlong(v, Three(z, offset));
  }

  lemma UnitBlockSum(plan: Plan, row: nat, offset: nat, axis: nat, z: seq<real>)
    requires offset + 2 < |z| && row < 3 * (plan.Horizon() + 1) && axis < 3
    requires HasBlock(plan, true, row, offset, Unit(axis))
    ensures RowSum(plan, true, row, offset, offset + 3, z) == Three(z, offset).At(axis)
  {
    hide Row, RowSum, Unit, Along;
    BlockSum(plan, true, row, offset, Unit(axis), z);
    UnitAlong(axis, Three(z, offset));
  }

  lemma GapSum(plan: Plan, row: nat, lo: nat, hi: nat, z: seq<real>)
    requires lo <= hi <= |z| && row < 3 * (plan.Horizon() + 1) && IsZero(plan, true, row, lo, hi)
    ensures RowSum(plan, true, row, lo, hi, z) == 0.0
  {
    hide Row, RowSum;
    ZeroSum(plan, true, row, lo, hi, z);
  }

  lemma DynamicsProduct(plan: Plan, k: nat, axis: nat, z: seq<real>)
    requires k < plan.Horizon() && axis < 3 && |z| == plan.Size()
    ensures Product(plan, true, 3 * (k + 1) + axis, z) ==
            StateDeviation(plan, z, k + 1).At(axis) -
            Along(StateJacobian(plan.stages[k], plan.limits.dt, axis), StateDeviation(plan, z, k)) -
            Along(ControlJacobian(plan.stages[k], plan.limits.dt, axis), ControlDeviation(plan, z, k))
  {
    hide RowSum, HasBlock, IsZero, StateJacobian, ControlJacobian, Along;
    var row, s, c := 3 * (k + 1) + axis, 3 * k, plan.ControlOffset(k);
    DynamicsRowBlocks(plan, k, axis, row);
    DynamicsParts(plan, row, s, c, z);
    GapSum(plan, row, 0, s, z);
    NegatedBlockSum(plan, row, s, StateJacobian(plan.stages[k], plan.limits.dt, axis), z);
    UnitBlockSum(plan, row, s + 3, axis, z);
    GapSum(plan, row, s + 6, c, z);
    NegatedBlockSum(plan, row, c, ControlJacobian(plan.stages[k], plan.limits.dt, axis), z);
    GapSum(plan, row, c + 3, |z|, z);
  }

  lemma InitialProduct(plan: Plan, axis: nat, z: seq<real>)
    requires axis < 3 && |z| == plan.Size()
    ensures Product(plan, true, axis, z) == StateDeviation(plan, z, 0).At(axis)
  {
    BlockSum(plan, true, axis, 0, Unit(axis), z);
    ZeroSum(plan, true, axis, 3, |z|, z);
    hide RowSum, Along;
    SplitSum(plan, true, axis, 0, 3, |z|, z);
    UnitAlong(axis, Three(z, 0));
  }

  lemma IncrementRow(plan: Plan, k: nat, axis: nat, row: nat)
    requires axis < 3 && row == 3 * k + axis
    ensures forall c :: Row(plan, false, row, c) == IncrementEntry(plan, k, axis, c)
  {
    assert row / 3 == k && row % 3 == axis;
  }

  lemma IncrementProduct(plan: Plan, k: nat, axis: nat, z: seq<real>)
    requires k < plan.Horizon() && axis < 3 && |z| == plan.Size()
    ensures Product(plan, false, 3 * k + axis, z) ==
            ControlDeviation(plan, z, k).At(axis) - if k == 0 then 0.0 else ControlDeviation(plan, z, k - 1).At(axis)
  {
    var row, c, n := 3 * k + axis, plan.ControlOffset(k), |z|;
    IncrementRow(plan, k, axis, row);
    hide Row;
    BlockSum(plan, false, row, c, Unit(axis), z);
    ZeroSum(plan, false, row, c + 3, n, z);
    UnitAlong(axis, Three(z, c));
    if k == 0 {
      ZeroSum(plan, false, row, 0, c, z);
    } else {
      BlockSum(plan, false, row, c - 3, Negated(Unit(axis)), z);
      NegatedAlong(Unit(axis), Three(z, c - 3));
      UnitAlong(axis, Three(z, c - 3));
      ZeroSum(plan, false, row, 0, c - 3, z);
    }
    hide RowSum, Along, IncrementEntry;
    SplitSum(plan, false, row, 0, c, n, z);
    SplitSum(plan, false, row, c, c + 3, n, z);
    if k > 0 {
      SplitSum(plan, false, row, 0, c - 3, c, z);
    }
  }

  // What the built rows and bounds ask of a decision.
  ghost predicate InitialHolds(plan: Plan, z: seq<real>)
    requires |z| == plan.Size()
  {
    forall row | 0 <= row < 3 :: Product(plan, true, row, z) == EqualityBound(plan, row)
  }

  ghost predicate DynamicsHold(plan: Plan, z: seq<real>, k: nat, axis: nat)
    requires |z| == plan.Size() && k < plan.Horizon() && axis < 3
  {
    var row := 3 * (k + 1) + axis;
    Product(plan, true, row, z) == EqualityBound(plan, row)
  }

  ghost predicate IncrementHolds(plan: Plan, z: seq<real>, k: nat, axis: nat)
    requires |z| == plan.Size() && k < plan.Horizon() && axis < 3
  {
    InequalityLower(plan, 3 * k + axis) <= Product(plan, false, 3 * k + axis, z) <= InequalityUpper(plan, 3 * k + axis)
  }

  ghost predicate BoundsHold(plan: Plan, z: seq<real>, col: nat)
    requires |z| == plan.Size() && col < plan.Size()
  {
    && (LowerBound(plan, col).Some? ==> LowerBound(plan, col).value <= z[col])
    && (UpperBound(plan, col).Some? ==> z[col] <= UpperBound(plan, col).value)
  }

  ghost predicate Feasible(plan: Plan, z: seq<real>)
    requires |z| == plan.Size()
  {
    && InitialHolds(plan, z)
    && (forall k, axis | 0 <= k < plan.Horizon() && 0 <= axis < 3 :: DynamicsHold(plan, z, k, axis))
    && (forall k, axis | 0 <= k < plan.Horizon() && 0 <= axis < 3 :: IncrementHolds(plan, z, k, axis))
    && (forall col | 0 <= col < plan.Size() :: BoundsHold(plan, z, col))
  }

  // The same, said of the trajectory that the decision describes.
  function StateOf(plan: Plan, z: seq<real>, k: nat): Triple
    requires |z| == plan.Size() && k <= plan.Horizon()
  {
    plan.StateAt(k).Plus(StateDeviation(plan, z, k))
  }

  function Linearised(plan: Plan, z: seq<real>, k: nat, axis: nat): real
    requires |z| == plan.Size() && k < plan.Horizon() && axis < 3
  {
    Dynamics(plan.stages[k], plan.limits.dt).At(axis) +
    Along(StateJacobian(plan.stages[k], plan.limits.dt, axis), StateDeviation(plan, z, k)) +
    Along(ControlJacobian(plan.stages[k], plan.limits.dt, axis), ControlDeviation(plan, z, k))
  }

  predicate Moderate(limit: real, v: real) {
    -limit <= v <= limit
  }

  predicate FollowsModel(plan: Plan, z: seq<real>, k: nat, axis: nat)
    requires |z| == plan.Size() && k < plan.Horizon() && axis < 3
  {
    StateOf(plan, z, k + 1).At(axis) == Linearised(plan, z, k, axis)
  }

  predicate ChangesModerately(plan: Plan, z: seq<real>, k: nat, axis: nat)
    requires |z| == plan.Size() && k < plan.Horizon() && axis < 3
  {
    Moderate(MaximumDelta(plan).At(axis), ControlAt(plan, z, k).Minus(ControlBefore(plan, z, k)).At(axis))
  }

  predicate MovesModerately(plan: Plan, z: seq<real>, k: nat, axis: nat)
    requires |z| == plan.Size() && k < plan.Horizon() && axis < 3
  {
    Moderate(plan.limits.velocity.At(axis), ControlAt(plan, z, k).At(axis))
  }

  lemma InitialMeans(plan: Plan, z: seq<real>)
    requires |z| == plan.Size()
    ensures InitialHolds(plan, z) <==> StateOf(plan, z, 0) == plan.current
  {
    InitialProduct(plan, 0, z);
    InitialProduct(plan, 1, z);
    InitialProduct(plan, 2, z);
    hide Product;
  }

  lemma DynamicsMean(plan: Plan, z: seq<real>, k: nat, axis: nat)
    requires |z| == plan.Size() && k < plan.Horizon() && axis < 3
    ensures DynamicsHold(plan, z, k, axis) <==> FollowsModel(plan, z, k, axis)
  {
    hide Product, Along, StateJacobian, ControlJacobian, Dynamics, StateDeviation;
    DynamicsProduct(plan, k, axis, z);
    var row := 3 * (k + 1) + axis;
    assert row / 3 - 1 == k && row % 3 == axis;
  }

  lemma IncrementMeans(plan: Plan, z: seq<real>, k: nat, axis: nat)
    requires |z| == plan.Size() && k < plan.Horizon() && axis < 3
    ensures IncrementHolds(plan, z, k, axis) <==> ChangesModerately(plan, z, k, axis)
  {
    IncrementProduct(plan, k, axis, z);
    hide Product, MaximumDelta;
    var row := 3 * k + axis;
    assert row / 3 == k && row % 3 == axis;
  }

  lemma BoundMeans(plan: Plan, z: seq<real>, k: nat, axis: nat)
    requires |z| == plan.Size() && k < plan.Horizon() && axis < 3
    ensures BoundsHold(plan, z, plan.ControlOffset(k) + axis) <==> MovesModerately(plan, z, k, axis)
  {
    var col := plan.ControlOffset(k) + axis;
    var j := col - plan.ControlOffset(0);
    assert j / 3 == k && j % 3 == axis;
  }

  // The constraint rows hold exactly when the trajectory starts at the current
  // state, follows the linearised model, and keeps every increment and speed limit.
  lemma ConstraintsAreTheModel(plan: Plan, z: seq<real>)
    requires |z| == plan.Size()
    ensures Feasible(plan, z) <==>
            && StateOf(plan, z, 0) == plan.current
            && (forall k, axis | 0 <= k < plan.Horizon() && 0 <= axis < 3 :: FollowsModel(plan, z, k, axis))
            && (forall k, axis | 0 <= k < plan.Horizon() && 0 <= axis < 3 :: ChangesModerately(plan, z, k, axis))
            && (forall k, axis | 0 <= k < plan.Horizon() && 0 <= axis < 3 :: MovesModerately(plan, z, k, axis))
  {
    InitialMeans(plan, z);
    BoundsMean(plan, z);
    hide InitialHolds, DynamicsHold, IncrementHolds, BoundsHold, FollowsModel, ChangesModerately, MovesModerately,
      StateOf;
    forall k, axis | 0 <= k < plan.Horizon() && 0 <= axis < 3
      ensures DynamicsHold(plan, z, k, axis) <==> FollowsModel(plan, z, k, axis)
      ensures IncrementHolds(plan, z, k, axis) <==> ChangesModerately(plan, z, k, axis)
    {
      DynamicsMean(plan, z, k, axis);
      IncrementMeans(plan, z, k, axis);
    }
  }

  lemma BoundsMean(plan: Plan, z: seq<real>)
    requires |z| == plan.Size()
    ensures (forall col | 0 <= col < plan.Size() :: BoundsHold(plan, z, col)) <==>
            (forall k, axis | 0 <= k < plan.Horizon() && 0 <= axis < 3 :: MovesModerately(plan, z, k, axis))
  {
    var start := plan.ControlOffset(0);
    forall col | 0 <= col < start
      ensures BoundsHold(plan, z, col)
    {
    }
    hide BoundsHold, MovesModerately;
    if forall col | 0 <= col < plan.Size() :: BoundsHold(plan, z, col) {
      forall k, axis | 0 <= k < plan.Horizon() && 0 <= axis < 3
        ensures MovesModerately(plan, z, k, axis)
      {
        BoundMeans(plan, z, k, axis);
      }
    }
    if forall k, axis | 0 <= k < plan.Horizon() && 0 <= axis < 3 :: MovesModerately(plan, z, k, axis) {
      forall col | start <= col < plan.Size()
        ensures BoundsHold(plan, z, col)
      {
        var j := col - start;
        BoundMeans(plan, z, j / 3, j % 3);
        assert col == plan.ControlOffset(j / 3) + j % 3;
      }
    }
  }
}
