/** Building the cost of the LTV problem, and why it is the tracking cost. */
module LtvQpTracking {
  import opened LtvQpCost
  import opened LtvQpPlan

  function BlockTerms(offset: nat, weight: Triple, error: Triple): (terms: seq<Term>) {
    [Single(offset, weight.x, error.x), Single(offset + 1, weight.y, error.y), Single(offset + 2, weight.w, error.w)]
  }

  function PairTerms(current: nat, previous: nat, weight: Triple, error: Triple): seq<Term> {
    [Pair(current, previous, weight.x, error.x), Pair(current + 1, previous + 1, weight.y, error.y),
     Pair(current + 2, previous + 2, weight.w, error.w)]
  }

  function DeltaTerms(plan: Plan, k: nat): seq<Term>
    requires k < plan.Horizon()
  {
    if k == 0 then BlockTerms(plan.ControlOffset(0), plan.weights.delta, plan.NominalDelta(0))
    else PairTerms(plan.ControlOffset(k), plan.ControlOffset(k - 1), plan.weights.delta, plan.NominalDelta(k))
  }

  function StageTerms(plan: Plan, k: nat): seq<Term>
    requires k < plan.Horizon()
  {
    BlockTerms(plan.StateOffset(k), plan.weights.state, plan.stages[k].error) +
    BlockTerms(plan.ControlOffset(k), plan.weights.control, plan.stages[k].control.Minus(plan.stages[k].reference)) +
    DeltaTerms(plan, k)
  }

  function StagesTerms(plan: Plan, n: nat): seq<Term>
    requires n <= plan.Horizon()
  {
    if n == 0 then [] else StagesTerms(plan, n - 1) + StageTerms(plan, n - 1)
  }

  function FinalTerms(plan: Plan): seq<Term> {
    BlockTerms(plan.StateOffset(plan.Horizon()), plan.weights.terminal, plan.finalError)
  }

  function AllTerms(plan: Plan): seq<Term> {
    StagesTerms(plan, plan.Horizon()) + FinalTerms(plan)
  }

  method AddQuadraticBlock(h: array2<real>, g: array<real>, n: nat, offset: nat, weight: Triple, error: Triple,
                           ghost terms: seq<Term>)
    requires Holds(h, g, n, terms) && offset + 2 < n
    modifies h, g
    ensures Holds(h, g, n, terms + BlockTerms(offset, weight, error))
  {
    hide Holds;
    AddSingle(h, g, n, offset, weight.x, error.x, terms);
    ghost var first := terms + [Single(offset, weight.x, error.x)];
    AddSingle(h, g, n, offset + 1, weight.y, error.y, first);
    ghost var second := first + [Single(offset + 1, weight.y, error.y)];
    AddSingle(h, g, n, offset + 2, weight.w, error.w, second);
    assert second + [Single(offset + 2, weight.w, error.w)] == terms + BlockTerms(offset, weight, error);
  }

  // The first control has no previous one to be coupled with.
  method AddDeltaQuadratic(h: array2<real>, g: array<real>, n: nat, plan: Plan, k: nat, ghost terms: seq<Term>)
    requires k < plan.Horizon() && n == plan.Size()
    requires Holds(h, g, n, terms)
    modifies h, g
    ensures Holds(h, g, n, terms + DeltaTerms(plan, k))
  {
    hide Holds;
    var current := plan.ControlOffset(k);
    var weight, delta := plan.weights.delta, plan.NominalDelta(k);
    if k == 0 {
      AddQuadraticBlock(h, g, n, current, weight, delta, terms);
      return;
    }
    var previous := plan.ControlOffset(k - 1);
    AddPair(h, g, n, current, previous, weight.x, delta.x, terms);
    ghost var first := terms + [Pair(current, previous, weight.x, delta.x)];
    AddPair(h, g, n, current + 1, previous + 1, weight.y, delta.y, first);
    ghost var second := first + [Pair(current + 1, previous + 1, weight.y, delta.y)];
    AddPair(h, g, n, current + 2, previous + 2, weight.w, delta.w, second);
    assert second + [Pair(current + 2, previous + 2, weight.w, delta.w)] == terms + DeltaTerms(plan, k);
  }

  method SetZero(h: array2<real>, g: array<real>, n: nat)
    requires h.Length0 == h.Length1 == g.Length == n
    modifies h, g
    ensures Holds(h, g, n, [])
  {
    forall r, c | 0 <= r < n && 0 <= c < n {
      h[r, c] := 0.0;
    }
    forall r | 0 <= r < n {
      g[r] := 0.0;
    }
  }

  method BuildCost(h: array2<real>, g: array<real>, plan: Plan)
    requires h.Length0 == h.Length1 == g.Length == plan.Size()
    modifies h, g
    ensures Holds(h, g, plan.Size(), AllTerms(plan))
  {
    hide Holds, StageTerms, DeltaTerms, BlockTerms;
    var n := plan.Size();
    SetZero(h, g, n);
    ghost var terms: seq<Term> := [];
    for step := 0 to plan.Horizon()
      invariant terms == StagesTerms(plan, step) && Holds(h, g, n, terms)
    {
      AddStage(h, g, n, plan, step, terms);
      terms := terms + StageTerms(plan, step);
    }
    AddQuadraticBlock(h, g, n, plan.StateOffset(plan.Horizon()), plan.weights.terminal, plan.finalError, terms);
  }

  method AddStage(h: array2<real>, g: array<real>, n: nat, plan: Plan, step: nat, ghost terms: seq<Term>)
    requires step < plan.Horizon() && n == plan.Size() && Holds(h, g, n, terms)
    modifies h, g
    ensures Holds(h, g, n, terms + StageTerms(plan, step))
  {
    hide Holds, DeltaTerms, BlockTerms;
    var stage := plan.stages[step];
    ghost var states := BlockTerms(plan.StateOffset(step), plan.weights.state, stage.error);
    ghost var controls :=
      BlockTerms(plan.ControlOffset(step), plan.weights.control, stage.control.Minus(stage.reference));
    AddQuadraticBlock(h, g, n, plan.StateOffset(step), plan.weights.state, stage.error, terms);
    AddQuadraticBlock(h, g, n, plan.ControlOffset(step), plan.weights.control, stage.control.Minus(stage.reference),
                      terms + states);
    AddDeltaQuadratic(h, g, n, plan, step, terms + states + controls);
    assert terms + states + controls + DeltaTerms(plan, step) == terms + StageTerms(plan, step);
  }

  // The tracking cost itself, read off the trajectory that a decision describes.
  function Norm(weight: Triple, v: Triple): real {
    Weigh(weight.x, v.x) + Weigh(weight.y, v.y) + Weigh(weight.w, v.w)
  }

  function StateDeviation(plan: Plan, z: seq<real>, k: nat): Triple
    requires |z| == plan.Size() && k <= plan.Horizon()
  {
    Triple(z[3 * k], z[3 * k + 1], z[3 * k + 2])
  }

  function ControlDeviation(plan: Plan, z: seq<real>, k: nat): Triple
    requires |z| == plan.Size() && k < plan.Horizon()
  {
    var c := plan.ControlOffset(k);
    Triple(z[c], z[c + 1], z[c + 2])
  }

  function ControlAt(plan: Plan, z: seq<real>, k: nat): Triple
    requires |z| == plan.Size() && k < plan.Horizon()
  {
    plan.stages[k].control.Plus(ControlDeviation(plan, z, k))
  }

  function ControlBefore(plan: Plan, z: seq<real>, k: nat): Triple
    requires |z| == plan.Size() && k < plan.Horizon()
  {
    if k == 0 then plan.last else ControlAt(plan, z, k - 1)
  }

  function StageCost(plan: Plan, z: seq<real>, k: nat): real
    requires |z| == plan.Size() && k < plan.Horizon()
  {
    Norm(plan.weights.state, plan.stages[k].error.Plus(StateDeviation(plan, z, k))) +
    Norm(plan.weights.control, ControlAt(plan, z, k).Minus(plan.stages[k].reference)) +
    Norm(plan.weights.delta, ControlAt(plan, z, k).Minus(ControlBefore(plan, z, k)))
  }

  function StagesCost(plan: Plan, z: seq<real>, n: nat): real
    requires |z| == plan.Size() && n <= plan.Horizon()
  {
    if n == 0 then 0.0 else StagesCost(plan, z, n - 1) + StageCost(plan, z, n - 1)
  }

  function TrackingCost(plan: Plan, z: seq<real>): real
    requires |z| == plan.Size()
  {
    StagesCost(plan, z, plan.Horizon()) +
    Norm(plan.weights.terminal, plan.finalError.Plus(StateDeviation(plan, z, plan.Horizon())))
  }

  lemma {:induction false} CostAppend(a: seq<Term>, b: seq<Term>, z: seq<real>)
    requires AllInRange(a, |z|) && AllInRange(b, |z|)
    ensures AllInRange(a + b, |z|) && Cost(a + b, z) == Cost(a, z) + Cost(b, z)
  {
    if b == [] {
      assert a + b == a;
    } else {
      CostAppend(a, b[..|b| - 1], z);
      assert (a + b)[..|a + b| - 1] == a + b[..|b| - 1];
      hide Penalty;
    }
  }

  lemma ThreeTerms(a: Term, b: Term, c: Term, z: seq<real>)
    requires InRange(a, |z|) && InRange(b, |z|) && InRange(c, |z|)
    ensures Cost([a, b, c], z) == Penalty(a, z) + Penalty(b, z) + Penalty(c, z)
  {
    hide Penalty;
    assert [a, b, c][..2] == [a, b] && [a, b][..1] == [a] && [a][..0] == [];
    assert Cost([a, b], z) == Penalty(a, z) + Penalty(b, z) by {
      assert Cost([a], z) == Penalty(a, z);
    }
  }

  lemma BlockCost(offset: nat, weight: Triple, error: Triple, z: seq<real>)
    requires offset + 2 < |z|
    ensures AllInRange(BlockTerms(offset, weight, error), |z|)
    ensures Cost(BlockTerms(offset, weight, error), z) ==
              Norm(weight, error.Plus(Triple(z[offset], z[offset + 1], z[offset + 2])))
  {
    hide Weigh;
    var terms := BlockTerms(offset, weight, error);
    ThreeTerms(terms[0], terms[1], terms[2], z);
    hide Cost;
  }

  lemma PairCost(current: nat, previous: nat, weight: Triple, error: Triple, z: seq<real>)
    requires current + 2 < |z| && previous + 2 < current
    ensures AllInRange(PairTerms(current, previous, weight, error), |z|)
    ensures Cost(PairTerms(current, previous, weight, error), z) ==
            Norm(weight, error.Plus(Triple(z[current] - z[previous], z[current + 1] - z[previous + 1],
                                           z[current + 2] - z[previous + 2])))
  {
    hide Weigh;
    var terms := PairTerms(current, previous, weight, error);
    ThreeTerms(terms[0], terms[1], terms[2], z);
    hide Cost;
  }

  lemma DeltaCost(plan: Plan, z: seq<real>, k: nat)
    requires |z| == plan.Size() && k < plan.Horizon()
    ensures AllInRange(DeltaTerms(plan, k), |z|)
    ensures Cost(DeltaTerms(plan, k), z) ==
              Norm(plan.weights.delta, ControlAt(plan, z, k).Minus(ControlBefore(plan, z, k)))
  {
    hide Cost, Norm, BlockTerms, PairTerms;
    var weight, delta := plan.weights.delta, plan.NominalDelta(k);
    var c := plan.ControlOffset(k);
    var moved := ControlAt(plan, z, k).Minus(ControlBefore(plan, z, k));
    if k == 0 {
      BlockCost(c, weight, delta, z);
      assert delta.Plus(Triple(z[c], z[c + 1], z[c + 2])) == moved;
    } else {
      var p := plan.ControlOffset(k - 1);
      PairCost(c, p, weight, delta, z);
      assert delta.Plus(Triple(z[c] - z[p], z[c + 1] - z[p + 1], z[c + 2] - z[p + 2])) == moved;
    }
  }

  lemma StageCostIsItsTerms(plan: Plan, z: seq<real>, k: nat)
    requires |z| == plan.Size() && k < plan.Horizon()
    ensures AllInRange(StageTerms(plan, k), |z|) && Cost(StageTerms(plan, k), z) == StageCost(plan, z, k)
  {
    hide Cost, Norm, BlockTerms, DeltaTerms, AllInRange;
    var stage := plan.stages[k];
    var states := BlockTerms(plan.StateOffset(k), plan.weights.state, stage.error);
    var controls := BlockTerms(plan.ControlOffset(k), plan.weights.control, stage.control.Minus(stage.reference));
    BlockCost(plan.StateOffset(k), plan.weights.state, stage.error, z);
    BlockCost(plan.ControlOffset(k), plan.weights.control, stage.control.Minus(stage.reference), z);
    DeltaCost(plan, z, k);
    CostAppend(states, controls, z);
    CostAppend(states + controls, DeltaTerms(plan, k), z);
    assert stage.control.Minus(stage.reference).Plus(ControlDeviation(plan, z, k)) ==
             ControlAt(plan, z, k).Minus(stage.reference);
  }

  lemma {:induction false} StagesCostIsTheirTerms(plan: Plan, z: seq<real>, n: nat)
    requires |z| == plan.Size() && n <= plan.Horizon()
    ensures AllInRange(StagesTerms(plan, n), |z|) && Cost(StagesTerms(plan, n), z) == StagesCost(plan, z, n)
  {
    hide StageTerms, StageCost;
    if n > 0 {
      hide Cost, AllInRange;
      StagesCostIsTheirTerms(plan, z, n - 1);
      StageCostIsItsTerms(plan, z, n - 1);
      CostAppend(StagesTerms(plan, n - 1), StageTerms(plan, n - 1), z);
    }
  }

  lemma CostIsTheTrackingCost(plan: Plan, z: seq<real>)
    requires |z| == plan.Size()
    ensures AllInRange(AllTerms(plan), |z|) && Cost(AllTerms(plan), z) == TrackingCost(plan, z)
  {
    hide Cost, AllInRange, StagesTerms, StagesCost, Norm, BlockTerms;
    StagesCostIsTheirTerms(plan, z, plan.Horizon());
    BlockCost(plan.StateOffset(plan.Horizon()), plan.weights.terminal, plan.finalError, z);
    CostAppend(StagesTerms(plan, plan.Horizon()), FinalTerms(plan), z);
  }

  // ½zᵀHz + gᵀz of the built problem is the tracking cost at the trajectory that
  // z describes, less its value at the nominal trajectory.
  lemma BuiltCostIsTheTrackingCost(plan: Plan, z: seq<real>)
    requires |z| == plan.Size()
    ensures 0.5 * QuadraticForm(AllTerms(plan), |z|, z) + LinearForm(AllTerms(plan), |z|, z) ==
            TrackingCost(plan, z) - TrackingCost(plan, Origin(|z|))
  {
    hide Cost, AllInRange, QuadraticForm, LinearForm, TrackingCost, AllTerms, Origin;
    CostIsTheTrackingCost(plan, z);
    CostIsTheTrackingCost(plan, Origin(|z|));
    FormsAreTheCostChange(AllTerms(plan), z);
  }

  predicate NonNegative(v: Triple) {
    v.x >= 0.0 && v.y >= 0.0 && v.w >= 0.0
  }

  predicate ValidWeights(weights: Weights) {
    NonNegative(weights.state) && NonNegative(weights.control) && NonNegative(weights.delta) &&
    NonNegative(weights.terminal)
  }

  lemma {:induction false} StagesAreWeighted(plan: Plan, n: nat)
    requires ValidWeights(plan.weights) && n <= plan.Horizon()
    ensures Weighted(StagesTerms(plan, n))
  {
    if n > 0 {
      StagesAreWeighted(plan, n - 1);
      assert Weighted(StageTerms(plan, n - 1));
    }
  }

  lemma BuiltHessianIsConvex(plan: Plan, z: seq<real>)
    requires |z| == plan.Size() && ValidWeights(plan.weights)
    ensures QuadraticForm(AllTerms(plan), |z|, z) >= 0.0
  {
    hide QuadraticForm, Cost, TrackingCost;
    StagesAreWeighted(plan, plan.Horizon());
    assert Weighted(AllTerms(plan));
    CostIsTheTrackingCost(plan, z);
    HessianIsConvex(AllTerms(plan), z);
  }
}
