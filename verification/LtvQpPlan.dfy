/** The LTV problem's inputs and layout: decision [δx_0 .. δx_N, δu_0 .. δu_N-1],
    three entries each, around one nominal trajectory. */
module LtvQpPlan {
  import opened LtvQpCost

  datatype Triple = Triple(x: real, y: real, w: real) {
    function At(axis: nat): real
      requires axis < 3
    {
      if axis == 0 then x else if axis == 1 then y else w
    }

    function Plus(other: Triple): Triple {
      Triple(x + other.x, y + other.y, w + other.w)
    }

    function Minus(other: Triple): Triple {
      Triple(x - other.x, y - other.y, w - other.w)
    }

    function Times(k: real): Triple {
      Triple(k * x, k * y, k * w)
    }
  }

  // One step of the nominal rollout: the state and control, the reference
  // control, the state error against the reference, the cosine and sine of the
  // yaw, and the normalised yaw that follows.
  datatype Stage = Stage(
    state: Triple, control: Triple, reference: Triple, error: Triple, cosine: real, sine: real, heading: real)

  datatype Weights = Weights(state: Triple, control: Triple, delta: Triple, terminal: Triple)
  // The wheel limits enter no row; the build only refuses negative ones.
  datatype Wheels = Wheels(baseX: real, baseY: real, speed: real, acceleration: real, steerRate: real)
  datatype Limits = Limits(dt: real, velocity: Triple, acceleration: Triple, wheels: Wheels)

  datatype Plan = Plan(
    stages: seq<Stage>, finalState: Triple, finalError: Triple, current: Triple, last: Triple, weights: Weights,
    limits: Limits)
  {
    function Horizon(): nat {
      |stages|
    }

    function Size(): nat {
      6 * |stages| + 3
    }

    function StateOffset(k: nat): nat {
      3 * k
    }

    function ControlOffset(k: nat): nat {
      3 * (|stages| + 1) + 3 * k
    }

    function Previous(k: nat): Triple
      requires k < |stages|
    {
      if k == 0 then last else stages[k - 1].control
    }

    function NominalDelta(k: nat): Triple
      requires k < |stages|
    {
      stages[k].control.Minus(Previous(k))
    }

    function StateAt(k: nat): Triple
      requires k <= |stages|
    {
      if k < |stages| then stages[k].state else finalState
    }
  }
}
