/** The evidence state machine of one odom-layer cell, and what holds of a cell
    over any sequence of observations. A stamp of None is NaN or infinite. */
module CellEvidence {
  import opened Basics

  datatype State = Unknown | Free | Occupied
  datatype Layer = Dynamic | Static

  datatype Config = Config(promotion: real, hold: real, maxFrame: real, persistence: real) {
    // What the store's constructor leaves of any configuration.
    predicate Valid() {
      promotion >= 0.0 && hold >= 0.0 && maxFrame >= 0.0
    }
  }

  datatype Evidence = Evidence(
    state: State, layer: Layer, firstHit: real, lastHit: real, hitTime: real, observed: real,
    lastVisible: real, clearedOnce: bool, clearCount: nat)

  const FRESH := Evidence(Unknown, Dynamic, 0.0, 0.0, 0.0, 0.0, 0.0, false, 0)

  // An operation's new cell, and what the operation returned.
  type Outcome = (Evidence, bool)

  function AcceptHit(config: Config, c: Evidence, stamp: real, dt: real): Evidence
    requires config.Valid()
  {
    var bounded := Clamp(dt, 0.0, config.maxFrame);
    var entered := if c.state == Occupied then c
                  else c.(firstHit := stamp, hitTime := 0.0, observed := 0.0, layer := Dynamic);
    var hit := entered.(hitTime := entered.hitTime + bounded, observed := entered.observed + bounded,
                       lastHit := stamp, lastVisible := stamp, state := Occupied);
    if hit.layer == Dynamic && !hit.clearedOnce && hit.hitTime >= config.promotion then hit.(layer := Static) else hit
  }

  function ObserveHit(config: Config, c: Evidence, stamp: Option<real>, dt: real): Outcome
    requires config.Valid()
  {
    if stamp.None? || (c.state == Occupied && stamp.value <= c.lastHit) then (c, false)
    else (AcceptHit(config, c, stamp.value, dt), true)
  }

  function ObserveVisible(c: Evidence, stamp: Option<real>): Outcome {
    if stamp.None? || stamp.value < c.lastVisible then (c, false) else (c.(lastVisible := stamp.value), true)
  }

  function ObserveRayClear(c: Evidence, stamp: Option<real>, visible: bool): Outcome {
    if !visible || stamp.None? then (c, false)
    else if c.state != Occupied then (c.(lastVisible := stamp.value), false)
    else (c.(state := Unknown, layer := Dynamic, clearedOnce := true, clearCount := c.clearCount + 1,
             lastVisible := stamp.value), true)
  }

  function ObserveFree(config: Config, c: Evidence, stamp: Option<real>, dt: real): Outcome
    requires config.Valid()
  {
    if stamp.None? || stamp.value <= c.lastVisible then (c, false)
    else
      var (cleared, result) := ObserveRayClear(c, stamp, true);
      (cleared.(lastVisible := stamp.value, observed := cleared.observed + Clamp(dt, 0.0, config.maxFrame),
                state := Free),
       result)
  }

  function Tick(config: Config, c: Evidence, stamp: Option<real>): Evidence {
    if stamp.Some? && c.layer == Dynamic && c.state == Occupied && c.lastHit > 0.0 &&
       stamp.value - Max(c.lastHit, c.lastVisible) > config.hold
    then c.(state := Unknown)
    else c
  }

  predicate SaveEligible(config: Config, c: Evidence) {
    c.layer == Static && c.state == Occupied && !c.clearedOnce && c.observed > 0.0 &&
    c.hitTime / c.observed >= config.persistence
  }

  datatype Operation =
    | Hit(stamp: Option<real>, dt: real)
    | Visible(stamp: Option<real>)
    | RayClear(stamp: Option<real>, visible: bool)
    | FreeView(stamp: Option<real>, dt: real)
    | Tock(stamp: Option<real>)

  // The cell after an operation, and what the operation answers.
  function Perform(config: Config, c: Evidence, op: Operation): Outcome
    requires config.Valid()
  {
    match op
    case Hit(stamp, dt) => ObserveHit(config, c, stamp, dt)
    case Visible(stamp) => ObserveVisible(c, stamp)
    case RayClear(stamp, visible) => ObserveRayClear(c, stamp, visible)
    case FreeView(stamp, dt) => ObserveFree(config, c, stamp, dt)
    case Tock(stamp) => (Tick(config, c, stamp), true)
  }

  function Apply(config: Config, c: Evidence, op: Operation): Evidence
    requires config.Valid()
  {
    Perform(config, c, op).0
  }

  // A cell after a history of operations on a fresh one.
  function Run(config: Config, ops: seq<Operation>): Evidence
    requires config.Valid()
  {
    if ops == [] then FRESH else Apply(config, Run(config, ops[..|ops| - 1]), ops[|ops| - 1])
  }

  // The stamps of the hits accepted since the cell last became occupied.
  function Period(config: Config, ops: seq<Operation>): seq<real>
    requires config.Valid()
  {
    if ops == [] then []
    else
      var c, op, earlier := Run(config, ops[..|ops| - 1]), ops[|ops| - 1], Period(config, ops[..|ops| - 1]);
      if op.Hit? && ObserveHit(config, c, op.stamp, op.dt).1
      then (if c.state == Occupied then earlier else []) + [op.stamp.value]
      else earlier
  }

  predicate Increasing(s: seq<real>) {
    forall i, j | 0 <= i < j < |s| :: s[i] < s[j]
  }

  // What every reachable cell satisfies, with the hits of its current period.
  ghost predicate Consistent(config: Config, c: Evidence, period: seq<real>) {
    && (c.layer == Static ==> c.state == Occupied && !c.clearedOnce && c.hitTime >= config.promotion)
    && (c.clearedOnce <==> c.clearCount > 0)
    && (c.state == Occupied ==>
          c.hitTime == c.observed && 0.0 <= c.hitTime <= |period| as real * config.maxFrame &&
          period != [] && Increasing(period) && period[0] == c.firstHit && period[|period| - 1] == c.lastHit)
  }

  lemma {:induction false} ReachableCellsAreConsistent(config: Config, ops: seq<Operation>)
    requires config.Valid()
    ensures Consistent(config, Run(config, ops), Period(config, ops))
  {
    if ops != [] {
      var before, op := ops[..|ops| - 1], ops[|ops| - 1];
      ReachableCellsAreConsistent(config, before);
      StepKeepsConsistency(config, Run(config, before), Period(config, before), op);
    }
  }

  lemma StepKeepsConsistency(config: Config, c: Evidence, period: seq<real>, op: Operation)
    requires config.Valid() && Consistent(config, c, period)
    ensures Consistent(config, Apply(config, c, op),
                       if op.Hit? && ObserveHit(config, c, op.stamp, op.dt).1
                       then (if c.state == Occupied then period else []) + [op.stamp.value] else period)
  {
    if op.Hit? && ObserveHit(config, c, op.stamp, op.dt).1 {
      var earlier := if c.state == Occupied then period else [];
      var bounded := Clamp(op.dt, 0.0, config.maxFrame);
      assert (|earlier| + 1) as real * config.maxFrame == |earlier| as real * config.maxFrame + config.maxFrame;
    }
  }

  // Promotion: a static cell holds evidence from enough distinct, ordered
  // instants of one unbroken occupancy, and no ray has ever cleared it.
  lemma {:induction false} PromotionIsEarned(config: Config, ops: seq<Operation>)
    requires config.Valid() && Run(config, ops).layer == Static
    ensures |Period(config, ops)| as real * config.maxFrame >= config.promotion
    ensures Increasing(Period(config, ops))
    ensures Run(config, ops).state == Occupied && Run(config, ops).clearCount == 0
  {
    hide Run, Period, Increasing;
    ReachableCellsAreConsistent(config, ops);
  }

  // Saving: a reachable static cell has observed time equal to hit time, so its
  // persistence ratio is one and the configured ratio selects nothing below it.
  lemma {:induction false} SavedCellsAreTheStaticOnes(config: Config, ops: seq<Operation>)
    requires config.Valid()
    ensures SaveEligible(config, Run(config, ops)) <==>
            Run(config, ops).layer == Static && Run(config, ops).hitTime > 0.0 && config.persistence <= 1.0
  {
    hide Run, Period, Increasing;
    ReachableCellsAreConsistent(config, ops);
    var c := Run(config, ops);
    if c.hitTime > 0.0 {
      assert c.hitTime / c.hitTime == 1.0;
    }
  }

  // A ray clear is for good: no later history makes the cell static again.
  lemma {:induction false} ClearedIsForGood(config: Config, ops: seq<Operation>, more: seq<Operation>)
    requires config.Valid() && Run(config, ops).clearedOnce
    ensures Run(config, ops + more).clearedOnce && Run(config, ops + more).layer == Dynamic
  {
    if more == [] {
      assert ops + more == ops;
    } else {
      var n := |more| - 1;
      ClearedIsForGood(config, ops, more[..n]);
      assert (ops + more)[..|ops + more| - 1] == ops + more[..n];
    }
    ReachableCellsAreConsistent(config, ops + more);
  }
}
