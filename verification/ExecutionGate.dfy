/** The MPC node's execution authority: which command may move the chassis, and
    until when. Each callback is one atomic step; times are nanoseconds. */
module ExecutionGate {
  import opened Basics
  import opened Actuator

  datatype Mode = STOP | EXECUTE | OTHER_MODE
  datatype Authority = GIMBAL_COMPENSATED | BODY_YAW_FOLLOW | SPIN | OTHER_AUTHORITY

  datatype Pose = Pose(x: real, y: real, yaw: real)
  datatype Reference = Reference(stamp: nat, frame: string, poses: seq<Pose>, finite: bool)

  // A missing stamp is a malformed one.
  datatype Command = Command(
    mode: Mode, incarnation: nat, sequence: nat, stamp: Option<int>, goal: nat, epoch: nat, generation: nat,
    publication: nat, authority: Authority, requiresLock: bool, gimbalRequest: nat, gimbalFeedback: nat,
    reference: Reference)

  datatype Gimbal = Gimbal(healthy: bool, locked: bool, authority: Authority, request: nat, sequence: nat)

  datatype PlannerState = ACCEPTED | FAILED | REFERENCE_READY | OTHER_STATE
  datatype Failure = NO_FAILURE | MAP_UNREADY | OTHER_FAILURE
  datatype PlannerStatus = PlannerStatus(
    state: PlannerState, failure: Failure, epoch: nat, generation: nat, framed: bool, stamp: Option<int>)

  datatype Clock = Clock(steady: int, ros: int)

  datatype Settings = Settings(
    requireLocalization: bool, requireGimbal: bool, commandTimeout: int, mapTimeout: int, gimbalTimeout: int,
    grace: int, frame: string, mpc: Config)

  // What one control cycle meets besides the authority: each None or false takes
  // the zero-speed exit. The target is what the solver asks of the first step.
  datatype Cycle = Cycle(
    odometry: bool, expired: bool, arrived: bool, horizon: bool, target: Option<Control>,
    approach: Option<(real, real)>)

  datatype Gate = Gate(
    active: Option<Command>, lastIncarnation: nat, lastSequence: nat, lastSignal: Option<int>,
    plannerEpoch: nat, plannerGeneration: nat, retired: nat, readyLease: nat, statusStamp: int, usable: bool,
    deadline: Option<int>, oldGeneration: nat, mapReady: bool, mapSignal: Option<int>,
    failStop: bool, tracker: Option<Command>, stopStamp: int, tracking: bool, localizationEpoch: Option<nat>,
    gimbal: Option<Gimbal>, gimbalSignal: Option<int>, control: Control, output: Option<Control>)

  const INITIAL := Gate(None, 0, 0, None, 0, 0, 0, 0, 0, false, None, 0, false, None, true, None, 0, false, None,
                        None, None, ZERO, None)

  predicate MapFresh(settings: Settings, s: Gate, now: int) {
    s.mapReady && s.mapSignal.Some? && 0 <= now - s.mapSignal.value <= settings.mapTimeout
  }

  predicate MapValid(settings: Settings, s: Gate, c: Command, now: int) {
    MapFresh(settings, s, now) && s.usable && c.epoch != 0 && c.epoch == s.plannerEpoch &&
    c.generation != 0 && c.generation == s.plannerGeneration && c.generation > s.retired
  }

  predicate GraceActive(s: Gate, now: int) {
    s.deadline.Some? && now <= s.deadline.value && s.active.Some? && !s.failStop
  }

  predicate ActiveValid(settings: Settings, s: Gate, now: int) {
    s.active.Some? &&
    var c := s.active.value;
    MapValid(settings, s, c, now) ||
    (GraceActive(s, now) && MapFresh(settings, s, now) && s.usable && c.epoch == s.plannerEpoch &&
     c.generation == s.oldGeneration && c.generation > s.retired)
  }

  predicate GimbalValid(settings: Settings, s: Gate, c: Command, now: int) {
    !settings.requireGimbal ||
    (s.gimbal.Some? && s.gimbalSignal.Some? && now - s.gimbalSignal.value <= settings.gimbalTimeout &&
     s.gimbal.value.healthy && s.gimbal.value.authority == c.authority && s.gimbal.value.request == c.gimbalRequest &&
     s.gimbal.value.sequence >= c.gimbalFeedback && (c.requiresLock ==> s.gimbal.value.locked))
  }

  // The lease every non-zero Twist needs.
  predicate LeaseValid(settings: Settings, s: Gate, now: int) {
    s.lastSignal.Some? && s.lastSignal.value <= now && now - s.lastSignal.value <= settings.commandTimeout &&
    ActiveValid(settings, s, now) && GimbalValid(settings, s, s.active.value, now)
  }

  function EngageFailStop(s: Gate, record: bool, ros: int): Gate {
    s.(failStop := true, tracker := if s.failStop then s.tracker else None,
       stopStamp := if s.failStop || !record then s.stopStamp else ros, control := ZERO, output := Some(ZERO))
  }

  function PublishZero(s: Gate): Gate {
    s.(control := ZERO, output := Some(ZERO))
  }

  predicate Installable(settings: Settings, s: Gate, reference: Reference) {
    && (settings.requireLocalization ==> s.tracking)
    && |reference.poses| >= 2 && reference.finite
    && (settings.frame == "" || reference.frame == "" || reference.frame == settings.frame)
    && (s.stopStamp > 0 ==> reference.stamp != 0 && reference.stamp > s.stopStamp)
  }

  function InstallPath(s: Gate, c: Command, keep: bool): Gate {
    s.(tracker := Some(c), control := if keep then s.control else ZERO)
  }

  predicate SamePlan(a: Command, b: Command) {
    a.goal == b.goal && a.epoch == b.epoch && a.generation == b.generation
  }

  predicate SameReference(a: Command, b: Command) {
    SamePlan(a, b) && a.publication == b.publication && a.reference.stamp == b.reference.stamp
  }

  predicate Executable(settings: Settings, s: Gate, c: Command, now: int) {
    && c.mode == EXECUTE && c.goal != 0 && |c.reference.poses| >= 2
    && (settings.requireGimbal ==> c.gimbalRequest != 0)
    && c.authority != OTHER_AUTHORITY
    && GimbalValid(settings, s, c, now) && MapValid(settings, s, c, now)
    && (settings.requireLocalization ==> s.tracking && s.localizationEpoch == Some(c.epoch))
  }

  predicate Timely(settings: Settings, c: Command, clock: Clock) {
    c.stamp.Some? && 0 <= clock.ros - c.stamp.value <= settings.commandTimeout
  }

  // A heartbeat of the superseded generation during its grace.
  predicate GraceHeartbeat(s: Gate, c: Command, now: int) {
    GraceActive(s, now) && c.mode == EXECUTE && s.active.value.goal == c.goal && s.active.value.epoch == c.epoch &&
    c.generation == s.oldGeneration
  }

  // A command that has passed the incarnation and sequence checks.
  function AdmitCommand(settings: Settings, s: Gate, c: Command, clock: Clock): Gate {
    if GraceHeartbeat(s, c, clock.steady) then s
    else if c.mode == STOP || !Executable(settings, s, c, clock.steady)
    then EngageFailStop(s.(active := None), true, clock.ros)
    else
      var same := s.active.Some? && SamePlan(s.active.value, c);
      var successor := GraceActive(s, clock.steady) && s.active.value.goal == c.goal &&
        s.active.value.epoch == c.epoch &&
                       c.generation > s.active.value.generation;
      var install := !(s.active.Some? && SameReference(s.active.value, c));
      var accepted := s.(active := Some(c), deadline := None);
      if install && !Installable(settings, accepted, c.reference) then EngageFailStop(accepted, true, clock.ros)
      else
        var installed := if install then InstallPath(accepted, c, (same || successor) && !s.failStop) else accepted;
        installed.(failStop := false)
  }

  function OnExecutionCommand(settings: Settings, before: Gate, c: Command, clock: Clock): Gate {
    var s := before.(output := None);
    if c.incarnation == 0 || c.sequence == 0 || !Timely(settings, c, clock) then EngageFailStop(s, true, clock.ros)
    else
      var signal := Some(clock.steady - (clock.ros - c.stamp.value));
      if c.incarnation < s.lastIncarnation || (c.incarnation == s.lastIncarnation && c.sequence <= s.lastSequence)
      then EngageFailStop(s.(active := None), true, clock.ros)
      else if c.incarnation == s.lastIncarnation
      then AdmitCommand(settings, s.(lastSequence := c.sequence, lastSignal := signal), c, clock)
      else if c.mode == STOP
      then EngageFailStop(s.(lastIncarnation := c.incarnation, lastSequence := c.sequence, active := None,
                             lastSignal := signal),
                          true, clock.ros)
      else EngageFailStop(s.(active := None, lastSignal := signal), true, clock.ros)
  }

  predicate StatusIgnored(s: Gate, m: PlannerStatus) {
    || m.state == ACCEPTED || m.epoch == 0 || m.generation == 0 || !m.framed || m.stamp.None? || m.stamp.value <= 0
    || m.epoch < s.plannerEpoch || (m.epoch == s.plannerEpoch && m.generation < s.plannerGeneration)
    || (m.epoch == s.plannerEpoch && m.generation == s.plannerGeneration && m.stamp.value <= s.statusStamp)
  }

  // A status newer than what is known names the planner's generation; a new
  // generation is unusable, and a new epoch starts without a floor.
  function Adopt(s: Gate, m: PlannerStatus): Gate
    requires m.stamp.Some?
  {
    s.(plannerEpoch := m.epoch, plannerGeneration := m.generation, statusStamp := m.stamp.value,
       retired := if m.epoch > s.plannerEpoch then 0 else s.retired,
       usable := s.usable && m.epoch == s.plannerEpoch && m.generation == s.plannerGeneration)
  }

  function Ready(settings: Settings, s: Gate, now: int): Gate {
    var usable := s.plannerGeneration > s.retired;
    s.(usable := usable, readyLease := if usable && MapFresh(settings, s, now) then s.plannerGeneration
       else s.readyLease)
  }

  // What an adopted status does to the authority to move. The grace is started
  // once and not extended.
  function Judge(settings: Settings, known: Gate, m: PlannerStatus, newEpoch: bool, newIdentity: bool,
                 clock: Clock): Gate {
    if m.state == FAILED || m.failure != NO_FAILURE then
      var floor := if m.failure == MAP_UNREADY then MaxNat(known.retired, known.plannerGeneration) else known.retired;
      EngageFailStop(known.(usable := false, retired := floor, active := None, deadline := None), true, clock.ros)
    else if m.state == REFERENCE_READY then
      var ready := Ready(settings, known, clock.steady);
      var superseded := newIdentity && !newEpoch;
      if superseded && settings.grace > 0 && ready.active.Some? && !ready.failStop &&
         ready.active.value.epoch == m.epoch
      then (if ready.deadline.None?
            then ready.(deadline := Some(clock.steady + settings.grace), oldGeneration := ready.active.value.generation)
            else ready)
      else if newIdentity then EngageFailStop(ready.(active := None, deadline := None), !superseded, clock.ros)
      else ready
    else EngageFailStop(known.(usable := false, active := None, deadline := None), true, clock.ros)
  }

  function OnPlannerStatus(settings: Settings, before: Gate, m: PlannerStatus, clock: Clock): Gate {
    var s := before.(output := None);
    if StatusIgnored(s, m) then s
    else
      var newEpoch := m.epoch > s.plannerEpoch;
      Judge(settings, Adopt(s, m), m, newEpoch, newEpoch || m.generation > s.plannerGeneration, clock)
  }

  function RetireFloor(s: Gate, expired: bool): nat {
    if expired && s.readyLease != 0 then s.readyLease else s.plannerGeneration
  }

  predicate MapExpired(settings: Settings, s: Gate, now: int) {
    s.mapReady && s.mapSignal.Some? && !MapFresh(settings, s, now)
  }

  // Retires what the expired or refused lease covered, and the command with it.
  function RetireMap(s: Gate, expired: bool): Gate {
    s.(retired := MaxNat(s.retired, RetireFloor(s, expired)), usable := false, active := None, deadline := None)
  }

  function OnMapReady(settings: Settings, before: Gate, data: bool, clock: Clock): Gate {
    var s := before.(output := None);
    var expired := MapExpired(settings, s, clock.steady);
    var stop := !data || expired;
    var retiredState := if stop then RetireMap(s, expired) else s;
    var heard := retiredState.(mapReady := data, mapSignal := Some(clock.steady),
                               readyLease := if data then s.plannerGeneration else s.readyLease);
    if stop then EngageFailStop(heard, true, clock.ros) else heard
  }

  function OnEmergencyStop(before: Gate, data: bool, clock: Clock): Gate {
    var s := before.(output := None);
    if data then EngageFailStop(s, true, clock.ros) else s
  }

  function OnLocalizationStatus(before: Gate, allowed: bool, epoch: nat, clock: Clock): Gate {
    var s := before.(output := None);
    if !allowed then EngageFailStop(s.(tracking := false), true, clock.ros)
    else
      var checked := if s.localizationEpoch.Some? && s.localizationEpoch.value != epoch
                     then EngageFailStop(s, true, clock.ros) else s;
      checked.(localizationEpoch := Some(epoch), tracking := true)
  }

  function OnGimbalStatus(settings: Settings, before: Gate, gimbal: Gimbal, clock: Clock): Gate {
    var s := before.(output := None, gimbal := Some(gimbal), gimbalSignal := Some(clock.steady));
    if s.active.Some? && !GimbalValid(settings, s, s.active.value, clock.steady) then EngageFailStop(s, true, clock.ros)
    else s
  }

  // The lease bookkeeping at the head of a control cycle.
  function ExpireGrace(s: Gate, now: int): Gate {
    if s.deadline.Some? && now > s.deadline.value
    then s.(deadline := None,
            active := if s.active.Some? && s.active.value.generation == s.oldGeneration then None else s.active)
    else s
  }

  predicate GraceExpires(s: Gate, now: int) {
    s.deadline.Some? && now > s.deadline.value && s.active.Some? && s.active.value.generation == s.oldGeneration
  }

  function ExpireMap(settings: Settings, s: Gate, now: int): Gate {
    if MapExpired(settings, s, now)
    then s.(retired := MaxNat(s.retired, RetireFloor(s, true)), usable := false, active := None, mapReady := false)
    else s
  }

  // The rest of an authorised control cycle.
  function Drive(settings: Settings, s: Gate, cycle: Cycle): Gate
    requires settings.mpc.Valid() && (cycle.approach.Some? ==> cycle.approach.value.1 > 0.0)
  {
    if !cycle.odometry || s.tracker.None? || cycle.expired then PublishZero(s)
    else if cycle.arrived then
      var next := TerminalDeceleration(settings.mpc, s.control);
      if next == ZERO then PublishZero(s) else s.(control := next, output := Some(next))
    else if !cycle.horizon || cycle.target.None? then PublishZero(s)
    else
      var first := ClampIncrement(settings.mpc, cycle.target.value, s.control);
      var limited := if cycle.approach.Some?
                     then LimitTerminalApproachSpeed(settings.mpc, first, cycle.approach.value.0,
                                                     cycle.approach.value.1)
                     else first;
      s.(control := limited, output := Some(limited))
  }

  function OnControlTimer(settings: Settings, before: Gate, cycle: Cycle, clock: Clock): Gate
    requires settings.mpc.Valid() && (cycle.approach.Some? ==> cycle.approach.value.1 > 0.0)
  {
    var s := before.(output := None);
    if settings.requireLocalization && !s.tracking then EngageFailStop(s, true, clock.ros)
    else
      var graced := ExpireGrace(s, clock.steady);
      var leased := ExpireMap(settings, graced, clock.steady);
      if GraceExpires(s, clock.steady) then EngageFailStop(leased, false, clock.ros)
      else if !LeaseValid(settings, leased, clock.steady) || leased.failStop
      then EngageFailStop(leased, true, clock.ros)
      else Drive(settings, leased, cycle)
  }

  datatype Event =
    | Execution(command: Command, clock: Clock)
    | Planner(status: PlannerStatus, clock: Clock)
    | MapHeartbeat(ready: bool, clock: Clock)
    | Emergency(stop: bool, clock: Clock)
    | Localization(allowed: bool, epoch: nat, clock: Clock)
    | GimbalReport(gimbal: Gimbal, clock: Clock)
    | Timer(cycle: Cycle, clock: Clock)

  predicate Usable(e: Event) {
    e.Timer? && e.cycle.approach.Some? ==> e.cycle.approach.value.1 > 0.0
  }

  function Step(settings: Settings, s: Gate, e: Event): Gate
    requires settings.mpc.Valid() && Usable(e)
  {
    match e
    case Execution(command, clock) => OnExecutionCommand(settings, s, command, clock)
    case Planner(status, clock) => OnPlannerStatus(settings, s, status, clock)
    case MapHeartbeat(ready, clock) => OnMapReady(settings, s, ready, clock)
    case Emergency(stop, clock) => OnEmergencyStop(s, stop, clock)
    case Localization(allowed, epoch, clock) => OnLocalizationStatus(s, allowed, epoch, clock)
    case GimbalReport(gimbal, clock) => OnGimbalStatus(settings, s, gimbal, clock)
    case Timer(cycle, clock) => OnControlTimer(settings, s, cycle, clock)
  }

  predicate AllUsable(events: seq<Event>) {
    forall e | e in events :: Usable(e)
  }

  function Run(settings: Settings, s: Gate, events: seq<Event>): Gate
    requires settings.mpc.Valid() && AllUsable(events)
  {
    if events == [] then s else Step(settings, Run(settings, s, events[..|events| - 1]), events[|events| - 1])
  }
}
