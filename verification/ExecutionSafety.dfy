/** Safety of the execution gate over whole runs, for any messages in any order. */
module ExecutionSafety {
  import opened Basics
  import opened Actuator
  import opened ExecutionGate

  // The tracker is empty while fail-stopped, and otherwise holds the active
  // command's reference, which is newer than the last recorded stop.
  ghost predicate Tracks(s: Gate) {
    && (s.failStop ==> s.tracker.None?)
    && (s.tracker.Some? ==>
          s.active.Some? && SameReference(s.active.value, s.tracker.value) &&
          (s.stopStamp > 0 ==> s.tracker.value.reference.stamp > s.stopStamp))
  }

  // The active command is of the planner's generation, or of the one superseded
  // by the grace that is running.
  ghost predicate Authorised(s: Gate) {
    s.active.Some? ==>
      var c := s.active.value;
      && c.epoch == s.plannerEpoch
      && (c.generation == s.plannerGeneration || s.deadline.Some?)
      && (s.deadline.Some? ==> c.generation == s.oldGeneration)
  }

  // The active command was admitted no later than the last admitted one.
  ghost predicate Ordered(s: Gate) {
    s.active.Some? ==> s.active.value.incarnation == s.lastIncarnation != 0 && s.active.value.sequence <= s.lastSequence
  }

  ghost predicate Safe(settings: Settings, s: Gate) {
    Tracks(s) && Authorised(s) && Ordered(s) && InEnvelope(settings.mpc, s.control) && Published(settings, s)
  }

  // What was published is what the node remembers having commanded.
  ghost predicate Published(settings: Settings, s: Gate) {
    s.output.Some? ==> s.output.value == s.control
  }

  lemma EngagingKeeps(s: Gate, record: bool, ros: int)
    ensures var s' := EngageFailStop(s, record, ros);
            && s'.output == Some(ZERO) && s'.control == ZERO
            && s'.plannerEpoch == s.plannerEpoch && s'.plannerGeneration == s.plannerGeneration &&
               s'.retired == s.retired
            && s'.active == s.active && s'.deadline == s.deadline
            && s'.lastIncarnation == s.lastIncarnation && s'.lastSequence == s.lastSequence
            && (s'.tracker.None? || s'.tracker == s.tracker)
  {
  }

  lemma EngagingIsSafe(settings: Settings, s: Gate, record: bool, ros: int)
    requires settings.mpc.Valid() && (s.failStop ==> s.tracker.None?) && Authorised(s) && Ordered(s)
    ensures Safe(settings, EngageFailStop(s, record, ros))
    ensures EngageFailStop(s, record, ros).tracker.None?
  {
    ZeroIsInEnvelope(settings.mpc);
    hide InEnvelope;
  }

  lemma AdmissionIsSafe(settings: Settings, s: Gate, c: Command, clock: Clock)
    requires settings.mpc.Valid() && Safe(settings, s) && s.output.None?
    requires c.incarnation == s.lastIncarnation != 0 && c.sequence == s.lastSequence
    ensures Safe(settings, AdmitCommand(settings, s, c, clock))
  {
    ZeroIsInEnvelope(settings.mpc);
    hide InEnvelope, GimbalValid;
    if GraceHeartbeat(s, c, clock.steady) {
    } else if c.mode == STOP || !Executable(settings, s, c, clock.steady) {
      EngagingIsSafe(settings, s.(active := None), true, clock.ros);
    }
  }

  lemma ExecutionCommandIsSafe(settings: Settings, before: Gate, c: Command, clock: Clock)
    requires settings.mpc.Valid() && Safe(settings, before)
    ensures Safe(settings, OnExecutionCommand(settings, before, c, clock))
  {
    hide InEnvelope, AdmitCommand, EngageFailStop, SameReference;
    var s := before.(output := None);
    if c.incarnation == 0 || c.sequence == 0 || !Timely(settings, c, clock) {
      EngagingIsSafe(settings, s, true, clock.ros);
    } else {
      var signal := Some(clock.steady - (clock.ros - c.stamp.value));
      EngagingIsSafe(settings, s.(active := None), true, clock.ros);
      EngagingIsSafe(settings, s.(active := None, lastSignal := signal), true, clock.ros);
      EngagingIsSafe(settings,
                     s.(lastIncarnation := c.incarnation, lastSequence := c.sequence, active := None,
                        lastSignal := signal),
                     true, clock.ros);
      if c.incarnation == s.lastIncarnation && c.sequence > s.lastSequence {
        AdmissionIsSafe(settings, s.(lastSequence := c.sequence, lastSignal := signal), c, clock);
      }
    }
  }

  lemma JudgementKeeps(settings: Settings, s: Gate, m: PlannerStatus, newEpoch: bool, newIdentity: bool, clock: Clock)
    ensures var s' := Judge(settings, s, m, newEpoch, newIdentity, clock);
            && (s'.output == s.output || s'.output == Some(ZERO))
            && s'.lastIncarnation == s.lastIncarnation && s'.lastSequence == s.lastSequence
            && (s'.active.None? || s'.active == s.active)
            && (s'.tracker.None? || s'.tracker == s.tracker)
  {
    hide MapFresh, EngageFailStop, MaxNat;
    var ready := Ready(settings, s, clock.steady);
    var floor := if m.failure == MAP_UNREADY then MaxNat(s.retired, s.plannerGeneration) else s.retired;
    EngagingKeeps(s.(usable := false, retired := floor, active := None, deadline := None), true, clock.ros);
    EngagingKeeps(s.(usable := false, active := None, deadline := None), true, clock.ros);
    EngagingKeeps(ready.(active := None, deadline := None), !(newIdentity && !newEpoch), clock.ros);
  }

  // A status never moves the chassis, never touches the command order, and at
  // most drops the active command and the tracker.
  lemma StatusKeeps(settings: Settings, s: Gate, m: PlannerStatus, clock: Clock)
    ensures var s' := OnPlannerStatus(settings, s, m, clock);
            && (s'.output == None || s'.output == Some(ZERO))
            && s'.lastIncarnation == s.lastIncarnation && s'.lastSequence == s.lastSequence
            && (s'.active.None? || s'.active == s.active)
            && (s'.tracker.None? || s'.tracker == s.tracker)
  {
    hide Judge;
    var quiet := s.(output := None);
    if !StatusIgnored(quiet, m) {
      var newEpoch := m.epoch > s.plannerEpoch;
      JudgementKeeps(settings, Adopt(quiet, m), m, newEpoch, newEpoch || m.generation > s.plannerGeneration, clock);
    }
  }

  lemma PlannerStatusIsSafe(settings: Settings, before: Gate, m: PlannerStatus, clock: Clock)
    requires settings.mpc.Valid() && Safe(settings, before)
    ensures Safe(settings, OnPlannerStatus(settings, before, m, clock))
  {
    hide InEnvelope, MapFresh, SameReference, EngageFailStop, MaxNat;
    if !StatusIgnored(before, m) {
      var known := Adopt(before.(output := None), m);
      var ready := Ready(settings, known, clock.steady);
      var floor := if m.failure == MAP_UNREADY then MaxNat(known.retired, known.plannerGeneration) else known.retired;
      EngagingIsSafe(settings, known.(usable := false, retired := floor, active := None, deadline := None), true,
                     clock.ros);
      EngagingIsSafe(settings, known.(usable := false, active := None, deadline := None), true, clock.ros);
      EngagingIsSafe(settings, ready.(active := None, deadline := None), m.epoch > before.plannerEpoch, clock.ros);
    }
  }

  lemma MapReadyIsSafe(settings: Settings, before: Gate, data: bool, clock: Clock)
    requires settings.mpc.Valid() && Safe(settings, before)
    ensures Safe(settings, OnMapReady(settings, before, data, clock))
  {
    hide InEnvelope, MapFresh, SameReference, RetireFloor, EngageFailStop;
    forall stopped: Gate | stopped.active.None? && stopped.failStop == before.failStop &&
           stopped.tracker == before.tracker
      ensures Safe(settings, EngageFailStop(stopped, true, clock.ros))
    {
      EngagingIsSafe(settings, stopped, true, clock.ros);
    }
  }

  lemma EmergencyStopIsSafe(settings: Settings, s: Gate, data: bool, clock: Clock)
    requires settings.mpc.Valid() && Safe(settings, s)
    ensures Safe(settings, OnEmergencyStop(s, data, clock))
  {
    hide InEnvelope, SameReference, EngageFailStop;
    EngagingIsSafe(settings, s.(output := None), true, clock.ros);
  }

  lemma LocalizationStatusIsSafe(settings: Settings, s: Gate, allowed: bool, epoch: nat, clock: Clock)
    requires settings.mpc.Valid() && Safe(settings, s)
    ensures Safe(settings, OnLocalizationStatus(s, allowed, epoch, clock))
  {
    hide InEnvelope, SameReference, EngageFailStop;
    EngagingIsSafe(settings, s.(output := None), true, clock.ros);
    EngagingIsSafe(settings, s.(output := None, tracking := false), true, clock.ros);
  }

  lemma GimbalStatusIsSafe(settings: Settings, s: Gate, gimbal: Gimbal, clock: Clock)
    requires settings.mpc.Valid() && Safe(settings, s)
    ensures Safe(settings, OnGimbalStatus(settings, s, gimbal, clock))
  {
    hide InEnvelope, GimbalValid, SameReference, EngageFailStop;
    EngagingIsSafe(settings, s.(output := None, gimbal := Some(gimbal), gimbalSignal := Some(clock.steady)), true,
                   clock.ros);
  }

  lemma DriveIsSafe(settings: Settings, s: Gate, cycle: Cycle)
    requires settings.mpc.Valid() && (cycle.approach.Some? ==> cycle.approach.value.1 > 0.0)
    requires Safe(settings, s)
    ensures Safe(settings, Drive(settings, s, cycle))
  {
    hide InEnvelope, Tracks, Authorised, Ordered, ClampIncrement, LimitTerminalApproachSpeed, TerminalDeceleration;
    ZeroIsInEnvelope(settings.mpc);
    DecelerationStaysInEnvelope(settings.mpc, s.control);
    if cycle.target.Some? {
      var first := ClampIncrement(settings.mpc, cycle.target.value, s.control);
      ClampIncrementIsFeasible(settings.mpc, cycle.target.value, s.control);
      if cycle.approach.Some? {
        ApproachStaysInEnvelope(settings.mpc, first, cycle.approach.value.0, cycle.approach.value.1);
      }
    }
    FrameDrive(settings, s, cycle);
  }

  // The authorised cycle publishes the solver's first control: whatever sequence
  // the solver returns from the last published control, some target of the cycle
  // is the request behind it.
  lemma DriveTakesTheSolversControl(settings: Settings, s: Gate, controls: seq<Control>, approach: Option<(real, real)>)
    requires settings.mpc.Valid() && s.tracker.Some? && StartsFrom(settings.mpc, controls, s.control)
    requires approach.Some? ==> approach.value.1 > 0.0
    ensures exists target ::
              var cycle := Cycle(true, false, false, true, Some(target), approach);
              Drive(settings, s, cycle).output ==
                Some(if approach.Some?
                     then LimitTerminalApproachSpeed(settings.mpc, controls[0], approach.value.0, approach.value.1)
                     else controls[0])
  {
    hide ClampIncrement, LimitTerminalApproachSpeed, TerminalDeceleration;
    var target :| controls[0] == ClampIncrement(settings.mpc, target, s.control);
    var cycle := Cycle(true, false, false, true, Some(target), approach);
    assert Drive(settings, s, cycle).output ==
           Some(if approach.Some?
                then LimitTerminalApproachSpeed(settings.mpc, controls[0], approach.value.0, approach.value.1)
                else controls[0]);
  }

  // Driving changes nothing but the control and what is published.
  lemma FrameDrive(settings: Settings, s: Gate, cycle: Cycle)
    requires settings.mpc.Valid() && (cycle.approach.Some? ==> cycle.approach.value.1 > 0.0)
    ensures Drive(settings, s, cycle) ==
              s.(control := Drive(settings, s, cycle).control, output := Drive(settings, s, cycle).output)
    ensures Drive(settings, s, cycle).output == Some(Drive(settings, s, cycle).control)
    ensures Tracks(s) ==> Tracks(Drive(settings, s, cycle))
    ensures Authorised(s) ==> Authorised(Drive(settings, s, cycle))
    ensures Ordered(s) ==> Ordered(Drive(settings, s, cycle))
  {
    hide ClampIncrement, LimitTerminalApproachSpeed, TerminalDeceleration;
  }

  // What is left of the authority after the lease bookkeeping of a cycle.
  function Leased(settings: Settings, before: Gate, now: int): Gate {
    ExpireMap(settings, ExpireGrace(before.(output := None), now), now)
  }

  // A cycle stops, before or after the bookkeeping, or drives with a valid lease.
  lemma TimerOutcomes(settings: Settings, before: Gate, cycle: Cycle, clock: Clock)
    requires settings.mpc.Valid() && (cycle.approach.Some? ==> cycle.approach.value.1 > 0.0)
    ensures var quiet, leased := before.(output := None), Leased(settings, before, clock.steady);
            var after := OnControlTimer(settings, before, cycle, clock);
            || after == EngageFailStop(quiet, true, clock.ros)
            || after == EngageFailStop(leased, true, clock.ros)
            || after == EngageFailStop(leased, false, clock.ros)
            || (after == Drive(settings, leased, cycle) && LeaseValid(settings, leased, clock.steady) &&
                !leased.failStop && !GraceExpires(quiet, clock.steady))
  {
    hide ExpireMap, ExpireGrace, GraceExpires, LeaseValid, Drive, EngageFailStop;
  }

  // The bookkeeping only takes away, and leaves a grace alone while its command stays.
  lemma LeasedKeeps(settings: Settings, s: Gate, now: int)
    ensures var l := Leased(settings, s, now);
            && l.plannerEpoch == s.plannerEpoch && l.plannerGeneration == s.plannerGeneration && l.retired >= s.retired
            && l.lastIncarnation == s.lastIncarnation && l.lastSequence == s.lastSequence
            && l.tracker == s.tracker && l.failStop == s.failStop && l.stopStamp == s.stopStamp
            && l.control == s.control && l.output == None && l.oldGeneration == s.oldGeneration
            && (l.active.None? || l.active == s.active)
            && (l.deadline.None? || l.deadline == s.deadline)
            && (Authorised(s) && l.active.Some? ==> l.deadline == s.deadline)
  {
    hide MapExpired, RetireFloor;
  }

  // Where the lease holds the bookkeeping took nothing.
  lemma ValidLeaseIsUntouched(settings: Settings, s: Gate, now: int)
    requires Authorised(s) && LeaseValid(settings, Leased(settings, s, now), now) &&
             !GraceExpires(s.(output := None), now)
    ensures Leased(settings, s, now) == s.(output := None)
  {
    hide RetireFloor, GimbalValid;
  }

  lemma TimerIsSafe(settings: Settings, before: Gate, cycle: Cycle, clock: Clock)
    requires settings.mpc.Valid() && (cycle.approach.Some? ==> cycle.approach.value.1 > 0.0)
    requires Safe(settings, before)
    ensures Safe(settings, OnControlTimer(settings, before, cycle, clock))
  {
    hide InEnvelope, SameReference, Drive, EngageFailStop, Leased, OnControlTimer, LeaseValid, GraceExpires;
    var quiet, leased := before.(output := None), Leased(settings, before, clock.steady);
    TimerOutcomes(settings, before, cycle, clock);
    LeasedKeeps(settings, before, clock.steady);
    EngagingIsSafe(settings, quiet, true, clock.ros);
    EngagingIsSafe(settings, leased, true, clock.ros);
    EngagingIsSafe(settings, leased, false, clock.ros);
    if LeaseValid(settings, leased, clock.steady) && !GraceExpires(quiet, clock.steady) {
      ValidLeaseIsUntouched(settings, before, clock.steady);
      DriveIsSafe(settings, leased, cycle);
    }
  }

  lemma StepIsSafe(settings: Settings, s: Gate, e: Event)
    requires settings.mpc.Valid() && Usable(e) && Safe(settings, s)
    ensures Safe(settings, Step(settings, s, e))
  {
    hide Safe, OnExecutionCommand, OnPlannerStatus, OnMapReady, OnEmergencyStop, OnLocalizationStatus, OnGimbalStatus,
      OnControlTimer;
    match e {
      case Execution(command, clock) => ExecutionCommandIsSafe(settings, s, command, clock);
      case Planner(status, clock) => PlannerStatusIsSafe(settings, s, status, clock);
      case MapHeartbeat(ready, clock) => MapReadyIsSafe(settings, s, ready, clock);
      case Emergency(stop, clock) => EmergencyStopIsSafe(settings, s, stop, clock);
      case Localization(allowed, epoch, clock) => LocalizationStatusIsSafe(settings, s, allowed, epoch, clock);
      case GimbalReport(gimbal, clock) => GimbalStatusIsSafe(settings, s, gimbal, clock);
      case Timer(cycle, clock) => TimerIsSafe(settings, s, cycle, clock);
    }
  }

  // The node may start with or without an emergency-stop input to wait for.
  ghost predicate Starts(s: Gate) {
    s == INITIAL || s == INITIAL.(failStop := false)
  }

  lemma {:induction false} EveryRunIsSafe(settings: Settings, s: Gate, events: seq<Event>)
    requires settings.mpc.Valid() && AllUsable(events) && (Starts(s) || Safe(settings, s))
    ensures Safe(settings, Run(settings, s, events))
  {
    if events == [] {
      ZeroIsInEnvelope(settings.mpc);
    } else {
      hide Safe, Step;
      EveryRunIsSafe(settings, s, events[..|events| - 1]);
      StepIsSafe(settings, Run(settings, s, events[..|events| - 1]), events[|events| - 1]);
    }
  }

  // The step published a non-zero Twist.
  predicate Moves(settings: Settings, s: Gate, e: Event)
    requires settings.mpc.Valid() && Usable(e)
  {
    var output := Step(settings, s, e).output;
    output.Some? && output.value != ZERO
  }

  // The step put a reference into the tracker.
  predicate Installs(settings: Settings, s: Gate, e: Event)
    requires settings.mpc.Valid() && Usable(e)
  {
    Step(settings, s, e).tracker.Some? && Step(settings, s, e).tracker != s.tracker
  }

  predicate IsStill(s: Gate) {
    s.output.None? || s.output.value == ZERO
  }

  lemma AdmissionIsStill(settings: Settings, s: Gate, c: Command, clock: Clock)
    requires s.output.None?
    ensures IsStill(AdmitCommand(settings, s, c, clock))
  {
    hide Executable, GraceHeartbeat, Installable, EngageFailStop, SamePlan, SameReference, GraceActive;
    EngagingKeeps(s.(active := None), true, clock.ros);
    EngagingKeeps(s.(active := Some(c), deadline := None), true, clock.ros);
  }

  lemma CommandIsStill(settings: Settings, s: Gate, c: Command, clock: Clock)
    ensures IsStill(OnExecutionCommand(settings, s, c, clock))
  {
    hide AdmitCommand;
    if Timely(settings, c, clock) {
      var signal := Some(clock.steady - (clock.ros - c.stamp.value));
      AdmissionIsStill(settings, s.(output := None, lastSequence := c.sequence, lastSignal := signal), c, clock);
    }
    hide Timely;
  }

  lemma SignalIsStill(settings: Settings, s: Gate, data: bool, epoch: nat, gimbal: Gimbal, clock: Clock)
    ensures IsStill(OnMapReady(settings, s, data, clock)) && IsStill(OnEmergencyStop(s, data, clock))
    ensures IsStill(OnLocalizationStatus(s, data, epoch, clock)) && IsStill(OnGimbalStatus(settings, s, gimbal, clock))
  {
    hide MapExpired, GimbalValid, RetireFloor;
  }

  lemma OnlyTheTimerMoves(settings: Settings, s: Gate, e: Event)
    requires settings.mpc.Valid() && Usable(e) && !e.Timer?
    ensures !Moves(settings, s, e)
  {
    hide OnExecutionCommand, OnPlannerStatus, OnMapReady, OnEmergencyStop, OnLocalizationStatus, OnGimbalStatus;
    var idle := Gimbal(false, false, SPIN, 0, 0);
    match e {
      case Execution(command, clock) => CommandIsStill(settings, s, command, clock);
      case Planner(status, clock) => StatusKeeps(settings, s, status, clock);
      case MapHeartbeat(ready, clock) => SignalIsStill(settings, s, ready, 0, idle, clock);
      case Emergency(stop, clock) => SignalIsStill(settings, s, stop, 0, idle, clock);
      case Localization(allowed, epoch, clock) => SignalIsStill(settings, s, allowed, epoch, idle, clock);
      case GimbalReport(gimbal, clock) => SignalIsStill(settings, s, true, 0, gimbal, clock);
    }
  }

  lemma TimerMovesWithAuthority(settings: Settings, s: Gate, cycle: Cycle, clock: Clock)
    requires settings.mpc.Valid() && (cycle.approach.Some? ==> cycle.approach.value.1 > 0.0)
    requires Authorised(s) && Moves(settings, s, Timer(cycle, clock))
    ensures var after := Step(settings, s, Timer(cycle, clock));
            after == s.(control := after.control, output := after.output) && !s.failStop && s.tracker.Some? &&
            LeaseValid(settings, s, clock.steady)
  {
    hide OnControlTimer, Drive, EngageFailStop, Leased, LeaseValid, GraceExpires, Authorised;
    var quiet, leased := s.(output := None), Leased(settings, s, clock.steady);
    TimerOutcomes(settings, s, cycle, clock);
    EngagingKeeps(quiet, true, clock.ros);
    EngagingKeeps(leased, true, clock.ros);
    EngagingKeeps(leased, false, clock.ros);
    FrameDrive(settings, leased, cycle);
    EmptyTrackerDrivesZero(settings, leased, cycle);
    ValidLeaseIsUntouched(settings, s, clock.steady);
    OutputIsNoAuthority(settings, s, clock.steady);
  }

  lemma OutputIsNoAuthority(settings: Settings, s: Gate, now: int)
    ensures LeaseValid(settings, s.(output := None), now) == LeaseValid(settings, s, now)
  {
  }

  lemma EmptyTrackerDrivesZero(settings: Settings, s: Gate, cycle: Cycle)
    requires settings.mpc.Valid() && (cycle.approach.Some? ==> cycle.approach.value.1 > 0.0)
    ensures s.tracker.None? ==> Drive(settings, s, cycle).output == Some(ZERO)
  {
    hide ClampIncrement, LimitTerminalApproachSpeed, TerminalDeceleration;
  }

  // A generation of an epoch that the map has been retired past.
  predicate Retired(s: Gate, epoch: nat, generation: nat) {
    epoch < s.plannerEpoch || (epoch == s.plannerEpoch && generation <= s.retired)
  }

  // A generation that the planner has moved beyond.
  predicate Passed(s: Gate, epoch: nat, generation: nat) {
    epoch < s.plannerEpoch || (epoch == s.plannerEpoch && generation < s.plannerGeneration)
  }

  predicate Of(c: Option<Command>, epoch: nat, generation: nat) {
    c.Some? && c.value.epoch == epoch && c.value.generation == generation
  }

  // The planner's identity and its retirement floor only move forward.
  ghost predicate IdentityAdvances(s: Gate, s': Gate) {
    && s.plannerEpoch <= s'.plannerEpoch
    && (s.plannerEpoch == s'.plannerEpoch ==> s.plannerGeneration <= s'.plannerGeneration && s.retired <= s'.retired)
  }

  // A new active command was valid when admitted and ends any grace; only such a
  // command enters the tracker; a grace once started is not moved.
  ghost predicate AuthorityAdvances(settings: Settings, s: Gate, s': Gate, now: int) {
    && (s'.active.Some? && s'.active != s.active ==> MapValid(settings, s, s'.active.value, now) && s'.deadline.None?)
    && (s'.tracker.Some? && s'.tracker != s.tracker ==> s'.active == s'.tracker && s'.active != s.active)
    && (s'.active.Some? && s'.active == s.active && s.deadline.Some? ==> s'.deadline == s.deadline)
  }

  ghost predicate Advances(settings: Settings, s: Gate, s': Gate, now: int) {
    IdentityAdvances(s, s') && AuthorityAdvances(settings, s, s', now)
  }

  lemma AdmissionAdvances(settings: Settings, s: Gate, c: Command, clock: Clock)
    requires s.active.Some? ==> s.active.value.sequence < c.sequence
    ensures Advances(settings, s, AdmitCommand(settings, s, c, clock), clock.steady)
  {
    hide GimbalValid, MapValid, SameReference, SamePlan, Installable, GraceHeartbeat, EngageFailStop, GraceActive;
    EngagingKeeps(s.(active := None), true, clock.ros);
    EngagingKeeps(s.(active := Some(c), deadline := None), true, clock.ros);
  }

  lemma CommandAdvances(settings: Settings, s: Gate, c: Command, clock: Clock)
    requires Safe(settings, s)
    ensures Advances(settings, s, OnExecutionCommand(settings, s, c, clock), clock.steady)
  {
    hide InEnvelope, GimbalValid, AdmitCommand, EngageFailStop, Tracks, Authorised;
    var quiet := s.(output := None);
    if c.incarnation == 0 || c.sequence == 0 || !Timely(settings, c, clock) {
      EngagingKeeps(quiet, true, clock.ros);
    } else {
      var signal := Some(clock.steady - (clock.ros - c.stamp.value));
      EngagingKeeps(quiet.(active := None), true, clock.ros);
      EngagingKeeps(quiet.(active := None, lastSignal := signal), true, clock.ros);
      EngagingKeeps(quiet.(lastIncarnation := c.incarnation, lastSequence := c.sequence, active := None,
                           lastSignal := signal),
                    true, clock.ros);
      if c.incarnation == quiet.lastIncarnation && c.sequence > quiet.lastSequence {
        AdmissionAdvances(settings, quiet.(lastSequence := c.sequence, lastSignal := signal), c, clock);
      }
    }
  }

  // A status either is ignored, or stops the node and drops the command, or
  // keeps command and tracker and at most starts a grace.
  lemma StatusAdvances(settings: Settings, s: Gate, m: PlannerStatus, clock: Clock)
    ensures Advances(settings, s, OnPlannerStatus(settings, s, m, clock), clock.steady)
  {
    hide MapFresh, MapValid, EngageFailStop, MaxNat;
    if !StatusIgnored(s, m) {
      var known := Adopt(s.(output := None), m);
      var ready := Ready(settings, known, clock.steady);
      var floor := if m.failure == MAP_UNREADY then MaxNat(known.retired, known.plannerGeneration) else known.retired;
      MaxIsAbove(known.retired, known.plannerGeneration);
      EngagingKeeps(known.(usable := false, retired := floor, active := None, deadline := None), true, clock.ros);
      EngagingKeeps(known.(usable := false, active := None, deadline := None), true, clock.ros);
      EngagingKeeps(ready.(active := None, deadline := None), m.epoch > s.plannerEpoch, clock.ros);
    }
  }

  lemma MaxIsAbove(a: nat, b: nat)
    ensures MaxNat(a, b) >= a
  {
  }

  lemma TimerAdvances(settings: Settings, s: Gate, cycle: Cycle, clock: Clock)
    requires settings.mpc.Valid() && (cycle.approach.Some? ==> cycle.approach.value.1 > 0.0)
    requires Safe(settings, s)
    ensures Advances(settings, s, OnControlTimer(settings, s, cycle, clock), clock.steady)
  {
    hide InEnvelope, Tracks, Ordered, Published, Authorised, MapValid, LeaseValid, Drive, EngageFailStop, Leased,
      OnControlTimer, GraceExpires;
    var quiet, leased := s.(output := None), Leased(settings, s, clock.steady);
    TimerOutcomes(settings, s, cycle, clock);
    LeasedKeeps(settings, s, clock.steady);
    FrameDrive(settings, leased, cycle);
    EngagingKeeps(quiet, true, clock.ros);
    EngagingKeeps(leased, true, clock.ros);
    EngagingKeeps(leased, false, clock.ros);
  }

  lemma SignalAdvances(settings: Settings, s: Gate, data: bool, epoch: nat, gimbal: Gimbal, clock: Clock)
    requires Safe(settings, s)
    ensures Advances(settings, s, OnMapReady(settings, s, data, clock), clock.steady)
    ensures Advances(settings, s, OnEmergencyStop(s, data, clock), clock.steady)
    ensures Advances(settings, s, OnLocalizationStatus(s, data, epoch, clock), clock.steady)
    ensures Advances(settings, s, OnGimbalStatus(settings, s, gimbal, clock), clock.steady)
  {
    hide InEnvelope, SameReference, MapExpired, MapValid, GimbalValid, RetireFloor;
  }

  lemma StepAdvances(settings: Settings, s: Gate, e: Event)
    requires settings.mpc.Valid() && Usable(e) && Safe(settings, s)
    ensures Advances(settings, s, Step(settings, s, e), e.clock.steady)
  {
    hide Safe, Advances, OnExecutionCommand, OnPlannerStatus, OnMapReady, OnEmergencyStop, OnLocalizationStatus,
      OnGimbalStatus,
      OnControlTimer;
    var idle := Gimbal(false, false, SPIN, 0, 0);
    match e {
      case Execution(command, clock) => CommandAdvances(settings, s, command, clock);
      case Planner(status, clock) => StatusAdvances(settings, s, status, clock);
      case MapHeartbeat(ready, clock) => SignalAdvances(settings, s, ready, 0, idle, clock);
      case Emergency(stop, clock) => SignalAdvances(settings, s, stop, 0, idle, clock);
      case Localization(allowed, epoch, clock) => SignalAdvances(settings, s, allowed, epoch, idle, clock);
      case GimbalReport(gimbal, clock) => SignalAdvances(settings, s, true, 0, gimbal, clock);
      case Timer(cycle, clock) => TimerAdvances(settings, s, cycle, clock);
    }
  }

  // Motion, and who answers for it.
  lemma MotionIsAuthorised(settings: Settings, s: Gate, e: Event)
    requires settings.mpc.Valid() && Usable(e) && Safe(settings, s) && Moves(settings, s, e)
    ensures e.Timer? && s.tracker.Some? && s.active.Some? && SameReference(s.active.value, s.tracker.value)
    ensures Step(settings, s, e).active == s.active && LeaseValid(settings, s, e.clock.steady)
    ensures InEnvelope(settings.mpc, Step(settings, s, e).output.value)
    ensures s.stopStamp > 0 ==> s.tracker.value.reference.stamp > s.stopStamp
  {
    hide InEnvelope, Moves, Step, LeaseValid;
    if !e.Timer? {
      OnlyTheTimerMoves(settings, s, e);
    }
    TimerMovesWithAuthority(settings, s, e.cycle, e.clock);
    StepIsSafe(settings, s, e);
    assert Step(settings, s, e).output.Some? by {
      MovesPublishes(settings, s, e);
    }
  }

  lemma MovesPublishes(settings: Settings, s: Gate, e: Event)
    requires settings.mpc.Valid() && Usable(e) && Moves(settings, s, e)
    ensures Step(settings, s, e).output.Some?
  {
    hide Step;
  }
}
