/** Where the node's authority falls short of what its comments intend, and
    exactly when it does not. */
module ExecutionLimits {
  import opened Basics
  import opened Actuator
  import opened ExecutionGate
  import opened ExecutionSafety

  predicate LeaseExpires(settings: Settings, s: Gate, e: Event) {
    match e
    case MapHeartbeat(_, clock) => MapExpired(settings, s, clock.steady)
    case Timer(_, clock) => (settings.requireLocalization ==> s.tracking) && MapExpired(settings, s, clock.steady)
    case _ => false
  }

  predicate FloorIsWithinThePlanner(s: Gate) {
    s.retired <= s.plannerGeneration
  }

  lemma JudgementKeepsTheFloor(settings: Settings, s: Gate, m: PlannerStatus, newEpoch: bool, newIdentity: bool,
                               clock: Clock)
    requires FloorIsWithinThePlanner(s)
    ensures FloorIsWithinThePlanner(Judge(settings, s, m, newEpoch, newIdentity, clock))
  {
    hide MapFresh;
  }

  lemma AdmissionKeepsTheFloor(settings: Settings, s: Gate, c: Command, clock: Clock)
    ensures var s' := AdmitCommand(settings, s, c, clock);
            s'.retired == s.retired && s'.plannerGeneration == s.plannerGeneration
  {
    hide GraceHeartbeat, Executable, Installable, GraceActive, SamePlan, SameReference;
  }

  lemma CommandKeepsTheFloor(settings: Settings, s: Gate, c: Command, clock: Clock)
    ensures var s' := OnExecutionCommand(settings, s, c, clock);
            s'.retired == s.retired && s'.plannerGeneration == s.plannerGeneration
  {
    hide AdmitCommand;
    if Timely(settings, c, clock) {
      AdmissionKeepsTheFloor(settings,
                             s.(output := None, lastSequence := c.sequence,
                                lastSignal := Some(clock.steady - (clock.ros - c.stamp.value))),
                             c, clock);
    }
  }

  lemma TimerFloor(settings: Settings, s: Gate, cycle: Cycle, clock: Clock)
    requires settings.mpc.Valid() && (cycle.approach.Some? ==> cycle.approach.value.1 > 0.0)
    ensures var s' := OnControlTimer(settings, s, cycle, clock);
            s'.plannerGeneration == s.plannerGeneration &&
            s'.retired == if LeaseExpires(settings, s, Timer(cycle, clock)) then MaxNat(s.retired, RetireFloor(s, true))
            else s.retired
  {
    hide LeaseValid, Drive, EngageFailStop;
    var quiet := s.(output := None);
    var leased := ExpireMap(settings, ExpireGrace(quiet, clock.steady), clock.steady);
    FrameDrive(settings, leased, cycle);
    EngagingKeeps(quiet, true, clock.ros);
    EngagingKeeps(leased, true, clock.ros);
    EngagingKeeps(leased, false, clock.ros);
  }

  lemma HeartbeatFloor(settings: Settings, s: Gate, data: bool, clock: Clock)
    requires FloorIsWithinThePlanner(s)
    ensures FloorIsWithinThePlanner(OnMapReady(settings, s, data, clock)) <==>
            !(MapExpired(settings, s, clock.steady) && s.readyLease > s.plannerGeneration)
  {
    hide MapFresh;
    assert MapExpired(settings, s.(output := None), clock.steady) == MapExpired(settings, s, clock.steady) by {
      SignalIsTheMaps(settings, s, clock.steady);
    }
  }

  lemma SignalIsTheMaps(settings: Settings, s: Gate, now: int)
    ensures MapExpired(settings, s.(output := None), now) == MapExpired(settings, s, now)
  {
  }

  lemma SignalsKeepTheFloor(settings: Settings, s: Gate, data: bool, epoch: nat, gimbal: Gimbal, clock: Clock)
    requires FloorIsWithinThePlanner(s)
    ensures FloorIsWithinThePlanner(OnEmergencyStop(s, data, clock))
    ensures FloorIsWithinThePlanner(OnLocalizationStatus(s, data, epoch, clock))
    ensures FloorIsWithinThePlanner(OnGimbalStatus(settings, s, gimbal, clock))
  {
    hide GimbalValid;
  }

  // The generation that a map lease covered is not forgotten when the epoch
  // changes, so its expiry can retire generations that do not exist yet; this
  // happens exactly when the remembered generation exceeds the planner's.
  lemma FloorStaysWithinThePlannerIff(settings: Settings, s: Gate, e: Event)
    requires settings.mpc.Valid() && Usable(e) && FloorIsWithinThePlanner(s)
    ensures FloorIsWithinThePlanner(Step(settings, s, e)) <==>
            !(LeaseExpires(settings, s, e) && s.readyLease > s.plannerGeneration)
  {
    hide OnControlTimer, OnExecutionCommand, Judge, MapExpired, OnMapReady, OnEmergencyStop, OnLocalizationStatus,
      OnGimbalStatus;
    match e {
      case Timer(cycle, clock) => TimerFloor(settings, s, cycle, clock);
      case Execution(command, clock) =>
        CommandKeepsTheFloor(settings, s, command, clock);
      case Planner(status, clock) =>
        var quiet := s.(output := None);
        if !StatusIgnored(quiet, status) {
          var newEpoch := status.epoch > s.plannerEpoch;
          JudgementKeepsTheFloor(settings, Adopt(quiet, status), status, newEpoch,
                                 newEpoch || status.generation > s.plannerGeneration, clock);
        }
      case MapHeartbeat(ready, clock) => HeartbeatFloor(settings, s, ready, clock);
      case Emergency(stop, clock) => SignalsKeepTheFloor(settings, s, stop, 0, Gimbal(false, false, SPIN, 0, 0), clock);
      case Localization(allowed, epoch, clock) =>
        SignalsKeepTheFloor(settings, s, allowed, epoch, Gimbal(false, false, SPIN, 0, 0), clock);
      case GimbalReport(gimbal, clock) => SignalsKeepTheFloor(settings, s, true, 0, gimbal, clock);
    }
  }

  function Status(state: PlannerState, epoch: nat, generation: nat, time: int): Event {
    Planner(PlannerStatus(state, NO_FAILURE, epoch, generation, true, Some(time)), Clock(0, time))
  }

  // A ready generation 5 of a second epoch is refused because generation 5 of
  // the first epoch was ready before it.
  lemma AFreshGenerationIsRefused(settings: Settings)
    requires settings.mpc.Valid() && settings.mapTimeout >= 0
    ensures var first := Step(settings, INITIAL, Status(REFERENCE_READY, 1, 5, 1));
            var leased := Step(settings, first, MapHeartbeat(true, Clock(0, 1)));
            var second := Step(settings, leased, Status(OTHER_STATE, 2, 1, 2));
            var expired := Step(settings, second, MapHeartbeat(true, Clock(settings.mapTimeout + 1, 3)));
            var refused := Step(settings, expired, Status(REFERENCE_READY, 2, 5, 4));
            expired.plannerGeneration == 1 && expired.retired == 5 &&
            refused.plannerEpoch == 2 && refused.plannerGeneration == 5 && !refused.usable
  {
    var first := Step(settings, INITIAL, Status(REFERENCE_READY, 1, 5, 1));
    assert first.plannerEpoch == 1 && first.plannerGeneration == 5 && first.retired == 0 && first.active.None?;
    var leased := Step(settings, first, MapHeartbeat(true, Clock(0, 1)));
    assert leased == first.(output := None, readyLease := 5, mapReady := true, mapSignal := Some(0));
    var second := Step(settings, leased, Status(OTHER_STATE, 2, 1, 2));
    assert second.plannerGeneration == 1 && second.readyLease == 5 && second.plannerEpoch == 2 && second.retired == 0 &&
           second.mapReady &&
           second.mapSignal == Some(0) && second.active.None?;
    var expired := Step(settings, second, MapHeartbeat(true, Clock(settings.mapTimeout + 1, 3)));
    assert expired.plannerEpoch == 2 && expired.plannerGeneration == 1 && expired.retired == 5 && expired.active.None?;
  }

  // A stop refuses every older reference exactly when it is recorded: the node
  // was moving, or had already recorded a stop at least as late.
  lemma StopRefusesOlderReferencesIff(settings: Settings, s: Gate, clock: Clock)
    requires clock.ros > 0 && (settings.requireLocalization ==> s.tracking)
    ensures (forall r: Reference | r.stamp <= clock.ros ::
               !Installable(settings, OnEmergencyStop(s, true, clock), r)) <==>
            !s.failStop || s.stopStamp >= clock.ros
  {
    var after := OnEmergencyStop(s, true, clock);
    if s.failStop && s.stopStamp < clock.ros {
      var r := Reference(clock.ros, "", [Pose(0.0, 0.0, 0.0), Pose(0.0, 0.0, 0.0)], true);
      assert Installable(settings, after, r);
    }
  }

  // A command accepted while fail-stopped always releases the stop when it
  // repeats the active reference, but then leaves the tracker empty: the chassis
  // moves again exactly when the reference is a different one.
  lemma AcceptedCommandRestoresTheTrackerIff(settings: Settings, s: Gate, c: Command, clock: Clock)
    requires s.failStop && s.tracker.None? && Timely(settings, c, clock)
    requires c.incarnation == s.lastIncarnation != 0 && c.sequence > s.lastSequence
    requires Executable(settings, s, c, clock.steady)
    ensures var same := s.active.Some? && SameReference(s.active.value, c);
            var after := OnExecutionCommand(settings, s, c, clock);
            && after.active == Some(c)
            && (!after.failStop <==> same || Installable(settings, s, c.reference))
            && (after.tracker.Some? <==> !same && Installable(settings, s, c.reference))
  {
    hide SameReference, SamePlan;
  }

  // The node as the next two runs configure it.
  ghost predicate IsPlain(settings: Settings) {
    && settings.mpc.Valid() && !settings.requireLocalization && !settings.requireGimbal
    && settings.mapTimeout >= 100 && settings.commandTimeout >= 5
  }

  function Order(mode: Mode, sequence: nat, time: nat, reference: Reference): Event {
    Execution(Command(mode, 1, sequence, Some(time), 1, 1, 1, 1, GIMBAL_COMPENSATED, false, 0, 0, reference),
              Clock(time, time))
  }

  // A reference made at time 15.
  const OLD := Reference(15, "", [Pose(0.0, 0.0, 0.0), Pose(1.0, 0.0, 0.0)], true)
  const NOTHING := Reference(0, "", [], true)

  // A run from the start: the plan becomes ready, the manager opens with a STOP
  // at 2, and at 20 an emergency stop finds the node already fail-stopped.
  function StoppedTwice(settings: Settings): Gate
    requires settings.mpc.Valid()
  {
    var ready := Step(settings, INITIAL,
                      Planner(PlannerStatus(REFERENCE_READY, NO_FAILURE, 1, 1, true, Some(1)), Clock(1, 1)));
    var leased := Step(settings, ready, MapHeartbeat(true, Clock(1, 1)));
    var begun := Step(settings, leased, Order(STOP, 1, 2, NOTHING));
    Step(settings, begun, Emergency(true, Clock(20, 20)))
  }

  lemma TheSecondStopIsNotRecorded(settings: Settings)
    requires IsPlain(settings)
    ensures var s := StoppedTwice(settings);
            && s.failStop && s.stopStamp == 0 && s.tracker.None? && s.active.None? && s.deadline.None?
            && s.lastIncarnation == 1 && s.lastSequence == 1 && s.mapReady && s.mapSignal == Some(1) && s.usable
            && s.plannerEpoch == 1 && s.plannerGeneration == 1 && s.retired == 0
  {
    var ready := Step(settings, INITIAL,
                      Planner(PlannerStatus(REFERENCE_READY, NO_FAILURE, 1, 1, true, Some(1)), Clock(1, 1)));
    assert ready.usable && ready.plannerEpoch == 1 && ready.plannerGeneration == 1 && ready.retired == 0 &&
           ready.failStop &&
           ready.active.None? && ready.deadline.None? && ready.stopStamp == 0 && ready.tracker.None? &&
           !ready.mapReady &&
           ready.lastIncarnation == 0 && ready.lastSequence == 0;
    var leased := Step(settings, ready, MapHeartbeat(true, Clock(1, 1)));
    assert leased == ready.(output := None, mapReady := true, mapSignal := Some(1), readyLease := 1);
  }

  // The stop at 20 does not refuse a reference made at 15: it is installed, and
  // the fail-stop lifted.
  lemma AReferenceOlderThanTheStopIsInstalled(settings: Settings)
    requires IsPlain(settings)
    ensures var s := Step(settings, StoppedTwice(settings), Order(EXECUTE, 2, 21, OLD));
            && !s.failStop && s.stopStamp == 0 && s.tracker == s.active == Some(Order(EXECUTE, 2, 21, OLD).command)
            && s.tracker.value.reference.stamp < 20 && s.lastIncarnation == 1 && s.lastSequence == 2
            && MapValid(settings, s, s.active.value, 23) && s.deadline.None?
  {
    hide StoppedTwice;
    TheSecondStopIsNotRecorded(settings);
  }

  // Stopped once more at 22, the node hears the active reference again at 23: the
  // fail-stop is lifted and nothing is in the tracker.
  lemma ARepeatedReferenceLeavesTheTrackerEmpty(settings: Settings)
    requires IsPlain(settings)
    ensures var driving := Step(settings, StoppedTwice(settings), Order(EXECUTE, 2, 21, OLD));
            var stopped := Step(settings, driving, Emergency(true, Clock(22, 22)));
            var released := Step(settings, stopped, Order(EXECUTE, 3, 23, OLD));
            && stopped.failStop && stopped.tracker.None? && stopped.stopStamp == 22
            && !released.failStop && released.active.Some? && released.tracker.None?
  {
    hide StoppedTwice, OnExecutionCommand;
    AReferenceOlderThanTheStopIsInstalled(settings);
    var driving := Step(settings, StoppedTwice(settings), Order(EXECUTE, 2, 21, OLD));
    var stopped := Step(settings, driving, Emergency(true, Clock(22, 22)));
    assert stopped == driving.(output := Some(ZERO), control := ZERO, failStop := true, tracker := None,
                               stopStamp := 22);
    AcceptedCommandRestoresTheTrackerIff(settings, stopped, Order(EXECUTE, 3, 23, OLD).command, Clock(23, 23));
  }
}
