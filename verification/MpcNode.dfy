/** The node itself: callbacks that update its fields in place, each one atomic
    step of the execution gate. */
module MpcNode {
  import opened Basics
  import opened Actuator
  import ExecutionGate
  import opened ExecutionSafety

  type Command = ExecutionGate.Command
  type Clock = ExecutionGate.Clock

  // The node's fields, grouped by what they record.
  datatype CommandLease = CommandLease(active: Option<Command>, lastIncarnation: nat, lastSequence: nat,
                                       lastSignal: Option<int>)
  datatype PlannerLease = PlannerLease(
    epoch: nat, generation: nat, retired: nat, readyLease: nat, statusStamp: int, usable: bool,
    supersedeDeadline: Option<int>, supersedeOld: nat)
  datatype MapLease = MapLease(ready: bool, signal: Option<int>)
  datatype Health = Health(tracking: bool, epoch: Option<nat>, gimbal: Option<ExecutionGate.Gimbal>,
                           gimbalSignal: Option<int>)
  // published is the Twist of the current callback.
  datatype Motion = Motion(failStop: bool, tracker: Option<Command>, lastStopStamp: int, lastControl: Control,
                           published: Option<Control>)

  class AtsSwerveMpcNode {
    const settings: ExecutionGate.Settings
    var commands: CommandLease
    var planner: PlannerLease
    var mapLease: MapLease
    var health: Health
    var motion: Motion

    ghost function State(): ExecutionGate.Gate
      reads this
    {
      ExecutionGate.Gate(
        commands.active, commands.lastIncarnation, commands.lastSequence, commands.lastSignal,
        planner.epoch, planner.generation, planner.retired, planner.readyLease, planner.statusStamp, planner.usable,
        planner.supersedeDeadline, planner.supersedeOld, mapLease.ready, mapLease.signal,
        motion.failStop, motion.tracker, motion.lastStopStamp, health.tracking, health.epoch, health.gimbal,
        health.gimbalSignal,
        motion.lastControl, motion.published)
    }

    ghost predicate Valid()
      reads this
    {
      settings.mpc.Valid() && Safe(settings, State())
    }

    constructor (settings: ExecutionGate.Settings)
      requires settings.mpc.Valid()
      ensures this.settings == settings && State() == ExecutionGate.INITIAL && Valid()
    {
      this.settings := settings;
      commands := CommandLease(None, 0, 0, None);
      planner := PlannerLease(0, 0, 0, 0, 0, false, None, 0);
      mapLease := MapLease(false, None);
      health := Health(false, None, None, None);
      motion := Motion(true, None, 0, ZERO, None);
      new;
      EveryRunIsSafe(settings, State(), []);
    }

    method EngageFailStop(recordStopStamp: bool, clock: Clock)
      modifies this
      ensures State() == ExecutionGate.EngageFailStop(old(State()), recordStopStamp, clock.ros)
    {
      var wasEngaged := motion.failStop;
      motion := motion.(failStop := true);
      if !wasEngaged {
        motion := motion.(tracker := None);
        if recordStopStamp {
          motion := motion.(lastStopStamp := clock.ros);
        }
      }
      motion := motion.(lastControl := ZERO, published := Some(ZERO));
    }

    method InstallPath(command: Command, keepControlState: bool) returns (installed: bool)
      modifies this
      ensures installed == ExecutionGate.Installable(settings, old(State()), command.reference)
      ensures State() == if installed then ExecutionGate.InstallPath(old(State()), command, keepControlState)
              else old(State())
    {
      if settings.requireLocalization && !health.tracking {
        return false;
      }
      if |command.reference.poses| < 2 {
        return false;
      }
      if settings.frame != "" && command.reference.frame != "" && command.reference.frame != settings.frame {
        return false;
      }
      if !command.reference.finite {
        return false;
      }
      if motion.lastStopStamp > 0 && (command.reference.stamp == 0 || command.reference.stamp <= motion.lastStopStamp) {
        return false;
      }
      motion := motion.(tracker := Some(command));
      if !keepControlState {
        motion := motion.(lastControl := ZERO);
      }
      return true;
    }

    // The part of the execution callback after the sequence checks.
    method Admit(command: Command, clock: Clock)
      modifies this
      ensures State() == ExecutionGate.AdmitCommand(settings, old(State()), command, clock)
    {
      hide ExecutionGate.GimbalValid, ExecutionGate.MapValid, ExecutionGate.SameReference, ExecutionGate.SamePlan,
        ExecutionGate.GraceActive, ExecutionGate.Executable, ExecutionGate.EngageFailStop, ExecutionGate.Installable;
      var grace := GraceActive(clock.steady);
      if grace && command.mode == ExecutionGate.EXECUTE && ActiveIsOf(command) &&
         command.generation == planner.supersedeOld {
        return;
      }
      if command.mode == ExecutionGate.STOP || !Executable(command, clock.steady) {
        commands := commands.(active := None);
        EngageFailStop(true, clock);
        return;
      }
      var same := commands.active.Some? && ExecutionGate.SamePlan(commands.active.value, command);
      var successor := grace && ActiveIsOf(command) && command.generation > commands.active.value.generation;
      var install := !(commands.active.Some? && ExecutionGate.SameReference(commands.active.value, command));
      var keep := install && (same || successor) && !motion.failStop;
      commands := commands.(active := Some(command));
      planner := planner.(supersedeDeadline := None);
      if install {
        var installed := InstallPath(command, keep);
        if !installed {
          EngageFailStop(true, clock);
          return;
        }
      }
      motion := motion.(failStop := false);
    }

    predicate ActiveIsOf(command: Command)
      reads this
    {
      commands.active.Some? && commands.active.value.goal == command.goal &&
      commands.active.value.epoch == command.epoch
    }

    predicate GraceActive(now: int)
      reads this
      ensures GraceActive(now) == ExecutionGate.GraceActive(State(), now)
      ensures GraceActive(now) ==> commands.active.Some?
    {
      planner.supersedeDeadline.Some? && now <= planner.supersedeDeadline.value && commands.active.Some? &&
      !motion.failStop
    }

    predicate MapReadyFresh(now: int)
      reads this
      ensures MapReadyFresh(now) == ExecutionGate.MapFresh(settings, State(), now)
    {
      mapLease.ready && mapLease.signal.Some? && 0 <= now - mapLease.signal.value <= settings.mapTimeout
    }

    predicate MapExecutionValid(command: Command, now: int)
      reads this
      ensures MapExecutionValid(command, now) == ExecutionGate.MapValid(settings, State(), command, now)
    {
      MapReadyFresh(now) && planner.usable && command.epoch != 0 && command.epoch == planner.epoch &&
      command.generation != 0 && command.generation == planner.generation && command.generation > planner.retired
    }

    predicate GimbalExecutionValid(command: Command, now: int)
      reads this
      ensures GimbalExecutionValid(command, now) == ExecutionGate.GimbalValid(settings, State(), command, now)
    {
      !settings.requireGimbal ||
      (health.gimbal.Some? && health.gimbalSignal.Some? && now - health.gimbalSignal.value <= settings.gimbalTimeout &&
       health.gimbal.value.healthy && health.gimbal.value.authority == command.authority &&
       health.gimbal.value.request == command.gimbalRequest &&
       health.gimbal.value.sequence >= command.gimbalFeedback && (command.requiresLock ==> health.gimbal.value.locked))
    }

    predicate Executable(command: Command, now: int)
      reads this
      ensures Executable(command, now) == ExecutionGate.Executable(settings, State(), command, now)
    {
      && command.mode == ExecutionGate.EXECUTE && command.goal != 0 && |command.reference.poses| >= 2
      && (settings.requireGimbal ==> command.gimbalRequest != 0)
      && command.authority != ExecutionGate.OTHER_AUTHORITY
      && GimbalExecutionValid(command, now) && MapExecutionValid(command, now)
      && (settings.requireLocalization ==> health.tracking && health.epoch == Some(command.epoch))
    }

    method OnExecutionCommand(command: Command, clock: Clock)
      requires Valid()
      modifies this
      ensures State() == ExecutionGate.OnExecutionCommand(settings, old(State()), command, clock) && Valid()
    {
      hide ExecutionGate.OnExecutionCommand, Safe;
      ExecutionCommandIsSafe(settings, State(), command, clock);
      TakeCommand(command, clock);
    }

    method TakeCommand(command: Command, clock: Clock)
      modifies this
      ensures State() == ExecutionGate.OnExecutionCommand(settings, old(State()), command, clock)
    {
      hide ExecutionGate.AdmitCommand, ExecutionGate.EngageFailStop, ExecutionGate.Timely;
      motion := motion.(published := None);
      if command.incarnation == 0 || command.sequence == 0 || !ExecutionGate.Timely(settings, command, clock) {
        EngageFailStop(true, clock);
        return;
      }
      assert command.stamp.Some? by {
        TimelyIsStamped(command, clock);
      }
      var signal := Some(clock.steady - (clock.ros - command.stamp.value));
      if command.incarnation < commands.lastIncarnation {
        commands := commands.(active := None);
        EngageFailStop(true, clock);
      } else if command.incarnation > commands.lastIncarnation {
        if command.mode == ExecutionGate.STOP {
          commands := commands.(lastIncarnation := command.incarnation, lastSequence := command.sequence);
        }
        commands := commands.(active := None, lastSignal := signal);
        EngageFailStop(true, clock);
      } else if command.sequence <= commands.lastSequence {
        commands := commands.(active := None);
        EngageFailStop(true, clock);
      } else {
        commands := commands.(lastSequence := command.sequence, lastSignal := signal);
        Admit(command, clock);
      }
    }

    lemma TimelyIsStamped(command: Command, clock: Clock)
      requires ExecutionGate.Timely(settings, command, clock)
      ensures command.stamp.Some?
    {
    }

    method Adopt(status: ExecutionGate.PlannerStatus)
      requires status.stamp.Some? && status.epoch >= planner.epoch
      requires status.epoch == planner.epoch ==> status.generation >= planner.generation
      modifies this`planner
      ensures State() == ExecutionGate.Adopt(old(State()), status)
    {
      if status.epoch > planner.epoch {
        planner := planner.(retired := 0);
      }
      if status.epoch > planner.epoch || status.generation > planner.generation {
        planner := planner.(usable := false);
      }
      planner := planner.(epoch := status.epoch, generation := status.generation, statusStamp := status.stamp.value);
    }

    method Ready(now: int)
      modifies this`planner
      ensures State() == ExecutionGate.Ready(settings, old(State()), now)
    {
      planner := planner.(usable := planner.generation > planner.retired);
      if planner.usable && MapReadyFresh(now) {
        planner := planner.(readyLease := planner.generation);
      }
    }

    method Judge(status: ExecutionGate.PlannerStatus, changedEpoch: bool, changedIdentity: bool, clock: Clock)
      modifies this
      ensures State() == ExecutionGate.Judge(settings, old(State()), status, changedEpoch, changedIdentity, clock)
    {
      hide ExecutionGate.EngageFailStop, ExecutionGate.MapFresh;
      var stop := changedIdentity;
      var supersededOnly := false;
      if status.state == ExecutionGate.FAILED || status.failure != ExecutionGate.NO_FAILURE {
        planner := planner.(usable := false);
        stop := true;
        if status.failure == ExecutionGate.MAP_UNREADY {
          planner := planner.(retired := MaxNat(planner.retired, planner.generation));
        }
      } else if status.state == ExecutionGate.REFERENCE_READY {
        Ready(clock.steady);
        supersededOnly := changedIdentity && !changedEpoch;
        if supersededOnly && settings.grace > 0 && commands.active.Some? && !motion.failStop &&
           commands.active.value.epoch == status.epoch {
          if planner.supersedeDeadline.None? {
            planner := planner.(supersedeDeadline := Some(clock.steady + settings.grace),
                                supersedeOld := commands.active.value.generation);
          }
          stop := false;
        }
      } else {
        planner := planner.(usable := false);
        stop := true;
      }
      if stop {
        commands := commands.(active := None);
        planner := planner.(supersedeDeadline := None);
        EngageFailStop(!supersededOnly, clock);
      }
    }

    method OnPlannerStatus(status: ExecutionGate.PlannerStatus, clock: Clock)
      requires Valid()
      modifies this
      ensures State() == ExecutionGate.OnPlannerStatus(settings, old(State()), status, clock) && Valid()
    {
      PlannerStatusIsSafe(settings, State(), status, clock);
      hide ExecutionGate.Judge, ExecutionGate.Adopt, Safe;
      motion := motion.(published := None);
      if status.state == ExecutionGate.ACCEPTED || status.epoch == 0 || status.generation == 0 || !status.framed ||
         status.stamp.None? || status.stamp.value <= 0 {
        return;
      }
      if status.epoch < planner.epoch || (status.epoch == planner.epoch && status.generation < planner.generation) {
        return;
      }
      var changedEpoch := status.epoch > planner.epoch;
      var changedIdentity := changedEpoch || status.generation > planner.generation;
      if !changedIdentity && status.stamp.value <= planner.statusStamp {
        return;
      }
      Adopt(status);
      Judge(status, changedEpoch, changedIdentity, clock);
    }

    method OnMapReady(data: bool, clock: Clock)
      requires Valid()
      modifies this
      ensures State() == ExecutionGate.OnMapReady(settings, old(State()), data, clock) && Valid()
    {
      hide ExecutionGate.OnMapReady, Safe;
      MapReadyIsSafe(settings, State(), data, clock);
      HearMap(data, clock);
    }

    method RetireMap(expired: bool)
      modifies this`planner, this`commands
      ensures State() == ExecutionGate.RetireMap(old(State()), expired)
    {
      var floor := if expired && planner.readyLease != 0 then planner.readyLease else planner.generation;
      planner := planner.(retired := MaxNat(planner.retired, floor), usable := false);
      commands := commands.(active := None);
      planner := planner.(supersedeDeadline := None);
    }

    method HearMap(data: bool, clock: Clock)
      modifies this
      ensures State() == ExecutionGate.OnMapReady(settings, old(State()), data, clock)
    {
      hide ExecutionGate.EngageFailStop, ExecutionGate.MapFresh;
      motion := motion.(published := None);
      var expired := mapLease.ready && mapLease.signal.Some? && !MapReadyFresh(clock.steady);
      var stop := !data || expired;
      if stop {
        RetireMap(expired);
      }
      mapLease := mapLease.(ready := data, signal := Some(clock.steady));
      if data {
        planner := planner.(readyLease := planner.generation);
      }
      if stop {
        EngageFailStop(true, clock);
      }
    }

    method OnEmergencyStop(data: bool, clock: Clock)
      requires Valid()
      modifies this
      ensures State() == ExecutionGate.OnEmergencyStop(old(State()), data, clock) && Valid()
    {
      ghost var before := State();
      EmergencyStopIsSafe(settings, before, data, clock);
      hide Safe;
      motion := motion.(published := None);
      if data {
        EngageFailStop(true, clock);
      }
    }

    method OnLocalizationStatus(allowed: bool, epoch: nat, clock: Clock)
      requires Valid()
      modifies this
      ensures State() == ExecutionGate.OnLocalizationStatus(old(State()), allowed, epoch, clock) && Valid()
    {
      ghost var before := State();
      LocalizationStatusIsSafe(settings, before, allowed, epoch, clock);
      hide ExecutionGate.EngageFailStop, Safe;
      motion := motion.(published := None);
      if !allowed {
        health := health.(tracking := false);
        EngageFailStop(true, clock);
        return;
      }
      if health.epoch.Some? && health.epoch.value != epoch {
        EngageFailStop(true, clock);
      }
      health := health.(epoch := Some(epoch), tracking := true);
    }

    method OnGimbalStatus(report: ExecutionGate.Gimbal, clock: Clock)
      requires Valid()
      modifies this
      ensures State() == ExecutionGate.OnGimbalStatus(settings, old(State()), report, clock) && Valid()
    {
      ghost var before := State();
      GimbalStatusIsSafe(settings, before, report, clock);
      hide ExecutionGate.EngageFailStop, ExecutionGate.GimbalValid, Safe;
      motion := motion.(published := None);
      health := health.(gimbal := Some(report), gimbalSignal := Some(clock.steady));
      if commands.active.Some? && !GimbalExecutionValid(commands.active.value, clock.steady) {
        EngageFailStop(true, clock);
      }
    }

    // Expires the grace and the map lease.
    method ExpireLeases(clock: Clock) returns (graceExpired: bool)
      modifies this
      ensures graceExpired == ExecutionGate.GraceExpires(old(State()), clock.steady)
      ensures State() == ExecutionGate.ExpireMap(settings, ExecutionGate.ExpireGrace(old(State()), clock.steady),
                                                 clock.steady)
    {
      hide ExecutionGate.MapFresh;
      graceExpired := false;
      if planner.supersedeDeadline.Some? && clock.steady > planner.supersedeDeadline.value {
        planner := planner.(supersedeDeadline := None);
        if commands.active.Some? && commands.active.value.generation == planner.supersedeOld {
          commands := commands.(active := None);
          graceExpired := true;
        }
      }
      if mapLease.ready && mapLease.signal.Some? && !MapReadyFresh(clock.steady) {
        var floor := if planner.readyLease != 0 then planner.readyLease else planner.generation;
        planner := planner.(retired := MaxNat(planner.retired, floor), usable := false);
        commands := commands.(active := None);
        mapLease := mapLease.(ready := false);
      }
    }

    predicate ActiveExecutionValid(now: int)
      reads this
      ensures ActiveExecutionValid(now) == ExecutionGate.ActiveValid(settings, State(), now)
      ensures ActiveExecutionValid(now) ==> commands.active.Some?
    {
      commands.active.Some? &&
      (MapExecutionValid(commands.active.value, now) ||
       (GraceActive(now) && MapReadyFresh(now) && planner.usable && commands.active.value.epoch == planner.epoch &&
        commands.active.value.generation == planner.supersedeOld && commands.active.value.generation > planner.retired))
    }

    predicate LeaseValid(now: int)
      reads this
      ensures LeaseValid(now) == ExecutionGate.LeaseValid(settings, State(), now)
    {
      commands.lastSignal.Some? && commands.lastSignal.value <= now &&
      now - commands.lastSignal.value <= settings.commandTimeout &&
      ActiveExecutionValid(now) && GimbalExecutionValid(commands.active.value, now)
    }

    // The cycle once the lease holds: what it publishes and remembers.
    method Drive(cycle: ExecutionGate.Cycle)
      requires settings.mpc.Valid() && (cycle.approach.Some? ==> cycle.approach.value.1 > 0.0)
      modifies this
      ensures State() == ExecutionGate.Drive(settings, old(State()), cycle)
    {
      hide ClampIncrement, LimitTerminalApproachSpeed, TerminalDeceleration;
      var next := ZERO;
      if cycle.odometry && motion.tracker.Some? && !cycle.expired {
        if cycle.arrived {
          next := TerminalDeceleration(settings.mpc, motion.lastControl);
        } else if cycle.horizon && cycle.target.Some? {
          next := ClampIncrement(settings.mpc, cycle.target.value, motion.lastControl);
          if cycle.approach.Some? {
            next := LimitTerminalApproachSpeed(settings.mpc, next, cycle.approach.value.0, cycle.approach.value.1);
          }
        }
      }
      motion := motion.(lastControl := next, published := Some(next));
    }

    method ControlCycle(cycle: ExecutionGate.Cycle, clock: Clock)
      requires settings.mpc.Valid() && (cycle.approach.Some? ==> cycle.approach.value.1 > 0.0)
      modifies this
      ensures State() == ExecutionGate.OnControlTimer(settings, old(State()), cycle, clock)
    {
      hide ExecutionGate.EngageFailStop, ExecutionGate.Drive, ExecutionGate.ExpireMap, ExecutionGate.ExpireGrace,
        ExecutionGate.GraceExpires, ExecutionGate.LeaseValid;
      motion := motion.(published := None);
      if settings.requireLocalization && !health.tracking {
        EngageFailStop(true, clock);
        return;
      }
      var graceExpired := ExpireLeases(clock);
      if graceExpired {
        EngageFailStop(false, clock);
      } else if !LeaseValid(clock.steady) || motion.failStop {
        EngageFailStop(true, clock);
      } else {
        Drive(cycle);
      }
    }

    method OnControlTimer(cycle: ExecutionGate.Cycle, clock: Clock)
      requires Valid() && (cycle.approach.Some? ==> cycle.approach.value.1 > 0.0)
      modifies this
      ensures State() == ExecutionGate.OnControlTimer(settings, old(State()), cycle, clock) && Valid()
      ensures motion.published.Some? && InEnvelope(settings.mpc, motion.published.value)
    {
      hide ExecutionGate.OnControlTimer, Safe, InEnvelope;
      TimerIsSafe(settings, State(), cycle, clock);
      TimerPublishes(settings, State(), cycle, clock);
      ControlCycle(cycle, clock);
    }
  }

  lemma TimerPublishes(settings: ExecutionGate.Settings, before: ExecutionGate.Gate, cycle: ExecutionGate.Cycle,
                       clock: Clock)
    requires settings.mpc.Valid() && (cycle.approach.Some? ==> cycle.approach.value.1 > 0.0) && Safe(settings, before)
    ensures var after := ExecutionGate.OnControlTimer(settings, before, cycle, clock);
            after.output.Some? && InEnvelope(settings.mpc, after.output.value)
  {
    hide ExecutionGate.Drive, ExecutionGate.ExpireMap, ExecutionGate.ExpireGrace, ExecutionGate.GraceExpires,
      ExecutionGate.LeaseValid, InEnvelope, Tracks, Authorised, Ordered;
    TimerIsSafe(settings, before, cycle, clock);
    FrameDrive(settings,
               ExecutionGate.ExpireMap(settings, ExecutionGate.ExpireGrace(before.(output := None), clock.steady),
                                       clock.steady),
               cycle);
  }
}
