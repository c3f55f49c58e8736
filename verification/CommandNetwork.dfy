/** The two nodes together, over a network that loses, repeats and reorders: the
    MPC hears any selection of what a manager wrote, in any order, among anything else. */
module CommandNetwork {
  import opened Basics
  import opened Actuator
  import ExecutionGate
  import ExecutionSafety
  import ExecutionRuns
  import GoalManager
  import GoalSafety

  type Command = ExecutionGate.Command

  // Every command of this incarnation that the MPC hears is one the manager wrote.
  ghost predicate Carries(log: seq<Command>, incarnation: nat, events: seq<ExecutionGate.Event>) {
    forall e | e in events :: FromLog(log, incarnation, e)
  }

  ghost predicate FromLog(log: seq<Command>, incarnation: nat, e: ExecutionGate.Event) {
    e.Execution? && e.command.incarnation == incarnation ==> e.command in log
  }

  // A command becomes active only by being delivered.
  lemma ActiveIsDelivered(settings: ExecutionGate.Settings, s: ExecutionGate.Gate, e: ExecutionGate.Event)
    requires settings.mpc.Valid() && ExecutionGate.Usable(e)
    ensures var s' := ExecutionGate.Step(settings, s, e);
            s'.active.Some? && s'.active != s.active ==> e.Execution? && s'.active.value == e.command
  {
    hide ExecutionGate.OnExecutionCommand;
    if e.Execution? {
      DeliveredIsAdmitted(settings, s, e.command, e.clock);
    } else {
      hide ExecutionGate.Step;
      ExecutionRuns.OtherEventsKeepTheOrder(settings, s, e);
    }
  }

  lemma DeliveredIsAdmitted(settings: ExecutionGate.Settings, s: ExecutionGate.Gate, c: Command,
                            clock: ExecutionGate.Clock)
    ensures var s' := ExecutionGate.OnExecutionCommand(settings, s, c, clock);
            s'.active.Some? && s'.active != s.active ==> s'.active.value == c
  {
    hide ExecutionGate.AdmitCommand;
    if ExecutionGate.Timely(settings, c, clock) {
      var signal := Some(clock.steady - (clock.ros - c.stamp.value));
      ExecutionRuns.AdmissionOrder(settings, s.(output := None, lastSequence := c.sequence, lastSignal := signal), c,
                                   clock);
    }
  }

  lemma {:induction false} ActiveIsFromTheLog(settings: ExecutionGate.Settings, s: ExecutionGate.Gate,
                                              events: seq<ExecutionGate.Event>,
                                              log: seq<Command>, incarnation: nat)
    requires settings.mpc.Valid() && ExecutionGate.AllUsable(events) && Carries(log, incarnation, events) &&
             s.active.None?
    ensures var active := ExecutionGate.Run(settings, s, events).active;
            active.Some? && active.value.incarnation == incarnation ==> active.value in log
  {
    if events != [] {
      hide ExecutionGate.Step;
      var init := events[..|events| - 1];
      ActiveIsFromTheLog(settings, s, init, log, incarnation);
      ActiveIsDelivered(settings, ExecutionGate.Run(settings, s, init), events[|init|]);
      assert FromLog(log, incarnation, events[|init|]);
    }
  }

  ghost predicate Numbered(log: seq<Command>, incarnation: nat) {
    forall k | 0 <= k < |log| :: log[k].incarnation == incarnation && log[k].sequence == k + 1
  }

  // After the MPC accepts the manager's k-th command as a STOP, whatever of that
  // manager becomes active was written after it.
  lemma NothingOlderThanAStopReturns(settings: ExecutionGate.Settings, s: ExecutionGate.Gate, stop: ExecutionGate.Event,
                                     events: seq<ExecutionGate.Event>, log: seq<Command>, incarnation: nat, k: nat)
    requires settings.mpc.Valid() && ExecutionGate.Usable(stop) && ExecutionGate.AllUsable(events)
    requires Numbered(log, incarnation) && k < |log| && Carries(log, incarnation, events)
    requires ExecutionRuns.StopAccepted(settings, s, stop) && stop.command == log[k]
    ensures var active := ExecutionGate.Run(settings, ExecutionGate.Step(settings, s, stop), events).active;
            active.Some? && active.value.incarnation == incarnation ==> exists j | k < j < |log| ::
              active.value == log[j]
  {
    hide ExecutionGate.Run, ExecutionGate.Step, ExecutionRuns.StopAccepted;
    var stopped := ExecutionGate.Step(settings, s, stop);
    var active := ExecutionGate.Run(settings, stopped, events).active;
    ExecutionRuns.StepOrder(settings, s, stop);
    ExecutionRuns.AcceptedStopIsABarrier(settings, s, stop, events);
    ActiveIsFromTheLog(settings, stopped, events, log, incarnation);
    if active.Some? && active.value.incarnation == incarnation {
      var j :| 0 <= j < |log| && log[j] == active.value;
      assert k < j;
    }
  }

  lemma OnlyExecutesBecomeActive(settings: ExecutionGate.Settings, s: ExecutionGate.Gate, c: Command,
                                 clock: ExecutionGate.Clock)
    ensures var s' := ExecutionGate.AdmitCommand(settings, s, c, clock);
            s'.active.Some? && s'.active != s.active ==> c.mode == ExecutionGate.EXECUTE
  {
    hide ExecutionGate.GraceHeartbeat, ExecutionGate.Installable, ExecutionGate.GimbalValid, ExecutionGate.MapValid,
      ExecutionGate.SamePlan, ExecutionGate.SameReference, ExecutionGate.GraceActive, ExecutionGate.EngageFailStop,
      ExecutionGate.InstallPath;
    if !ExecutionGate.GraceHeartbeat(s, c, clock.steady) && !ExecutionGate.Executable(settings, s, c, clock.steady) {
      ExecutionSafety.EngagingKeeps(s.(active := None), true, clock.ros);
    }
  }

  lemma ActiveIsExecute(settings: ExecutionGate.Settings, s: ExecutionGate.Gate, e: ExecutionGate.Event)
    requires settings.mpc.Valid() && ExecutionGate.Usable(e)
    ensures var s' := ExecutionGate.Step(settings, s, e);
            s'.active.Some? && s'.active != s.active ==> s'.active.value.mode == ExecutionGate.EXECUTE
  {
    ActiveIsDelivered(settings, s, e);
    if e.Execution? && ExecutionGate.Timely(settings, e.command, e.clock) {
      hide ExecutionGate.AdmitCommand;
      var signal := Some(e.clock.steady - (e.clock.ros - e.command.stamp.value));
      OnlyExecutesBecomeActive(settings, s.(output := None, lastSequence := e.command.sequence, lastSignal := signal),
                               e.command, e.clock);
    } else {
      hide ExecutionGate.AdmitCommand, ExecutionGate.OnPlannerStatus, ExecutionGate.OnMapReady,
        ExecutionGate.OnEmergencyStop,
        ExecutionGate.OnLocalizationStatus, ExecutionGate.OnGimbalStatus, ExecutionGate.OnControlTimer;
    }
  }

  lemma {:induction false} EveryActiveIsExecute(settings: ExecutionGate.Settings, s: ExecutionGate.Gate,
                                                events: seq<ExecutionGate.Event>)
    requires settings.mpc.Valid() && ExecutionGate.AllUsable(events) && s.active.None?
    ensures var active := ExecutionGate.Run(settings, s, events).active;
            active.Some? ==> active.value.mode == ExecutionGate.EXECUTE
  {
    if events != [] {
      hide ExecutionGate.Step;
      var init := events[..|events| - 1];
      EveryActiveIsExecute(settings, s, init);
      ActiveIsExecute(settings, ExecutionGate.Run(settings, s, init), events[|init|]);
    }
  }

  // What the manager writes after a goal has ended, and the numbering of all it writes.
  lemma LogAfterTheEnd(settings: GoalManager.Settings, incarnation: nat, env: GoalManager.Env,
                       before: seq<GoalManager.Event>,
                       after: seq<GoalManager.Event>, goal: nat)
    requires GoalSafety.Ended(GoalManager.Run(settings, GoalManager.Initial(settings, incarnation, env), before), goal)
    ensures var ended := GoalManager.Run(settings, GoalManager.Initial(settings, incarnation, env), before);
            var log := GoalManager.Run(settings, ended, after).log;
            && Numbered(log, incarnation) && |ended.log| <= |log|
            && forall k | |ended.log| <= k < |log| :: log[k].mode == ExecutionGate.EXECUTE ==> log[k].goal != goal
  {
    hide GoalManager.Run, GoalManager.Initial, GoalSafety.Consistent, GoalSafety.Ended;
    var start := GoalManager.Initial(settings, incarnation, env);
    var ended := GoalManager.Run(settings, start, before);
    var log := GoalManager.Run(settings, ended, after).log;
    GoalSafety.InitialIsConsistent(settings, incarnation, env);
    GoalSafety.RunKeeps(settings, start, before, 0);
    GoalSafety.EveryLogIsOrdered(settings, incarnation, env, before);
    GoalSafety.RunKeeps(settings, ended, after, goal);
    forall k | 0 <= k < |log|
      ensures log[k].incarnation == incarnation && log[k].sequence == k + 1
      ensures k >= |ended.log| && log[k].mode == ExecutionGate.EXECUTE ==> log[k].goal != goal
    {
      if k < |ended.log| {
        assert GoalSafety.Sound(ended.log, k, incarnation, ended.nextGoal, 0);
        assert log[k] == log[..|ended.log|][k];
      } else {
        assert GoalSafety.Sound(log, k, ended.incarnation, GoalManager.Run(settings, ended, after).nextGoal, goal);
      }
    }
  }

  // End to end: when a goal is over in the manager, and the MPC has accepted any
  // STOP that the manager wrote afterwards, no message that arrives later, old or
  // new, puts that goal's reference back into the tracker, without which nothing moves.
  lemma EndedGoalNeverDrivesAgain(
    manager: GoalManager.Settings, mpc: ExecutionGate.Settings, incarnation: nat, env: GoalManager.Env,
    before: seq<GoalManager.Event>, after: seq<GoalManager.Event>, goal: nat, k: nat,
    s: ExecutionGate.Gate, stop: ExecutionGate.Event, events: seq<ExecutionGate.Event>)
    requires mpc.mpc.Valid() && ExecutionGate.Usable(stop) && ExecutionGate.AllUsable(events)
    requires GoalSafety.Ended(GoalManager.Run(manager, GoalManager.Initial(manager, incarnation, env), before), goal)
    requires var ended := GoalManager.Run(manager, GoalManager.Initial(manager, incarnation, env), before);
             var log := GoalManager.Run(manager, ended, after).log;
             |ended.log| <= k < |log| && Carries(log, incarnation, events) && stop.Execution? && stop.command == log[k]
    requires ExecutionSafety.Safe(mpc, s) && ExecutionRuns.StopAccepted(mpc, s, stop)
    ensures var later := ExecutionGate.Run(mpc, ExecutionGate.Step(mpc, s, stop), events);
            later.active.Some? && later.active.value.incarnation == incarnation ==>
              later.active.value.goal != goal && (later.tracker.Some? ==> later.tracker.value.goal != goal)
  {
    hide GoalManager.Run, GoalManager.Initial, GoalSafety.Ended, ExecutionGate.Run, ExecutionGate.Step,
      ExecutionRuns.StopAccepted,
      InEnvelope, ExecutionSafety.Authorised, ExecutionSafety.Ordered;
    var ended := GoalManager.Run(manager, GoalManager.Initial(manager, incarnation, env), before);
    var log := GoalManager.Run(manager, ended, after).log;
    LogAfterTheEnd(manager, incarnation, env, before, after, goal);
    NothingOlderThanAStopReturns(mpc, s, stop, events, log, incarnation, k);
    var stopped := ExecutionGate.Step(mpc, s, stop);
    ExecutionRuns.StepOrder(mpc, s, stop);
    EveryActiveIsExecute(mpc, stopped, events);
    ExecutionSafety.StepIsSafe(mpc, s, stop);
    ExecutionSafety.EveryRunIsSafe(mpc, stopped, events);
  }
}
