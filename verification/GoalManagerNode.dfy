/** The goal manager as it runs: callbacks that update its fields and publish
    commands, each one step of the goal manager's model. */
module GoalManagerNode {
  import opened Basics
  import ExecutionGate
  import Model = GoalManager
  import opened GoalSafety

  type Command = ExecutionGate.Command

  class AtsGoalManagerNode {
    const settings: Model.Settings
    const incarnation: nat
    var goal: Option<Model.Goal>
    var lifecycle: Model.Lifecycle
    var candidate: Option<ExecutionGate.Reference>
    var offer: Option<Model.Offer>
    var command: Option<Command>
    var pending: Option<Model.YawRequest>
    var failStop: bool
    var nextGoal: nat
    var nextYawRequest: nat
    var nextCommand: nat
    var localizationEpoch: Option<nat>
    // Everything published, oldest first.
    var log: seq<Command>

    ghost function State(): Model.Manager
      reads this
    {
      Model.Manager(incarnation, goal, lifecycle, candidate, offer, command, pending, failStop, nextGoal,
                    nextYawRequest,
                    nextCommand, localizationEpoch, log)
    }

    ghost predicate Valid()
      reads this
    {
      Consistent(State())
    }

    constructor (settings: Model.Settings, incarnation: nat, env: Model.Env)
      ensures this.settings == settings && State() == Model.Initial(settings, incarnation, env) && Valid()
    {
      this.settings := settings;
      this.incarnation := incarnation;
      goal, lifecycle, candidate, offer := None, Model.Lifecycle(0, false, Model.IDLE), None, None;
      command, pending, failStop := None, None, true;
      nextGoal, nextYawRequest, nextCommand, localizationEpoch, log := 0, 0, 0, None, [];
      new;
      InitialIsConsistent(settings, incarnation, env);
      PublishExecutionStop(0, 0, 0, 0, env);
    }

    method PublishExecutionCommand(published: Command, env: Model.Env)
      modifies this`log, this`nextCommand
      ensures State() == Model.Emit(settings, old(State()), published, env)
    {
      var stamp := if env.now > settings.backdate then env.now - settings.backdate else 0;
      nextCommand := nextCommand + 1;
      log := log + [published.(incarnation := incarnation, sequence := nextCommand, stamp := Some(stamp))];
    }

    method PublishExecutionStop(id: nat, epoch: nat, generation: nat, publication: nat, env: Model.Env)
      modifies this`log, this`nextCommand
      ensures State() == Model.EmitStop(settings, old(State()), id, epoch, generation, publication, env)
    {
      PublishExecutionCommand(
        ExecutionGate.Command(ExecutionGate.STOP, 0, 0, None, id, epoch, generation, publication,
                              ExecutionGate.GIMBAL_COMPENSATED, false, 0, 0, Model.NO_REFERENCE),
        env);
    }

    method Withdraw()
      modifies this`candidate, this`offer, this`command, this`pending, this`failStop
      ensures State() == Model.Withdraw(old(State()))
    {
      candidate, offer, command, pending, failStop := None, None, None, None, true;
    }

    method SuspendActiveGoal(id: nat, env: Model.Env)
      modifies this
      ensures State() == Model.Suspend(settings, old(State()), id, env)
    {
      hide Model.EmitStop;
      if goal.None? || goal.value.id != id {
        return;
      }
      Withdraw();
      goal := Some(goal.value.(replacementPending := false));
      lifecycle := lifecycle.Start(id, false);
      PublishExecutionStop(id, 0, 0, 0, env);
    }

    method FinishActive(end: Model.LifecycleState, env: Model.Env)
      modifies this
      ensures State() == Model.Finish(settings, old(State()), end, env)
    {
      hide Model.EmitStop;
      if goal.None? {
        return;
      }
      var finished := goal.value;
      lifecycle := lifecycle.Finish(end);
      goal := None;
      Withdraw();
      PublishExecutionStop(finished.id, finished.epoch, 0, 0, env);
    }

    method PublishPlannerGoal(id: nat, epoch: nat, env: Model.Env) returns (sent: bool)
      modifies this`goal
      ensures sent == Model.Dispatchable(old(State()), id, epoch, env)
      ensures State() == if sent then Model.Request(old(State())) else old(State())
    {
      if !env.dispatchable || goal.None? || goal.value.id != id || goal.value.epoch != epoch || !env.mapReady ||
         !env.localized {
        return false;
      }
      var next := goal.value.nextRequest + 1;
      goal := Some(goal.value.(nextRequest := next, expectedRequest := next));
      return true;
    }

    method DispatchOrSuspend(id: nat, epoch: nat, env: Model.Env)
      modifies this
      ensures State() == Model.DispatchOrSuspend(settings, old(State()), id, epoch, env)
    {
      hide Model.Suspend, Model.Dispatchable, Model.Request;
      var sent := PublishPlannerGoal(id, epoch, env);
      if !sent {
        SuspendActiveGoal(id, env);
      }
    }

    method StartGoal(env: Model.Env)
      requires Valid()
      modifies this
      ensures State() == Model.StartGoal(settings, old(State()), env) && Valid()
    {
      StartGoalKeeps(settings, State(), env, 0);
      hide Model.StartGoal, Consistent;
      BeginGoal(env);
    }

    method BeginGoal(env: Model.Env)
      modifies this
      ensures State() == Model.StartGoal(settings, old(State()), env)
    {
      hide Model.EmitStop, Model.DispatchOrSuspend;
      Withdraw();
      nextGoal := nextGoal + 1;
      var ready := env.mapReady && env.localized;
      lifecycle := lifecycle.Start(nextGoal, ready);
      var epoch := if localizationEpoch.Some? then localizationEpoch.value else env.mapEpoch;
      goal := Some(Model.Goal(nextGoal, epoch, false, 0, 0, 0, false));
      PublishExecutionStop(nextGoal, epoch, 0, env.publication, env);
      if ready {
        DispatchOrSuspend(nextGoal, epoch, env);
      }
    }

    method OnActionCancel()
      requires Valid()
      modifies this
      ensures State() == Model.Cancel(old(State())) && Valid()
    {
      if goal.Some? {
        goal := Some(goal.value.(cancelRequested := true));
        failStop := true;
      }
    }

    method RequestYawAuthority()
      requires offer.Some?
      modifies this`pending, this`nextYawRequest
      ensures State() == Model.RequestYaw(settings, old(State()))
    {
      if !settings.requireGimbal {
        return;
      }
      if pending.Some? && Model.SameYaw(pending.value.offer, offer.value) {
        return;
      }
      nextYawRequest := nextYawRequest + 1;
      pending := Some(Model.YawRequest(nextYawRequest, offer.value));
    }

    // The state that a commit leaves, but for the command it publishes.
    method Release(committed: Command)
      requires goal.Some? && offer.Some?
      modifies this`failStop, this`lifecycle, this`goal, this`command
      ensures State() ==
                old(State()).(failStop := false, command := Some(committed),
                              lifecycle := old(lifecycle).(state := Model.TRACKING),
                              goal := Some(old(goal).value.(committedRequest := offer.value.request,
                                                            replacementPending := false)))
    {
      failStop := false;
      lifecycle := lifecycle.(state := Model.TRACKING);
      goal := Some(goal.value.(committedRequest := offer.value.request, replacementPending := false));
      command := Some(committed);
    }

    method Commit(request: nat, env: Model.Env)
      requires goal.Some? && offer.Some? && candidate.Some?
      modifies this
      ensures State() == Model.Commit(settings, old(State()), request, env)
    {
      hide Model.Emit;
      var committed := ExecutionGate.Command(
        ExecutionGate.EXECUTE, 0, 0, None, goal.value.id, goal.value.epoch, offer.value.generation,
        offer.value.publication, offer.value.authority, offer.value.requiresLock, request, env.gimbalFeedback,
        candidate.value.(stamp := env.now, frame := settings.frame));
      Release(committed);
      PublishExecutionCommand(committed, env);
      candidate, offer, pending := None, None, None;
    }

    method Authorise(env: Model.Env)
      requires goal.Some? && offer.Some? && candidate.Some?
      modifies this
      ensures State() == Model.Authorise(settings, old(State()), env)
    {
      hide Model.Commit, Model.SameYaw;
      if offer.value.authority == ExecutionGate.OTHER_AUTHORITY {
        failStop := true;
        return;
      }
      var replacing := goal.value.replacementPending && command.Some? && lifecycle.state == Model.TRACKING &&
                       command.value.authority == offer.value.authority &&
                       command.value.requiresLock == offer.value.requiresLock;
      if !replacing {
        RequestYawAuthority();
      }
      var authorised := if replacing then env.gimbalHolds else pending.Some? && env.gimbalAcknowledges;
      if settings.requireGimbal && !authorised {
        failStop := true;
        return;
      }
      if !lifecycle.In(goal.value.id, if replacing then Model.TRACKING else Model.PLANNING) {
        return;
      }
      Commit(if replacing then command.value.gimbalRequest else if pending.Some? then pending.value.sequence
             else 0, env);
    }

    method TryCommitReference(env: Model.Env)
      requires Valid()
      modifies this
      ensures State() == Model.TryCommit(settings, old(State()), env) && Valid()
    {
      TryCommitKeeps(settings, State(), env, 0);
      hide Model.Authorise, Model.DispatchOrSuspend, Model.Suspend, Consistent;
      var offered := goal.Some? && candidate.Some? && offer.Some? && offer.value.goal == goal.value.id &&
                     offer.value.epoch == goal.value.epoch && offer.value.request == goal.value.expectedRequest;
      if offered && (offer.value.publication == 0 ||
                     (env.publication != 0 && offer.value.publication < env.publication && env.snapshotCoherent &&
                      !env.candidateUsable)) {
        var stale := goal.value;
        if stale.replacementPending && command.Some? && lifecycle.state == Model.TRACKING {
          candidate, offer := None, None;
          DispatchOrSuspend(stale.id, stale.epoch, env);
        } else {
          SuspendActiveGoal(stale.id, env);
        }
        return;
      }
      if !offered || goal.value.cancelRequested || !env.mapReady || !env.localized ||
         (localizationEpoch.Some? && offer.value.epoch != localizationEpoch.value) || offer.value.publication == 0 ||
         !env.candidateUsable || |candidate.value.poses| < 2 || candidate.value.stamp != offer.value.stamp {
        return;
      }
      Authorise(env);
    }

    method OnFailure(reported: Model.Offer, transient: bool, env: Model.Env)
      modifies this
      ensures State() == Model.OnFailure(settings, old(State()), reported, transient, env)
    {
      hide Model.Suspend, Model.Finish;
      if goal.Some? && goal.value.id == reported.goal && goal.value.epoch == reported.epoch &&
         (goal.value.expectedRequest == reported.request ||
          (command.Some? && goal.value.committedRequest == reported.request)) {
        if transient {
          SuspendActiveGoal(reported.goal, env);
        } else {
          FinishActive(Model.FAILED, env);
        }
      }
    }

    method OnReplanAdvised(advised: Model.Offer, env: Model.Env)
      modifies this
      ensures State() == Model.OnReplanAdvised(settings, old(State()), advised, env)
    {
      if !settings.replanWithoutStop || goal.None? || goal.value.cancelRequested || goal.value.id != advised.goal ||
         goal.value.epoch != advised.epoch || lifecycle.state != Model.TRACKING || command.None? || failStop ||
         goal.value.replacementPending || goal.value.committedRequest != advised.request {
        return;
      }
      goal := Some(goal.value.(replacementPending := true));
      var sent := PublishPlannerGoal(advised.goal, advised.epoch, env);
      if !sent {
        goal := Some(goal.value.(replacementPending := false));
      }
    }

    method OnReady(ready: Model.Offer, env: Model.Env)
      modifies this
      ensures State() == Model.OnReady(settings, old(State()), ready, env)
    {
      hide Model.EmitStop;
      if goal.None? || goal.value.id != ready.goal || goal.value.epoch != ready.epoch ||
         goal.value.expectedRequest != ready.request {
        return;
      }
      var protectedSwitch := command.Some? &&
                             (command.value.authority != ready.authority ||
                              command.value.requiresLock != ready.requiresLock);
      if protectedSwitch {
        command, pending, failStop := None, None, true;
        lifecycle := lifecycle.Start(goal.value.id, true);
      }
      offer := Some(ready);
      if protectedSwitch {
        PublishExecutionStop(ready.goal, ready.epoch, ready.generation, ready.publication, env);
      }
    }

    method OnPlannerStatus(report: Model.Report, env: Model.Env)
      requires Valid()
      modifies this
      ensures State() == Model.OnReport(settings, old(State()), report, env) && Valid()
    {
      ReportKeeps(settings, State(), report, env, 0);
      ReadyKeeps(settings, State(), report.offer, env, 0);
      hide Model.OnFailure, Model.OnReplanAdvised, Model.OnReady, Model.TryCommit, Consistent;
      match report.verdict {
        case PLAN_FAILED(transient) =>
          OnFailure(report.offer, transient, env);
        case PLAN_REJECTED(transient) =>
          if goal.Some? && goal.value.id == report.offer.goal && goal.value.epoch == report.offer.epoch &&
             goal.value.expectedRequest == report.offer.request {
            if command.None? {
              OnFailure(report.offer, transient, env);
            } else {
              goal := Some(goal.value.(replacementPending := false));
            }
          }
        case REPLAN_ADVISED =>
          OnReplanAdvised(report.offer, env);
        case PLAN_READY =>
          OnReady(report.offer, env);
          TryCommitReference(env);
        case PLAN_SCHEDULED =>
      }
    }

    // What a change of epoch or a lapse of health leaves of the active goal.
    method Unsettle(epoch: nat)
      requires goal.Some?
      modifies this`candidate, this`offer, this`command, this`failStop, this`goal, this`lifecycle
      ensures State() ==
                old(State()).(candidate := None, offer := None, command := None, failStop := true,
                              goal := Some(old(goal).value.(epoch := epoch)),
                              lifecycle := old(lifecycle).Start(old(goal).value.id, false))
    {
      candidate, offer, command, failStop := None, None, None, true;
      goal := Some(goal.value.(epoch := epoch));
      lifecycle := lifecycle.Start(goal.value.id, false);
    }

    method TakeLocalization(epoch: nat, steadilyHealthy: bool, env: Model.Env)
      modifies this
      ensures State() == Model.OnLocalization(settings, old(State()), epoch, steadilyHealthy, env)
    {
      hide Model.EmitStop;
      var changed := localizationEpoch.Some? && localizationEpoch.value != epoch;
      localizationEpoch := Some(epoch);
      if goal.Some? && (changed || !steadilyHealthy) {
        Unsettle(epoch);
        PublishExecutionStop(0, epoch, 0, 0, env);
      }
    }

    method OnLocalizationStatus(epoch: nat, steadilyHealthy: bool, env: Model.Env)
      requires Valid()
      modifies this
      ensures State() == Model.OnLocalization(settings, old(State()), epoch, steadilyHealthy, env) && Valid()
    {
      hide Model.OnLocalization;
      LocalizationKeeps(settings, State(), epoch, steadilyHealthy, env, 0);
      hide Consistent;
      TakeLocalization(epoch, steadilyHealthy, env);
    }

    method OnGimbalYawStatus(env: Model.Env)
      requires Valid()
      modifies this
      ensures State() == Model.OnGimbal(settings, old(State()), env) && Valid()
    {
      hide Model.Suspend, Model.TryCommit;
      if command.Some? && !env.gimbalHolds {
        command, failStop := None, true;
        if goal.Some? {
          SuspendKeeps(settings, State(), goal.value.id, env, 0);
          SuspendActiveGoal(goal.value.id, env);
        }
      }
      TryCommitReference(env);
    }

    method Heartbeat(env: Model.Env)
      modifies this`log, this`nextCommand
      ensures State() == Model.Heartbeat(settings, old(State()), env)
    {
      hide Model.Emit, Model.EmitStop;
      var stop := failStop || lifecycle.state != Model.TRACKING;
      if !stop && command.Some? {
        PublishExecutionCommand(command.value, env);
      } else if goal.Some? {
        PublishExecutionStop(goal.value.id, goal.value.epoch, 0, env.publication, env);
      } else {
        PublishExecutionStop(0, 0, 0, 0, env);
      }
    }

    // What a tick decided, carried out after the lock is released.
    method React(ticked: Model.Goal, lost: bool, o: Model.Observation, env: Model.Env)
      modifies this
      ensures State() == Model.React(settings, old(State()), ticked, lost, o, env)
    {
      hide Model.DispatchOrSuspend, Model.Act, Model.Finish, Model.Verdicts, Model.Drifts;
      var resumes := lifecycle.In(ticked.id, Model.WAITING_FOR_MAP) && env.mapReady && env.localized && o.recoveryReady;
      if resumes {
        lifecycle := lifecycle.(state := Model.PLANNING);
      }
      var tracking := lifecycle.state == Model.TRACKING;
      var drifts := Drifts(o);
      var end := Verdicts(ticked, drifts, o, env);
      if resumes {
        DispatchOrSuspend(ticked.id, ticked.epoch, env);
      }
      Act(ticked, lost, tracking, drifts, o, env);
      if end.Some? {
        FinishActive(end.value, env);
      }
    }

    method Act(ticked: Model.Goal, lost: bool, tracking: bool, drifts: bool, o: Model.Observation, env: Model.Env)
      modifies this
      ensures State() == Model.Act(settings, old(State()), ticked, lost, tracking, drifts, o, env)
    {
      hide Model.Replan, Model.Suspend, Model.Retarget;
      if tracking && o.progress.STALLED? {
        Replan(ticked, o.progress.snapshot, env);
      } else if lost {
        SuspendActiveGoal(ticked.id, env);
      } else if tracking && o.progress.UNSAFE? {
        SuspendActiveGoal(ticked.id, env);
      } else if drifts {
        Retarget(ticked, env);
      }
    }

    predicate Drifts(o: Model.Observation)
      reads this
      ensures Drifts(o) == Model.Drifts(settings, State(), o)
    {
      settings.replanWithoutStop && lifecycle.state == Model.TRACKING && o.drifted && command.Some? && !failStop &&
      goal.Some? &&
      !goal.value.replacementPending
    }

    function Verdicts(ticked: Model.Goal, drifts: bool, o: Model.Observation,
                      env: Model.Env): (end: Option<Model.LifecycleState>)
      reads this
      ensures end == Model.Verdicts(State(), ticked, drifts, o, env)
    {
      var waiting := lifecycle.state == Model.WAITING_FOR_MAP;
      var tracking := lifecycle.state == Model.TRACKING;
      if ticked.cancelRequested || o.canceling then Some(Model.CANCELED)
      else if o.expired then Some(Model.TIMED_OUT)
      else if !waiting && !env.mapReady then Some(Model.FAILED)
      else if waiting && o.waitedTooLong && (!env.localized || !env.mapReady || !o.recoveryReady)
      then Some(Model.FAILED)
      else if tracking && o.reached && !drifts then Some(Model.SUCCEEDED)
      else if (waiting && o.suspendedTooLong) || (tracking && o.progress.EXHAUSTED?) then Some(Model.FAILED)
      else None
    }

    method Replan(ticked: Model.Goal, snapshot: nat, env: Model.Env)
      modifies this
      ensures State() == Model.Replan(settings, old(State()), ticked, snapshot, env)
    {
      hide Model.EmitStop, Model.DispatchOrSuspend;
      Withdraw();
      lifecycle := lifecycle.Start(ticked.id, true);
      PublishExecutionStop(ticked.id, ticked.epoch, 0, snapshot, env);
      DispatchOrSuspend(ticked.id, ticked.epoch, env);
    }

    method Retarget(ticked: Model.Goal, env: Model.Env)
      modifies this
      ensures State() == Model.Retarget(settings, old(State()), ticked, env)
    {
      hide Model.OnReplanAdvised;
      OnReplanAdvised(Model.Offer(ticked.id, ticked.epoch, ticked.committedRequest, 0, 0,
                                  ExecutionGate.GIMBAL_COMPENSATED, false, 0), env);
    }

    method LoseGimbal(lost: bool, env: Model.Env)
      requires lost == (command.Some? && !env.gimbalHolds)
      modifies this`command, this`candidate, this`offer, this`failStop
      ensures State() == Model.LoseGimbal(old(State()), env)
    {
      if lost {
        command, candidate, offer, failStop := None, None, None, true;
      }
    }

    method LoseLocalization(id: nat, env: Model.Env)
      modifies this`candidate, this`offer, this`failStop, this`lifecycle
      ensures State() == Model.LoseLocalization(old(State()), id, env)
    {
      if !env.localized && lifecycle.state != Model.WAITING_FOR_MAP {
        candidate, offer, failStop := None, None, true;
        lifecycle := lifecycle.Start(id, false);
      }
    }

    method OnTick(o: Model.Observation, env: Model.Env)
      requires Valid()
      modifies this
      ensures State() == Model.Tick(settings, old(State()), o, env) && Valid()
    {
      TickKeeps(settings, State(), o, env, 0);
      hide Model.Suspend, Model.React, Model.Heartbeat, Model.LoseGimbal, Model.LoseLocalization, Consistent;
      if goal.Some? {
        var ticked := goal.value;
        if !o.transformed {
          SuspendActiveGoal(ticked.id, env);
          return;
        }
        var lost := command.Some? && !env.gimbalHolds;
        LoseGimbal(lost, env);
        LoseLocalization(ticked.id, env);
        React(ticked, lost, o, env);
      }
      Heartbeat(env);
    }
  }
}
