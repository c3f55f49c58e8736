/** The goal manager: one goal at a time, and the only source of execution
    commands. Each callback is one step; what the clock, the map, the gimbal and
    the transforms say during it arrives as Env. */
module GoalManager {
  import opened Basics
  import ExecutionGate

  type Command = ExecutionGate.Command
  type Reference = ExecutionGate.Reference

  datatype LifecycleState =
    | IDLE | WAITING_FOR_MAP | PLANNING | TRACKING
    | SUCCEEDED | CANCELED | PREEMPTED | TIMED_OUT | FAILED

  datatype Lifecycle = Lifecycle(goal: nat, active: bool, state: LifecycleState) {
    function Start(id: nat, mapReady: bool): Lifecycle {
      Lifecycle(id, true, if mapReady then PLANNING else WAITING_FOR_MAP)
    }

    function Finish(end: LifecycleState): Lifecycle {
      Lifecycle(goal, false, end)
    }

    // The goal is the running one, in this state.
    predicate In(id: nat, expected: LifecycleState) {
      active && goal == id && state == expected
    }
  }

  datatype Goal = Goal(
    id: nat, epoch: nat, cancelRequested: bool, nextRequest: nat, expectedRequest: nat, committedRequest: nat,
    replacementPending: bool)

  // What the planner says of a reference it has published.
  datatype Offer = Offer(
    goal: nat, epoch: nat, request: nat, generation: nat, publication: nat, authority: ExecutionGate.Authority,
    requiresLock: bool, stamp: nat)

  datatype YawRequest = YawRequest(sequence: nat, offer: Offer)

  datatype Manager = Manager(
    incarnation: nat, goal: Option<Goal>, lifecycle: Lifecycle, candidate: Option<Reference>, offer: Option<Offer>,
    command: Option<Command>, pending: Option<YawRequest>, failStop: bool, nextGoal: nat, nextYawRequest: nat,
    nextCommand: nat, localizationEpoch: Option<nat>, log: seq<Command>)

  datatype Settings = Settings(requireGimbal: bool, replanWithoutStop: bool, backdate: nat, frame: string)

  datatype Env = Env(
    now: nat, mapReady: bool, localized: bool, dispatchable: bool, candidateUsable: bool, snapshotCoherent: bool,
    publication: nat, mapEpoch: nat, gimbalHolds: bool, gimbalAcknowledges: bool, gimbalFeedback: nat)

  const NO_REFERENCE := ExecutionGate.Reference(0, "", [], true)

  // Every command carries the next sequence number and a stamp no later than now.
  function Emit(settings: Settings, m: Manager, c: Command, env: Env): Manager {
    var stamp := if env.now > settings.backdate then env.now - settings.backdate else 0;
    var next := m.nextCommand + 1;
    m.(nextCommand := next, log := m.log + [c.(incarnation := m.incarnation, sequence := next, stamp := Some(stamp))])
  }

  function EmitStop(settings: Settings, m: Manager, goal: nat, epoch: nat, generation: nat, publication: nat,
                    env: Env): Manager {
    Emit(settings, m,
         ExecutionGate.Command(ExecutionGate.STOP, 0, 0, None, goal, epoch, generation, publication,
                               ExecutionGate.GIMBAL_COMPENSATED, false, 0, 0, NO_REFERENCE),
         env)
  }

  // Nothing of the current plan survives.
  function Withdraw(m: Manager): Manager {
    m.(candidate := None, offer := None, command := None, pending := None, failStop := true)
  }

  function Suspend(settings: Settings, m: Manager, id: nat, env: Env): Manager {
    if m.goal.None? || m.goal.value.id != id then m
    else
      EmitStop(settings, Withdraw(m).(goal := Some(m.goal.value.(replacementPending := false)),
                                      lifecycle := m.lifecycle.Start(id, false)),
               id, 0, 0, 0, env)
  }

  function Finish(settings: Settings, m: Manager, end: LifecycleState, env: Env): Manager {
    if m.goal.None? then m
    else
      EmitStop(settings, Withdraw(m).(goal := None, lifecycle := m.lifecycle.Finish(end)),
               m.goal.value.id, m.goal.value.epoch, 0, 0, env)
  }

  // A planner request goes out only for the goal and epoch that are current.
  predicate Dispatchable(m: Manager, id: nat, epoch: nat, env: Env) {
    env.dispatchable && m.goal.Some? && m.goal.value.id == id && m.goal.value.epoch == epoch && env.mapReady &&
    env.localized
  }

  function Request(m: Manager): Manager
    requires m.goal.Some?
  {
    var next := m.goal.value.nextRequest + 1;
    m.(goal := Some(m.goal.value.(nextRequest := next, expectedRequest := next)))
  }

  function DispatchOrSuspend(settings: Settings, m: Manager, id: nat, epoch: nat, env: Env): Manager {
    if Dispatchable(m, id, epoch, env) then Request(m) else Suspend(settings, m, id, env)
  }

  function StartGoal(settings: Settings, m: Manager, env: Env): Manager {
    var id := m.nextGoal + 1;
    var epoch := if m.localizationEpoch.Some? then m.localizationEpoch.value else env.mapEpoch;
    var ready := env.mapReady && env.localized;
    var started := EmitStop(settings,
                            Withdraw(m).(nextGoal := id, lifecycle := m.lifecycle.Start(id, ready),
                                         goal := Some(Goal(id, epoch, false, 0, 0, 0, false))),
                            id, epoch, 0, env.publication, env);
    if ready then DispatchOrSuspend(settings, started, id, epoch, env) else started
  }

  function Cancel(m: Manager): Manager {
    if m.goal.None? then m else m.(goal := Some(m.goal.value.(cancelRequested := true)), failStop := true)
  }

  predicate OfferIsCurrent(m: Manager) {
    m.goal.Some? && m.candidate.Some? && m.offer.Some? && m.offer.value.goal == m.goal.value.id &&
    m.offer.value.epoch == m.goal.value.epoch && m.offer.value.request == m.goal.value.expectedRequest
  }

  predicate OfferIsStale(m: Manager, env: Env) {
    OfferIsCurrent(m) &&
    (m.offer.value.publication == 0 ||
     (env.publication != 0 && m.offer.value.publication < env.publication && env.snapshotCoherent &&
      !env.candidateUsable))
  }

  predicate Committable(m: Manager, env: Env) {
    && OfferIsCurrent(m) && !m.goal.value.cancelRequested && env.mapReady && env.localized
    && (m.localizationEpoch.Some? ==> m.offer.value.epoch == m.localizationEpoch.value)
    && m.offer.value.publication != 0 && env.candidateUsable
    && |m.candidate.value.poses| >= 2 && m.candidate.value.stamp == m.offer.value.stamp
  }

  // A replacement keeps the yaw authority of the command that is executing.
  predicate Replaces(m: Manager) {
    m.goal.Some? && m.goal.value.replacementPending && m.command.Some? && m.lifecycle.state == TRACKING &&
    m.offer.Some? &&
    m.command.value.authority == m.offer.value.authority && m.command.value.requiresLock == m.offer.value.requiresLock
  }

  function RequestYaw(settings: Settings, m: Manager): Manager
    requires m.offer.Some?
  {
    if !settings.requireGimbal || (m.pending.Some? && SameYaw(m.pending.value.offer, m.offer.value)) then m
    else m.(nextYawRequest := m.nextYawRequest + 1, pending := Some(YawRequest(m.nextYawRequest + 1, m.offer.value)))
  }

  predicate SameYaw(a: Offer, b: Offer) {
    a.goal == b.goal && a.epoch == b.epoch && a.generation == b.generation && a.publication == b.publication &&
    a.authority == b.authority && a.requiresLock == b.requiresLock
  }

  function Execution(settings: Settings, m: Manager, request: nat, env: Env): Command
    requires m.goal.Some? && m.offer.Some? && m.candidate.Some?
  {
    var offer := m.offer.value;
    ExecutionGate.Command(ExecutionGate.EXECUTE, 0, 0, None, m.goal.value.id, m.goal.value.epoch, offer.generation,
                          offer.publication, offer.authority, offer.requiresLock, request, env.gimbalFeedback,
                          m.candidate.value.(stamp := env.now, frame := settings.frame))
  }

  // The one place that releases the fail-stop.
  function Commit(settings: Settings, m: Manager, request: nat, env: Env): Manager
    requires m.goal.Some? && m.offer.Some? && m.candidate.Some?
  {
    var command := Execution(settings, m, request, env);
    var committed := m.(failStop := false, command := Some(command), lifecycle := m.lifecycle.(state := TRACKING),
                        goal := Some(m.goal.value.(committedRequest := m.offer.value.request,
                                                   replacementPending := false)));
    Emit(settings, committed, command, env).(candidate := None, offer := None, pending := None)
  }

  // A committable offer, once its yaw authority is settled.
  function Authorise(settings: Settings, m: Manager, env: Env): Manager
    requires m.goal.Some? && m.offer.Some? && m.candidate.Some?
  {
    if m.offer.value.authority == ExecutionGate.OTHER_AUTHORITY then m.(failStop := true)
    else
      var replacing := Replaces(m);
      var asked := if replacing then m else RequestYaw(settings, m);
      var authorised := if replacing then env.gimbalHolds else asked.pending.Some? && env.gimbalAcknowledges;
      if settings.requireGimbal && !authorised then asked.(failStop := true)
      else if !m.lifecycle.In(m.goal.value.id, if replacing then TRACKING else PLANNING) then asked
      else
        var request := if replacing then m.command.value.gimbalRequest
                       else if asked.pending.Some? then asked.pending.value.sequence else 0;
        Commit(settings, asked, request, env)
  }

  function TryCommit(settings: Settings, m: Manager, env: Env): Manager {
    if OfferIsStale(m, env) then
      var goal := m.goal.value;
      if goal.replacementPending && m.command.Some? && m.lifecycle.state == TRACKING
      then DispatchOrSuspend(settings, m.(candidate := None, offer := None), goal.id, goal.epoch, env)
      else Suspend(settings, m, goal.id, env)
    else if Committable(m, env) then Authorise(settings, m, env)
    else m
  }

  // The planner's report on one of its requests.
  datatype Verdict =
    | PLAN_FAILED(transient: bool)
    | PLAN_REJECTED(rejectedTransient: bool)
    | REPLAN_ADVISED
    | PLAN_READY
    | PLAN_SCHEDULED
  datatype Report = Report(verdict: Verdict, offer: Offer)

  predicate Concerns(m: Manager, offer: Offer) {
    m.goal.Some? && m.goal.value.id == offer.goal && m.goal.value.epoch == offer.epoch
  }

  function OnFailure(settings: Settings, m: Manager, offer: Offer, transient: bool, env: Env): Manager {
    if Concerns(m, offer) && (m.goal.value.expectedRequest == offer.request ||
                              (m.command.Some? && m.goal.value.committedRequest == offer.request))
    then (if transient then Suspend(settings, m, offer.goal, env) else Finish(settings, m, FAILED, env))
    else m
  }

  function OnReplanAdvised(settings: Settings, m: Manager, offer: Offer, env: Env): Manager {
    if settings.replanWithoutStop && Concerns(m, offer) && !m.goal.value.cancelRequested &&
       m.lifecycle.state == TRACKING &&
       m.command.Some? && !m.failStop && !m.goal.value.replacementPending &&
       m.goal.value.committedRequest == offer.request &&
       Dispatchable(m, offer.goal, offer.epoch, env)
    then Request(m.(goal := Some(m.goal.value.(replacementPending := true))))
    else m
  }

  // A change of yaw authority stops before the new reference may be authorised.
  function OnReady(settings: Settings, m: Manager, offer: Offer, env: Env): Manager {
    if Concerns(m, offer) && m.goal.value.expectedRequest == offer.request then
      (if m.command.Some? &&
       (m.command.value.authority != offer.authority || m.command.value.requiresLock != offer.requiresLock)
       then EmitStop(settings,
                     m.(offer := Some(offer), command := None, pending := None, failStop := true,
                        lifecycle := m.lifecycle.Start(offer.goal, true)),
                     offer.goal, offer.epoch, offer.generation, offer.publication, env)
       else m.(offer := Some(offer)))
    else m
  }

  function OnReport(settings: Settings, m: Manager, report: Report, env: Env): Manager {
    match report.verdict
    case PLAN_FAILED(transient) => OnFailure(settings, m, report.offer, transient, env)
    case PLAN_REJECTED(transient) =>
      if Concerns(m, report.offer) && m.goal.value.expectedRequest == report.offer.request
      then (if m.command.None? then OnFailure(settings, m, report.offer, transient, env)
            else m.(goal := Some(m.goal.value.(replacementPending := false))))
      else m
    case REPLAN_ADVISED => OnReplanAdvised(settings, m, report.offer, env)
    case PLAN_READY => TryCommit(settings, OnReady(settings, m, report.offer, env), env)
    case PLAN_SCHEDULED => m
  }

  function OnLocalization(settings: Settings, m: Manager, epoch: nat, steadilyHealthy: bool, env: Env): Manager {
    var changed := m.localizationEpoch.Some? && m.localizationEpoch.value != epoch;
    var known := m.(localizationEpoch := Some(epoch));
    if m.goal.Some? && (changed || !steadilyHealthy) then
      EmitStop(settings,
               known.(candidate := None, offer := None, command := None, failStop := true,
                      goal := Some(m.goal.value.(epoch := epoch)), lifecycle :=
                        m.lifecycle.Start(m.goal.value.id, false)),
               0, epoch, 0, 0, env)
    else known
  }

  function OnGimbal(settings: Settings, m: Manager, env: Env): Manager {
    var lost := m.command.Some? && !env.gimbalHolds;
    var stopped := if lost then m.(command := None, failStop := true) else m;
    TryCommit(settings, SuspendIf(settings, stopped, lost, env), env)
  }

  function SuspendIf(settings: Settings, m: Manager, lost: bool, env: Env): Manager {
    if lost && m.goal.Some? then Suspend(settings, m, m.goal.value.id, env) else m
  }

  datatype Progress = ADVANCING | STALLED(snapshot: nat) | UNSAFE | EXHAUSTED

  // What one tick observes about the running goal.
  datatype Observation = Observation(
    transformed: bool, canceling: bool, expired: bool, recoveryReady: bool, waitedTooLong: bool, reached: bool,
    drifted: bool, progress: Progress, suspendedTooLong: bool)

  // The checks under the lock, in their order.
  function LoseGimbal(m: Manager, env: Env): Manager {
    if m.command.Some? && !env.gimbalHolds then m.(command := None, candidate := None, offer := None, failStop := true)
    else m
  }

  function LoseLocalization(m: Manager, id: nat, env: Env): Manager {
    if !env.localized && m.lifecycle.state != WAITING_FOR_MAP
    then m.(candidate := None, offer := None, failStop := true, lifecycle := m.lifecycle.Start(id, false))
    else m
  }

  predicate Resumes(m: Manager, id: nat, o: Observation, env: Env) {
    m.lifecycle.In(id, WAITING_FOR_MAP) && env.mapReady && env.localized && o.recoveryReady
  }

  predicate Drifts(settings: Settings, m: Manager, o: Observation) {
    settings.replanWithoutStop && m.lifecycle.state == TRACKING && o.drifted && m.command.Some? && !m.failStop &&
    m.goal.Some? && !m.goal.value.replacementPending
  }

  // The end the tick decides on, if any, from the state after the checks.
  function Verdicts(m: Manager, goal: Goal, drifts: bool, o: Observation, env: Env): Option<LifecycleState> {
    var waiting := m.lifecycle.state == WAITING_FOR_MAP;
    var tracking := m.lifecycle.state == TRACKING;
    if goal.cancelRequested || o.canceling then Some(CANCELED)
    else if o.expired then Some(TIMED_OUT)
    else if !waiting && !env.mapReady then Some(FAILED)
    else if waiting && o.waitedTooLong && (!env.localized || !env.mapReady || !o.recoveryReady) then Some(FAILED)
    else if tracking && o.reached && !drifts then Some(SUCCEEDED)
    else if (waiting && o.suspendedTooLong) || (tracking && o.progress.EXHAUSTED?) then Some(FAILED)
    else None
  }

  function Replan(settings: Settings, m: Manager, goal: Goal, snapshot: nat, env: Env): Manager {
    var stopped := EmitStop(settings, Withdraw(m).(lifecycle := m.lifecycle.Start(goal.id, true)), goal.id, goal.epoch,
                            0, snapshot, env);
    DispatchOrSuspend(settings, stopped, goal.id, goal.epoch, env)
  }

  function Retarget(settings: Settings, m: Manager, goal: Goal, env: Env): Manager {
    OnReplanAdvised(settings, m,
                    Offer(goal.id, goal.epoch, goal.committedRequest, 0, 0, ExecutionGate.GIMBAL_COMPENSATED, false, 0),
                    env)
  }

  function Heartbeat(settings: Settings, m: Manager, env: Env): Manager {
    if !m.failStop && m.lifecycle.state == TRACKING && m.command.Some? then Emit(settings, m, m.command.value, env)
    else if m.goal.Some? then EmitStop(settings, m, m.goal.value.id, m.goal.value.epoch, 0, env.publication, env)
    else EmitStop(settings, m, 0, 0, 0, 0, env)
  }

  // The reactions after the checks.
  function Act(settings: Settings, m: Manager, goal: Goal, lost: bool, tracking: bool, drifts: bool, o: Observation,
               env: Env): Manager {
    if tracking && o.progress.STALLED? then Replan(settings, m, goal, o.progress.snapshot, env)
    else if lost then Suspend(settings, m, goal.id, env)
    else if tracking && o.progress.UNSAFE? then Suspend(settings, m, goal.id, env)
    else if drifts then Retarget(settings, m, goal, env)
    else m
  }

  function React(settings: Settings, m: Manager, goal: Goal, lost: bool, o: Observation, env: Env): Manager {
    var resumes := Resumes(m, goal.id, o, env);
    var woken := if resumes then m.(lifecycle := m.lifecycle.(state := PLANNING)) else m;
    var tracking := woken.lifecycle.state == TRACKING;
    var drifts := Drifts(settings, woken, o);
    var end := Verdicts(woken, goal, drifts, o, env);
    var sent := if resumes then DispatchOrSuspend(settings, woken, goal.id, goal.epoch, env) else woken;
    var acted := Act(settings, sent, goal, lost, tracking, drifts, o, env);
    if end.Some? then Finish(settings, acted, end.value, env) else acted
  }

  function Tick(settings: Settings, m: Manager, o: Observation, env: Env): Manager {
    if m.goal.None? then Heartbeat(settings, m, env)
    else if !o.transformed then Suspend(settings, m, m.goal.value.id, env)
    else
      var goal := m.goal.value;
      var checked := LoseLocalization(LoseGimbal(m, env), goal.id, env);
      Heartbeat(settings, React(settings, checked, goal, m.command.Some? && !env.gimbalHolds, o, env), env)
  }

  datatype Event =
    | GoalReceived(env: Env)
    | CancelRequested
    | PlannerReport(report: Report, env: Env)
    | CandidateReceived(candidate: Reference, env: Env)
    | MapUpdate(lost: bool, env: Env)
    | SnapshotUpdate(lost: bool, env: Env)
    | MapHeartbeatLost(env: Env)
    | LocalizationUpdate(epoch: nat, steadilyHealthy: bool, env: Env)
    | LocalizationBookkeeping(epoch: nat)
    | GimbalUpdate(env: Env)
    | OdometryLost(env: Env)
    | Ticked(observation: Observation, env: Env)

  function Step(settings: Settings, m: Manager, e: Event): Manager {
    match e
    case GoalReceived(env) => StartGoal(settings, m, env)
    case CancelRequested => Cancel(m)
    case PlannerReport(report, env) => OnReport(settings, m, report, env)
    case CandidateReceived(candidate, env) => TryCommit(settings, m.(candidate := Some(candidate)), env)
    case MapUpdate(lost, env) => if lost && m.goal.Some? then SuspendIf(settings, m, lost, env)
      else TryCommit(settings, m, env)
    case SnapshotUpdate(lost, env) => if lost && m.goal.Some? then SuspendIf(settings, m, lost, env)
      else TryCommit(settings, m, env)
    case MapHeartbeatLost(env) => Finish(settings, m, FAILED, env)
    case LocalizationUpdate(epoch, steadilyHealthy, env) => OnLocalization(settings, m, epoch, steadilyHealthy, env)
    case LocalizationBookkeeping(epoch) => m.(localizationEpoch := Some(epoch))
    case GimbalUpdate(env) => OnGimbal(settings, m, env)
    case OdometryLost(env) => SuspendIf(settings, m, true, env)
    case Ticked(observation, env) => Tick(settings, m, observation, env)
  }

  // A process starts stopped, and says so first.
  function Initial(settings: Settings, incarnation: nat, env: Env): Manager {
    EmitStop(settings, Manager(incarnation, None, Lifecycle(0, false, IDLE), None, None, None, None, true, 0, 0, 0,
                               None, []),
             0, 0, 0, 0, env)
  }

  function Run(settings: Settings, m: Manager, events: seq<Event>): Manager {
    if events == [] then m else Step(settings, Run(settings, m, events[..|events| - 1]), events[|events| - 1])
  }
}
