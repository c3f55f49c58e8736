/** What each callback of the goal manager does, in terms of its fields alone:
    what it takes to release the fail-stop, and what withdraws a plan. */
module GoalEffects {
  import opened Basics
  import ExecutionGate
  import opened GoalManager
  import opened GoalSafety

  predicate IsKnown(authority: ExecutionGate.Authority) {
    authority.GIMBAL_COMPENSATED? || authority.BODY_YAW_FOLLOW? || authority.SPIN?
  }

  // The offer is for the running goal, its epoch and its latest request, and the
  // candidate is the reference it speaks of, still good on the map of now.
  predicate IsGood(m: Manager, candidate: Reference, offer: Offer, env: Env) {
    && m.goal.Some? && !m.goal.value.cancelRequested
    && offer.goal == m.goal.value.id && offer.epoch == m.goal.value.epoch
    && offer.request == m.goal.value.expectedRequest
    && (m.localizationEpoch.None? || m.localizationEpoch.value == offer.epoch) && offer.publication > 0
    && env.mapReady && env.localized && env.candidateUsable
    && |candidate.poses| >= 2 && candidate.stamp == offer.stamp && IsKnown(offer.authority)
  }

  // The executing command already has the yaw authority that the offer asks for.
  predicate KeepsAuthority(m: Manager, offer: Offer) {
    && m.goal.Some? && m.goal.value.replacementPending && m.lifecycle.state == TRACKING && m.command.Some?
    && m.command.value.authority == offer.authority && m.command.value.requiresLock == offer.requiresLock
  }

  // A replacement needs the gimbal to hold what it holds; a first reference needs
  // its acknowledgement, and a goal that is waiting for its plan.
  predicate IsGranted(settings: Settings, m: Manager, offer: Offer, env: Env) {
    && m.lifecycle.active && m.goal.Some? && m.lifecycle.goal == m.goal.value.id
    && if KeepsAuthority(m, offer) then settings.requireGimbal ==> env.gimbalHolds
       else m.lifecycle.state == PLANNING && (settings.requireGimbal ==> env.gimbalAcknowledges)
  }

  predicate MayCommit(settings: Settings, m: Manager, env: Env) {
    && m.candidate.Some? && m.offer.Some? && IsGood(m, m.candidate.value, m.offer.value, env)
    && IsGranted(settings, m, m.offer.value, env)
  }

  ghost predicate LogsNoExecute(m: Manager, after: Manager) {
    |m.log| <= |after.log| && forall k | |m.log| <= k < |after.log| :: after.log[k].mode == ExecutionGate.STOP
  }

  // The released command: the candidate, from now on, on the offer's terms.
  predicate IsReleased(settings: Settings, m: Manager, candidate: Reference, offer: Offer, env: Env, c: Command) {
    && c.mode == ExecutionGate.EXECUTE && m.goal.Some? && c.goal == m.goal.value.id && c.epoch == m.goal.value.epoch
    && c.generation == offer.generation && c.publication == offer.publication
    && c.authority == offer.authority && c.requiresLock == offer.requiresLock
    && c.reference.poses == candidate.poses && c.reference.finite == candidate.finite
    && c.reference.stamp == env.now && c.reference.frame == settings.frame && c.gimbalFeedback == env.gimbalFeedback
  }

  predicate AsksTheSame(a: Offer, b: Offer) {
    a.goal == b.goal && a.epoch == b.epoch && a.generation == b.generation && a.publication == b.publication &&
    a.authority == b.authority && a.requiresLock == b.requiresLock
  }

  // The acknowledgement that the command relies on.
  function GrantOf(settings: Settings, m: Manager, offer: Offer): nat {
    if KeepsAuthority(m, offer) then m.command.value.gimbalRequest
    else if settings.requireGimbal && (m.pending.None? || !AsksTheSame(m.pending.value.offer, offer))
    then m.nextYawRequest + 1
    else if m.pending.Some? then m.pending.value.sequence
    else 0
  }

  predicate IsStamped(settings: Settings, c: Command, env: Env) {
    c.stamp.Some? && c.stamp.value >= 0 && c.stamp.value <= env.now && env.now - settings.backdate <= c.stamp.value &&
    (env.now >= settings.backdate ==> c.stamp.value == env.now - settings.backdate)
  }

  // The state after the release, and the one command that was published.
  predicate Executes(settings: Settings, m: Manager, request: nat, env: Env, after: Manager)
    requires m.candidate.Some? && m.offer.Some? && m.goal.Some?
  {
    && !after.failStop && |after.log| == |m.log| + 1 && after.log[..|m.log|] == m.log
    && IsReleased(settings, m, m.candidate.value, m.offer.value, env, after.log[|m.log|])
    && after.log[|m.log|].gimbalRequest == request && IsStamped(settings, after.log[|m.log|], env)
    && after.command == Some(after.log[|m.log|].(incarnation := 0, sequence := 0, stamp := None))
    && after.lifecycle == m.lifecycle.(state := TRACKING)
    && after.candidate.None? && after.offer.None? && after.pending.None?
    && after.goal == Some(m.goal.value.(committedRequest := m.offer.value.request, replacementPending := false))
  }

  lemma CommitExecutes(settings: Settings, m: Manager, asked: Manager, request: nat, env: Env)
    requires m.candidate.Some? && m.offer.Some? && m.goal.Some?
    requires asked == m.(pending := asked.pending, nextYawRequest := asked.nextYawRequest)
    ensures Executes(settings, m, request, env, Commit(settings, asked, request, env))
  {
  }

  lemma AuthoriseReleasesIff(settings: Settings, m: Manager, env: Env)
    requires m.candidate.Some? && m.offer.Some? && IsGood(m, m.candidate.value, m.offer.value, env)
    ensures var after := Authorise(settings, m, env);
            if IsGranted(settings, m, m.offer.value, env)
            then Executes(settings, m, GrantOf(settings, m, m.offer.value), env, after)
            else after.log == m.log && (m.failStop ==> after.failStop)
  {
    var asked := if Replaces(m) then m else RequestYaw(settings, m);
    CommitExecutes(settings, m, asked, GrantOf(settings, m, m.offer.value), env);
    hide Commit, Executes;
  }

  // A callback that offers a reference releases the fail-stop exactly when the
  // reference deserves it, and then executes it; otherwise only stops are logged.
  lemma CommitReleasesIff(settings: Settings, m: Manager, env: Env)
    ensures var after := TryCommit(settings, m, env);
            if MayCommit(settings, m, env)
            then Executes(settings, m, GrantOf(settings, m, m.offer.value), env, after)
            else (m.failStop ==> after.failStop) && LogsNoExecute(m, after)
  {
    hide DispatchOrSuspend, Suspend, Authorise, Executes, IsGranted;
    CommittableIsGood(m, env);
    if OfferIsStale(m, env) {
      var goal := m.goal.value;
      var cleared := m.(candidate := None, offer := None);
      DispatchLogsNoExecute(settings, cleared, goal.id, goal.epoch, env);
      SuspendLogsNoExecute(settings, m, goal.id, env);
    } else if Committable(m, env) && IsKnown(m.offer.value.authority) {
      AuthoriseReleasesIff(settings, m, env);
    } else if Committable(m, env) {
      UnknownAuthorityStops(settings, m, env);
    }
  }

  lemma UnknownAuthorityStops(settings: Settings, m: Manager, env: Env)
    requires m.goal.Some? && m.offer.Some? && m.candidate.Some? && !IsKnown(m.offer.value.authority)
    ensures Authorise(settings, m, env) == m.(failStop := true)
  {
  }

  lemma CommittableIsGood(m: Manager, env: Env)
    ensures Committable(m, env) && IsKnown(m.offer.value.authority) <==>
            m.candidate.Some? && m.offer.Some? && IsGood(m, m.candidate.value, m.offer.value, env)
  {
  }

  lemma SuspendLogsNoExecute(settings: Settings, m: Manager, id: nat, env: Env)
    ensures var after := Suspend(settings, m, id, env);
            (m.failStop ==> after.failStop) && LogsNoExecute(m, after)
  {
  }

  lemma DispatchLogsNoExecute(settings: Settings, m: Manager, id: nat, epoch: nat, env: Env)
    ensures var after := DispatchOrSuspend(settings, m, id, epoch, env);
            (m.failStop ==> after.failStop) && LogsNoExecute(m, after)
  {
    hide Suspend;
    SuspendLogsNoExecute(settings, m, id, env);
  }

  // The executing command again, under a new number.
  predicate Repeats(command: Option<Command>, c: Command) {
    command.Some? && c == command.value.(incarnation := c.incarnation, sequence := c.sequence, stamp := c.stamp)
  }

  ghost predicate IsQuietEntry(m: Manager, c: Command) {
    c.mode == ExecutionGate.STOP || Repeats(m.command, c)
  }

  // Nothing new is released: only stops and repeats are logged.
  ghost predicate StaysQuiet(m: Manager, after: Manager) {
    && |m.log| <= |after.log| && after.log[..|m.log|] == m.log
    && (forall k | |m.log| <= k < |after.log| :: IsQuietEntry(m, after.log[k]))
    && (m.failStop ==> after.failStop) && (after.command.None? || after.command == m.command)
  }

  lemma QuietOnwards(a: Manager, b: Manager, c: Manager)
    requires StaysQuiet(a, b) && StaysQuiet(b, c)
    ensures StaysQuiet(a, c)
  {
    assert c.log[..|a.log|] == c.log[..|b.log|][..|a.log|];
    forall k | |a.log| <= k < |c.log| ensures IsQuietEntry(a, c.log[k]) {
      if k < |b.log| {
        assert c.log[k] == c.log[..|b.log|][k];
      } else {
        assert IsQuietEntry(b, c.log[k]);
      }
    }
  }

  lemma EmitIsQuiet(settings: Settings, m: Manager, c: Command, env: Env)
    requires IsQuietEntry(m, c)
    ensures StaysQuiet(m, Emit(settings, m, c, env))
  {
    var after := Emit(settings, m, c, env);
    assert after.log[..|m.log|] == m.log;
    assert IsQuietEntry(m, after.log[|m.log|]);
  }

  // A stop on top of any state that holds no more than the old one.
  lemma StopIsQuiet(settings: Settings, m: Manager, m': Manager, goal: nat, epoch: nat, generation: nat,
                    publication: nat, env: Env)
    requires m'.log == m.log && (m.failStop ==> m'.failStop) && (m'.command.None? || m'.command == m.command)
    ensures StaysQuiet(m, EmitStop(settings, m', goal, epoch, generation, publication, env))
  {
    var c := ExecutionGate.Command(ExecutionGate.STOP, 0, 0, None, goal, epoch, generation, publication,
                                   ExecutionGate.GIMBAL_COMPENSATED, false, 0, 0, NO_REFERENCE);
    EmitIsQuiet(settings, m', c, env);
    hide Emit;
    QuietOnwards(m, m', EmitStop(settings, m', goal, epoch, generation, publication, env));
  }

  lemma SuspendIsQuiet(settings: Settings, m: Manager, id: nat, env: Env)
    ensures StaysQuiet(m, Suspend(settings, m, id, env))
  {
    hide EmitStop;
    if m.goal.Some? {
      StopIsQuiet(settings, m, Withdraw(m).(goal := Some(m.goal.value.(replacementPending := false)),
                                            lifecycle := m.lifecycle.Start(id, false)),
                  id, 0, 0, 0, env);
    }
  }

  lemma FinishIsQuiet(settings: Settings, m: Manager, end: LifecycleState, env: Env)
    ensures StaysQuiet(m, Finish(settings, m, end, env))
  {
    hide EmitStop;
    if m.goal.Some? {
      StopIsQuiet(settings, m, Withdraw(m).(goal := None, lifecycle := m.lifecycle.Finish(end)), m.goal.value.id,
                  m.goal.value.epoch, 0, 0, env);
    }
  }

  lemma DispatchIsQuiet(settings: Settings, m: Manager, id: nat, epoch: nat, env: Env)
    ensures StaysQuiet(m, DispatchOrSuspend(settings, m, id, epoch, env))
  {
    hide Suspend;
    SuspendIsQuiet(settings, m, id, env);
  }

  lemma StartIsQuiet(settings: Settings, m: Manager, env: Env)
    ensures StaysQuiet(m, StartGoal(settings, m, env))
  {
    hide EmitStop, DispatchOrSuspend, StaysQuiet;
    var id := m.nextGoal + 1;
    var epoch := if m.localizationEpoch.Some? then m.localizationEpoch.value else env.mapEpoch;
    var ready := env.mapReady && env.localized;
    var m' := Withdraw(m).(nextGoal := id, lifecycle := m.lifecycle.Start(id, ready),
                           goal := Some(Goal(id, epoch, false, 0, 0, 0, false)));
    var started := EmitStop(settings, m', id, epoch, 0, env.publication, env);
    StopIsQuiet(settings, m, m', id, epoch, 0, env.publication, env);
    DispatchIsQuiet(settings, started, id, epoch, env);
    QuietOnwards(m, started, DispatchOrSuspend(settings, started, id, epoch, env));
  }

  lemma FailureIsQuiet(settings: Settings, m: Manager, offer: Offer, transient: bool, env: Env)
    ensures StaysQuiet(m, OnFailure(settings, m, offer, transient, env))
    ensures StaysQuiet(m, OnReplanAdvised(settings, m, offer, env))
  {
    SuspendIsQuiet(settings, m, offer.goal, env);
    FinishIsQuiet(settings, m, FAILED, env);
    hide Suspend, Finish;
  }

  lemma ReadyIsQuiet(settings: Settings, m: Manager, offer: Offer, env: Env)
    ensures StaysQuiet(m, OnReady(settings, m, offer, env))
  {
    hide EmitStop;
    StopIsQuiet(settings, m, m.(offer := Some(offer), command := None, pending := None, failStop := true,
                                lifecycle := m.lifecycle.Start(offer.goal, true)),
                offer.goal, offer.epoch, offer.generation, offer.publication, env);
  }

  lemma LocalizationIsQuiet(settings: Settings, m: Manager, epoch: nat, steadilyHealthy: bool, env: Env)
    ensures StaysQuiet(m, OnLocalization(settings, m, epoch, steadilyHealthy, env))
  {
    hide EmitStop;
    if m.goal.Some? {
      StopIsQuiet(settings, m,
                  m.(localizationEpoch := Some(epoch), candidate := None, offer := None, command := None,
                     failStop := true, goal := Some(m.goal.value.(epoch := epoch)),
                     lifecycle := m.lifecycle.Start(m.goal.value.id, false)),
                  0, epoch, 0, 0, env);
    }
  }

  lemma HeartbeatIsQuiet(settings: Settings, m: Manager, env: Env)
    ensures StaysQuiet(m, Heartbeat(settings, m, env))
  {
    if !m.failStop && m.lifecycle.state == TRACKING && m.command.Some? {
      EmitIsQuiet(settings, m, m.command.value, env);
    } else if m.goal.Some? {
      StopIsQuiet(settings, m, m, m.goal.value.id, m.goal.value.epoch, 0, env.publication, env);
    } else {
      StopIsQuiet(settings, m, m, 0, 0, 0, 0, env);
    }
    hide Emit, EmitStop;
  }

  lemma ReplanIsQuiet(settings: Settings, m: Manager, goal: Goal, snapshot: nat, env: Env)
    ensures StaysQuiet(m, Replan(settings, m, goal, snapshot, env))
  {
    hide EmitStop, DispatchOrSuspend, StaysQuiet;
    var m' := Withdraw(m).(lifecycle := m.lifecycle.Start(goal.id, true));
    var stopped := EmitStop(settings, m', goal.id, goal.epoch, 0, snapshot, env);
    StopIsQuiet(settings, m, m', goal.id, goal.epoch, 0, snapshot, env);
    DispatchIsQuiet(settings, stopped, goal.id, goal.epoch, env);
    QuietOnwards(m, stopped, DispatchOrSuspend(settings, stopped, goal.id, goal.epoch, env));
  }

  lemma ActIsQuiet(settings: Settings, m: Manager, goal: Goal, lost: bool, tracking: bool, drifts: bool,
                   o: Observation, env: Env)
    ensures StaysQuiet(m, Act(settings, m, goal, lost, tracking, drifts, o, env))
  {
    SuspendIsQuiet(settings, m, goal.id, env);
    FailureIsQuiet(settings, m, Offer(goal.id, goal.epoch, goal.committedRequest, 0, 0,
                                      ExecutionGate.GIMBAL_COMPENSATED, false, 0), true, env);
    if o.progress.STALLED? {
      ReplanIsQuiet(settings, m, goal, o.progress.snapshot, env);
    }
    hide Suspend, Replan, OnReplanAdvised;
  }

  lemma ReactIsQuiet(settings: Settings, m: Manager, goal: Goal, lost: bool, o: Observation, env: Env)
    ensures StaysQuiet(m, React(settings, m, goal, lost, o, env))
  {
    hide Act, DispatchOrSuspend, Drifts, Verdicts, Finish;
    var resumes := Resumes(m, goal.id, o, env);
    var woken := if resumes then m.(lifecycle := m.lifecycle.(state := PLANNING)) else m;
    assert StaysQuiet(m, woken) && StaysQuiet(woken, woken);
    hide StaysQuiet;
    var drifts := Drifts(settings, woken, o);
    var sent := if resumes then DispatchOrSuspend(settings, woken, goal.id, goal.epoch, env) else woken;
    DispatchIsQuiet(settings, woken, goal.id, goal.epoch, env);
    QuietOnwards(m, woken, sent);
    var acted := Act(settings, sent, goal, lost, woken.lifecycle.state == TRACKING, drifts, o, env);
    ActIsQuiet(settings, sent, goal, lost, woken.lifecycle.state == TRACKING, drifts, o, env);
    QuietOnwards(m, sent, acted);
    var end := Verdicts(woken, goal, drifts, o, env);
    if end.Some? {
      FinishIsQuiet(settings, acted, end.value, env);
      QuietOnwards(m, acted, Finish(settings, acted, end.value, env));
    }
  }

  lemma TickIsQuiet(settings: Settings, m: Manager, o: Observation, env: Env)
    ensures StaysQuiet(m, Tick(settings, m, o, env))
  {
    hide React, Heartbeat, Suspend;
    if m.goal.None? {
      HeartbeatIsQuiet(settings, m, env);
    } else if !o.transformed {
      SuspendIsQuiet(settings, m, m.goal.value.id, env);
    } else {
      var goal := m.goal.value;
      var checked := LoseLocalization(LoseGimbal(m, env), goal.id, env);
      assert StaysQuiet(m, checked);
      hide StaysQuiet;
      var reacted := React(settings, checked, goal, m.command.Some? && !env.gimbalHolds, o, env);
      ReactIsQuiet(settings, checked, goal, m.command.Some? && !env.gimbalHolds, o, env);
      QuietOnwards(m, checked, reacted);
      HeartbeatIsQuiet(settings, reacted, env);
      QuietOnwards(m, reacted, Heartbeat(settings, reacted, env));
    }
  }

  // A new command is released, or the fail-stop lifted.
  ghost predicate Releases(m: Manager, after: Manager) {
    (m.failStop && !after.failStop) ||
    exists k :: |m.log| <= k < |after.log| && !IsQuietEntry(m, after.log[k])
  }

  // What the callback holds when it comes to commit.
  function CandidateAt(m: Manager, e: Event): Option<Reference> {
    if e.CandidateReceived? then Some(e.candidate) else m.candidate
  }

  function OfferAt(m: Manager, e: Event): Option<Offer> {
    if e.PlannerReport? && m.goal.Some? && e.report.offer.goal == m.goal.value.id &&
       e.report.offer.epoch == m.goal.value.epoch && e.report.offer.request == m.goal.value.expectedRequest
    then Some(e.report.offer) else m.offer
  }

  lemma QuietReleasesNothing(m: Manager, after: Manager)
    requires StaysQuiet(m, after)
    ensures !Releases(m, after)
  {
  }

  lemma NoCommitIsQuiet(settings: Settings, m: Manager, env: Env)
    requires !MayCommit(settings, m, env)
    ensures StaysQuiet(m, TryCommit(settings, m, env))
  {
    hide DispatchOrSuspend, Suspend, StaysQuiet;
    if OfferIsStale(m, env) {
      var goal := m.goal.value;
      var cleared := m.(candidate := None, offer := None);
      SameLogIsQuiet(m, cleared);
      DispatchIsQuiet(settings, cleared, goal.id, goal.epoch, env);
      QuietOnwards(m, cleared, DispatchOrSuspend(settings, cleared, goal.id, goal.epoch, env));
      SuspendIsQuiet(settings, m, goal.id, env);
    } else {
      CommittableIsGood(m, env);
      SameLogIsQuiet(m, TryCommit(settings, m, env));
    }
  }

  lemma SameLogIsQuiet(m: Manager, after: Manager)
    requires after.log == m.log && (m.failStop ==> after.failStop) &&
             (after.command.None? || after.command == m.command)
    ensures StaysQuiet(m, after)
  {
  }

  // The state in which a callback that may commit comes to do so.
  function Offering(settings: Settings, m: Manager, e: Event): Option<Manager> {
    match e
    case CandidateReceived(candidate, env) => Some(m.(candidate := Some(candidate)))
    case MapUpdate(lost, env) => if lost && m.goal.Some? then None else Some(m)
    case SnapshotUpdate(lost, env) => if lost && m.goal.Some? then None else Some(m)
    case GimbalUpdate(env) => if m.command.Some? && !env.gimbalHolds then None else Some(m)
    case PlannerReport(report, env) =>
      if report.verdict.PLAN_READY? then Some(OnReady(settings, m, report.offer, env)) else None
    case _ => None
  }

  lemma OfferingCommits(settings: Settings, m: Manager, e: Event)
    requires Offering(settings, m, e).Some?
    ensures Step(settings, m, e) == TryCommit(settings, Offering(settings, m, e).value, e.env)
  {
    hide OnReady, TryCommit, Suspend;
  }

  lemma OfferingIsQuiet(settings: Settings, m: Manager, e: Event)
    requires Offering(settings, m, e).Some?
    ensures var offering := Offering(settings, m, e).value;
            && StaysQuiet(m, offering) && offering.candidate == CandidateAt(m, e) && offering.offer == OfferAt(m, e)
            && offering.goal == m.goal && offering.localizationEpoch == m.localizationEpoch
  {
    hide StaysQuiet, EmitStop;
    SameLogIsQuiet(m, Offering(settings, m, e).value.(log := m.log, failStop := m.failStop, command := m.command));
    if e.PlannerReport? {
      ReadyIsQuiet(settings, m, e.report.offer, e.env);
      ReadyTakesTheOffer(settings, m, e.report.offer, e.env);
      hide OnReady;
    }
  }

  lemma ReadyTakesTheOffer(settings: Settings, m: Manager, offer: Offer, env: Env)
    ensures var after := OnReady(settings, m, offer, env);
            && after.goal == m.goal && after.candidate == m.candidate && after.localizationEpoch == m.localizationEpoch
            && after.offer == if m.goal.Some? && offer.goal == m.goal.value.id && offer.epoch == m.goal.value.epoch &&
                                 offer.request == m.goal.value.expectedRequest then Some(offer) else m.offer
  {
  }

  lemma OtherStepsAreQuiet(settings: Settings, m: Manager, e: Event)
    requires Offering(settings, m, e).None?
    ensures StaysQuiet(m, Step(settings, m, e))
  {
    hide StaysQuiet, StartGoal, OnFailure, OnReplanAdvised, OnReady, TryCommit, Suspend, Finish, OnLocalization, Tick;
    SameLogIsQuiet(m, m);
    match e {
      case GoalReceived(env) => StartIsQuiet(settings, m, env);
      case CancelRequested => SameLogIsQuiet(m, Cancel(m));
      case PlannerReport(report, env) => ReportIsQuiet(settings, m, report, env);
      case MapHeartbeatLost(env) => FinishIsQuiet(settings, m, FAILED, env);
      case LocalizationUpdate(epoch, steadilyHealthy, env) =>
        LocalizationIsQuiet(settings, m, epoch, steadilyHealthy, env);
      case LocalizationBookkeeping(epoch) => SameLogIsQuiet(m, m.(localizationEpoch := Some(epoch)));
      case GimbalUpdate(env) => GimbalLossIsQuiet(settings, m, env);
      case Ticked(observation, env) => TickIsQuiet(settings, m, observation, env);
      case MapUpdate(lost, env) => SuspendIsQuiet(settings, m, m.goal.value.id, env);
      case SnapshotUpdate(lost, env) => SuspendIsQuiet(settings, m, m.goal.value.id, env);
      case OdometryLost(env) =>
        if m.goal.Some? {
          SuspendIsQuiet(settings, m, m.goal.value.id, env);
        }
      case CandidateReceived(_, _) =>
    }
  }

  lemma ReportIsQuiet(settings: Settings, m: Manager, report: Report, env: Env)
    requires !report.verdict.PLAN_READY?
    ensures StaysQuiet(m, OnReport(settings, m, report, env))
  {
    SameLogIsQuiet(m, m);
    if m.goal.Some? {
      SameLogIsQuiet(m, m.(goal := Some(m.goal.value.(replacementPending := false))));
    }
    hide StaysQuiet, OnFailure, OnReplanAdvised;
    FailureIsQuiet(settings, m, report.offer,
                   match report.verdict
                   case PLAN_FAILED(transient) => transient
                   case PLAN_REJECTED(transient) => transient
                   case _ => true,
                   env);
  }

  lemma GimbalLossIsQuiet(settings: Settings, m: Manager, env: Env)
    requires m.command.Some? && !env.gimbalHolds
    ensures StaysQuiet(m, OnGimbal(settings, m, env))
  {
    hide StaysQuiet, TryCommit, Suspend;
    var stopped := m.(command := None, failStop := true);
    var recovered := SuspendIf(settings, stopped, true, env);
    SameLogIsQuiet(m, stopped);
    SameLogIsQuiet(stopped, stopped);
    if stopped.goal.Some? {
      SuspendIsQuiet(settings, stopped, stopped.goal.value.id, env);
      SuspensionWithdraws(settings, stopped, stopped.goal.value.id, env);
    }
    QuietOnwards(m, stopped, recovered);
    NoCommitIsQuiet(settings, recovered, env);
    QuietOnwards(m, recovered, TryCommit(settings, recovered, env));
  }

  // Of everything that can happen to the manager, only a good reference whose
  // yaw authority is held or acknowledged is ever released.
  lemma OnlyAGoodReferenceIsReleased(settings: Settings, m: Manager, e: Event)
    requires Releases(m, Step(settings, m, e))
    ensures e.PlannerReport? || e.CandidateReceived? || e.MapUpdate? || e.SnapshotUpdate? || e.GimbalUpdate?
    ensures CandidateAt(m, e).Some? && OfferAt(m, e).Some?
    ensures IsGood(m, CandidateAt(m, e).value, OfferAt(m, e).value, e.env)
    ensures settings.requireGimbal ==> e.env.gimbalHolds || e.env.gimbalAcknowledges
  {
    hide StaysQuiet, Releases, Step, OnReady, TryCommit;
    var offering := Offering(settings, m, e);
    if offering.None? {
      OtherStepsAreQuiet(settings, m, e);
      QuietReleasesNothing(m, Step(settings, m, e));
    } else {
      OfferingCommits(settings, m, e);
      OfferingIsQuiet(settings, m, e);
      if !MayCommit(settings, offering.value, e.env) {
        NoCommitIsQuiet(settings, offering.value, e.env);
        QuietOnwards(m, offering.value, Step(settings, m, e));
        QuietReleasesNothing(m, Step(settings, m, e));
      }
    }
  }

  // What a suspension leaves: the goal waiting, and nothing of its plan.
  predicate IsSuspended(m: Manager, id: nat) {
    && m.failStop && m.candidate.None? && m.offer.None? && m.command.None? && m.pending.None?
    && m.goal.Some? && m.goal.value.id == id && !m.goal.value.replacementPending
    && m.lifecycle == Lifecycle(id, true, WAITING_FOR_MAP)
  }

  // The one command that a callback publishes is a stop.
  predicate StopsOnce(m: Manager, after: Manager) {
    |after.log| == |m.log| + 1 && after.log[..|m.log|] == m.log && after.log[|m.log|].mode == ExecutionGate.STOP
  }

  lemma SuspensionWithdraws(settings: Settings, m: Manager, id: nat, env: Env)
    ensures var after := Suspend(settings, m, id, env);
            if m.goal.Some? && m.goal.value.id == id
            then IsSuspended(after, id) && StopsOnce(m, after) &&
                 after.goal == Some(m.goal.value.(replacementPending := false))
            else after == m
  {
  }

  predicate IsFinished(m: Manager, id: nat, end: LifecycleState) {
    && m.failStop && m.candidate.None? && m.offer.None? && m.command.None? && m.pending.None? && m.goal.None?
    && m.lifecycle == Lifecycle(id, false, end)
  }

  lemma FinishWithdraws(settings: Settings, m: Manager, end: LifecycleState, env: Env)
    requires Consistent(m) && m.goal.Some?
    ensures var after := Finish(settings, m, end, env);
            IsFinished(after, m.goal.value.id, end) && StopsOnce(m, after)
  {
  }

  // A loss of map, snapshot, odometry or gimbal suspends the goal.
  lemma LossSuspends(settings: Settings, m: Manager, e: Event)
    requires Consistent(m) && m.goal.Some?
    requires (e.MapUpdate? && e.lost) || (e.SnapshotUpdate? && e.lost) || e.OdometryLost? ||
             (e.GimbalUpdate? && m.command.Some? && !e.env.gimbalHolds)
    ensures var after := Step(settings, m, e); IsSuspended(after, m.goal.value.id) && StopsOnce(m, after)
  {
    SuspensionWithdraws(settings, m, m.goal.value.id, e.env);
    SuspensionWithdraws(settings, m.(command := None, failStop := true), m.goal.value.id, e.env);
    hide Suspend, TryCommit;
    if e.GimbalUpdate? {
      NoOfferCommitsNothing(settings, Suspend(settings, m.(command := None, failStop := true), m.goal.value.id, e.env),
                            e.env);
    }
  }

  lemma NoOfferCommitsNothing(settings: Settings, m: Manager, env: Env)
    requires m.offer.None?
    ensures TryCommit(settings, m, env) == m
  {
  }

  // A heartbeat without a map ends it, where heartbeats are all there is of the map.
  lemma RefusedMapEndsTheGoal(settings: Settings, m: Manager, env: Env)
    requires Consistent(m) && m.goal.Some?
    ensures var after := Step(settings, m, MapHeartbeatLost(env));
            IsFinished(after, m.goal.value.id, FAILED) && StopsOnce(m, after)
  {
    FinishWithdraws(settings, m, FAILED, env);
    hide Finish;
  }

  // A change of epoch or of health takes the goal back to waiting, in the new epoch.
  lemma LocalizationChangeWithdraws(settings: Settings, m: Manager, epoch: nat, steadilyHealthy: bool, env: Env)
    ensures var after := OnLocalization(settings, m, epoch, steadilyHealthy, env);
            if m.goal.Some? && (!steadilyHealthy || (m.localizationEpoch.Some? && m.localizationEpoch != Some(epoch)))
            then
              && after.failStop && after.candidate.None? && after.offer.None? && after.command.None?
              && after.goal == Some(m.goal.value.(epoch := epoch)) && after.localizationEpoch == Some(epoch)
              && after.lifecycle == Lifecycle(m.goal.value.id, true, WAITING_FOR_MAP) && StopsOnce(m, after)
            else after == m.(localizationEpoch := Some(epoch))
  {
  }

  // The report is about the running goal.
  predicate IsAbout(m: Manager, offer: Offer) {
    m.goal.Some? && offer.goal == m.goal.value.id && offer.epoch == m.goal.value.epoch
  }

  // A failed plan that the goal waits for, or is driving on, ends the goal, or
  // suspends it when the failure is transient; other failures change nothing.
  lemma FailureOfTheCurrentPlanCounts(settings: Settings, m: Manager, offer: Offer, transient: bool, env: Env)
    requires Consistent(m)
    ensures var after := OnReport(settings, m, Report(PLAN_FAILED(transient), offer), env);
            if IsAbout(m, offer) && (offer.request == m.goal.value.expectedRequest ||
                                     (m.command.Some? && offer.request == m.goal.value.committedRequest))
            then StopsOnce(m, after) && if transient then IsSuspended(after, offer.goal)
                                        else IsFinished(after, offer.goal, FAILED)
            else after == m
  {
    SuspensionWithdraws(settings, m, offer.goal, env);
    if m.goal.Some? {
      FinishWithdraws(settings, m, FAILED, env);
    }
    hide Suspend, Finish;
  }

  // While a command executes, a rejected plan only ends the replacement it was for.
  lemma RejectionSparesTheCommand(settings: Settings, m: Manager, offer: Offer, transient: bool, env: Env)
    requires IsAbout(m, offer) && m.command.Some?
    ensures var after := OnReport(settings, m, Report(PLAN_REJECTED(transient), offer), env);
            after == if offer.request == m.goal.value.expectedRequest
                     then m.(goal := Some(m.goal.value.(replacementPending := false))) else m
  {
  }

  // What a new request to the planner needs, and all it changes.
  lemma RequestGoesOutIff(settings: Settings, m: Manager, id: nat, epoch: nat, env: Env)
    requires m.goal.Some? && m.goal.value.id == id
    ensures var after := DispatchOrSuspend(settings, m, id, epoch, env);
            if env.dispatchable && env.mapReady && env.localized && epoch == m.goal.value.epoch
            then after == m.(goal := Some(m.goal.value.(nextRequest := m.goal.value.nextRequest + 1,
                                                        expectedRequest := m.goal.value.nextRequest + 1)))
            else IsSuspended(after, id) && StopsOnce(m, after)
  {
    SuspensionWithdraws(settings, m, id, env);
    hide Suspend;
  }

  // Driving on while a replacement is planned.
  lemma ReplacementIsRequestedIff(settings: Settings, m: Manager, offer: Offer, env: Env)
    ensures var after := OnReport(settings, m, Report(REPLAN_ADVISED, offer), env);
            if settings.replanWithoutStop && IsAbout(m, offer) && !m.goal.value.cancelRequested && !m.failStop &&
               m.command.Some? && m.lifecycle.state == TRACKING && !m.goal.value.replacementPending &&
               offer.request == m.goal.value.committedRequest && env.dispatchable && env.mapReady && env.localized
            then after == m.(goal := Some(m.goal.value.(nextRequest := m.goal.value.nextRequest + 1,
                                                        expectedRequest := m.goal.value.nextRequest + 1,
                                                        replacementPending := true)))
            else after == m
  {
  }

  // A ready plan of another yaw authority stops the drive before it may commit.
  lemma AuthorityChangeStops(settings: Settings, m: Manager, offer: Offer, env: Env)
    requires IsAbout(m, offer) && offer.request == m.goal.value.expectedRequest && m.command.Some?
    requires m.command.value.authority != offer.authority || m.command.value.requiresLock != offer.requiresLock
    ensures var after := OnReady(settings, m, offer, env);
            && after.failStop && after.command.None? && after.pending.None? && after.offer == Some(offer)
            && after.lifecycle == Lifecycle(offer.goal, true, PLANNING) && StopsOnce(m, after)
  {
  }

  // An offer of no published map, or of a map that has moved on and no longer
  // carries the candidate, is dropped: a replacement is planned again, anything
  // else waits.
  lemma StaleOfferIsDropped(settings: Settings, m: Manager, env: Env)
    requires m.candidate.Some? && m.offer.Some? && IsAbout(m, m.offer.value)
    requires m.offer.value.request == m.goal.value.expectedRequest
    requires m.offer.value.publication == 0 ||
             (m.offer.value.publication < env.publication && env.snapshotCoherent && !env.candidateUsable)
    ensures var after := TryCommit(settings, m, env);
            if m.goal.value.replacementPending && m.command.Some? && m.lifecycle.state == TRACKING &&
               env.dispatchable && env.mapReady && env.localized
            then after == m.(candidate := None, offer := None,
                             goal := Some(m.goal.value.(nextRequest := m.goal.value.nextRequest + 1,
                                                        expectedRequest := m.goal.value.nextRequest + 1)))
            else IsSuspended(after, m.goal.value.id) && StopsOnce(m, after)
  {
    SuspensionWithdraws(settings, m, m.goal.value.id, env);
    SuspensionWithdraws(settings, m.(candidate := None, offer := None), m.goal.value.id, env);
    hide Suspend;
  }

  // How a tick ends a goal: the first of these that applies.
  function EndOf(settings: Settings, m: Manager, o: Observation, env: Env): Option<LifecycleState>
    requires m.goal.Some?
  {
    var resumes := m.lifecycle.state == WAITING_FOR_MAP && env.mapReady && env.localized && o.recoveryReady;
    var waits := (m.lifecycle.state == WAITING_FOR_MAP || !env.localized) && !resumes;
    var tracks := m.lifecycle.state == TRACKING && env.localized;
    var drifts := settings.replanWithoutStop && o.drifted && m.command.Some? && env.gimbalHolds && !m.failStop &&
                  !m.goal.value.replacementPending;
    if m.goal.value.cancelRequested || o.canceling then Some(CANCELED)
    else if o.expired then Some(TIMED_OUT)
    else if !waits && !env.mapReady then Some(FAILED)
    else if waits && (o.waitedTooLong || o.suspendedTooLong) then Some(FAILED)
    else if tracks && o.reached && !drifts then Some(SUCCEEDED)
    else if tracks && o.progress.EXHAUSTED? then Some(FAILED)
    else None
  }

  predicate Runs(m: Manager, id: nat) {
    m.goal.Some? && m.goal.value.id == id && m.lifecycle.goal == id
  }

  lemma DispatchRunsOn(settings: Settings, m: Manager, id: nat, epoch: nat, env: Env)
    requires Runs(m, id)
    ensures Runs(DispatchOrSuspend(settings, m, id, epoch, env), id)
  {
    RequestGoesOutIff(settings, m, id, epoch, env);
    hide DispatchOrSuspend;
  }

  lemma ActRunsOn(settings: Settings, m: Manager, goal: Goal, lost: bool, tracking: bool, drifts: bool, o: Observation,
                  env: Env)
    requires Runs(m, goal.id)
    ensures Runs(Act(settings, m, goal, lost, tracking, drifts, o, env), goal.id)
  {
    SuspensionWithdraws(settings, m, goal.id, env);
    if o.progress.STALLED? {
      var stopped := EmitStop(settings, Withdraw(m).(lifecycle := m.lifecycle.Start(goal.id, true)), goal.id,
                              goal.epoch, 0, o.progress.snapshot, env);
      assert Runs(stopped, goal.id);
      DispatchRunsOn(settings, stopped, goal.id, goal.epoch, env);
    }
    hide Suspend, DispatchOrSuspend, EmitStop;
  }

  lemma ReactEnds(settings: Settings, m: Manager, goal: Goal, lost: bool, o: Observation, env: Env)
    requires Runs(m, goal.id)
    ensures var after := React(settings, m, goal, lost, o, env);
            var woken := if Resumes(m, goal.id, o, env) then m.(lifecycle := m.lifecycle.(state := PLANNING)) else m;
            var end := Verdicts(woken, goal, Drifts(settings, woken, o), o, env);
            if end.Some? then IsFinished(after, goal.id, end.value) else Runs(after, goal.id)
  {
    hide Act, DispatchOrSuspend, Drifts, Verdicts, EmitStop;
    var resumes := Resumes(m, goal.id, o, env);
    var woken := if resumes then m.(lifecycle := m.lifecycle.(state := PLANNING)) else m;
    hide Resumes;
    var sent := if resumes then DispatchOrSuspend(settings, woken, goal.id, goal.epoch, env) else woken;
    DispatchRunsOn(settings, woken, goal.id, goal.epoch, env);
    var tracking, drifts := woken.lifecycle.state == TRACKING, Drifts(settings, woken, o);
    ActRunsOn(settings, sent, goal, lost, tracking, drifts, o, env);
    var acted := Act(settings, sent, goal, lost, tracking, drifts, o, env);
    var end := Verdicts(woken, goal, drifts, o, env);
    if end.Some? {
      FinishEnds(settings, acted, goal.id, end.value, env);
    }
    hide Finish;
  }

  lemma FinishEnds(settings: Settings, m: Manager, id: nat, end: LifecycleState, env: Env)
    requires Runs(m, id)
    ensures IsFinished(Finish(settings, m, end, env), id, end)
  {
  }

  lemma TheEndIsTheVerdict(settings: Settings, m: Manager, o: Observation, env: Env)
    requires Consistent(m) && m.goal.Some?
    ensures var goal := m.goal.value;
            var checked := LoseLocalization(LoseGimbal(m, env), goal.id, env);
            var woken := if Resumes(checked, goal.id, o, env)
                         then checked.(lifecycle := checked.lifecycle.(state := PLANNING)) else checked;
            Verdicts(woken, goal, Drifts(settings, woken, o), o, env) == EndOf(settings, m, o, env)
    ensures Runs(LoseLocalization(LoseGimbal(m, env), m.goal.value.id, env), m.goal.value.id)
  {
  }

  // A tick ends the goal exactly then, and otherwise goes on with it.
  lemma TickEndsTheGoalIff(settings: Settings, m: Manager, o: Observation, env: Env)
    requires Consistent(m) && m.goal.Some? && o.transformed
    ensures var after, end := Tick(settings, m, o, env), EndOf(settings, m, o, env);
            if end.Some? then IsFinished(after, m.goal.value.id, end.value)
            else after.goal.Some? && after.goal.value.id == m.goal.value.id
  {
    hide Consistent, React, LoseLocalization, LoseGimbal, Verdicts, Drifts, Resumes, EndOf, EmitStop, Emit;
    var goal := m.goal.value;
    var checked := LoseLocalization(LoseGimbal(m, env), goal.id, env);
    TheEndIsTheVerdict(settings, m, o, env);
    ReactEnds(settings, checked, goal, m.command.Some? && !env.gimbalHolds, o, env);
    HeartbeatOnlyLogs(settings, React(settings, checked, goal, m.command.Some? && !env.gimbalHolds, o, env), env);
    hide Heartbeat;
  }

  lemma HeartbeatOnlyLogs(settings: Settings, m: Manager, env: Env)
    ensures var after := Heartbeat(settings, m, env);
            after == m.(nextCommand := after.nextCommand, log := after.log)
  {
  }

  // A tick takes the drive away exactly when something was lost, the drive is
  // stalled or unsafe, or the goal ends; drifting alone drives on.
  lemma TickStopsTheDriveIff(settings: Settings, m: Manager, o: Observation, env: Env)
    requires Consistent(m) && !m.failStop
    ensures Tick(settings, m, o, env).failStop <==>
            !o.transformed || !env.gimbalHolds || !env.localized || o.progress.STALLED? || o.progress.UNSAFE? ||
            EndOf(settings, m, o, env).Some?
  {
    hide Drifts, Verdicts, EmitStop, Emit, EndOf, Resumes;
    var goal := m.goal.value;
    SuspensionWithdraws(settings, m, goal.id, env);
    if o.transformed {
      var checked, lost := LoseLocalization(LoseGimbal(m, env), goal.id, env), !env.gimbalHolds;
      var reacted := React(settings, checked, goal, lost, o, env);
      HeartbeatOnlyLogs(settings, reacted, env);
      TheEndIsTheVerdict(settings, m, o, env);
      ReactEnds(settings, checked, goal, lost, o, env);
      if !env.localized || lost {
        ReactIsQuiet(settings, checked, goal, lost, o, env);
        hide React, Suspend, Heartbeat;
      } else {
        DrivingReaction(settings, m, goal, o, env);
        hide React, Suspend, Heartbeat, LoseLocalization, LoseGimbal;
      }
    }
  }

  lemma DrivingReaction(settings: Settings, m: Manager, goal: Goal, o: Observation, env: Env)
    requires Consistent(m) && !m.failStop && m.goal == Some(goal) && env.gimbalHolds && env.localized
    ensures LoseLocalization(LoseGimbal(m, env), goal.id, env) == m && !Resumes(m, goal.id, o, env)
    ensures Verdicts(m, goal, Drifts(settings, m, o), o, env).None? ==>
              (React(settings, m, goal, false, o, env).failStop <==> o.progress.STALLED? || o.progress.UNSAFE?)
  {
    hide Verdicts, Drifts, EmitStop, DispatchOrSuspend, Suspend;
    SuspensionWithdraws(settings, m, goal.id, env);
    if o.progress.STALLED? {
      var stopped := EmitStop(settings, Withdraw(m).(lifecycle := m.lifecycle.Start(goal.id, true)), goal.id,
                              goal.epoch, 0, o.progress.snapshot, env);
      assert stopped.failStop by {
        StopIsQuiet(settings, m, Withdraw(m).(lifecycle := m.lifecycle.Start(goal.id, true)), goal.id, goal.epoch, 0,
                    o.progress.snapshot, env);
        EmittingOnlyLogs(settings, Withdraw(m).(lifecycle := m.lifecycle.Start(goal.id, true)), goal.id, goal.epoch,
                         o.progress.snapshot, env);
      }
      DispatchIsQuiet(settings, stopped, goal.id, goal.epoch, env);
    }
  }

  lemma EmittingOnlyLogs(settings: Settings, m: Manager, goal: nat, epoch: nat, snapshot: nat, env: Env)
    ensures EmitStop(settings, m, goal, epoch, 0, snapshot, env).failStop == m.failStop
  {
  }

  // A new goal first stops whatever drove, and then asks for a plan or waits.
  lemma NewGoalStartsStopped(settings: Settings, m: Manager, env: Env)
    ensures var after, id := StartGoal(settings, m, env), m.nextGoal + 1;
            var epoch := if m.localizationEpoch.Some? then m.localizationEpoch.value else env.mapEpoch;
            && after.failStop && after.candidate.None? && after.offer.None? && after.command.None? &&
               after.pending.None?
            && |m.log| < |after.log| && after.log[|m.log|].mode == ExecutionGate.STOP && after.nextGoal == id
            && if env.mapReady && env.localized && env.dispatchable
               then after.goal == Some(Goal(id, epoch, false, 1, 1, 0, false)) &&
                    after.lifecycle == Lifecycle(id, true, PLANNING)
               else after.goal == Some(Goal(id, epoch, false, 0, 0, 0, false)) &&
                    after.lifecycle == Lifecycle(id, true, WAITING_FOR_MAP)
  {
  }
}
