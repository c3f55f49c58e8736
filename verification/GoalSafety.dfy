/** What every callback of the goal manager keeps, and what its command log then
    guarantees over whole runs. */
module GoalSafety {
  import opened Basics
  import ExecutionGate
  import opened GoalManager

  ghost predicate CommandOf(c: Command, goal: Goal) {
    c.mode == ExecutionGate.EXECUTE && c.goal == goal.id && c.epoch == goal.epoch
  }

  // Without a fail-stop there is an executing command, and any command belongs to
  // the goal that is active, in its epoch. The counter is the last number given.
  ghost predicate Consistent(m: Manager) {
    && m.nextCommand == |m.log|
    && (!m.failStop ==>
          m.goal.Some? && m.command.Some? && m.lifecycle.state == TRACKING && !m.goal.value.cancelRequested)
    && (m.command.Some? ==> m.goal.Some? && CommandOf(m.command.value, m.goal.value))
    && (m.goal.Some? ==>
          m.goal.value.id == m.nextGoal != 0 && m.lifecycle.active && m.lifecycle.goal == m.goal.value.id)
  }

  // The goal has been given up: finished, preempted or asked to cancel.
  ghost predicate Ended(m: Manager, goal: nat) {
    goal <= m.nextGoal && (m.goal.Some? && m.goal.value.id == goal ==> m.goal.value.cancelRequested)
  }

  ghost predicate Sound(log: seq<Command>, k: nat, incarnation: nat, lastGoal: nat, ended: nat)
    requires k < |log|
  {
    && log[k].incarnation == incarnation && log[k].sequence == k + 1
    && (log[k].mode == ExecutionGate.EXECUTE ==> 0 < log[k].goal <= lastGoal && log[k].goal != ended)
  }

  // The log grows by well-numbered commands that execute no goal called ended.
  ghost predicate Appends(m: Manager, m': Manager, ended: nat) {
    && |m.log| <= |m'.log| && m'.log[..|m.log|] == m.log
    && forall k | |m.log| <= k < |m'.log| :: Sound(m'.log, k, m'.incarnation, m'.nextGoal, ended)
  }

  ghost predicate Keeps(m: Manager, m': Manager, ended: nat) {
    && Consistent(m') && m'.incarnation == m.incarnation && m.nextGoal <= m'.nextGoal
    && Ended(m', ended) && Appends(m, m', ended)
  }

  lemma KeepsTransitive(a: Manager, b: Manager, c: Manager, ended: nat)
    requires Keeps(a, b, ended) && Keeps(b, c, ended)
    ensures Keeps(a, c, ended)
  {
    hide Consistent, Ended;
    assert c.log[..|a.log|] == c.log[..|b.log|][..|a.log|];
    forall k | |a.log| <= k < |c.log|
      ensures Sound(c.log, k, c.incarnation, c.nextGoal, ended)
    {
      if k < |b.log| {
        assert Sound(b.log, k, b.incarnation, b.nextGoal, ended);
        assert c.log[k] == c.log[..|b.log|][k];
      }
    }
  }

  lemma EmitKeeps(settings: Settings, m: Manager, c: Command, env: Env, ended: nat)
    requires Consistent(m) && Ended(m, ended)
    requires c.mode == ExecutionGate.EXECUTE ==> m.goal.Some? && CommandOf(c, m.goal.value) && !m.failStop
    ensures Keeps(m, Emit(settings, m, c, env), ended)
  {
    var m' := Emit(settings, m, c, env);
    assert m'.log[..|m.log|] == m.log;
    assert Sound(m'.log, |m.log|, m'.incarnation, m'.nextGoal, ended);
  }

  // A step that emits nothing.
  lemma QuietKeeps(m: Manager, m': Manager, ended: nat)
    requires Consistent(m') && m'.incarnation == m.incarnation && m.nextGoal <= m'.nextGoal && m'.log == m.log &&
             Ended(m', ended)
    ensures Keeps(m, m', ended)
  {
  }

  lemma StopKeeps(settings: Settings, m: Manager, m': Manager, goal: nat, epoch: nat, generation: nat, publication: nat,
                  env: Env,
                  ended: nat)
    requires Consistent(m') && m'.incarnation == m.incarnation && m.nextGoal <= m'.nextGoal && m'.log == m.log &&
             Ended(m', ended)
    ensures Keeps(m, EmitStop(settings, m', goal, epoch, generation, publication, env), ended)
  {
    hide Consistent, Ended, Emit, Keeps;
    QuietKeeps(m, m', ended);
    var c := ExecutionGate.Command(ExecutionGate.STOP, 0, 0, None, goal, epoch, generation, publication,
                                   ExecutionGate.GIMBAL_COMPENSATED, false, 0, 0, NO_REFERENCE);
    EmitKeeps(settings, m', c, env, ended);
    KeepsTransitive(m, m', EmitStop(settings, m', goal, epoch, generation, publication, env), ended);
  }

  lemma SuspendKeeps(settings: Settings, m: Manager, id: nat, env: Env, ended: nat)
    requires Consistent(m) && Ended(m, ended)
    ensures Keeps(m, Suspend(settings, m, id, env), ended)
  {
    hide EmitStop, Keeps;
    if m.goal.None? || m.goal.value.id != id {
      QuietKeeps(m, m, ended);
    } else {
      var m' := Withdraw(m).(goal := Some(m.goal.value.(replacementPending := false)),
                             lifecycle := m.lifecycle.Start(id, false));
      StopKeeps(settings, m, m', id, 0, 0, 0, env, ended);
    }
  }

  lemma FinishKeeps(settings: Settings, m: Manager, end: LifecycleState, env: Env, ended: nat)
    requires Consistent(m) && Ended(m, ended)
    ensures Keeps(m, Finish(settings, m, end, env), ended)
    ensures m.goal.Some? ==> Ended(Finish(settings, m, end, env), m.goal.value.id)
  {
    hide Keeps;
    if m.goal.None? {
      QuietKeeps(m, m, ended);
    } else {
      var m' := Withdraw(m).(goal := None, lifecycle := m.lifecycle.Finish(end));
      StopKeeps(settings, m, m', m.goal.value.id, m.goal.value.epoch, 0, 0, env, ended);
    }
  }

  lemma DispatchKeeps(settings: Settings, m: Manager, id: nat, epoch: nat, env: Env, ended: nat)
    requires Consistent(m) && Ended(m, ended)
    ensures Keeps(m, DispatchOrSuspend(settings, m, id, epoch, env), ended)
  {
    hide Suspend, Keeps;
    if Dispatchable(m, id, epoch, env) {
      QuietKeeps(m, Request(m), ended);
    } else {
      SuspendKeeps(settings, m, id, env, ended);
    }
  }

  lemma StartGoalKeeps(settings: Settings, m: Manager, env: Env, ended: nat)
    requires Consistent(m) && Ended(m, ended)
    ensures Keeps(m, StartGoal(settings, m, env), ended)
  {
    hide EmitStop, DispatchOrSuspend, Keeps;
    var id := m.nextGoal + 1;
    var epoch := if m.localizationEpoch.Some? then m.localizationEpoch.value else env.mapEpoch;
    var ready := env.mapReady && env.localized;
    var m' := Withdraw(m).(nextGoal := id, lifecycle := m.lifecycle.Start(id, ready),
                           goal := Some(Goal(id, epoch, false, 0, 0, 0, false)));
    var started := EmitStop(settings, m', id, epoch, 0, env.publication, env);
    StopKeeps(settings, m, m', id, epoch, 0, env.publication, env, ended);
    KeptIsGood(m, started, ended);
    DispatchKeeps(settings, started, id, epoch, env, ended);
    if ready {
      KeepsTransitive(m, started, DispatchOrSuspend(settings, started, id, epoch, env), ended);
    }
  }

  lemma KeptIsGood(m: Manager, m': Manager, ended: nat)
    requires Keeps(m, m', ended)
    ensures Consistent(m') && Ended(m', ended)
  {
  }

  lemma CommitKeeps(settings: Settings, m: Manager, request: nat, env: Env, ended: nat)
    requires Consistent(m) && Ended(m, ended)
    requires m.goal.Some? && m.offer.Some? && m.candidate.Some? && !m.goal.value.cancelRequested
    ensures Keeps(m, Commit(settings, m, request, env), ended)
  {
    var command := Execution(settings, m, request, env);
    var committed := m.(failStop := false, command := Some(command), lifecycle := m.lifecycle.(state := TRACKING),
                        goal := Some(m.goal.value.(committedRequest := m.offer.value.request,
                                                   replacementPending := false)));
    var emitted := Emit(settings, committed, command, env);
    EmitKeeps(settings, committed, command, env, ended);
    var final := emitted.(candidate := None, offer := None, pending := None);
    assert Commit(settings, m, request, env) == final;
    assert final.log == emitted.log;
    hide Emit, Execution;
    assert Keeps(m, final, ended) by {
      CommitIsQuiet(m, committed, emitted, final, ended);
    }
  }

  // Around the emission nothing but the log matters.
  lemma CommitIsQuiet(m: Manager, committed: Manager, emitted: Manager, final: Manager, ended: nat)
    requires Keeps(committed, emitted, ended) && final == emitted.(candidate := None, offer := None, pending := None)
    requires committed.log == m.log && committed.incarnation == m.incarnation && m.nextGoal == committed.nextGoal
    ensures Keeps(m, final, ended)
  {
    forall k | |m.log| <= k < |final.log|
      ensures Sound(final.log, k, final.incarnation, final.nextGoal, ended)
    {
      assert Sound(emitted.log, k, emitted.incarnation, emitted.nextGoal, ended);
    }
  }

  lemma AuthoriseKeeps(settings: Settings, m: Manager, env: Env, ended: nat)
    requires Consistent(m) && Ended(m, ended)
    requires m.goal.Some? && m.offer.Some? && m.candidate.Some? && !m.goal.value.cancelRequested
    ensures Keeps(m, Authorise(settings, m, env), ended)
  {
    hide Commit, Keeps, SameYaw;
    var asked := if Replaces(m) then m else RequestYaw(settings, m);
    hide Replaces;
    QuietKeeps(m, asked, ended);
    QuietKeeps(m, asked.(failStop := true), ended);
    QuietKeeps(m, m.(failStop := true), ended);
    forall request: nat
      ensures Keeps(m, Commit(settings, asked, request, env), ended)
    {
      CommitKeeps(settings, asked, request, env, ended);
      KeepsTransitive(m, asked, Commit(settings, asked, request, env), ended);
    }
  }

  lemma TryCommitKeeps(settings: Settings, m: Manager, env: Env, ended: nat)
    requires Consistent(m) && Ended(m, ended)
    ensures Keeps(m, TryCommit(settings, m, env), ended)
  {
    hide Keeps, Authorise, DispatchOrSuspend, Suspend, CommandOf;
    if OfferIsStale(m, env) {
      var goal := m.goal.value;
      var cleared := m.(candidate := None, offer := None);
      QuietKeeps(m, cleared, ended);
      DispatchKeeps(settings, cleared, goal.id, goal.epoch, env, ended);
      KeepsTransitive(m, cleared, DispatchOrSuspend(settings, cleared, goal.id, goal.epoch, env), ended);
      SuspendKeeps(settings, m, goal.id, env, ended);
    } else if Committable(m, env) {
      AuthoriseKeeps(settings, m, env, ended);
    } else {
      QuietKeeps(m, m, ended);
    }
  }

  lemma FailureKeeps(settings: Settings, m: Manager, offer: Offer, transient: bool, env: Env, ended: nat)
    requires Consistent(m) && Ended(m, ended)
    ensures Keeps(m, OnFailure(settings, m, offer, transient, env), ended)
  {
    hide Keeps, Suspend, Finish, Consistent, Ended;
    SuspendKeeps(settings, m, offer.goal, env, ended);
    FinishKeeps(settings, m, FAILED, env, ended);
    QuietKeeps(m, m, ended);
  }

  lemma ReplanAdvisedKeeps(settings: Settings, m: Manager, offer: Offer, env: Env, ended: nat)
    requires Consistent(m) && Ended(m, ended)
    ensures Keeps(m, OnReplanAdvised(settings, m, offer, env), ended)
  {
    hide Keeps;
    QuietKeeps(m, OnReplanAdvised(settings, m, offer, env), ended);
  }

  lemma ReadyKeeps(settings: Settings, m: Manager, offer: Offer, env: Env, ended: nat)
    requires Consistent(m) && Ended(m, ended)
    ensures Keeps(m, OnReady(settings, m, offer, env), ended)
  {
    hide Keeps, EmitStop;
    QuietKeeps(m, m, ended);
    QuietKeeps(m, m.(offer := Some(offer)), ended);
    if Concerns(m, offer) {
      StopKeeps(settings, m,
                m.(offer := Some(offer), command := None, pending := None, failStop := true,
                   lifecycle := m.lifecycle.Start(offer.goal, true)),
                offer.goal, offer.epoch, offer.generation, offer.publication, env, ended);
    }
  }

  lemma ReportKeeps(settings: Settings, m: Manager, report: Report, env: Env, ended: nat)
    requires Consistent(m) && Ended(m, ended)
    ensures Keeps(m, OnReport(settings, m, report, env), ended)
  {
    if report.verdict.PLAN_REJECTED? && m.goal.Some? {
      QuietKeeps(m, m.(goal := Some(m.goal.value.(replacementPending := false))), ended);
    }
    hide Keeps, OnFailure, OnReplanAdvised, TryCommit, OnReady, Consistent, Ended;
    QuietKeeps(m, m, ended);
    match report.verdict {
      case PLAN_FAILED(transient) => FailureKeeps(settings, m, report.offer, transient, env, ended);
      case PLAN_REJECTED(transient) => FailureKeeps(settings, m, report.offer, transient, env, ended);
      case REPLAN_ADVISED => ReplanAdvisedKeeps(settings, m, report.offer, env, ended);
      case PLAN_READY =>
        var ready := OnReady(settings, m, report.offer, env);
        ReadyKeeps(settings, m, report.offer, env, ended);
        KeptIsGood(m, ready, ended);
        TryCommitKeeps(settings, ready, env, ended);
        KeepsTransitive(m, ready, TryCommit(settings, ready, env), ended);
      case PLAN_SCHEDULED =>
    }
  }

  lemma LocalizationKeeps(settings: Settings, m: Manager, epoch: nat, steadilyHealthy: bool, env: Env, ended: nat)
    requires Consistent(m) && Ended(m, ended)
    ensures Keeps(m, OnLocalization(settings, m, epoch, steadilyHealthy, env), ended)
  {
    hide Keeps, EmitStop;
    var known := m.(localizationEpoch := Some(epoch));
    QuietKeeps(m, known, ended);
    if m.goal.Some? {
      StopKeeps(settings, m,
                known.(candidate := None, offer := None, command := None, failStop := true,
                       goal := Some(m.goal.value.(epoch := epoch)), lifecycle :=
                         m.lifecycle.Start(m.goal.value.id, false)),
                0, epoch, 0, 0, env, ended);
    }
  }

  lemma GimbalKeeps(settings: Settings, m: Manager, env: Env, ended: nat)
    requires Consistent(m) && Ended(m, ended)
    ensures Keeps(m, OnGimbal(settings, m, env), ended)
  {
    var lost := m.command.Some? && !env.gimbalHolds;
    var stopped := if lost then m.(command := None, failStop := true) else m;
    QuietKeeps(m, stopped, ended);
    hide Keeps, Suspend, TryCommit, Consistent, Ended;
    var recovered := SuspendIf(settings, stopped, lost, env);
    KeptIsGood(m, stopped, ended);
    if stopped.goal.Some? {
      SuspendKeeps(settings, stopped, stopped.goal.value.id, env, ended);
    }
    QuietKeeps(stopped, stopped, ended);
    KeptIsGood(stopped, recovered, ended);
    TryCommitKeeps(settings, recovered, env, ended);
    KeepsTransitive(m, stopped, recovered, ended);
    KeepsTransitive(m, recovered, TryCommit(settings, recovered, env), ended);
  }

  lemma HeartbeatKeeps(settings: Settings, m: Manager, env: Env, ended: nat)
    requires Consistent(m) && Ended(m, ended)
    ensures Keeps(m, Heartbeat(settings, m, env), ended)
  {
    hide Keeps, Emit;
    if !m.failStop && m.lifecycle.state == TRACKING && m.command.Some? {
      EmitKeeps(settings, m, m.command.value, env, ended);
    } else if m.goal.Some? {
      StopKeeps(settings, m, m, m.goal.value.id, m.goal.value.epoch, 0, env.publication, env, ended);
    } else {
      StopKeeps(settings, m, m, 0, 0, 0, 0, env, ended);
    }
  }

  lemma ReplanKeeps(settings: Settings, m: Manager, goal: Goal, snapshot: nat, env: Env, ended: nat)
    requires Consistent(m) && Ended(m, ended) && m.goal.Some? && m.goal.value.id == goal.id
    ensures Keeps(m, Replan(settings, m, goal, snapshot, env), ended)
  {
    hide Keeps, EmitStop, DispatchOrSuspend;
    var withdrawn := Withdraw(m).(lifecycle := m.lifecycle.Start(goal.id, true));
    var stopped := EmitStop(settings, withdrawn, goal.id, goal.epoch, 0, snapshot, env);
    StopKeeps(settings, m, withdrawn, goal.id, goal.epoch, 0, snapshot, env, ended);
    hide Consistent, Ended;
    KeptIsGood(m, stopped, ended);
    DispatchKeeps(settings, stopped, goal.id, goal.epoch, env, ended);
    KeepsTransitive(m, stopped, DispatchOrSuspend(settings, stopped, goal.id, goal.epoch, env), ended);
  }

  // What React does before the tick's verdict is carried out.
  lemma ReactKeeps(settings: Settings, m: Manager, goal: Goal, lost: bool, o: Observation, env: Env, ended: nat)
    requires Consistent(m) && Ended(m, ended) && m.goal.Some? && m.goal.value.id == goal.id
    ensures Keeps(m, React(settings, m, goal, lost, o, env), ended)
  {
    var resumes := Resumes(m, goal.id, o, env);
    var woken := if resumes then m.(lifecycle := m.lifecycle.(state := PLANNING)) else m;
    QuietKeeps(m, woken, ended);
    var tracking := woken.lifecycle.state == TRACKING;
    hide Keeps, Consistent, Ended, Drifts, Verdicts, DispatchOrSuspend, Replan, Suspend, Finish, Retarget;
    KeptIsGood(m, woken, ended);
    var sent := if resumes then DispatchOrSuspend(settings, woken, goal.id, goal.epoch, env) else woken;
    DispatchKeeps(settings, woken, goal.id, goal.epoch, env, ended);
    QuietKeeps(woken, woken, ended);
    KeptIsGood(woken, sent, ended);
    KeepsTransitive(m, woken, sent, ended);
    var drifts := Drifts(settings, woken, o);
    var acted := Act(settings, sent, goal, lost, tracking, drifts, o, env);
    ActedKeeps(settings, sent, goal, acted, env, ended, o);
    KeptIsGood(sent, acted, ended);
    KeepsTransitive(m, sent, acted, ended);
    var end := Verdicts(woken, goal, drifts, o, env);
    if end.Some? {
      FinishKeeps(settings, acted, end.value, env, ended);
      KeepsTransitive(m, acted, Finish(settings, acted, end.value, env), ended);
    }
  }

  lemma ActedKeeps(settings: Settings, sent: Manager, goal: Goal, acted: Manager, env: Env, ended: nat, o: Observation)
    requires Consistent(sent) && Ended(sent, ended)
    requires acted == sent || acted == Suspend(settings, sent, goal.id, env) ||
             acted == Retarget(settings, sent, goal, env) ||
             (o.progress.STALLED? && sent.goal.Some? && sent.goal.value.id == goal.id &&
              acted == Replan(settings, sent, goal, o.progress.snapshot, env))
    ensures Keeps(sent, acted, ended)
  {
    hide Keeps, Consistent, Ended, Suspend, Replan, OnReplanAdvised;
    QuietKeeps(sent, sent, ended);
    SuspendKeeps(settings, sent, goal.id, env, ended);
    ReplanAdvisedKeeps(settings, sent,
                       Offer(goal.id, goal.epoch, goal.committedRequest, 0, 0, ExecutionGate.GIMBAL_COMPENSATED, false,
                             0), env, ended);
    if o.progress.STALLED? && sent.goal.Some? && sent.goal.value.id == goal.id {
      ReplanKeeps(settings, sent, goal, o.progress.snapshot, env, ended);
    }
  }

  lemma TickKeeps(settings: Settings, m: Manager, o: Observation, env: Env, ended: nat)
    requires Consistent(m) && Ended(m, ended)
    ensures Keeps(m, Tick(settings, m, o, env), ended)
  {
    hide Keeps, React, Heartbeat, Suspend;
    if m.goal.None? {
      HeartbeatKeeps(settings, m, env, ended);
    } else if !o.transformed {
      SuspendKeeps(settings, m, m.goal.value.id, env, ended);
    } else {
      var goal := m.goal.value;
      var checked := LoseLocalization(LoseGimbal(m, env), goal.id, env);
      QuietKeeps(m, checked, ended);
      var reacted := React(settings, checked, goal, m.command.Some? && !env.gimbalHolds, o, env);
      ReactKeeps(settings, checked, goal, m.command.Some? && !env.gimbalHolds, o, env, ended);
      hide Consistent, Ended;
      KeptIsGood(checked, reacted, ended);
      HeartbeatKeeps(settings, reacted, env, ended);
      KeepsTransitive(m, checked, reacted, ended);
      KeepsTransitive(m, reacted, Heartbeat(settings, reacted, env), ended);
    }
  }

  lemma CandidateKeeps(settings: Settings, m: Manager, candidate: Reference, env: Env, ended: nat)
    requires Consistent(m) && Ended(m, ended)
    ensures Keeps(m, TryCommit(settings, m.(candidate := Some(candidate)), env), ended)
  {
    var offered := m.(candidate := Some(candidate));
    QuietKeeps(m, offered, ended);
    hide Keeps, Consistent, Ended, TryCommit;
    KeptIsGood(m, offered, ended);
    TryCommitKeeps(settings, offered, env, ended);
    KeepsTransitive(m, offered, TryCommit(settings, offered, env), ended);
  }

  lemma StepKeeps(settings: Settings, m: Manager, e: Event, ended: nat)
    requires Consistent(m) && Ended(m, ended)
    ensures Keeps(m, Step(settings, m, e), ended)
  {
    hide Keeps, Consistent, Ended, StartGoal, Cancel, OnReport, TryCommit, Suspend, SuspendIf, Finish, OnLocalization,
      OnGimbal, Tick;
    match e {
      case GoalReceived(env) => StartGoalKeeps(settings, m, env, ended);
      case PlannerReport(report, env) => ReportKeeps(settings, m, report, env, ended);
      case CandidateReceived(candidate, env) => CandidateKeeps(settings, m, candidate, env, ended);
      case MapUpdate(lost, env) => LossKeeps(settings, m, lost, env, ended);
      case SnapshotUpdate(lost, env) => LossKeeps(settings, m, lost, env, ended);
      case MapHeartbeatLost(env) => FinishKeeps(settings, m, FAILED, env, ended);
      case LocalizationUpdate(epoch, steadilyHealthy, env) =>
        LocalizationKeeps(settings, m, epoch, steadilyHealthy, env, ended);
      case GimbalUpdate(env) => GimbalKeeps(settings, m, env, ended);
      case OdometryLost(env) => LossKeeps(settings, m, true, env, ended);
      case Ticked(observation, env) => TickKeeps(settings, m, observation, env, ended);
      case CancelRequested => CancelKeeps(m, ended);
      case LocalizationBookkeeping(epoch) => BookkeepingKeeps(m, epoch, ended);
    }
  }

  lemma CancelKeeps(m: Manager, ended: nat)
    requires Consistent(m) && Ended(m, ended)
    ensures Keeps(m, Cancel(m), ended)
  {
    hide Keeps;
    QuietKeeps(m, Cancel(m), ended);
  }

  lemma BookkeepingKeeps(m: Manager, epoch: nat, ended: nat)
    requires Consistent(m) && Ended(m, ended)
    ensures Keeps(m, m.(localizationEpoch := Some(epoch)), ended)
  {
    hide Keeps;
    QuietKeeps(m, m.(localizationEpoch := Some(epoch)), ended);
  }

  lemma LossKeeps(settings: Settings, m: Manager, lost: bool, env: Env, ended: nat)
    requires Consistent(m) && Ended(m, ended)
    ensures Keeps(m, SuspendIf(settings, m, lost, env), ended)
    ensures Keeps(m, TryCommit(settings, m, env), ended)
  {
    hide Keeps, Consistent, Ended, Suspend, TryCommit;
    QuietKeeps(m, m, ended);
    if m.goal.Some? {
      SuspendKeeps(settings, m, m.goal.value.id, env, ended);
    }
    TryCommitKeeps(settings, m, env, ended);
  }

  lemma {:induction false} RunKeeps(settings: Settings, m: Manager, events: seq<Event>, ended: nat)
    requires Consistent(m) && Ended(m, ended)
    ensures Keeps(m, Run(settings, m, events), ended)
  {
    hide Keeps, Consistent, Ended, Step;
    if events == [] {
      QuietKeeps(m, m, ended);
    } else {
      var before := Run(settings, m, events[..|events| - 1]);
      RunKeeps(settings, m, events[..|events| - 1], ended);
      KeptIsGood(m, before, ended);
      StepKeeps(settings, before, events[|events| - 1], ended);
      KeepsTransitive(m, before, Run(settings, m, events), ended);
    }
  }

  // A fresh process is consistent, and goal 0, which no command executes, is over.
  lemma InitialIsConsistent(settings: Settings, incarnation: nat, env: Env)
    ensures var m := Initial(settings, incarnation, env);
            Consistent(m) && Ended(m, 0) && m.incarnation == incarnation && |m.log| == 1 &&
            m.log[0].mode == ExecutionGate.STOP &&
            Sound(m.log, 0, incarnation, 0, 0)
  {
  }

  // The manager's whole output: numbered from 1 without gaps, a STOP first, and
  // an executed goal in every EXECUTE.
  lemma EveryLogIsOrdered(settings: Settings, incarnation: nat, env: Env, events: seq<Event>)
    ensures var m := Run(settings, Initial(settings, incarnation, env), events);
            && |m.log| > 0 && m.log[0].mode == ExecutionGate.STOP
            && forall k | 0 <= k < |m.log| :: Sound(m.log, k, incarnation, m.nextGoal, 0)
  {
    var start := Initial(settings, incarnation, env);
    var m := Run(settings, start, events);
    InitialIsConsistent(settings, incarnation, env);
    RunKeeps(settings, start, events, 0);
    hide Run, Consistent, Ended, Initial;
    assert start.log[0] == m.log[..1][0] == m.log[0];
    forall k | 0 <= k < |m.log|
      ensures Sound(m.log, k, incarnation, m.nextGoal, 0)
    {
      if k == 0 {
        assert Sound(start.log, 0, incarnation, 0, 0);
      }
    }
  }

  // Without a fail-stop the active command is the active goal's.
  lemma EveryRunIsConsistent(settings: Settings, incarnation: nat, env: Env, events: seq<Event>)
    ensures var m := Run(settings, Initial(settings, incarnation, env), events);
            && m.nextCommand == |m.log|
            && (!m.failStop ==> m.goal.Some? && m.command.Some? && CommandOf(m.command.value, m.goal.value) &&
                                m.lifecycle.state == TRACKING)
  {
    InitialIsConsistent(settings, incarnation, env);
    RunKeeps(settings, Initial(settings, incarnation, env), events, 0);
    hide Run, Ended, Initial, Appends;
  }

  // Cancelling, preempting and finishing each end the active goal, and an ended
  // goal stays so until a later one takes its place.
  lemma WhatEndsAGoal(settings: Settings, m: Manager, end: LifecycleState, env: Env)
    requires Consistent(m) && m.goal.Some?
    ensures Ended(Cancel(m), m.goal.value.id)
    ensures Ended(StartGoal(settings, m, env), m.goal.value.id)
    ensures Ended(Finish(settings, m, end, env), m.goal.value.id)
  {
    hide EmitStop, DispatchOrSuspend;
    FinishKeeps(settings, m, end, env, 0);
    var id := m.nextGoal + 1;
    var epoch := if m.localizationEpoch.Some? then m.localizationEpoch.value else env.mapEpoch;
    var ready := env.mapReady && env.localized;
    var m' := Withdraw(m).(nextGoal := id, lifecycle := m.lifecycle.Start(id, ready),
                           goal := Some(Goal(id, epoch, false, 0, 0, 0, false)));
    var started := EmitStop(settings, m', id, epoch, 0, env.publication, env);
    StopKeeps(settings, m', m', id, epoch, 0, env.publication, env, m.goal.value.id);
    KeptIsGood(m', started, m.goal.value.id);
    DispatchKeeps(settings, started, id, epoch, env, m.goal.value.id);
  }

  // Once a goal is finished, preempted or asked to cancel, no later command executes it.
  lemma EndedGoalIsNeverExecutedAgain(settings: Settings, m: Manager, events: seq<Event>, goal: nat)
    requires Consistent(m) && Ended(m, goal)
    ensures var later := Run(settings, m, events);
            forall k | |m.log| <= k < |later.log| ::
                     later.log[k].mode == ExecutionGate.EXECUTE ==> later.log[k].goal != goal
  {
    RunKeeps(settings, m, events, goal);
    hide Run, Consistent, Ended;
    var later := Run(settings, m, events);
    forall k | |m.log| <= k < |later.log|
      ensures later.log[k].mode == ExecutionGate.EXECUTE ==> later.log[k].goal != goal
    {
      assert Sound(later.log, k, later.incarnation, later.nextGoal, goal);
    }
  }

  // The heartbeat executes exactly when the fail-stop is released: the lifecycle
  // never disagrees with it.
  lemma HeartbeatExecutesIff(settings: Settings, m: Manager, env: Env)
    requires Consistent(m)
    ensures var log := Heartbeat(settings, m, env).log;
            |log| == |m.log| + 1 && (log[|m.log|].mode == ExecutionGate.EXECUTE <==> !m.failStop)
  {
  }
}
