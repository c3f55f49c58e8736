/** What the node's authority means over whole runs: for any message loss,
    repetition and order, since every message is any value at any time. */
module ExecutionRuns {
  import opened Basics
  import opened Actuator
  import opened ExecutionGate
  import opened ExecutionSafety

  ghost predicate InstallsUnder(settings: Settings, s: Gate, e: Event, epoch: nat, generation: nat)
    requires settings.mpc.Valid() && Usable(e)
  {
    Installs(settings, s, e) && Of(Step(settings, s, e).tracker, epoch, generation)
  }

  // A non-zero Twist while following a reference of this plan.
  ghost predicate MovesUnder(settings: Settings, s: Gate, e: Event, epoch: nat, generation: nat)
    requires settings.mpc.Valid() && Usable(e)
  {
    Moves(settings, s, e) && Of(s.tracker, epoch, generation)
  }

  // What is installed was valid for the map and planner, and is the active command.
  lemma InstallIsValid(settings: Settings, s: Gate, e: Event)
    requires settings.mpc.Valid() && Usable(e) && Safe(settings, s) && Installs(settings, s, e)
    ensures var after := Step(settings, s, e);
            after.active == after.tracker && after.active != s.active &&
            MapValid(settings, s, after.active.value, e.clock.steady)
  {
    hide Safe, Step, MapValid;
    StepAdvances(settings, s, e);
  }

  lemma MotionIsUnderTheActive(settings: Settings, s: Gate, e: Event, epoch: nat, generation: nat)
    requires settings.mpc.Valid() && Usable(e) && Safe(settings, s) && MovesUnder(settings, s, e, epoch, generation)
    ensures Of(s.active, epoch, generation) && LeaseValid(settings, s, e.clock.steady)
  {
    hide Safe, Moves, LeaseValid;
    MotionIsAuthorised(settings, s, e);
  }

  lemma RetiredIsInert(settings: Settings, s: Gate, e: Event, epoch: nat, generation: nat)
    requires settings.mpc.Valid() && Usable(e) && Safe(settings, s) && Retired(s, epoch, generation)
    ensures Retired(Step(settings, s, e), epoch, generation)
    ensures !InstallsUnder(settings, s, e, epoch, generation) && !MovesUnder(settings, s, e, epoch, generation)
  {
    hide Safe, Step, MapFresh, GimbalValid;
    StepAdvances(settings, s, e);
    if InstallsUnder(settings, s, e, epoch, generation) {
      InstallIsValid(settings, s, e);
    }
    if MovesUnder(settings, s, e, epoch, generation) {
      MotionIsUnderTheActive(settings, s, e, epoch, generation);
    }
  }

  // Retirement is final.
  lemma {:induction false} RetiredForGood(settings: Settings, s: Gate, events: seq<Event>, e: Event, epoch: nat,
                                          generation: nat)
    requires settings.mpc.Valid() && AllUsable(events) && Usable(e) && Safe(settings, s) &&
             Retired(s, epoch, generation)
    ensures var later := Run(settings, s, events);
            Retired(later, epoch, generation) &&
            !InstallsUnder(settings, later, e, epoch, generation) && !MovesUnder(settings, later, e, epoch, generation)
  {
    hide Safe, Step, Retired, InstallsUnder, MovesUnder;
    if events != [] {
      RetiredForGood(settings, s, events[..|events| - 1], events[|events| - 1], epoch, generation);
      EveryRunIsSafe(settings, s, events[..|events| - 1]);
      RetiredIsInert(settings, Run(settings, s, events[..|events| - 1]), events[|events| - 1], epoch, generation);
    }
    EveryRunIsSafe(settings, s, events);
    RetiredIsInert(settings, Run(settings, s, events), e, epoch, generation);
  }

  // The plan is superseded, and may be active only until this deadline.
  ghost predicate Superseded(s: Gate, epoch: nat, generation: nat, deadline: Option<int>) {
    Passed(s, epoch, generation) && (Of(s.active, epoch, generation) ==> deadline.Some? && s.deadline == deadline)
  }

  lemma SupersessionHolds(settings: Settings, s: Gate, e: Event, epoch: nat, generation: nat, deadline: Option<int>)
    requires settings.mpc.Valid() && Usable(e) && Safe(settings, s) && Superseded(s, epoch, generation, deadline)
    ensures Superseded(Step(settings, s, e), epoch, generation, deadline)
    ensures Of(Step(settings, s, e).active, epoch, generation) ==> Of(s.active, epoch, generation)
    ensures !InstallsUnder(settings, s, e, epoch, generation)
    ensures MovesUnder(settings, s, e, epoch, generation) ==>
              Of(s.active, epoch, generation) && deadline.Some? && e.clock.steady <= deadline.value
  {
    hide Safe, Step, MapFresh, GimbalValid;
    StepAdvances(settings, s, e);
    if InstallsUnder(settings, s, e, epoch, generation) {
      InstallIsValid(settings, s, e);
    }
    if MovesUnder(settings, s, e, epoch, generation) {
      MotionIsUnderTheActive(settings, s, e, epoch, generation);
    }
  }

  lemma {:induction false} SupersededThroughout(settings: Settings, s: Gate, events: seq<Event>, epoch: nat,
                                                generation: nat,
                                                deadline: Option<int>)
    requires settings.mpc.Valid() && AllUsable(events) && Safe(settings, s) &&
             Superseded(s, epoch, generation, deadline)
    ensures Superseded(Run(settings, s, events), epoch, generation, deadline)
    ensures Of(Run(settings, s, events).active, epoch, generation) ==> Of(s.active, epoch, generation)
  {
    hide Safe, Step, Superseded, InstallsUnder, MovesUnder;
    if events != [] {
      SupersededThroughout(settings, s, events[..|events| - 1], epoch, generation, deadline);
      EveryRunIsSafe(settings, s, events[..|events| - 1]);
      SupersessionHolds(settings, Run(settings, s, events[..|events| - 1]), events[|events| - 1], epoch, generation,
                        deadline);
    }
  }

  // A plan the planner has passed is never newly installed, and drives only if it
  // is already active and only until the grace deadline that is already set,
  // however many generations follow.
  lemma PassedPlanDrivesOnlyInItsGrace(settings: Settings, s: Gate, events: seq<Event>, e: Event, epoch: nat,
                                       generation: nat)
    requires settings.mpc.Valid() && AllUsable(events) && Usable(e) && Safe(settings, s) && Passed(s, epoch, generation)
    ensures var later := Run(settings, s, events);
            && !InstallsUnder(settings, later, e, epoch, generation)
            && (MovesUnder(settings, later, e, epoch, generation) ==>
                  Of(s.active, epoch, generation) && s.deadline.Some? && e.clock.steady <= s.deadline.value)
  {
    hide InEnvelope, Step, MovesUnder, InstallsUnder, Tracks, Ordered;
    SupersededThroughout(settings, s, events, epoch, generation, s.deadline);
    EveryRunIsSafe(settings, s, events);
    SupersessionHolds(settings, Run(settings, s, events), e, epoch, generation, s.deadline);
  }

  ghost predicate NoInstall(settings: Settings, s: Gate, events: seq<Event>)
    requires settings.mpc.Valid() && AllUsable(events)
  {
    forall i | 0 <= i < |events| :: !Installs(settings, Run(settings, s, events[..i]), events[i])
  }

  // From an empty tracker, which every stop leaves, nothing moves before an install.
  lemma {:induction false} NoMotionBeforeAnInstall(settings: Settings, s: Gate, events: seq<Event>, e: Event)
    requires settings.mpc.Valid() && AllUsable(events) && Usable(e) && Safe(settings, s) && s.tracker.None?
    requires NoInstall(settings, s, events)
    ensures Run(settings, s, events).tracker.None? && !Moves(settings, Run(settings, s, events), e)
  {
    hide Safe, Step, Moves;
    if events != [] {
      var init, last := events[..|events| - 1], events[|events| - 1];
      assert forall i | 0 <= i < |init| :: init[i] == events[i] && init[..i] == events[..i];
      NoMotionBeforeAnInstall(settings, s, init, last);
      assert !Installs(settings, Run(settings, s, events[..|init|]), events[|init|]);
    }
    EveryRunIsSafe(settings, s, events);
    if Moves(settings, Run(settings, s, events), e) {
      MotionIsAuthorised(settings, Run(settings, s, events), e);
    }
  }

  // Every published Twist of a run keeps the body and wheel limits.
  lemma EveryTwistIsInTheEnvelope(settings: Settings, s: Gate, events: seq<Event>)
    requires settings.mpc.Valid() && AllUsable(events) && Starts(s)
    ensures var output := Run(settings, s, events).output; output.Some? ==> InEnvelope(settings.mpc, output.value)
  {
    hide Step, InEnvelope, Tracks, Authorised, Ordered;
    EveryRunIsSafe(settings, s, events);
  }

  predicate Before(incarnation: nat, sequence: nat, incarnation': nat, sequence': nat) {
    incarnation < incarnation' || (incarnation == incarnation' && sequence < sequence')
  }

  // The STOP passed the incarnation and sequence checks.
  predicate StopAccepted(settings: Settings, s: Gate, e: Event) {
    e.Execution? && e.command.mode == STOP && e.command.incarnation != 0 && e.command.sequence != 0 &&
    Timely(settings, e.command, e.clock) &&
    Before(s.lastIncarnation, s.lastSequence, e.command.incarnation, e.command.sequence)
  }

  ghost predicate OrderAdvances(s: Gate, s': Gate) {
    && ((s'.lastIncarnation == s.lastIncarnation && s'.lastSequence == s.lastSequence) ||
        Before(s.lastIncarnation, s.lastSequence, s'.lastIncarnation, s'.lastSequence))
    && (s'.active.Some? && s'.active != s.active ==>
          s'.active.value.incarnation == s'.lastIncarnation && s'.active.value.sequence == s'.lastSequence &&
          Before(s.lastIncarnation, s.lastSequence, s'.lastIncarnation, s'.lastSequence))
  }

  lemma AdmissionOrder(settings: Settings, s: Gate, c: Command, clock: Clock)
    ensures var s' := AdmitCommand(settings, s, c, clock);
            && s'.lastIncarnation == s.lastIncarnation && s'.lastSequence == s.lastSequence
            && (s'.active.Some? && s'.active != s.active ==> s'.active.value == c)
            && (c.mode == STOP ==> s'.active.None?)
  {
    hide Installable, GimbalValid, MapValid, SamePlan, SameReference, GraceActive, EngageFailStop;
    EngagingKeeps(s.(active := None), true, clock.ros);
    EngagingKeeps(s.(active := Some(c), deadline := None), true, clock.ros);
  }

  lemma CommandOrder(settings: Settings, s: Gate, c: Command, clock: Clock)
    ensures OrderAdvances(s, OnExecutionCommand(settings, s, c, clock))
    ensures OnExecutionCommand(settings, s, c, clock).lastIncarnation != s.lastIncarnation ==>
              StopAccepted(settings, s, Execution(c, clock)) &&
              OnExecutionCommand(settings, s, c, clock).lastIncarnation == c.incarnation
    ensures StopAccepted(settings, s, Execution(c, clock)) ==>
              var s' := OnExecutionCommand(settings, s, c, clock);
              s'.active.None? && s'.lastIncarnation == c.incarnation && s'.lastSequence == c.sequence
  {
    hide AdmitCommand, EngageFailStop;
    var quiet := s.(output := None);
    EngagingKeeps(quiet, true, clock.ros);
    EngagingKeeps(quiet.(active := None), true, clock.ros);
    if Timely(settings, c, clock) {
      var signal := Some(clock.steady - (clock.ros - c.stamp.value));
      EngagingKeeps(quiet.(active := None, lastSignal := signal), true, clock.ros);
      EngagingKeeps(quiet.(lastIncarnation := c.incarnation, lastSequence := c.sequence, active := None,
                           lastSignal := signal),
                    true, clock.ros);
      AdmissionOrder(settings,
                     s.(output := None, lastSequence := c.sequence,
                        lastSignal := Some(clock.steady - (clock.ros - c.stamp.value))),
                     c, clock);
    }
  }

  ghost predicate OrderKept(s: Gate, s': Gate) {
    s'.lastIncarnation == s.lastIncarnation && s'.lastSequence == s.lastSequence &&
    (s'.active.None? || s'.active == s.active)
  }

  lemma TimerKeepsTheOrder(settings: Settings, s: Gate, cycle: Cycle, clock: Clock)
    requires settings.mpc.Valid() && (cycle.approach.Some? ==> cycle.approach.value.1 > 0.0)
    ensures OrderKept(s, OnControlTimer(settings, s, cycle, clock))
  {
    hide Drive, LeaseValid, EngageFailStop, Leased, OnControlTimer, GraceExpires, Authorised;
    var quiet, leased := s.(output := None), Leased(settings, s, clock.steady);
    TimerOutcomes(settings, s, cycle, clock);
    LeasedKeeps(settings, s, clock.steady);
    FrameDrive(settings, leased, cycle);
    EngagingKeeps(quiet, true, clock.ros);
    EngagingKeeps(leased, true, clock.ros);
    EngagingKeeps(leased, false, clock.ros);
  }

  // Only execution commands touch the order or set the active command.
  lemma OtherEventsKeepTheOrder(settings: Settings, s: Gate, e: Event)
    requires settings.mpc.Valid() && Usable(e) && !e.Execution?
    ensures OrderKept(s, Step(settings, s, e))
  {
    hide OnControlTimer, OnPlannerStatus, MapExpired, GimbalValid, RetireFloor;
    if e.Timer? {
      TimerKeepsTheOrder(settings, s, e.cycle, e.clock);
    } else if e.Planner? {
      StatusKeeps(settings, s, e.status, e.clock);
    }
  }

  lemma StepOrder(settings: Settings, s: Gate, e: Event)
    requires settings.mpc.Valid() && Usable(e)
    ensures OrderAdvances(s, Step(settings, s, e))
    ensures Step(settings, s, e).lastIncarnation != s.lastIncarnation ==>
              StopAccepted(settings, s, e) && Step(settings, s, e).lastIncarnation == e.command.incarnation
    ensures StopAccepted(settings, s, e) ==>
              Step(settings, s, e).active.None? && Step(settings, s, e).lastIncarnation == e.command.incarnation &&
              Step(settings, s, e).lastSequence == e.command.sequence
  {
    hide OnExecutionCommand;
    if e.Execution? {
      CommandOrder(settings, s, e.command, e.clock);
    } else {
      hide Step;
      OtherEventsKeepTheOrder(settings, s, e);
    }
  }

  // After a state with no active command every later active command is
  // lexicographically beyond the last accepted one.
  lemma {:induction false} LaterCommandsAreLarger(settings: Settings, s: Gate, events: seq<Event>)
    requires settings.mpc.Valid() && AllUsable(events) && s.active.None?
    ensures var later := Run(settings, s, events);
            && !Before(later.lastIncarnation, later.lastSequence, s.lastIncarnation, s.lastSequence)
            && (later.active.Some? ==>
                  Before(s.lastIncarnation, s.lastSequence, later.active.value.incarnation,
                         later.active.value.sequence))
  {
    if events != [] {
      hide Step;
      LaterCommandsAreLarger(settings, s, events[..|events| - 1]);
      StepOrder(settings, Run(settings, s, events[..|events| - 1]), events[|events| - 1]);
    }
  }

  // Once a STOP is accepted, whatever becomes active later is larger than it.
  lemma AcceptedStopIsABarrier(settings: Settings, s: Gate, e: Event, events: seq<Event>)
    requires settings.mpc.Valid() && Usable(e) && AllUsable(events) && StopAccepted(settings, s, e)
    ensures var later := Run(settings, Step(settings, s, e), events);
            later.active.Some? ==>
              Before(e.command.incarnation, e.command.sequence, later.active.value.incarnation,
                     later.active.value.sequence)
  {
    hide Step, StopAccepted, Run;
    StepOrder(settings, s, e);
    LaterCommandsAreLarger(settings, Step(settings, s, e), events);
  }

  ghost predicate OpenedAt(settings: Settings, s: Gate, events: seq<Event>, k: int, incarnation: nat)
    requires settings.mpc.Valid() && AllUsable(events)
  {
    0 <= k < |events| && StopAccepted(settings, Run(settings, s, events[..k]), events[k]) &&
    events[k].command.incarnation == incarnation
  }

  lemma OpenedEarlier(settings: Settings, s: Gate, events: seq<Event>, k: int, incarnation: nat)
    requires settings.mpc.Valid() && AllUsable(events) && events != []
    requires OpenedAt(settings, s, events[..|events| - 1], k, incarnation)
    ensures OpenedAt(settings, s, events, k, incarnation)
  {
    hide Run, StopAccepted;
    var init := events[..|events| - 1];
    assert init[k] == events[k] && init[..k] == events[..k];
  }

  lemma {:induction false} IncarnationsOpenWithAStop(settings: Settings, s: Gate, events: seq<Event>)
    requires settings.mpc.Valid() && AllUsable(events) && s.lastIncarnation == 0
    ensures var i := Run(settings, s, events).lastIncarnation;
            i != 0 ==> exists k :: OpenedAt(settings, s, events, k, i)
  {
    if events != [] {
      var init := events[..|events| - 1];
      var i := Run(settings, s, init).lastIncarnation;
      IncarnationsOpenWithAStop(settings, s, init);
      hide Step, StopAccepted;
      StepOrder(settings, Run(settings, s, init), events[|init|]);
      if Run(settings, s, events).lastIncarnation != i {
        assert OpenedAt(settings, s, events, |init|, Run(settings, s, events).lastIncarnation);
      } else if i != 0 {
        hide OpenedAt;
        var k :| OpenedAt(settings, s, init, k, i);
        OpenedEarlier(settings, s, events, k, i);
      }
    }
  }

  // Whatever is in the tracker belongs to an incarnation that an accepted STOP opened.
  lemma InstalledOnlyInAnOpenedIncarnation(settings: Settings, s: Gate, events: seq<Event>)
    requires settings.mpc.Valid() && AllUsable(events) && Starts(s)
    ensures var later := Run(settings, s, events);
            later.tracker.Some? ==>
              later.active.Some? && exists k :: OpenedAt(settings, s, events, k, later.active.value.incarnation)
  {
    IncarnationsOpenWithAStop(settings, s, events);
    EveryRunIsSafe(settings, s, events);
    hide Run, OpenedAt, InEnvelope, SameReference;
  }
}
