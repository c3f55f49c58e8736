/** What each callback of the MPC node does to the state, in terms of the state
    alone: when it stops, what a stop leaves, and what goes on untouched. */
module ExecutionEffects {
  import opened Basics
  import opened Actuator
  import opened MotionLimits
  import opened ExecutionGate
  import opened ExecutionSafety
  import opened ExecutionRuns

  // Standing still with nothing to follow.
  predicate Halted(s: Gate) {
    s.failStop && s.tracker.None? && s.control == ZERO && s.output == Some(ZERO)
  }

  // A halt that a new command has to end: nothing is active, no grace runs.
  predicate Stopped(s: Gate) {
    Halted(s) && s.active.None? && s.deadline.None?
  }

  // The first entry into a fail-stop is the one that is remembered.
  predicate StopIsRemembered(before: Gate, after: Gate, ros: int) {
    after.stopStamp == if before.failStop then before.stopStamp else ros
  }

  // A well-formed status that is not about an earlier plan, and not a repeat.
  predicate IsNews(s: Gate, m: PlannerStatus) {
    && m.state != ACCEPTED && m.epoch > 0 && m.generation > 0 && m.framed && m.stamp.Some? && m.stamp.value > 0
    && (m.epoch > s.plannerEpoch ||
        (m.epoch == s.plannerEpoch && m.generation > s.plannerGeneration) ||
        (m.epoch == s.plannerEpoch && m.generation == s.plannerGeneration && m.stamp.value > s.statusStamp))
  }

  predicate IsBad(m: PlannerStatus) {
    m.state == FAILED || m.failure != NO_FAILURE || m.state == OTHER_STATE
  }

  lemma EngagingIs(s: Gate, record: bool, ros: int)
    requires s.failStop ==> s.tracker.None?
    ensures EngageFailStop(s, record, ros) ==
              s.(failStop := true, tracker := None, control := ZERO, output := Some(ZERO),
                 stopStamp := if s.failStop || !record then s.stopStamp else ros)
  {
  }

  lemma SafeTracker(settings: Settings, s: Gate)
    requires Safe(settings, s)
    ensures s.failStop ==> s.tracker.None?
  {
    hide InEnvelope, SameReference;
  }

  lemma OldStatusChangesNothing(settings: Settings, s: Gate, m: PlannerStatus, clock: Clock)
    requires !IsNews(s, m)
    ensures OnPlannerStatus(settings, s, m, clock) == s.(output := None)
  {
  }

  // A failure stops the node whatever it was doing; one that blames the map also
  // retires the plan.
  lemma BadStatusStops(settings: Settings, s: Gate, m: PlannerStatus, clock: Clock)
    requires Safe(settings, s) && IsNews(s, m) && IsBad(m)
    ensures var after := OnPlannerStatus(settings, s, m, clock);
            && Stopped(after) && !after.usable && StopIsRemembered(s, after, clock.ros)
            && after.plannerEpoch == m.epoch && after.plannerGeneration == m.generation
            && after.statusStamp == m.stamp.value
            && (m.failure == MAP_UNREADY ==> Retired(after, m.epoch, m.generation))
            && (m.failure != MAP_UNREADY ==> after.retired == if m.epoch > s.plannerEpoch then 0 else s.retired)
  {
    SafeTracker(settings, s);
    hide Safe, EngageFailStop, MapFresh;
    var known := Adopt(s.(output := None), m);
    var floor := if m.failure == MAP_UNREADY then MaxNat(known.retired, known.plannerGeneration) else known.retired;
    EngagingIs(known.(usable := false, retired := floor, active := None, deadline := None), true, clock.ros);
    EngagingIs(known.(usable := false, active := None, deadline := None), true, clock.ros);
  }

  // With retirement being final: a plan that failed for want of a map is over.
  lemma PlanWithoutAMapIsOver(settings: Settings, s: Gate, m: PlannerStatus, clock: Clock, events: seq<Event>, e: Event)
    requires settings.mpc.Valid() && AllUsable(events) && Usable(e) && Safe(settings, s)
    requires IsNews(s, m) && m.failure == MAP_UNREADY
    ensures var later := Run(settings, OnPlannerStatus(settings, s, m, clock), events);
            !InstallsUnder(settings, later, e, m.epoch, m.generation) &&
            !MovesUnder(settings, later, e, m.epoch, m.generation)
  {
    hide Safe, Run, InstallsUnder, MovesUnder, OnPlannerStatus, IsNews;
    PlannerStatusIsSafe(settings, s, m, clock);
    BadStatusStops(settings, s, m, clock);
    RetiredForGood(settings, OnPlannerStatus(settings, s, m, clock), events, e, m.epoch, m.generation);
  }

  predicate IsReady(m: PlannerStatus) {
    m.state == REFERENCE_READY && m.failure == NO_FAILURE
  }

  // A later generation of the known epoch, while a command of the epoch drives.
  predicate Supersedes(settings: Settings, s: Gate, m: PlannerStatus) {
    m.epoch == s.plannerEpoch && m.generation > s.plannerGeneration && settings.grace > 0 && !s.failStop &&
    s.active.Some? && s.active.value.epoch == m.epoch
  }

  predicate HasFreshMap(settings: Settings, s: Gate, now: int) {
    s.mapReady && s.mapSignal.Some? && 0 <= now - s.mapSignal.value && now - s.mapSignal.value <= settings.mapTimeout
  }

  // Whatever else happens, a ready status makes its plan usable exactly when the
  // map has not been retired past it.
  lemma ReadyStatusNamesThePlan(settings: Settings, s: Gate, m: PlannerStatus, clock: Clock)
    requires IsNews(s, m) && IsReady(m)
    ensures var after, floor := OnPlannerStatus(settings, s, m, clock), if m.epoch > s.plannerEpoch then 0
                                                                        else s.retired;
            && after.plannerEpoch == m.epoch && after.plannerGeneration == m.generation
            && after.statusStamp == m.stamp.value && after.retired == floor
            && (after.usable <==> m.generation > floor)
            && after.readyLease == (if m.generation > floor && HasFreshMap(settings, s, clock.steady) then m.generation
                                    else s.readyLease)
  {
    hide EngageFailStop;
    var ready := Ready(settings, Adopt(s.(output := None), m), clock.steady);
    PlanOutlivesTheStop(ready.(active := None, deadline := None), m.epoch > s.plannerEpoch, clock.ros);
  }

  lemma PlanOutlivesTheStop(s: Gate, record: bool, ros: int)
    ensures var after := EngageFailStop(s, record, ros);
            && after.plannerEpoch == s.plannerEpoch && after.plannerGeneration == s.plannerGeneration
            && after.statusStamp == s.statusStamp && after.retired == s.retired && after.usable == s.usable
            && after.readyLease == s.readyLease && after.lastSignal == s.lastSignal
  {
  }

  // A repeat of the known plan leaves driving alone.
  lemma RepeatedPlanDrivesOn(settings: Settings, s: Gate, m: PlannerStatus, clock: Clock)
    requires IsNews(s, m) && IsReady(m) && m.epoch == s.plannerEpoch && m.generation == s.plannerGeneration
    ensures var after := OnPlannerStatus(settings, s, m, clock);
            after == s.(statusStamp := m.stamp.value, usable := after.usable, readyLease := after.readyLease,
                        output := None)
  {
  }

  // A new plan stops the old one, unless the old one is given a grace. Only a new
  // epoch is a stop to remember.
  lemma NewPlanStops(settings: Settings, s: Gate, m: PlannerStatus, clock: Clock)
    requires Safe(settings, s) && IsNews(s, m) && IsReady(m) && !Supersedes(settings, s, m)
    requires m.epoch != s.plannerEpoch || m.generation != s.plannerGeneration
    ensures var after := OnPlannerStatus(settings, s, m, clock);
            && Stopped(after)
            && (m.epoch > s.plannerEpoch ==> StopIsRemembered(s, after, clock.ros))
            && (m.epoch == s.plannerEpoch ==> after.stopStamp == s.stopStamp)
  {
    SafeTracker(settings, s);
    hide Safe, EngageFailStop, MapFresh;
    var ready := Ready(settings, Adopt(s.(output := None), m), clock.steady);
    EngagingIs(ready.(active := None, deadline := None), m.epoch > s.plannerEpoch, clock.ros);
  }

  // The grace lasts from the first supersession, and a second one does not extend it.
  lemma SupersessionStartsTheGrace(settings: Settings, s: Gate, m: PlannerStatus, clock: Clock)
    requires IsNews(s, m) && IsReady(m) && Supersedes(settings, s, m)
    ensures var after := OnPlannerStatus(settings, s, m, clock);
            && after.deadline == (if s.deadline.Some? then s.deadline else Some(clock.steady + settings.grace))
            && after.oldGeneration == (if s.deadline.Some? then s.oldGeneration else s.active.value.generation)
            && after.active == s.active && after.tracker == s.tracker && after.failStop == s.failStop
            && after.control == s.control && after.output == None && after.stopStamp == s.stopStamp
  {
  }

  predicate HasLostMap(settings: Settings, s: Gate, now: int) {
    s.mapReady && s.mapSignal.Some? && !HasFreshMap(settings, s, now)
  }

  // Every generation up to the one that the lost or refused map served.
  function Covered(settings: Settings, s: Gate, now: int): nat {
    if HasLostMap(settings, s, now) && s.readyLease > 0 then s.readyLease else s.plannerGeneration
  }

  // A heartbeat without a map, or after too long a silence, stops and retires.
  lemma MapLossStops(settings: Settings, s: Gate, data: bool, clock: Clock)
    requires Safe(settings, s) && (!data || HasLostMap(settings, s, clock.steady))
    ensures var after := OnMapReady(settings, s, data, clock);
            && Stopped(after) && !after.usable && StopIsRemembered(s, after, clock.ros)
            && after.mapReady == data && after.mapSignal == Some(clock.steady)
            && after.plannerEpoch == s.plannerEpoch && after.plannerGeneration == s.plannerGeneration
            && forall generation: nat ::
                 Retired(after, s.plannerEpoch, generation) <==>
                 generation <= s.retired || generation <= Covered(settings, s, clock.steady)
  {
    hide InEnvelope, SameReference;
  }

  lemma MapHeartbeatRenews(settings: Settings, s: Gate, clock: Clock)
    requires !HasLostMap(settings, s, clock.steady)
    ensures OnMapReady(settings, s, true, clock) ==
              s.(output := None, mapReady := true, mapSignal := Some(clock.steady), readyLease := s.plannerGeneration)
  {
  }

  lemma EmergencyHalts(settings: Settings, s: Gate, clock: Clock)
    requires Safe(settings, s)
    ensures var after := OnEmergencyStop(s, true, clock);
            Halted(after) && StopIsRemembered(s, after, clock.ros) && after.active == s.active
    ensures OnEmergencyStop(s, false, clock) == s.(output := None)
  {
    hide InEnvelope, SameReference;
  }

  // Lost localization halts; a jump to another epoch halts too, and is followed.
  lemma LocalizationLossHalts(settings: Settings, s: Gate, allowed: bool, epoch: nat, clock: Clock)
    requires Safe(settings, s)
    requires !allowed || (s.localizationEpoch.Some? && s.localizationEpoch.value != epoch)
    ensures var after := OnLocalizationStatus(s, allowed, epoch, clock);
            && Halted(after) && StopIsRemembered(s, after, clock.ros) && after.active == s.active
            && after.tracking == allowed && after.localizationEpoch == (if allowed then Some(epoch)
                                                                        else s.localizationEpoch)
  {
    hide InEnvelope, SameReference;
  }

  lemma SteadyLocalizationDrivesOn(s: Gate, epoch: nat, clock: Clock)
    requires s.localizationEpoch == None || s.localizationEpoch == Some(epoch)
    ensures OnLocalizationStatus(s, true, epoch, clock) ==
              s.(output := None, tracking := true, localizationEpoch := Some(epoch))
  {
  }

  // The gimbal holds the yaw that the command was released for.
  predicate Serves(gimbal: Gimbal, c: Command) {
    && gimbal.healthy && gimbal.authority == c.authority && gimbal.request == c.gimbalRequest
    && gimbal.sequence >= c.gimbalFeedback && (c.requiresLock ==> gimbal.locked)
  }

  predicate GimbalServes(settings: Settings, s: Gate, c: Command, now: int) {
    settings.requireGimbal ==>
      s.gimbal.Some? && s.gimbalSignal.Some? && now - s.gimbalSignal.value <= settings.gimbalTimeout &&
      Serves(s.gimbal.value, c)
  }

  lemma GimbalLossHalts(settings: Settings, s: Gate, gimbal: Gimbal, clock: Clock)
    requires Safe(settings, s) && settings.gimbalTimeout >= 0
    ensures var after := OnGimbalStatus(settings, s, gimbal, clock);
            && after.gimbal == Some(gimbal) && after.gimbalSignal == Some(clock.steady) && after.active == s.active
            && if settings.requireGimbal && s.active.Some? && !Serves(gimbal, s.active.value)
               then Halted(after) && StopIsRemembered(s, after, clock.ros)
               else after == s.(output := None, gimbal := Some(gimbal), gimbalSignal := Some(clock.steady))
  {
    hide InEnvelope, SameReference;
  }

  // The plan that map and planner stand behind.
  predicate PlanHolds(settings: Settings, s: Gate, c: Command, now: int) {
    && HasFreshMap(settings, s, now) && s.usable && c.epoch > 0 && c.generation > 0 && c.epoch == s.plannerEpoch
    && c.generation == s.plannerGeneration && c.generation > s.retired
  }

  predicate InGrace(s: Gate, now: int) {
    s.active.Some? && !s.failStop && s.deadline.Some? && now <= s.deadline.value
  }

  // A heartbeat of the superseded plan, which neither stops nor renews it.
  predicate IsGraceHeartbeat(s: Gate, c: Command, now: int) {
    InGrace(s, now) && c.mode == EXECUTE && c.goal == s.active.value.goal && c.epoch == s.active.value.epoch &&
    c.generation == s.oldGeneration
  }

  predicate IsTimely(settings: Settings, c: Command, clock: Clock) {
    c.stamp.Some? && c.stamp.value <= clock.ros && clock.ros <= c.stamp.value + settings.commandTimeout
  }

  predicate IsNext(s: Gate, c: Command) {
    c.incarnation == s.lastIncarnation && c.sequence > s.lastSequence
  }

  // Everything a command must bring to be obeyed.
  predicate IsObeyable(settings: Settings, s: Gate, c: Command, clock: Clock) {
    && c.incarnation > 0 && c.sequence > 0 && IsTimely(settings, c, clock) && IsNext(s, c)
    && c.mode == EXECUTE && c.goal > 0 && |c.reference.poses| >= 2 && c.authority != OTHER_AUTHORITY
    && (settings.requireGimbal ==> c.gimbalRequest > 0) && GimbalServes(settings, s, c, clock.steady)
    && PlanHolds(settings, s, c, clock.steady)
    && (settings.requireLocalization ==> s.tracking && s.localizationEpoch == Some(c.epoch))
  }

  predicate IsFollowable(settings: Settings, s: Gate, r: Reference) {
    && (settings.requireLocalization ==> s.tracking) && |r.poses| >= 2 && r.finite
    && (settings.frame == "" || r.frame == "" || r.frame == settings.frame)
    && (s.stopStamp <= 0 || (r.stamp > 0 && r.stamp > s.stopStamp))
  }

  // What an obeyed command leaves. Repeating the reference in force only renews
  // it; another one is installed, at speed if it carries on the same drive; one
  // that cannot be followed stops the node, though the command stays active.
  ghost predicate Obeyed(settings: Settings, s: Gate, c: Command, clock: Clock, after: Gate) {
    var repeats := s.active.Some? && SameReference(s.active.value, c);
    var carriesOn := s.active.Some? && !s.failStop &&
                     (SamePlan(s.active.value, c) ||
                      (InGrace(s, clock.steady) && c.goal == s.active.value.goal && c.epoch == s.active.value.epoch &&
                       c.generation > s.active.value.generation));
    && after.active == Some(c) && after.deadline.None?
    && if repeats then !after.failStop && after.tracker == s.tracker && after.control == s.control && after.output.None?
       else if IsFollowable(settings, s, c.reference)
       then !after.failStop && after.tracker == Some(c) && after.output.None? &&
            after.control == if carriesOn then s.control else ZERO
       else Halted(after) && StopIsRemembered(s, after, clock.ros)
  }

  // The order and the signal that an admitted command leaves behind.
  predicate IsHeard(s: Gate, c: Command, clock: Clock, after: Gate)
    requires c.stamp.Some?
  {
    after.lastIncarnation == c.incarnation && after.lastSequence == c.sequence &&
    after.lastSignal == Some(clock.steady - (clock.ros - c.stamp.value))
  }

  lemma AdmissionEffect(settings: Settings, s: Gate, c: Command, clock: Clock, obeyable: bool)
    requires s.output.None? && (s.failStop ==> s.tracker.None?)
    requires obeyable <==> Executable(settings, s, c, clock.steady)
    ensures var after := AdmitCommand(settings, s, c, clock);
            if IsGraceHeartbeat(s, c, clock.steady) then after == s
            else if obeyable then Obeyed(settings, s, c, clock, after)
            else Halted(after) && after.active.None? && StopIsRemembered(s, after, clock.ros)
    ensures var after := AdmitCommand(settings, s, c, clock);
            after.lastIncarnation == s.lastIncarnation && after.lastSequence == s.lastSequence &&
            after.lastSignal == s.lastSignal
  {
    hide Executable, SameReference, SamePlan;
    ExecutableExecutes(settings, s, c, clock.steady);
    FollowableIsInstallable(settings, s, c);
    hide Installable, IsFollowable;
  }

  lemma ExecutableExecutes(settings: Settings, s: Gate, c: Command, now: int)
    ensures Executable(settings, s, c, now) ==> c.mode == EXECUTE
  {
  }

  lemma FollowableIsInstallable(settings: Settings, s: Gate, c: Command)
    ensures Installable(settings, s.(active := Some(c), deadline := None), c.reference) <==>
            IsFollowable(settings, s, c.reference)
  {
  }

  lemma ObeyableIsExecutable(settings: Settings, s: Gate, c: Command, signal: Option<int>, clock: Clock)
    requires c.incarnation > 0 && c.sequence > 0 && IsTimely(settings, c, clock) && IsNext(s, c)
    ensures IsObeyable(settings, s, c, clock) <==>
            Executable(settings, s.(output := None, lastSequence := c.sequence, lastSignal := signal), c, clock.steady)
  {
  }

  // A command that is obeyed, and one that is not: obedience needs every
  // condition, and the lack of any of them stops the node, but for a heartbeat of
  // the superseded plan within its grace.
  lemma CommandIsObeyedIff(settings: Settings, s: Gate, c: Command, clock: Clock)
    requires Safe(settings, s) && c.incarnation > 0 && c.sequence > 0 && IsTimely(settings, c, clock) && IsNext(s, c)
    ensures var after := OnExecutionCommand(settings, s, c, clock);
            && IsHeard(s, c, clock, after)
            && if IsGraceHeartbeat(s, c, clock.steady)
               then after == s.(output := None, lastSequence := after.lastSequence, lastSignal := after.lastSignal)
               else if IsObeyable(settings, s, c, clock) then Obeyed(settings, s, c, clock, after)
               else Halted(after) && after.active.None? && StopIsRemembered(s, after, clock.ros)
  {
    hide OnExecutionCommand, IsObeyable, Executable, InEnvelope, Obeyed, IsGraceHeartbeat, AdmitCommand, SameReference;
    var signal := Some(clock.steady - (clock.ros - c.stamp.value));
    var heard := s.(output := None, lastSequence := c.sequence, lastSignal := signal);
    ObeyableIsExecutable(settings, s, c, signal, clock);
    TurnIsTaken(settings, s, c, clock);
    AdmissionEffect(settings, heard, c, clock, IsObeyable(settings, s, c, clock));
    HearingOnlyCounts(settings, s, c, signal, clock, AdmitCommand(settings, heard, c, clock));
  }

  lemma TurnIsTaken(settings: Settings, s: Gate, c: Command, clock: Clock)
    requires c.incarnation > 0 && c.sequence > 0 && IsTimely(settings, c, clock) && IsNext(s, c)
    ensures OnExecutionCommand(settings, s, c, clock) ==
            AdmitCommand(settings, s.(output := None, lastSequence := c.sequence,
                                      lastSignal := Some(clock.steady - (clock.ros - c.stamp.value))), c, clock)
  {
    hide AdmitCommand;
  }

  lemma HearingOnlyCounts(settings: Settings, s: Gate, c: Command, signal: Option<int>, clock: Clock, after: Gate)
    ensures var heard := s.(output := None, lastSequence := c.sequence, lastSignal := signal);
            && IsGraceHeartbeat(heard, c, clock.steady) == IsGraceHeartbeat(s, c, clock.steady)
            && Obeyed(settings, heard, c, clock, after) == Obeyed(settings, s, c, clock, after)
            && StopIsRemembered(heard, after, clock.ros) == StopIsRemembered(s, after, clock.ros)
  {
    hide SameReference, SamePlan;
  }

  // A command out of turn: malformed or late ones stop the node, stale ones also
  // take the command in force, and a new process is followed only from its STOP.
  lemma CommandOutOfTurnHalts(settings: Settings, s: Gate, c: Command, clock: Clock)
    requires Safe(settings, s)
    requires c.incarnation == 0 || c.sequence == 0 || !IsTimely(settings, c, clock) || !IsNext(s, c)
    ensures var after := OnExecutionCommand(settings, s, c, clock);
            && Halted(after) && StopIsRemembered(s, after, clock.ros)
            && (c.incarnation > 0 && c.sequence > 0 && IsTimely(settings, c, clock) ==> after.active.None?)
            && (after.lastIncarnation != s.lastIncarnation || after.lastSequence != s.lastSequence ==>
                  c.mode == STOP && c.incarnation > s.lastIncarnation && IsTimely(settings, c, clock) &&
                  IsHeard(s, c, clock, after))
            && (c.mode == STOP && c.incarnation > s.lastIncarnation && c.sequence > 0 &&
                IsTimely(settings, c, clock) ==>
                  IsHeard(s, c, clock, after))
            && (after.lastSignal == s.lastSignal ||
                (IsTimely(settings, c, clock) &&
                 after.lastSignal == Some(clock.steady - (clock.ros - c.stamp.value))))
  {
    hide InEnvelope, SameReference, AdmitCommand;
  }

  // What a Twist needs, all of it as of now.
  predicate HoldsLease(settings: Settings, s: Gate, now: int) {
    && s.lastSignal.Some? && s.lastSignal.value <= now && now <= s.lastSignal.value + settings.commandTimeout
    && s.active.Some? && GimbalServes(settings, s, s.active.value, now)
    && (PlanHolds(settings, s, s.active.value, now) ||
        (InGrace(s, now) && HasFreshMap(settings, s, now) && s.usable && s.active.value.epoch == s.plannerEpoch &&
         s.active.value.generation == s.oldGeneration && s.active.value.generation > s.retired))
  }

  predicate MayDrive(settings: Settings, s: Gate, now: int) {
    && (settings.requireLocalization ==> s.tracking) && !s.failStop && HoldsLease(settings, s, now)
    && (s.deadline.Some? ==> now <= s.deadline.value)
  }

  ghost predicate Runs(settings: Settings, cycle: Cycle) {
    settings.mpc.Valid() && (cycle.approach.Some? ==> cycle.approach.value.1 > 0.0)
  }

  lemma LeaseIsHeld(settings: Settings, s: Gate, now: int)
    ensures HoldsLease(settings, s, now) <==> LeaseValid(settings, s, now)
  {
  }

  lemma BookkeepingLeavesTheLease(settings: Settings, s: Gate, now: int)
    requires Safe(settings, s) && MayDrive(settings, s, now)
    ensures Leased(settings, s, now) == s.(output := None) && !GraceExpires(s.(output := None), now)
  {
    hide InEnvelope, SameReference, RetireFloor, GimbalServes;
  }

  lemma LeasedCycleDrives(settings: Settings, s: Gate, cycle: Cycle, clock: Clock)
    requires Runs(settings, cycle) && Safe(settings, s) && MayDrive(settings, s, clock.steady)
    ensures OnControlTimer(settings, s, cycle, clock) == Drive(settings, s.(output := None), cycle)
  {
    BookkeepingLeavesTheLease(settings, s, clock.steady);
    LeaseIsHeld(settings, s, clock.steady);
    OutputIsNoAuthority(settings, s, clock.steady);
    hide Safe, LeaseValid, HoldsLease, Drive, EngageFailStop, GraceExpires, ExpireMap, ExpireGrace;
  }

  lemma LapsedCycleHalts(settings: Settings, s: Gate, cycle: Cycle, clock: Clock)
    requires Runs(settings, cycle) && Safe(settings, s) && !MayDrive(settings, s, clock.steady)
    ensures Halted(OnControlTimer(settings, s, cycle, clock))
  {
    hide InEnvelope, SameReference, LeaseValid, HoldsLease, Drive, Leased, Ordered, EngageFailStop, ExpireMap,
      ExpireGrace;
    var quiet, leased := s.(output := None), Leased(settings, s, clock.steady);
    LeasedKeeps(settings, s, clock.steady);
    EngagingHalts(quiet, true, clock.ros);
    EngagingHalts(leased, true, clock.ros);
    EngagingHalts(leased, false, clock.ros);
    if settings.requireLocalization && !s.tracking {
    } else if LeaseValid(settings, leased, clock.steady) && !GraceExpires(quiet, clock.steady) && !s.failStop {
      ValidLeaseIsUntouched(settings, s, clock.steady);
      LeaseIsHeld(settings, s, clock.steady);
      OutputIsNoAuthority(settings, s, clock.steady);
      LeasedCommandIsActive(settings, s, clock.steady);
    } else {
      TimerOutcomes(settings, s, cycle, clock);
    }
  }

  lemma LeasedCommandIsActive(settings: Settings, s: Gate, now: int)
    ensures LeaseValid(settings, s, now) ==> s.active.Some?
  {
  }

  // A cycle drives exactly when nothing has lapsed; any lapse halts it.
  lemma CycleDrivesIff(settings: Settings, s: Gate, cycle: Cycle, clock: Clock)
    requires Runs(settings, cycle) && Safe(settings, s)
    ensures if MayDrive(settings, s, clock.steady)
            then OnControlTimer(settings, s, cycle, clock) == Drive(settings, s.(output := None), cycle)
            else Halted(OnControlTimer(settings, s, cycle, clock))
  {
    hide Safe, MayDrive, OnControlTimer, Drive;
    if MayDrive(settings, s, clock.steady) {
      LeasedCycleDrives(settings, s, cycle, clock);
    } else {
      LapsedCycleHalts(settings, s, cycle, clock);
    }
  }

  lemma EngagingHalts(s: Gate, record: bool, ros: int)
    requires s.failStop ==> s.tracker.None?
    ensures Halted(EngageFailStop(s, record, ros))
  {
  }

  predicate Idles(s: Gate) {
    s.control == ZERO && s.output == Some(ZERO)
  }

  // The grace that runs out takes its command with it, and is no stop to remember.
  lemma GraceEnds(settings: Settings, s: Gate, cycle: Cycle, clock: Clock)
    requires Runs(settings, cycle) && Safe(settings, s) && (settings.requireLocalization ==> s.tracking)
    requires s.active.Some? && s.deadline.Some? && clock.steady > s.deadline.value
    ensures var after := OnControlTimer(settings, s, cycle, clock);
            Stopped(after) && after.stopStamp == s.stopStamp
  {
    hide InEnvelope, SameReference, LeaseValid, Drive, RetireFloor;
  }

  // A map that falls silent is noticed by the cycle, and retires what it served.
  lemma SilentMapRetires(settings: Settings, s: Gate, cycle: Cycle, clock: Clock)
    requires Runs(settings, cycle) && Safe(settings, s) && (settings.requireLocalization ==> s.tracking)
    requires HasLostMap(settings, s, clock.steady)
    ensures var after := OnControlTimer(settings, s, cycle, clock);
            && Halted(after) && after.active.None? && !after.usable && !after.mapReady
            && after.plannerEpoch == s.plannerEpoch && after.plannerGeneration == s.plannerGeneration
            && forall generation: nat ::
                 Retired(after, s.plannerEpoch, generation) <==>
                 generation <= s.retired || generation <= Covered(settings, s, clock.steady)
  {
    var leased := Leased(settings, s, clock.steady);
    SilenceTakesTheLease(settings, s, clock.steady);
    LeasedCommandIsActive(settings, leased, clock.steady);
    EngagingHalts(leased, true, clock.ros);
    EngagingHalts(leased, false, clock.ros);
    EngagingKeeps(leased, true, clock.ros);
    EngagingKeeps(leased, false, clock.ros);
    SignalsOutliveTheStop(leased, clock.ros);
    hide Safe, LeaseValid, Drive, ExpireMap, ExpireGrace, GraceExpires, EngageFailStop, HasLostMap, Covered, Halted;
  }

  lemma SignalsOutliveTheStop(s: Gate, ros: int)
    ensures forall record ::
              EngageFailStop(s, record, ros).usable == s.usable && EngageFailStop(s, record, ros).mapReady == s.mapReady
  {
  }

  lemma SilenceTakesTheLease(settings: Settings, s: Gate, now: int)
    requires Safe(settings, s) && HasLostMap(settings, s, now)
    ensures var leased := Leased(settings, s, now);
            && leased.active.None? && !leased.usable && !leased.mapReady && (leased.failStop ==> leased.tracker.None?)
            && leased.plannerEpoch == s.plannerEpoch && leased.plannerGeneration == s.plannerGeneration
            && leased.retired == MaxNat(s.retired, Covered(settings, s, now))
  {
    hide InEnvelope, SameReference, MaxNat;
  }

  // An authorised cycle without odometry, with an expired reference, without a
  // horizon or without a solution stands still, and keeps its reference.
  lemma NothingToFollowIdles(settings: Settings, s: Gate, cycle: Cycle)
    requires Runs(settings, cycle)
    requires !cycle.odometry || cycle.expired || s.tracker.None? ||
             (!cycle.arrived && (!cycle.horizon || cycle.target.None?))
    ensures Idles(Drive(settings, s, cycle)) && Drive(settings, s, cycle).tracker == s.tracker
  {
    hide ClampIncrement, LimitTerminalApproachSpeed, TerminalDeceleration;
  }

  // Otherwise it brakes at the goal, and follows a feasible request elsewhere,
  // slowly enough for the distance that is left.
  lemma FollowingIsLimited(settings: Settings, s: Gate, cycle: Cycle)
    requires Runs(settings, cycle) && s.tracker.Some? && cycle.odometry && !cycle.expired
    ensures var after := Drive(settings, s, cycle);
            && after.output == Some(after.control)
            && (cycle.arrived ==>
                  StepsTowards(s.control.vx, 0.0, after.control.vx, Allowance(settings.mpc.dt, settings.mpc.maxAx)) &&
                  StepsTowards(s.control.vy, 0.0, after.control.vy, Allowance(settings.mpc.dt, settings.mpc.maxAy)) &&
                  StepsTowards(s.control.wz, 0.0, after.control.wz, Allowance(settings.mpc.dt, settings.mpc.maxAwz)))
            && (!cycle.arrived && cycle.horizon && cycle.target.Some? ==>
                  var first := ClampIncrement(settings.mpc, cycle.target.value, s.control);
                  after.control.wz == first.wz &&
                  if cycle.approach.None? then after.control == first
                  else IsSlowEnough(after.control, cycle.approach.value.1, Max(0.0, cycle.approach.value.0)) &&
                       exists k :: IsPart(k, first, after.control))
  {
    hide ClampIncrement, LimitTerminalApproachSpeed, TerminalDeceleration, StepsTowards, Allowance, IsSlowEnough,
      IsPart, Config.Valid;
    DecelerationStepsTowardsZero(settings.mpc, s.control);
    if cycle.target.Some? && cycle.approach.Some? {
      ApproachIsSlowEnough(settings.mpc, ClampIncrement(settings.mpc, cycle.target.value, s.control),
                           cycle.approach.value.0, cycle.approach.value.1);
    }
  }

  // The signal is that of a command heard in time, as old as the command was then.
  ghost predicate HeardAt(settings: Settings, e: Event, signal: int) {
    e.Execution? && IsTimely(settings, e.command, e.clock) &&
    signal == e.clock.steady - (e.clock.ros - e.command.stamp.value)
  }

  lemma SignalIsHeard(settings: Settings, s: Gate, e: Event)
    requires settings.mpc.Valid() && Usable(e)
    ensures var after := Step(settings, s, e);
            after.lastSignal == s.lastSignal || (after.lastSignal.Some? && HeardAt(settings, e, after.lastSignal.value))
  {
    hide OnExecutionCommand, OnControlTimer, GimbalValid, RetireFloor, MapFresh, Judge, IsTimely;
    if e.Execution? {
      CommandSignalIsHeard(settings, s, e.command, e.clock);
    } else if e.Timer? {
      TimerKeepsTheSignal(settings, s, e.cycle, e.clock);
    } else if e.Planner? && !StatusIgnored(s.(output := None), e.status) {
      var newEpoch := e.status.epoch > s.plannerEpoch;
      JudgementKeepsTheSignal(settings, Adopt(s.(output := None), e.status), e.status, newEpoch,
                              newEpoch || e.status.generation > s.plannerGeneration, e.clock);
    }
  }

  lemma CommandSignalIsHeard(settings: Settings, s: Gate, c: Command, clock: Clock)
    ensures var signal := OnExecutionCommand(settings, s, c, clock).lastSignal;
            signal == s.lastSignal || (signal.Some? && HeardAt(settings, Execution(c, clock), signal.value))
  {
    hide AdmitCommand;
    if Timely(settings, c, clock) {
      var signal := Some(clock.steady - (clock.ros - c.stamp.value));
      AdmissionKeepsTheSignal(settings, s.(output := None, lastSequence := c.sequence, lastSignal := signal), c, clock);
    }
  }

  lemma JudgementKeepsTheSignal(settings: Settings, s: Gate, m: PlannerStatus, newEpoch: bool, newIdentity: bool,
                                clock: Clock)
    ensures Judge(settings, s, m, newEpoch, newIdentity, clock).lastSignal == s.lastSignal
  {
    hide MapFresh, MaxNat, EngageFailStop;
    var floor := if m.failure == MAP_UNREADY then MaxNat(s.retired, s.plannerGeneration) else s.retired;
    PlanOutlivesTheStop(s.(usable := false, retired := floor, active := None, deadline := None), true, clock.ros);
    PlanOutlivesTheStop(s.(usable := false, active := None, deadline := None), true, clock.ros);
    PlanOutlivesTheStop(Ready(settings, s, clock.steady).(active := None, deadline := None),
                        !(newIdentity && !newEpoch), clock.ros);
  }

  lemma AdmissionKeepsTheSignal(settings: Settings, s: Gate, c: Command, clock: Clock)
    ensures AdmitCommand(settings, s, c, clock).lastSignal == s.lastSignal
  {
    hide Executable, GraceHeartbeat, Installable, SamePlan, SameReference, GraceActive, EngageFailStop;
    PlanOutlivesTheStop(s.(active := None), true, clock.ros);
    PlanOutlivesTheStop(s.(active := Some(c), deadline := None), true, clock.ros);
  }

  lemma TimerKeepsTheSignal(settings: Settings, s: Gate, cycle: Cycle, clock: Clock)
    requires Runs(settings, cycle)
    ensures OnControlTimer(settings, s, cycle, clock).lastSignal == s.lastSignal
  {
    hide LeaseValid, Drive, GraceExpires, Leased, EngageFailStop, OnControlTimer;
    var quiet, leased := s.(output := None), Leased(settings, s, clock.steady);
    TimerOutcomes(settings, s, cycle, clock);
    LeasedKeepsTheSignal(settings, s, clock.steady);
    PlanOutlivesTheStop(quiet, true, clock.ros);
    PlanOutlivesTheStop(leased, true, clock.ros);
    PlanOutlivesTheStop(leased, false, clock.ros);
    FrameDrive(settings, leased, cycle);
  }

  lemma LeasedKeepsTheSignal(settings: Settings, s: Gate, now: int)
    ensures Leased(settings, s, now).lastSignal == s.lastSignal
  {
    hide MapExpired, RetireFloor;
  }

  lemma {:induction false} EverySignalIsHeard(settings: Settings, s: Gate, events: seq<Event>)
    requires settings.mpc.Valid() && AllUsable(events) && s.lastSignal.None?
    ensures var signal := Run(settings, s, events).lastSignal;
            signal.Some? ==> exists k :: 0 <= k < |events| && HeardAt(settings, events[k], signal.value)
  {
    if events != [] {
      hide Step, HeardAt;
      var init := events[..|events| - 1];
      EverySignalIsHeard(settings, s, init);
      SignalIsHeard(settings, Run(settings, s, init), events[|init|]);
      var signal := Run(settings, s, events).lastSignal;
      if signal.Some? && signal == Run(settings, s, init).lastSignal {
        var k :| 0 <= k < |init| && HeardAt(settings, init[k], signal.value);
        assert HeardAt(settings, events[k], signal.value);
      }
    }
  }

  // The age of the command of event k at the time of event e, if both clocks run alike.
  function AgeAt(heard: Event, e: Event): int
    requires heard.Execution? && heard.command.stamp.Some?
  {
    (heard.clock.ros - heard.command.stamp.value) + (e.clock.steady - heard.clock.steady)
  }

  ghost predicate IsRecent(settings: Settings, heard: Event, e: Event) {
    heard.Execution? && IsTimely(settings, heard.command, heard.clock) &&
    0 <= AgeAt(heard, e) <= settings.commandTimeout
  }

  // Over every run: nothing moves but on a command heard within its timeout.
  lemma MotionNeedsARecentCommand(settings: Settings, s: Gate, events: seq<Event>, e: Event)
    requires settings.mpc.Valid() && AllUsable(events) && Usable(e) && Starts(s)
    requires Moves(settings, Run(settings, s, events), e)
    ensures exists k :: 0 <= k < |events| && IsRecent(settings, events[k], e)
  {
    hide Run, Moves, InEnvelope;
    EveryRunIsSafe(settings, s, events);
    EverySignalIsHeard(settings, s, events);
    MotionIsAuthorised(settings, Run(settings, s, events), e);
    var signal := Run(settings, s, events).lastSignal.value;
    var k :| 0 <= k < |events| && HeardAt(settings, events[k], signal);
    assert IsRecent(settings, events[k], e);
  }
}
