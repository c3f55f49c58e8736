# Navigation core: models and proofs

Dafny models of the navigation stack's core algorithms and protocols, each proved against a simple
specification. `dafny verify dfyconfig.toml` checks the whole project; so does
`dafny verify --resource-limit 2000000 --verification-time-limit 0 --warn-contradictory-assumptions *.dfy`.
Real numbers stand for doubles, `Option` for infinities; square root, arc cosine and angle normalisation
are function parameters with only the properties that the proofs name.

| modules | what they model |
|---|---|
| `DistanceTransform`, `DistanceField`, `ObstacleMasks` | the exact Euclidean distance transform, its padded and signed fields, and the obstacle masks that feed them |
| `RayWalk`, `RayMask`, `FramePass`, `FrameEffects` | voxel traversal, the two-representation frame mask, the ray-clearing pass, and what a frame does to a voxel |
| `CellEvidence`, `EvidenceRules`, `OdomLayer`, `RayGeometry` | the evidence kept per cell and per cloud voxel, with the swap-remove candidate index, and when a ray contradicts a return |
| `GroundColumns`, `GroundPaths`, `GroundClassification` | connected ground by flood fill, the paths that reach it, and what a column means to the robot |
| `Actuator`, `MotionLimits`, `WheelMotion`, `SolverPasses` | clamping, increment bisection, warm start, line search and terminal limiters, and the limits they keep for body and wheels |
| `ExecutionGate`, `ExecutionSafety`, `ExecutionRuns`, `ExecutionEffects`, `ExecutionLimits`, `MpcNode` | the MPC node's execution authority: one pure step per callback, its invariants, whole-run theorems, the effect of each callback, its limits, and the node class itself |
| `GoalManager`, `GoalSafety`, `GoalEffects`, `GoalManagerNode`, `CommandNetwork` | the goal manager in the same shape, and both nodes over a network that loses, repeats and reorders |
| `LtvQpPlan`, `LtvQpCost`, `LtvQpTracking`, `LtvQpLinearisation`, `LtvQpConstraints`, `LtvQpProblem`, `LtvQpDimensions` | building the LTV quadratic programme and what it means |
| `Csc`, `LtvQpSparse`, `LtvQpOsqp`, `LtvQpAudit`, `AuditRules` | its fixed sparse layout, the copy into the solver, and the audit of a solution |
| `SnapshotEncoding`, `SnapshotDigest` | the canonical byte stream of a control cycle and its FNV-1a-64 digest (section 2 of draft-eastlake-fnv) |
| `TrajectoryTracker`, `TrajectoryRules` | projection onto a timed trajectory and its monotone progress |
| `Basics`, `RowMajor` | shared vocabulary |

In the two protocol components every message is an arbitrary value at an arbitrary time, so loss,
repetition and reordering need no separate model. Each callback is one atomic step; both clocks are
read once per callback. A class method's contract equates its new state with the step function that
the whole-run theorems are about.

## Findings

- The remembered ready-lease generation survives a change of epoch, so the expiry of a map lease can
  lift the retirement floor above the planner's generation and refuse generations that do not exist yet
  (`ats_swerve_mpc/src/ats_swerve_mpc_node.cpp:965-996`): `FloorStaysWithinThePlannerIff` says exactly
  when, `AFreshGenerationIsRefused` is a run.
- A stop while already fail-stopped does not move the recorded stop stamp
  (`ats_swerve_mpc/src/ats_swerve_mpc_node.cpp:1848-1862`), so a reference older than the latest stop can
  be installed: `StopRefusesOlderReferencesIff` says exactly when, `AReferenceOlderThanTheStopIsInstalled`
  is a run from the initial state.
- A heartbeat that repeats the active reference after such a stop lifts the latch but leaves the tracker
  empty (`ats_swerve_mpc/src/ats_swerve_mpc_node.cpp:739-833`); the chassis waits for a new reference:
  `AcceptedCommandRestoresTheTrackerIff` says exactly when, `ARepeatedReferenceLeavesTheTrackerEmpty`
  continues that run.
- A comment at `ats_rc_esdf/src/rc_traversability_esdf_provider.cpp:289-290` says that unknown cells are
  never raised by semantics; with a height layer they are, up to threshold 55: `UnknownCellIsRaisedIff`,
  `SomeUnknownCellIsRaisedIff`. The boundary is that of the reals: in doubles 0.30+0.15+0.10 is just below
  0.55, so there the largest such threshold is 54.
- The persistence ratio that gates saving is 1 for every static cell, so it never refuses one
  (`ats_rog_map/src/odom_layer.cpp:324-334`): `SavedCellsAreTheStaticOnes`.
- The body acceleration limit yields to the wheel-speed limit: a request inside the envelope keeps it
  (`StepKeepsTheAcceleration`), but one outside is scaled back without regard to it
  (`ats_swerve_mpc/src/se2_mpc_controller.cpp:208-216`), for one Twist five times harder than it allows:
  `WheelLimitOutrunsTheBrake`.
- Six tests decide nothing that an earlier test has not: the lethal threshold of a traversability cell
  (`ats_rc_esdf/src/rc_traversability_esdf_provider.cpp:272-275`, `ObstacleIff`), the dense-buffer byte cap
  (`ats_swerve_mpc/src/ltv_qp_problem.cpp:135-201`, `DimensionsAreExact`), the ceiling height of a ground
  column (`ats_rog_map/src/ground_column.cpp:47-55`, `FreeUnderACeilingIff`), the unwindowed trajectory
  search (`ats_swerve_mpc/src/trajectory_tracker.cpp:85-88`, `TheWindowAlwaysMeetsASegment`), the
  ordered-bounds check after a build (`ats_swerve_mpc/src/ltv_qp_problem.cpp:448-456`, `BoundsAreOrdered`)
  and the lifecycle test of the heartbeat (`ats_goal_manager/src/ats_goal_manager_node.cpp:1788`,
  `HeartbeatExecutesIff`).
- The node passes the candidate audit a safety record without map freshness
  (`ats_swerve_mpc/src/ats_swerve_mpc_node.cpp:1249`) and without a collision check (line 1445), and
  either alone refuses every candidate: the shadow solver's candidates are never accepted
  (`UncheckedCandidatesAreRefused`).

## Model

| member | source | states |
|---|---|---|
| DistanceTransform.SquaredDistanceTransform1d | ats_rc_esdf/src/rc_traversability_esdf_provider.cpp:52-108 | on every input of finite and infinite entries, output q is the minimum over finite sites i of (q-i)^2+f(i), infinite when there is none; at most n sites are popped in the whole run |
| DistanceTransform.EnvelopeIsMinimum | ats_rc_esdf/src/rc_traversability_esdf_provider.cpp:52-108 | the reference value that the fast transform is proved against is attained by a site and bounded by every site |
| DistanceTransform.Crossing | ats_rc_esdf/src/rc_traversability_esdf_provider.cpp:75-88 | two parabolas change order exactly at their computed intersection |
| DistanceTransform.PopKeepsPartition | ats_rc_esdf/src/rc_traversability_esdf_provider.cpp:75-88 | popping a site whose region the new parabola covers leaves the stack a partition that loses no minimum; the bottom is never popped |
| DistanceTransform.PushCompletes | ats_rc_esdf/src/rc_traversability_esdf_provider.cpp:82-94 | pushing the new site at its crossing makes the stack complete for one more site |
| DistanceTransform.RegionHoldsMinimum | ats_rc_esdf/src/rc_traversability_esdf_provider.cpp:96-107 | inside a region of a complete stack its site attains the minimum |
| DistanceTransform.PushSite | ats_rc_esdf/src/rc_traversability_esdf_provider.cpp:72-94 | the pop loop and the push keep the stack complete, and pops are paid for by earlier pushes |
| DistanceTransform.EvaluateEnvelope | ats_rc_esdf/src/rc_traversability_esdf_provider.cpp:96-107 | the forward scan writes the minimum at every position |
| DistanceField.RowPassIsNearestInRow | ats_rc_esdf/src/rc_traversability_esdf_provider.cpp:110-150 | the row pass is the exact squared distance to the nearest seed of the row |
| DistanceField.ColumnPassIsNearest | ats_rc_esdf/src/rc_traversability_esdf_provider.cpp:110-150 | the column pass over row results is the exact squared distance to the nearest seed of the grid |
| DistanceField.NearestIsUnique | ats_rc_esdf/src/rc_traversability_esdf_provider.cpp:110-150 | there is one least squared distance |
| DistanceField.MoreSeedsAreNearer | ats_rc_esdf/src/rc_traversability_esdf_provider.cpp:110-177 | adding obstacles never increases a distance |
| DistanceField.ExactEuclideanDistanceTransform | ats_rc_esdf/src/rc_traversability_esdf_provider.cpp:110-150 | every cell gets the exact least squared Euclidean distance to a seed, infinite exactly when there is no seed |
| DistanceField.PaddedNearestIsClearance | ats_rc_esdf/src/rc_traversability_esdf_provider.cpp:152-177 | on the padded grid the distance is the nearest obstacle capped by min(x+1, w-x, y+1, h-y) squared |
| DistanceField.BlockedDistanceTransformWithBlockedBorder | ats_rc_esdf/src/rc_traversability_esdf_provider.cpp:152-177 | padding, transforming and copying back gives every cell that clearance |
| DistanceField.RebuildSignedDistanceField | ats_rc_esdf/src/rc_traversability_esdf_provider.cpp:668-706 | the signed field combines the two exact distances cell by cell |
| DistanceField.SignedFieldSeparates | ats_rc_esdf/src/rc_traversability_esdf_provider.cpp:676-706 | with complementary masks a free cell is at least +resolution and an obstacle at most -resolution when some cell is free; every value is 0 when none is |
| DistanceField.RebuiltFieldSeparates | ats_rc_esdf/src/rc_traversability_esdf_provider.cpp:668-706 | the same of every cell of the field that the rebuild returns |
| DistanceField.SignedFieldIsMetric | ats_rc_esdf/src/rc_traversability_esdf_provider.cpp:668-706 | where some cell is free, a free cell reads a non-negative value whose square is resolution^2 times its squared clearance, an obstacle cell a non-positive one whose square is resolution^2 times the squared distance to the nearest free cell |
| DistanceField.SignedCellIsTheDifference | ats_rc_esdf/src/rc_traversability_esdf_provider.cpp:685-705 | whatever the masks are, the value is the metric clearance less the metric distance to the nearest free cell, or minus the clearance without one |
| DistanceField.RebuiltFieldIsMetric | ats_rc_esdf/src/rc_traversability_esdf_provider.cpp:668-706 | the same of every cell of the field that the rebuild returns |
| ObstacleMasks.KnownCellsFollowTheThreshold | ats_rc_esdf/src/rc_traversability_esdf_provider.cpp:277-302 | layers never clear a known obstacle, and without a height layer a known cell is an obstacle exactly at the safe threshold |
| ObstacleMasks.UnknownCellIsRaisedIff | ats_rc_esdf/src/rc_traversability_esdf_provider.cpp:262-297 | an unknown cell that the policy does not block becomes an obstacle exactly when a height layer is supplied and the combined score reaches the threshold |
| ObstacleMasks.SomeUnknownCellIsRaisedIff | ats_rc_esdf/src/rc_traversability_esdf_provider.cpp:277-297 | over the reals, side grids that raise an unknown cell exist for exactly the thresholds up to 55 |
| ObstacleMasks.ObstacleIff | ats_rc_esdf/src/rc_traversability_esdf_provider.cpp:253-304 | any cell, known or unknown, with layers or without, is an obstacle exactly when the policy blocks unknown ones, its value reaches the clamped threshold, or a height layer is there and 45 value + 30 height + 15 occupancy + 10 lack of ground reaches it; the lethal threshold decides nothing |
| ObstacleMasks.FillMasks | ats_rc_esdf/src/rc_traversability_esdf_provider.cpp:253-304 | the three masks hold, cell by cell, obstacle, its complement, and known free |
| ObstacleMasks.RcTraversabilityEsdfProvider.UpdateGrid | ats_rc_esdf/src/rc_traversability_esdf_provider.cpp:190-319 | the provider becomes available exactly when the grid is well formed and has an obstacle or a known free cell, and then every free cell of its field is at least +resolution, every obstacle at most -resolution, and every cell reads its metric distance when some cell is free |
| RayWalk.Ray | ats_rog_map/src/odom_layer_integration.cpp:123-150 | the traversal, with its tolerance and its cap of 10000, reports voxels that each hold an open piece of the segment, in order and without repeats; when the voxel distance fits the cap, every point before the endpoint voxel lies in a reported voxel or within the tolerance after a reported crossing |
| RayWalk.KeysAreMonotone | ats_rog_map/src/odom_layer_integration.cpp:17-21 | the voxel key along an axis follows the direction of travel |
| RayWalk.AdvanceTracks | ats_rog_map/src/odom_layer_integration.cpp:136-149 | crossing the nearest face keeps the walk on the voxel that holds the next piece |
| RayWalk.WalkStaysBetween | ats_rog_map/src/odom_layer_integration.cpp:123-150 | before the walk passes the return, its voxel lies componentwise between the start and target keys |
| RayWalk.WalkCovers | ats_rog_map/src/odom_layer_integration.cpp:123-150 | however the walk stops, no point before the endpoint voxel is skipped, except within the tolerance after a reported crossing |
| RayWalk.PiecesAreVisited | ats_rog_map/src/odom_layer_integration.cpp:123-150 | every voxel but the endpoint's that holds a piece of the ray longer than the tolerance is reported; with tolerance 0, every voxel that holds any piece |
| RayWalk.SpanIsManhattan | ats_rog_map/src/odom_layer_integration.cpp:123-150 | the number of face crossings is the L1 distance of the keys |
| RayWalk.KeysThatFitBoundTheRay | ats_rog_map/src/odom_layer_integration.cpp:17-21 | keys that fit their integer type bound the segment, so the tolerance assumption holds |
| RayMask.IndexIsInjective | ats_rog_map/src/odom_layer_integration.cpp:108-114 | the mixed-radix index names one in-box key |
| RayMask.SetAtSetsOne | ats_rog_map/src/odom_layer_integration.cpp:65-121 | setting or clearing a bit of a word changes that bit only |
| RayMask.HoldsAfter | ats_rog_map/src/odom_layer_integration.cpp:65-121 | a bit-packed update is the set update on every in-box key |
| RayMask.DenseSize | ats_rog_map/src/odom_layer_integration.cpp:42-49 | the dense form is chosen exactly when the box volume fits |
| RayMask.RayFrameMask.constructor | ats_rog_map/src/odom_layer_integration.cpp:30-63 | endpoints are the given keys, nothing is traversed, in either form |
| RayMask.RayFrameMask.ClearOnce | ats_rog_map/src/odom_layer_integration.cpp:65-78 | answers whether the voxel is neither an endpoint nor traversed, and then marks it, in both forms |
| RayMask.RayFrameMask.AddCandidate | ats_rog_map/src/odom_layer_integration.cpp:80-88 | adds an in-box key to the candidate set and ignores any other |
| RayMask.RayFrameMask.Candidate | ats_rog_map/src/odom_layer_integration.cpp:90-96 | answers membership in the candidate set without endpoints, in both forms |
| RayMask.RayFrameMask.RemoveCandidate | ats_rog_map/src/odom_layer_integration.cpp:98-103 | removes the key from the candidate set and nothing else |
| CellEvidence.ReachableCellsAreConsistent | ats_rog_map/src/odom_layer.cpp:53-94 | in every reachable cell static implies occupied, never ray-cleared and hit time at least the threshold, and occupied implies hit time equals observed time |
| CellEvidence.StepKeepsConsistency | ats_rog_map/src/odom_layer.cpp:218-284 | each operation keeps that |
| CellEvidence.PromotionIsEarned | ats_rog_map/src/odom_layer.cpp:53-85 | the current occupancy period of a static cell holds accepted hits with strictly increasing stamps, at least the threshold divided by the frame limit of them, and no ray has cleared it |
| CellEvidence.SavedCellsAreTheStaticOnes | ats_rog_map/src/odom_layer.cpp:324-334 | a reachable cell is eligible for saving exactly when it is static with a positive hit time and the configured ratio is at most 1: its own ratio is always 1 |
| CellEvidence.ClearedIsForGood | ats_rog_map/src/odom_layer.cpp:251-284 | once a ray has cleared a cell no later history makes it static |
| EvidenceRules.HitRule | ats_rog_map/src/odom_layer.cpp:53-85 | a hit is accepted once per stamp, starts a new occupancy or adds its bounded share of time, and promotes a never-cleared cell at the threshold |
| EvidenceRules.FreeViewRule | ats_rog_map/src/odom_layer.cpp:218-228 | a free view newer than anything seen frees the cell and clears an occupied one for good; an older one changes nothing |
| EvidenceRules.RayAndSightRules | ats_rog_map/src/odom_layer.cpp:251-269 | a visible ray clears exactly occupied cells; a sight never moves time back |
| EvidenceRules.DynamicCellsAgeAtTheFirstLateTick | ats_rog_map/src/odom_layer.cpp:270-284 | over any ticks a dynamic occupied cell is forgotten exactly when one of them is later than the hold after both its last hit and last sight; nothing else changes |
| EvidenceRules.SightRule | ats_rog_map/src/odom_layer.cpp:96-133 | a cloud return counts the bounded time since the last one, or the frame time if it is the first, and is promoted at the threshold |
| OdomLayer.OdomLayerStore.ApplyAt | ats_rog_map/src/odom_layer.cpp:53-94 | an observation of a cell of the grid answers and changes that cell alone by the per-cell rule, and is refused outside the grid |
| OdomLayer.RemovalKeepsLinks | ats_rog_map/src/odom_layer.cpp:149-159 | swap-removal keeps the candidate list and the voxel map mutually inverse with mirrored stamps |
| OdomLayer.ClearingKeepsLinks | ats_rog_map/src/odom_layer.cpp:185-216 | a clear attempt keeps them inverse |
| OdomLayer.SightingKeepsLinks | ats_rog_map/src/odom_layer.cpp:96-133 | an observed point keeps them inverse |
| OdomLayer.OdomLayerStore.ObservePoint | ats_rog_map/src/odom_layer.cpp:96-133 | the store after a point is the specified sighting, links kept |
| OdomLayer.OdomLayerStore.RemoveRayClearCandidate | ats_rog_map/src/odom_layer.cpp:149-159 | list and map are those of the specified swap-removal |
| OdomLayer.OdomLayerStore.ClearVoxel | ats_rog_map/src/odom_layer.cpp:142-146 | the clearing that both callers share: a stored voxel is cleared and leaves the candidate list, links kept |
| OdomLayer.OdomLayerStore.ClearCloudVoxel | ats_rog_map/src/odom_layer.cpp:134-147 | the voxel of the point is cleared exactly when it is stored and its last hit is older than the stamp, otherwise nothing changes; links kept |
| OdomLayer.OdomLayerStore.ClearCloudVoxelAlongRay | ats_rog_map/src/odom_layer.cpp:185-216 | the store after a ray is the specified attempt on its voxel: cleared when it exists, was hit before the stamp and the ray contradicts it |
| OdomLayer.OdomLayerStore.TickAll | ats_rog_map/src/odom_layer.cpp:270-284 | every cell ages by the per-cell rule |
| OdomLayer.OdomLayerStore.RayClearCandidates | ats_rog_map/src/odom_layer.cpp:161-171 | without duplicates, exactly the stored voxels never cleared and last hit before the stamp |
| OdomLayer.OdomLayerStore.HasRayClearCandidate | ats_rog_map/src/odom_layer.cpp:173-183 | answers membership in that set |
| OdomLayer.ListMatchesMap | ats_rog_map/src/odom_layer.cpp:161-183 | a voxel can still be cleared exactly when some list entry names it with a hit before the stamp |
| RayGeometry.ContradictsIff | ats_rog_map/src/odom_layer.cpp:185-216 | a ray contradicts a return exactly when the closest point of its line is ahead of the sensor, ends more than the margin before the endpoint, and is within the clearing radius |
| RayGeometry.OnGridIff | ats_rog_map/src/odom_layer.cpp:96-107 | a point is on the grid exactly when it lies over one of its cells |
| FramePass.CenterIsInside | ats_rog_map/src/odom_layer_integration.cpp:17-21 | the centre of a voxel has the voxel as its key |
| FramePass.WalkIsInBox | ats_rog_map/src/odom_layer_integration.cpp:23-41 | every voxel a frame ray visits is inside the mask box |
| FramePass.ClearCloudRays | ats_rog_map/src/odom_layer_integration.cpp:178-223 | trying only mask candidates leaves the store as if every reported voxel without an endpoint had been tried on every ray |
| FramePass.ClearRay | ats_rog_map/src/odom_layer_integration.cpp:190-223 | the same of one ray, and the mask still names exactly the clearable voxels |
| FramePass.PrepareMask | ats_rog_map/src/odom_layer_integration.cpp:178-189 | before the first ray the mask names exactly the clearable voxels outside the endpoints |
| FrameEffects.FrameClearsIff | ats_rog_map/src/odom_layer_integration.cpp:178-223 | whatever the order of rays and visits, a frame clears exactly the open voxels that some ray contradicts at a reported visit, and changes nothing else |
| FrameEffects.RayClearsIff | ats_rog_map/src/odom_layer_integration.cpp:190-223 | the same of the visits of one ray |
| FrameEffects.ReportedIff | ats_rog_map/src/odom_layer_integration.cpp:123-150 | a shared visit is reported exactly when the ray, 1e-8 before it leaves the voxel, is over the grid |
| FrameEffects.ReportedPointIsInTheVoxel | ats_rog_map/src/odom_layer_integration.cpp:123-150 | that point lies in the visited voxel when the ray is in it for longer |
| FrameEffects.FrameRayVisitsEveryPiece | ats_rog_map/src/odom_layer_integration.cpp:123-150 | a frame ray of at most 10000 face crossings visits every voxel but its endpoint's in which it stays for more than 1e-10 of its length |
| GroundColumns.GroundColumnGrid.Observe | ats_rog_map/src/ground_column.cpp:78-125 | after an observation the ground map is the least set that holds earlier ground and the seeds and is closed under the slope rule from non-empty columns; earlier heights are kept; the queue terminates |
| GroundColumns.GroundColumnGrid.Spill | ats_rog_map/src/ground_column.cpp:108-124 | spreading from one cell leaves every other spread cell spread and grows nothing beyond the least set |
| GroundColumns.GroundColumnGrid.CollectSeeds | ats_rog_map/src/ground_column.cpp:88-107 | the queue starts with exactly the earlier and seeded ground that has a return now |
| GroundColumns.ConnectedGroundIsUnique | ats_rog_map/src/ground_column.cpp:78-125 | the result does not depend on the queue order |
| GroundColumns.FloatingPlateHasNoGround | ats_rog_map/src/ground_column.cpp:96-101 | cells with no base among them and no support from outside stay without ground |
| GroundColumns.ConnectedGroundIsStable | ats_rog_map/src/ground_column.cpp:88-125 | with the columns unchanged, connecting the ground again changes nothing |
| GroundColumns.RecordIsIdempotent | ats_rog_map/src/ground_column.cpp:78-87 | recording the same returns a second time leaves the columns as they are |
| GroundColumns.ObservingAgainChangesNothing | ats_rog_map/src/ground_column.cpp:78-125 | observing the same returns again changes neither the columns nor the ground |
| GroundColumns.GroundColumnGrid.GroundAt | ats_rog_map/src/ground_column.cpp:127-141 | the query is the lowest connected surface of the 3x3 neighbourhood, none exactly when there is none |
| GroundColumns.GroundColumnGrid.ClearVoxel | ats_rog_map/src/ground_column.cpp:158-181 | one return goes unless the ray passes above it and it is protected as ground or has no ground; nothing else changes |
| GroundPaths.GroundIsReachedByGentleSteps | ats_rog_map/src/ground_column.cpp:88-125 | every grounded cell is reached from earlier ground or from the robot's feet by steps between the eight neighbours that stay within the slope over the distance of their centres |
| GroundPaths.GentleStepsLeadToGround | ats_rog_map/src/ground_column.cpp:108-124 | and every such step from a grounded cell with a return to a cell with a return leads to ground, at its lowest return |
| GroundPaths.FeetAreOnGround | ats_rog_map/src/ground_column.cpp:96-101 | every cell around the robot whose lowest return is within 0.05 of its feet is ground |
| GroundPaths.OffsetsLeadToTheCentre | ats_rog_map/src/ground_column.cpp:96-101 | the distance to the robot is taken from the centre of the cell |
| GroundPaths.ReturnIsFiledWhereItLies | ats_rog_map/src/ground_column.cpp:78-87 | a return is filed under the cell and the bin that contain it |
| GroundClassification.FreeMeansHeadroom | ats_rog_map/src/ground_column.cpp:13-56 | a free column has no return between the surface thickness and the robot clearance |
| GroundClassification.FreeUnderACeilingIff | ats_rog_map/src/ground_column.cpp:29-55 | exactly when a column with a return above the surface is free; the ceiling height test decides nothing |
| GroundClassification.ColumnStateIff | ats_rog_map/src/ground_column.cpp:13-56 | unknown exactly below the observation count or without ground; free exactly when no return is above the surface, or none is within reach, the column is no wall, and it is hollow, taller than a tunnel or clear of the surface |
| Actuator.MaxModuleSpeedIsCorner | ats_swerve_mpc/src/se2_mpc_controller.cpp:118-159 | the largest wheel speed squared is (|vx|+|wz|y)^2+(|vy|+|wz|x)^2 |
| Actuator.ClampControlProjects | ats_swerve_mpc/src/se2_mpc_controller.cpp:87-117 | clamping puts any request inside the body and wheel-speed envelope and leaves a control of the envelope alone |
| Actuator.SegmentStaysInEnvelope | ats_swerve_mpc/src/se2_mpc_controller.cpp:204-239 | the envelope is convex: every control between two of its controls is in it |
| Actuator.HoldingIsFeasible | ats_swerve_mpc/src/se2_mpc_controller.cpp:160-202 | repeating a control of the envelope passes the module increment check |
| Actuator.BisectKeepsBracket | ats_swerve_mpc/src/se2_mpc_controller.cpp:220-237 | the bisection keeps a feasible lower and an infeasible upper scale |
| Actuator.FortyHalvings | ats_swerve_mpc/src/se2_mpc_controller.cpp:220-237 | after forty halvings the bracket is exactly 2^-40 wide |
| Actuator.SearchIsFeasible | ats_swerve_mpc/src/se2_mpc_controller.cpp:204-239 | the returned scale is feasible against the previous control |
| Actuator.ClampIncrementIsFeasible | ats_swerve_mpc/src/se2_mpc_controller.cpp:204-239 | from a control of the envelope the clamped increment is in the envelope and passes the increment check; the final clamp is the identity |
| MotionLimits.RequestIsNearest | ats_swerve_mpc/src/se2_mpc_controller.cpp:204-216 | every axis of the request is the target, or the target's side of max_a*dt around the previous control |
| MotionLimits.StepKeepsTheAcceleration | ats_swerve_mpc/src/se2_mpc_controller.cpp:204-239 | when the request is inside the envelope no axis of the clamped increment changes by more than max_a*dt |
| MotionLimits.ChainKeepsTheAcceleration | ats_swerve_mpc/src/se2_mpc_controller.cpp:294-321 | the same of every step of a projected sequence |
| MotionLimits.WheelLimitOutrunsTheBrake | ats_swerve_mpc/src/se2_mpc_controller.cpp:204-216 | a request outside the envelope for which the wheel-speed scaling brakes five times harder than max_a*dt |
| MotionLimits.ClampControlKeepsTheDirection | ats_swerve_mpc/src/se2_mpc_controller.cpp:87-117 | clamping takes each axis to its limit and then scales the Twist by one factor, below 1 only to bring the fastest wheel exactly to its limit |
| WheelMotion.WheelsTurnRigidly | ats_swerve_mpc/src/se2_mpc_controller.cpp:126-150 | each wheel moves with the body plus a velocity at right angles to its mount that turns about the centre at the body rate |
| WheelMotion.ModulesFollowIff | ats_swerve_mpc/src/se2_mpc_controller.cpp:160-202 | the increment check passes exactly when each wheel keeps its speed, its change of velocity and, away from standstill, the angle of the true cosine |
| Actuator.BisectScale | ats_swerve_mpc/src/se2_mpc_controller.cpp:220-237 | the loop computes that scale |
| Actuator.ChainExtends | ats_swerve_mpc/src/se2_mpc_controller.cpp:294-321 | a feasible chain of controls stays feasible when extended by a feasible increment |
| Actuator.ProjectAllIsAChain | ats_swerve_mpc/src/se2_mpc_controller.cpp:294-321 | every control of a sequence projected step by step is in the envelope and passes the increment check against its predecessor, whatever was asked for |
| Actuator.DescentIsAChain | ats_swerve_mpc/src/se2_mpc_controller.cpp:432-503 | whatever gains and costs the iterations meet, every sequence they can end with is such a chain |
| Actuator.DescentStartsFrom | ats_swerve_mpc/src/se2_mpc_controller.cpp:432-503 | the first control of every such sequence is a request clamped against the last control |
| SolverPasses.SeedLeansOnThePreviousSolution | ats_swerve_mpc/src/se2_mpc_controller.cpp:294-321 | a warm seed keeps 0.7 of the difference between the previous solution one step on, its first control after its last, and the reference; a cold one is the reference |
| SolverPasses.SearchTakesTheFirstCheaper | ats_swerve_mpc/src/se2_mpc_controller.cpp:449-491 | the line search takes the first cheaper trial, each control clamped after the one before it, and none exactly when none is cheaper |
| SolverPasses.PassesEndTheDescent | ats_swerve_mpc/src/se2_mpc_controller.cpp:432-503 | success is that of the first pass, and nothing after the first uncertified, converged or fruitless pass matters |
| SolverPasses.OnePassEndsWith | ats_swerve_mpc/src/se2_mpc_controller.cpp:432-503 | an ending pass leaves the controls or its first cheaper candidate |
| SolverPasses.PassesFollowOn | ats_swerve_mpc/src/se2_mpc_controller.cpp:432-503 | any other pass hands its candidate to the next |
| Actuator.Se2MpcController.InitializeControls | ats_swerve_mpc/src/se2_mpc_controller.cpp:294-321 | the warm start is the projection of the references, or of the previous controls shifted by one and blended 0.7 to 0.3 with them |
| Actuator.Se2MpcController.ProjectCandidate | ats_swerve_mpc/src/se2_mpc_controller.cpp:460-476 | a candidate is the projection of controls plus updates |
| Actuator.Se2MpcController.LineSearch | ats_swerve_mpc/src/se2_mpc_controller.cpp:449-491 | the search takes the first cheaper candidate, or none |
| Actuator.Se2MpcController.Solve | ats_swerve_mpc/src/se2_mpc_controller.cpp:397-535 | a solve without a horizon, a positive period or enough references changes nothing; any other leaves as result and warm start what the iterations specify, successful exactly when one was certified and the cost is finite, a chain from the last control that starts with a clamped request |
| Actuator.ApproachStaysInEnvelope | ats_swerve_mpc/src/ats_swerve_mpc_node.cpp:1699-1709 | the planar terminal speed limit keeps a control in the envelope |
| Actuator.DecelerationStaysInEnvelope | ats_swerve_mpc/src/ats_swerve_mpc_node.cpp:1720-1737 | per-axis terminal deceleration keeps a control in the envelope |
| MotionLimits.ApproachIsSlowEnough | ats_swerve_mpc/src/ats_swerve_mpc_node.cpp:1699-1709 | the limited planar speed times tau is at most the distance, in the requested direction, and a slow enough control passes unchanged |
| MotionLimits.DecelerationStepsTowardsZero | ats_swerve_mpc/src/ats_swerve_mpc_node.cpp:1720-1737 | every axis brakes towards zero by max_a*dt and not past it |
| MotionLimits.BrakingEnds | ats_swerve_mpc/src/ats_swerve_mpc_node.cpp:1720-1737 | n periods bring the Twist to zero exactly when n*max_a*dt covers every axis |
| ExecutionSafety.EveryRunIsSafe | ats_swerve_mpc/src/ats_swerve_mpc_node.cpp:631-1188 | at every callback boundary of every run: fail-stop implies an empty tracker; a tracker holds the active command's reference, newer than the last recorded stop; the active command is the planner's or the superseded one in its grace; controls stay in the envelope |
| ExecutionSafety.ExecutionCommandIsSafe | ats_swerve_mpc/src/ats_swerve_mpc_node.cpp:631-833 | an execution command keeps that, whatever it contains |
| ExecutionSafety.PlannerStatusIsSafe | ats_swerve_mpc/src/ats_swerve_mpc_node.cpp:838-924 | so does a planner status |
| ExecutionSafety.MapReadyIsSafe | ats_swerve_mpc/src/ats_swerve_mpc_node.cpp:965-996 | so does a map heartbeat |
| ExecutionSafety.TimerIsSafe | ats_swerve_mpc/src/ats_swerve_mpc_node.cpp:1095-1188 | so does a control cycle |
| ExecutionSafety.StepAdvances | ats_swerve_mpc/src/ats_swerve_mpc_node.cpp:631-1188 | no callback moves the planner identity or the floor back within an epoch, makes a command active that was not valid, fills the tracker otherwise than with a new active command, or moves a grace deadline |
| ExecutionSafety.MotionIsAuthorised | ats_swerve_mpc/src/ats_swerve_mpc_node.cpp:1129-1188 | a non-zero Twist comes only from the timer, with a valid lease, the active command's reference in the tracker, newer than the last recorded stop, and inside the envelope |
| ExecutionSafety.DriveTakesTheSolversControl | ats_swerve_mpc/src/ats_swerve_mpc_node.cpp:1290-1339 | whatever sequence the solver returns from the last published control, the authorised cycle can publish its first control, terminally limited: that control is the clamped request of some target |
| ExecutionSafety.OnlyTheTimerMoves | ats_swerve_mpc/src/ats_swerve_mpc_node.cpp:631-1068 | no other callback publishes a non-zero Twist |
| ExecutionRuns.RetiredForGood | ats_swerve_mpc/src/ats_swerve_mpc_node.cpp:838-996 | once a generation is at or below the retirement floor of its epoch it never again is installed or moves the chassis, over every run |
| ExecutionRuns.PassedPlanDrivesOnlyInItsGrace | ats_swerve_mpc/src/ats_swerve_mpc_node.cpp:880-917 | a plan the planner has passed is never newly installed and drives only if it was active, until the one deadline already set, however many generations follow |
| ExecutionRuns.NoMotionBeforeAnInstall | ats_swerve_mpc/src/ats_swerve_mpc_node.cpp:1848-1862 | from an empty tracker, which every stop leaves, nothing moves until a fresh install |
| ExecutionRuns.InstallIsValid | ats_swerve_mpc/src/ats_swerve_mpc_node.cpp:739-833 | what enters the tracker is a new active command that was valid for map and planner |
| ExecutionRuns.EveryTwistIsInTheEnvelope | ats_swerve_mpc/src/ats_swerve_mpc_node.cpp:1328-1339 | every Twist published over a run keeps the body and wheel-speed limits |
| ExecutionRuns.AcceptedStopIsABarrier | ats_swerve_mpc/src/ats_swerve_mpc_node.cpp:678-722 | after an accepted STOP every later active command is lexicographically larger |
| ExecutionRuns.IncarnationsOpenWithAStop | ats_swerve_mpc/src/ats_swerve_mpc_node.cpp:691-703 | the incarnation in force was opened by an accepted STOP |
| ExecutionRuns.InstalledOnlyInAnOpenedIncarnation | ats_swerve_mpc/src/ats_swerve_mpc_node.cpp:691-722 | whatever is in the tracker belongs to such an incarnation |
| ExecutionRuns.StepOrder | ats_swerve_mpc/src/ats_swerve_mpc_node.cpp:678-722 | the last accepted incarnation and sequence never go back, and a new active command is strictly beyond them |
| ExecutionEffects.BadStatusStops | ats_swerve_mpc/src/ats_swerve_mpc_node.cpp:884-932 | a newer status that failed, names a failure or has another state leaves a fail-stop, an empty tracker, no active command, no deadline, an unusable plan and a zero Twist; MAP_UNREADY also retires the plan |
| ExecutionEffects.PlanWithoutAMapIsOver | ats_swerve_mpc/src/ats_swerve_mpc_node.cpp:884-898 | over every later run that plan is never installed and never moves the chassis |
| ExecutionEffects.OldStatusChangesNothing | ats_swerve_mpc/src/ats_swerve_mpc_node.cpp:838-871 | a malformed, accepted, earlier or repeated status changes nothing |
| ExecutionEffects.ReadyStatusNamesThePlan | ats_swerve_mpc/src/ats_swerve_mpc_node.cpp:872-903 | a ready status becomes the planner's plan, usable exactly above the floor, which a new epoch resets |
| ExecutionEffects.RepeatedPlanDrivesOn | ats_swerve_mpc/src/ats_swerve_mpc_node.cpp:899-903 | a repeat of the known plan touches nothing that drives |
| ExecutionEffects.NewPlanStops | ats_swerve_mpc/src/ats_swerve_mpc_node.cpp:904-932 | a new plan without a grace stops, and only a new epoch moves the stop stamp |
| ExecutionEffects.SupersessionStartsTheGrace | ats_swerve_mpc/src/ats_swerve_mpc_node.cpp:911-923 | a supersession with a grace sets the deadline to now plus grace once and leaves the drive alone |
| ExecutionEffects.MapLossStops | ats_swerve_mpc/src/ats_swerve_mpc_node.cpp:965-996 | a false or late map heartbeat stops, and retires exactly the generations up to the one it served |
| ExecutionEffects.MapHeartbeatRenews | ats_swerve_mpc/src/ats_swerve_mpc_node.cpp:965-996 | any other heartbeat only renews the lease |
| ExecutionEffects.EmergencyHalts | ats_swerve_mpc/src/ats_swerve_mpc_node.cpp:1003-1011 | an emergency halts and keeps the active command; its release does nothing |
| ExecutionEffects.LocalizationLossHalts | ats_swerve_mpc/src/ats_swerve_mpc_node.cpp:1032-1049 | lost localization or a jump to another epoch halts |
| ExecutionEffects.SteadyLocalizationDrivesOn | ats_swerve_mpc/src/ats_swerve_mpc_node.cpp:1032-1049 | steady localization is only recorded |
| ExecutionEffects.GimbalLossHalts | ats_swerve_mpc/src/ats_swerve_mpc_node.cpp:1052-1064 | a gimbal report halts exactly when it does not serve the active command |
| ExecutionEffects.CommandIsObeyedIff | ats_swerve_mpc/src/ats_swerve_mpc_node.cpp:722-833 | a timely next command is obeyed exactly when every condition on its mode, goal, reference, gimbal, plan and localization holds; otherwise the node stops, but for a heartbeat of the superseded plan in its grace |
| ExecutionEffects.CommandOutOfTurnHalts | ats_swerve_mpc/src/ats_swerve_mpc_node.cpp:631-721 | any other command halts, and only a STOP of a later incarnation moves the order |
| ExecutionEffects.CycleDrivesIff | ats_swerve_mpc/src/ats_swerve_mpc_node.cpp:1095-1188 | a cycle drives exactly when localization, command age, gimbal, plan or grace, and latch all allow it, and halts otherwise |
| ExecutionEffects.GraceEnds | ats_swerve_mpc/src/ats_swerve_mpc_node.cpp:1113-1128 | the end of the grace stops without moving the stop stamp |
| ExecutionEffects.SilentMapRetires | ats_swerve_mpc/src/ats_swerve_mpc_node.cpp:1128-1138 | a silent map stops the cycle and retires exactly what it served |
| ExecutionEffects.NothingToFollowIdles | ats_swerve_mpc/src/ats_swerve_mpc_node.cpp:1160-1240 | without odometry, with an expired reference, a horizon or a solution missing, the cycle publishes zero and keeps the reference |
| ExecutionEffects.FollowingIsLimited | ats_swerve_mpc/src/ats_swerve_mpc_node.cpp:1160-1339 | otherwise it brakes at the goal or publishes the clamped request, slowed for the distance that is left |
| ExecutionEffects.MotionNeedsARecentCommand | ats_swerve_mpc/src/ats_swerve_mpc_node.cpp:640-676 | over every run nothing moves unless a command was heard in time and its age now is within the timeout |
| ExecutionLimits.FloorStaysWithinThePlannerIff | ats_swerve_mpc/src/ats_swerve_mpc_node.cpp:965-996 | an expiry lifts the floor above the planner's generation exactly when the lease generation remembered from an earlier epoch exceeds it |
| ExecutionLimits.AFreshGenerationIsRefused | ats_swerve_mpc/src/ats_swerve_mpc_node.cpp:878-890 | a run in which a new ready generation of a new epoch is refused for that reason |
| ExecutionLimits.StopRefusesOlderReferencesIff | ats_swerve_mpc/src/ats_swerve_mpc_node.cpp:1848-1862 | a stop refuses every older reference exactly when the node was not fail-stopped already or had recorded a stop at least as late |
| ExecutionLimits.AReferenceOlderThanTheStopIsInstalled | ats_swerve_mpc/src/ats_swerve_mpc_node.cpp:1848-1862 | a run of callbacks from the initial state after which a reference older than the latest stop is installed |
| ExecutionLimits.AcceptedCommandRestoresTheTrackerIff | ats_swerve_mpc/src/ats_swerve_mpc_node.cpp:739-833 | a command accepted while fail-stopped refills the tracker exactly when it names a new, installable reference; repeating the active one only lifts the latch |
| ExecutionLimits.ARepeatedReferenceLeavesTheTrackerEmpty | ats_swerve_mpc/src/ats_swerve_mpc_node.cpp:739-833 | a run of callbacks from the initial state after which the latch is lifted, a command is active and the tracker is empty |
| MpcNode.AtsSwerveMpcNode.EngageFailStop | ats_swerve_mpc/src/ats_swerve_mpc_node.cpp:1848-1862 | first entry clears the tracker and may record the stop; every entry publishes zero |
| MpcNode.AtsSwerveMpcNode.InstallPath | ats_swerve_mpc/src/ats_swerve_mpc_node.cpp:548-625 | installs exactly the references that pass localization, size, finiteness, frame and stop-stamp tests |
| MpcNode.AtsSwerveMpcNode.OnExecutionCommand | ats_swerve_mpc/src/ats_swerve_mpc_node.cpp:631-833 | the callback is the specified step and keeps every safety invariant |
| MpcNode.AtsSwerveMpcNode.OnPlannerStatus | ats_swerve_mpc/src/ats_swerve_mpc_node.cpp:838-924 | the same |
| MpcNode.AtsSwerveMpcNode.OnMapReady | ats_swerve_mpc/src/ats_swerve_mpc_node.cpp:965-996 | the same |
| MpcNode.AtsSwerveMpcNode.OnEmergencyStop | ats_swerve_mpc/src/ats_swerve_mpc_node.cpp:1003-1011 | the same, with execution commands enabled |
| MpcNode.AtsSwerveMpcNode.OnLocalizationStatus | ats_swerve_mpc/src/ats_swerve_mpc_node.cpp:1032-1049 | the same |
| MpcNode.AtsSwerveMpcNode.OnGimbalStatus | ats_swerve_mpc/src/ats_swerve_mpc_node.cpp:1052-1064 | the same |
| MpcNode.AtsSwerveMpcNode.ExpireLeases | ats_swerve_mpc/src/ats_swerve_mpc_node.cpp:1113-1138 | expires the grace and the map lease, reporting whether the grace ended the active command |
| MpcNode.AtsSwerveMpcNode.Drive | ats_swerve_mpc/src/ats_swerve_mpc_node.cpp:1160-1339 | the authorised cycle publishes zero, the terminal deceleration, or the clamped and terminally limited control |
| MpcNode.AtsSwerveMpcNode.OnControlTimer | ats_swerve_mpc/src/ats_swerve_mpc_node.cpp:1095-1339 | the cycle is the specified step, keeps every invariant, and always publishes a Twist of the envelope |
| GoalSafety.EveryRunIsConsistent | ats_goal_manager/src/ats_goal_manager_node.cpp:1083-1309 | over every run an unset fail-stop implies an active command of the active goal's id and epoch, in tracking, and the command counter is the number of commands published |
| GoalSafety.EveryLogIsOrdered | ats_goal_manager/src/ats_goal_manager_node.cpp:2205-2260 | everything a manager publishes is numbered from 1 without gaps, starts with a STOP, and every EXECUTE names a started goal |
| GoalSafety.EndedGoalIsNeverExecutedAgain | ats_goal_manager/src/ats_goal_manager_node.cpp:392-500 | once a goal is finished, preempted or asked to cancel no later command executes it |
| GoalSafety.WhatEndsAGoal | ats_goal_manager/src/ats_goal_manager_node.cpp:392-500 | cancelling, preempting and finishing each end the active goal |
| GoalSafety.HeartbeatExecutesIff | ats_goal_manager/src/ats_goal_manager_node.cpp:1780-1808 | the heartbeat executes exactly when the fail-stop is released: the lifecycle test adds nothing |
| GoalSafety.StepKeeps | ats_goal_manager/src/ats_goal_manager_node.cpp:380-1860 | every callback keeps consistency and appends only well-numbered commands that execute no ended goal |
| GoalSafety.TryCommitKeeps | ats_goal_manager/src/ats_goal_manager_node.cpp:1083-1309 | committing keeps it, whatever is offered |
| GoalSafety.TickKeeps | ats_goal_manager/src/ats_goal_manager_node.cpp:1312-1809 | a tick keeps it, through gimbal loss, localization loss, redispatch, replanning and every end |
| GoalEffects.CommitReleasesIff | ats_goal_manager/src/ats_goal_manager_node.cpp:1083-1309 | the fail-stop is released and an EXECUTE published exactly for an uncancelled goal, an offer of its id, epoch, latest request and localization epoch from a published map, a candidate of the same stamp with two poses that is good on a ready map with localization, a known yaw authority, and the gimbal's hold or acknowledgement; what is published is then the candidate on the offer's terms |
| GoalEffects.OnlyAGoodReferenceIsReleased | ats_goal_manager/src/ats_goal_manager_node.cpp:380-1860 | of every callback, only one that commits such a candidate lifts the fail-stop or logs an EXECUTE that is no repeat |
| GoalEffects.StaleOfferIsDropped | ats_goal_manager/src/ats_goal_manager_node.cpp:1096-1145 | a stale offer is dropped: a replacement is requested again, anything else is suspended |
| GoalEffects.LossSuspends | ats_goal_manager/src/ats_goal_manager_node.cpp:556-597 | a lost map, snapshot, odometry or gimbal withdraws plan and command, stops once and waits |
| GoalEffects.RefusedMapEndsTheGoal | ats_goal_manager/src/ats_goal_manager_node.cpp:800-815 | a heartbeat without a map fails the goal, withdraws everything and stops once |
| GoalEffects.LocalizationChangeWithdraws | ats_goal_manager/src/ats_goal_manager_node.cpp:905-954 | a new epoch or unsteady health does, in the new epoch; anything else is only recorded |
| GoalEffects.FailureOfTheCurrentPlanCounts | ats_goal_manager/src/ats_goal_manager_node.cpp:599-684 | a failure of the expected or executing plan suspends or ends the goal, any other changes nothing |
| GoalEffects.RejectionSparesTheCommand | ats_goal_manager/src/ats_goal_manager_node.cpp:685-721 | while a command executes a rejection only ends its replacement |
| GoalEffects.ReplacementIsRequestedIff | ats_goal_manager/src/ats_goal_manager_node.cpp:760-800 | an advised replanning is requested exactly when everything allows driving on |
| GoalEffects.RequestGoesOutIff | ats_goal_manager/src/ats_goal_manager_node.cpp:506-552 | a request goes out exactly when dispatch, map, localization and epoch allow, else the goal is suspended |
| GoalEffects.AuthorityChangeStops | ats_goal_manager/src/ats_goal_manager_node.cpp:725-757 | a ready plan of another yaw authority stops before it may commit |
| GoalEffects.NewGoalStartsStopped | ats_goal_manager/src/ats_goal_manager_node.cpp:430-502 | a new goal withdraws everything, stops, and is requested or waits |
| GoalEffects.FinishWithdraws | ats_goal_manager/src/ats_goal_manager_node.cpp:1812-1858 | a finished goal withdraws everything and stops once |
| GoalEffects.TickEndsTheGoalIff | ats_goal_manager/src/ats_goal_manager_node.cpp:1355-1778 | a tick ends the goal exactly by cancel, deadline, lost map, waiting too long, arrival without drift or exhausted progress, in this order |
| GoalEffects.TickStopsTheDriveIff | ats_goal_manager/src/ats_goal_manager_node.cpp:1312-1809 | a tick stops a drive exactly by a lost transform, gimbal or localization, a stall, an unsafe reference or an end |
| GoalManagerNode.AtsGoalManagerNode.constructor | ats_goal_manager/src/ats_goal_manager_node.cpp:158-222 | a process starts fail-stopped and its first command is a STOP |
| GoalManagerNode.AtsGoalManagerNode.PublishExecutionCommand | ats_goal_manager/src/ats_goal_manager_node.cpp:2205-2240 | appends the command with the next value of the node's own sequence counter and a backdated, never negative stamp |
| GoalManagerNode.AtsGoalManagerNode.SuspendActiveGoal | ats_goal_manager/src/ats_goal_manager_node.cpp:556-597 | withdraws plan and command and publishes a STOP, only for the named active goal |
| GoalManagerNode.AtsGoalManagerNode.FinishActive | ats_goal_manager/src/ats_goal_manager_node.cpp:1812-1858 | ends the goal, withdraws everything and publishes a STOP |
| GoalManagerNode.AtsGoalManagerNode.PublishPlannerGoal | ats_goal_manager/src/ats_goal_manager_node.cpp:506-552 | a request is numbered and sent only for the current goal and epoch |
| GoalManagerNode.AtsGoalManagerNode.StartGoal | ats_goal_manager/src/ats_goal_manager_node.cpp:430-502 | the new goal replaces the old, STOP first, then a request or a suspension |
| GoalManagerNode.AtsGoalManagerNode.OnActionCancel | ats_goal_manager/src/ats_goal_manager_node.cpp:392-406 | the goal is marked and the fail-stop set |
| GoalManagerNode.AtsGoalManagerNode.TryCommitReference | ats_goal_manager/src/ats_goal_manager_node.cpp:1083-1309 | the commit step, and consistency |
| GoalManagerNode.AtsGoalManagerNode.OnPlannerStatus | ats_goal_manager/src/ats_goal_manager_node.cpp:599-759 | the status step with failure, rejection, advice and the protected authority switch, and consistency |
| GoalManagerNode.AtsGoalManagerNode.OnLocalizationStatus | ats_goal_manager/src/ats_goal_manager_node.cpp:905-954 | the localization step, and consistency |
| GoalManagerNode.AtsGoalManagerNode.OnGimbalYawStatus | ats_goal_manager/src/ats_goal_manager_node.cpp:957-989 | the gimbal step, and consistency |
| GoalManagerNode.AtsGoalManagerNode.OnTick | ats_goal_manager/src/ats_goal_manager_node.cpp:1312-1809 | the tick step, and consistency |
| CommandNetwork.NothingOlderThanAStopReturns | ats_swerve_mpc/src/ats_swerve_mpc_node.cpp:678-722 | over any loss, repetition and order: after the MPC accepts a manager's k-th command as a STOP, whatever of that manager becomes active was published after it |
| CommandNetwork.EndedGoalNeverDrivesAgain | ats_goal_manager/src/ats_goal_manager_node.cpp:1812-1858 | end to end: when a goal is over in the manager and the MPC has accepted any STOP published later, no message puts that goal's reference back into the tracker |
| CommandNetwork.ActiveIsFromTheLog | ats_swerve_mpc/src/ats_swerve_mpc_node.cpp:631-833 | the active command of an incarnation is one its manager published |
| LtvQpDimensions.DimensionsAreExact | ats_swerve_mpc/src/ltv_qp_problem.cpp:135-201 | dimensions are admitted for exactly the horizons 1 to 64, without wrap-around, and the byte cap never refuses one of them |
| LtvQpDimensions.MultiplicationIsExact | ats_swerve_mpc/src/ltv_qp_problem.cpp:24-32 | the division test refuses exactly the products that wrap |
| LtvQpCost.AddSingle | ats_swerve_mpc/src/ltv_qp_problem.cpp:106-111 | adding one weighted square updates Hessian and gradient to the list of terms with it appended |
| LtvQpCost.AddPair | ats_swerve_mpc/src/ltv_qp_problem.cpp:113-131 | so does adding one weighted squared difference |
| LtvQpCost.FormsAreTheCostChange | ats_swerve_mpc/src/ltv_qp_problem.cpp:106-131 | half the quadratic form plus the linear form of any list of terms is the change of its cost from the origin |
| LtvQpCost.HessianIsConvex | ats_swerve_mpc/src/ltv_qp_problem.cpp:52-57 | with non-negative weights the Hessian is positive semidefinite |
| LtvQpCost.HessianIsSymmetric | ats_swerve_mpc/src/ltv_qp_problem.cpp:113-131 | the Hessian is symmetric |
| LtvQpTracking.AddQuadraticBlock | ats_swerve_mpc/src/ltv_qp_problem.cpp:106-111 | the block update is its three terms |
| LtvQpTracking.AddDeltaQuadratic | ats_swerve_mpc/src/ltv_qp_problem.cpp:113-131 | the increment update is its three terms, uncoupled for the first step |
| LtvQpTracking.BuildCost | ats_swerve_mpc/src/ltv_qp_problem.cpp:345-412 | the loop leaves exactly the terms of the whole plan in Hessian and gradient |
| LtvQpTracking.BuiltCostIsTheTrackingCost | ats_swerve_mpc/src/ltv_qp_problem.cpp:345-412 | for every z, half zHz plus gz is the weighted tracking, control, increment and terminal cost at nominal+z less its value at the nominal |
| LtvQpTracking.BuiltHessianIsConvex | ats_swerve_mpc/src/ltv_qp_problem.cpp:345-412 | the built Hessian is positive semidefinite for admitted weights |
| LtvQpConstraints.ConstraintsAreTheModel | ats_swerve_mpc/src/ltv_qp_problem.cpp:372-452 | the rows and bounds hold exactly when the trajectory of z starts at the current state, follows the linearised dynamics, and keeps every increment and speed limit |
| LtvQpConstraints.DynamicsProduct | ats_swerve_mpc/src/ltv_qp_problem.cpp:422-447 | a dynamics row times z is the next deviation less the Jacobians times the present ones |
| LtvQpConstraints.IncrementProduct | ats_swerve_mpc/src/ltv_qp_problem.cpp:372-389 | an increment row times z is the difference of two control deviations |
| LtvQpLinearisation.DynamicsIsRigidMotion | ats_swerve_mpc/src/se2_model.cpp:11-22 | seen from the body, one period moves it by dt times its own velocity |
| LtvQpLinearisation.ControlJacobianIsTheChange | ats_swerve_mpc/src/se2_model.cpp:29-44 | the control Jacobian is the exact change of the position for any change of the control |
| LtvQpLinearisation.HeadingColumnIsTheDerivative | ats_swerve_mpc/src/se2_model.cpp:29-44 | for any turn the displacement changes by the sine times the heading column less the versed sine times the displacement: the column is its derivative |
| LtvQpLinearisation.HeadingColumnIsTheTurnedDisplacement | ats_swerve_mpc/src/se2_model.cpp:29-44 | the heading column is the displacement turned left by a right angle |
| LtvQpLinearisation.PositionCarriesOver | ats_swerve_mpc/src/se2_model.cpp:29-44 | a shift of the start shifts the end by as much, and the position columns say so |
| LtvQpLinearisation.HeadingRowIsTheChange | ats_swerve_mpc/src/se2_model.cpp:29-44 | the heading rows are the exact change of the heading before normalisation |
| LtvQpProblem.Problem.Build | ats_swerve_mpc/src/ltv_qp_problem.cpp:288-456 | refilling succeeds exactly for plans of the horizon with a positive period and non-negative body limits, wheel base, wheel speed, wheel acceleration, steering rate and weights, and then every buffer describes the plan |
| LtvQpProblem.BuildEqualityMatrix | ats_swerve_mpc/src/ltv_qp_problem.cpp:414-447 | the equality matrix holds the specified entry everywhere |
| LtvQpProblem.BuildInequalityMatrix | ats_swerve_mpc/src/ltv_qp_problem.cpp:372-382 | so does the inequality matrix |
| LtvQpProblem.BuildVariableBounds | ats_swerve_mpc/src/ltv_qp_problem.cpp:391-397 | states are unbounded and controls bounded by the limits around the nominal |
| LtvQpProblem.BoundsAreOrdered | ats_swerve_mpc/src/ltv_qp_problem.cpp:448-456 | the final check for ordered bounds refuses nothing that the input checks admit |
| Csc.Check | ats_swerve_mpc/src/ltv_qp_solver.cpp:126-152 | the one-pass check accepts exactly the layouts with climbing offsets and strictly increasing rows in range |
| Csc.EntryIsStored | ats_swerve_mpc/src/ltv_qp_solver.cpp:126-152 | in a valid layout an expanded entry is its one stored value or zero |
| Csc.SortedAndUnique | ats_swerve_mpc/src/ltv_qp_osqp_solver.cpp:238-245 | sorting and removing duplicates keeps the set of rows and orders it strictly |
| LtvQpSparse.LtvHessianPattern | ats_swerve_mpc/src/ltv_qp_osqp_solver.cpp:162-183 | for every horizon the Hessian pattern is valid and each column is the diagonal with its coupled control |
| LtvQpSparse.LtvConstraintPattern | ats_swerve_mpc/src/ltv_qp_osqp_solver.cpp:191-250 | for every horizon the constraint pattern is valid and each column holds exactly the touched rows |
| LtvQpSparse.GatherRows | ats_swerve_mpc/src/ltv_qp_osqp_solver.cpp:197-232 | the pushes touch exactly the initial, dynamics, increment and bound pairs |
| LtvQpSparse.HessianIsCovered | ats_swerve_mpc/src/ltv_qp_osqp_solver.cpp:162-183 | no Hessian entry on or above the diagonal that the build can make non-zero is outside the pattern |
| LtvQpSparse.StackIsCovered | ats_swerve_mpc/src/ltv_qp_osqp_solver.cpp:191-250 | no constraint entry that the build can make non-zero is outside the pattern |
| LtvQpSparse.CopyHessian | ats_swerve_mpc/src/ltv_qp_osqp_solver.cpp:441-452 | every stored value is the dense entry of its row and column |
| LtvQpSparse.CopyConstraints | ats_swerve_mpc/src/ltv_qp_osqp_solver.cpp:453-463 | the same of the constraint stack |
| LtvQpSparse.HessianIsRestored | ats_swerve_mpc/src/ltv_qp_osqp_solver.cpp:441-452 | expanding the copied Hessian gives back its upper triangle exactly |
| LtvQpSparse.ConstraintsAreRestored | ats_swerve_mpc/src/ltv_qp_osqp_solver.cpp:47-57 | expanding the copied constraints gives back the dense stack exactly |
| LtvQpOsqp.LtvQpOsqpSolver.CopyLtvNumericalValues | ats_swerve_mpc/src/ltv_qp_osqp_solver.cpp:432-481 | copies matrices, gradient and stacked bounds of a valid problem of its horizon, or refuses and changes nothing |
| LtvQpOsqp.HandedOverIsThePlan | ats_swerve_mpc/src/ltv_qp_osqp_solver.cpp:432-481 | what the solver holds is, entry by entry, the plan's own Hessian upper triangle and constraint stack |
| LtvQpAudit.Validate | ats_swerve_mpc/src/ltv_qp_solver.cpp:267-469 | a candidate is accepted exactly when it is admitted and keeps every body, wheel, increment and defined steering limit at every step to within the permitted violation |
| LtvQpAudit.UncheckedCandidatesAreRefused | ats_swerve_mpc/src/ats_swerve_mpc_node.cpp:1445 | a safety record without a collision check, or without map freshness, refuses every candidate |
| AuditRules.AdmittedIff | ats_swerve_mpc/src/ltv_qp_solver.cpp:267-383 | a candidate is looked at exactly when the settings, the solver's report, every input and every safety signal are good |
| AuditRules.BodyAuditMeans | ats_swerve_mpc/src/ltv_qp_solver.cpp:384-424 | the body check is speed and change of every axis within its limit plus the violation |
| AuditRules.WheelAuditMeans | ats_swerve_mpc/src/ltv_qp_solver.cpp:425-459 | the wheel check is speed, change of velocity and, where a steering angle is defined, the angle of the true cosine |
| AuditRules.GuardIsHysteretic | ats_swerve_mpc/src/ltv_qp_solver.cpp:384-459 | the zero-speed guard closes when every wheel is at most at its entry speed and opens only at its strictly larger exit speed |
| LtvQpAudit.AuditStep | ats_swerve_mpc/src/ltv_qp_solver.cpp:384-459 | the running maximum stands for every limit of the step |
| LtvQpAudit.FeasibleDecisionsPassTheBodyChecks | ats_swerve_mpc/src/ltv_qp_solver.cpp:384-424 | a decision that satisfies the QP rows passes every body check, so only the wheels can reject it |
| SnapshotEncoding.DecodeInvertsEncode | ats_swerve_mpc/src/control_cycle_snapshot.cpp:100-126 | the stream can be read back to every identity field, with -0.0 read as +0.0 |
| SnapshotEncoding.StreamIsTheIdentity | ats_swerve_mpc/src/control_cycle_snapshot.cpp:100-126 | two snapshots have one stream exactly when their identities agree |
| SnapshotEncoding.U64RoundTrip | ats_swerve_mpc/src/control_cycle_snapshot.cpp:28-33 | eight little-endian bytes read back to the number, whatever follows |
| SnapshotEncoding.TwosComplementRoundTrip | ats_swerve_mpc/src/control_cycle_snapshot.cpp:35-38 | signed stamps survive the unsigned encoding |
| SnapshotEncoding.StringRoundTrip | ats_swerve_mpc/src/control_cycle_snapshot.cpp:52-58 | the length prefix delimits the string |
| SnapshotDigest.MultiplicationIsInjective | ats_swerve_mpc/src/control_cycle_snapshot.cpp:23-26 | multiplication by the FNV prime modulo 2^64 loses nothing |
| SnapshotDigest.StepIsInjective | ats_swerve_mpc/src/control_cycle_snapshot.cpp:23-26 | one byte step is injective in the state and in the byte |
| SnapshotDigest.OneByteIsAlwaysSeen | ats_swerve_mpc/src/control_cycle_snapshot.cpp:23-26 | equal-length streams that differ in exactly one byte never collide |
| SnapshotDigest.PublishedVectors | ats_swerve_mpc/src/control_cycle_snapshot.cpp:23-26 | the digest of the empty string, "a" and "fo" are the published 64-bit FNV-1a values |
| SnapshotDigest.AuditSeesEveryByte | ats_swerve_mpc/src/control_cycle_snapshot.cpp:92-126 | one identity has one digest, and inputs whose streams differ in one byte have two |
| SnapshotDigest.CanonicalDigestWriter.AppendByte | ats_swerve_mpc/src/control_cycle_snapshot.cpp:23-26 | the writer's value is the digest of everything written |
| SnapshotDigest.CanonicalDigestWriter.AppendU64 | ats_swerve_mpc/src/control_cycle_snapshot.cpp:28-33 | appends the eight little-endian bytes |
| SnapshotDigest.CanonicalDigestWriter.AppendString | ats_swerve_mpc/src/control_cycle_snapshot.cpp:52-58 | appends the length and the bytes |
| SnapshotDigest.CanonicalDigestWriter.AppendBody | ats_swerve_mpc/src/control_cycle_snapshot.cpp:105-125 | appends every field in schema order |
| SnapshotDigest.IdentityDigest | ats_swerve_mpc/src/control_cycle_snapshot.cpp:100-126 | the digest of the whole stream, or 0 exactly for inputs that are not finite |
| TrajectoryTracker.NearestIsNearest | ats_swerve_mpc/src/trajectory_tracker.cpp:124-167 | the chosen squared distance exceeds no admissible segment's by more than 1e-12 per later segment, however yaw broke the ties |
| TrajectoryTracker.NearestIsNearestPoint | ats_swerve_mpc/src/trajectory_tracker.cpp:124-167 | nor that of any admissible point of a segment with a direction or of a turn in place, by more than 1e-12 per segment |
| TrajectoryTracker.NearestIsACandidate | ats_swerve_mpc/src/trajectory_tracker.cpp:124-167 | the choice is an admissible candidate, and exists exactly when one does |
| TrajectoryTracker.FootIsClosest | ats_swerve_mpc/src/trajectory_tracker.cpp:132-150 | the clamped projection is the closest point of the admissible part of its segment |
| TrajectoryTracker.RatiosAreTheWindow | ats_swerve_mpc/src/trajectory_tracker.cpp:143-149 | the admissible ratios are exactly the points whose time is in the window |
| TrajectoryTracker.TheWindowAlwaysMeetsASegment | ats_swerve_mpc/src/trajectory_tracker.cpp:85-88 | on a time-ordered trajectory the search without the window is never needed |
| TrajectoryTracker.NextIsForward | ats_swerve_mpc/src/trajectory_tracker.cpp:93-101 | one projection moves the progress forward by at most the window and keeps it on the trajectory |
| TrajectoryTracker.ProgressNeverDecreases | ats_swerve_mpc/src/trajectory_tracker.cpp:82-103 | the same over any sequence of projections on one trajectory |
| TrajectoryTracker.ProgressScaleIsBounded | ats_swerve_mpc/src/trajectory_tracker.cpp:173-186 | the slowdown stays between its floor and 1 |
| TrajectoryTracker.ProgressScaleDecreases | ats_swerve_mpc/src/trajectory_tracker.cpp:173-186 | it never speeds up with a larger error |
| TrajectoryRules.SmallerYawErrorWinsTheTie | ats_swerve_mpc/src/trajectory_tracker.cpp:151-167 | among admissible segments equally far the smallest yaw error is chosen, the first of those |
| TrajectoryRules.CloserSegmentWins | ats_swerve_mpc/src/trajectory_tracker.cpp:151-167 | a segment closer by more than the tolerance is always taken |
| TrajectoryRules.FootIsNearestInTheWindow | ats_swerve_mpc/src/trajectory_tracker.cpp:106-170 | with progress made, the foot is as near as any point timed inside the window behind and ahead of it, up to the tolerance of ties |
| TrajectoryRules.FootIsInTheWindow | ats_swerve_mpc/src/trajectory_tracker.cpp:143-149 | the foot is itself timed inside the window |
| TrajectoryRules.TurnAdvancesWithTheYaw | ats_swerve_mpc/src/trajectory_tracker.cpp:132-150 | in a turn on the spot the ratio is the share of the turn that the yaw has done |
| TrajectoryRules.FacingAlongHasNoError | ats_swerve_mpc/src/trajectory_tracker.cpp:151-160 | a pose that faces as the trajectory does at the foot has no yaw error |
| TrajectoryRules.ProgressFollowsTheFoot | ats_swerve_mpc/src/trajectory_tracker.cpp:93-101 | the progress goes as near to the foot as the window and the trajectory allow, and stays without a foot |
| TrajectoryRules.FirstProgressIsTheFoot | ats_swerve_mpc/src/trajectory_tracker.cpp:93-101 | the first progress is the foot, kept on the trajectory |
| TrajectoryRules.ScaleFallsLinearly | ats_swerve_mpc/src/trajectory_tracker.cpp:173-186 | the slowdown is 1 up to its start, its floor from its end, and a straight line between |
| TrajectoryTracker.Tracker.NearestProjection | ats_swerve_mpc/src/trajectory_tracker.cpp:106-170 | the loop computes the specified choice |
| TrajectoryTracker.Tracker.Project | ats_swerve_mpc/src/trajectory_tracker.cpp:82-103 | the projection is the limited choice, and the stored progress keeps its invariants |
| TrajectoryTracker.Tracker.SetTrajectory | ats_swerve_mpc/src/trajectory_tracker.cpp:46-51 | a new trajectory starts without progress |
| TrajectoryTracker.Tracker.Clear | ats_swerve_mpc/src/trajectory_tracker.cpp:53-57 | clearing leaves an empty trajectory without progress |

## Left out

- Floating-point rounding, NaN and signed infinities inside arithmetic: reals are exact; finiteness tests are inputs where a result depends on them.
- Trigonometry, `acos` and `sqrt`: parameters; wheel speeds are compared through an abstract root with its defining equation.
- ROS plumbing, parameters, TF lookups, logging, the telemetry ring, JSON and debug topics: stamps, frames and transform success are inputs to steps.
- OSQP, the Eigen factorisations and the iLQR backward pass: feedforward, feedback and cost acceptance are arbitrary inputs.
- MpcNode.AtsSwerveMpcNode.OnEmergencyStop: legacy mode without execution commands, with its watchdog and plain path topic, is not modelled.
- MpcNode.AtsSwerveMpcNode.InstallPath: pose times, their retiming and the trajectory deadline are not part of the state; expiry of the reference is an input of the cycle.
- MpcNode.AtsSwerveMpcNode.Drive: odometry health, goal tolerances and the horizon length are inputs; the cycle takes any request before the increment clamp, and the solver's first control is shown to be one such request clamped.
- The MPC node's fields are grouped into five records by what they record, since one field a variable makes every state equation too costly to check.
- GoalManagerNode.AtsGoalManagerNode.OnTick: the progress watchdog, goal deadlines, convergence windows and footprint checks appear as what one tick observes.
- GoalManagerNode.AtsGoalManagerNode.TryCommitReference: whether the candidate is usable on the current map, and what the gimbal acknowledges, are inputs.
- GoalManager publishes an emergency-stop flag beside every command; only commands authorise motion in the modelled mode, so the flag is not part of the log.
- ObstacleMasks.SomeUnknownCellIsRaisedIff: scores are exact reals; in doubles the score 0.30+0.15+0.10 rounds below 0.55 and threshold 55 is not reached, so the largest such threshold is 54.
- OdomLayer.OdomLayerStore.ClearCloudVoxel: `rebase`, `save` and the footprint sampling of the store are not modelled.
- GroundColumns.GroundColumnGrid.Observe: the flat column, ground and ray-observed vectors are maps by cell, so the index arithmetic is not shown there; the finite test of a point is its constructor.
- GroundClassification.FreeMeansHeadroom: heights are taken after sorting and duplicate removal.
- RayWalk.Ray: crossings closer together than the tolerance (1e-10 of the ray in a frame pass) are taken as one, so a voxel that holds a shorter piece need not be reported; beyond the cap the loop stops early and coverage is not claimed.
- LtvQpTracking.BuiltCostIsTheTrackingCost: state errors, normalised in yaw, are taken as given at the nominal, as the code linearises there.
- LtvQpLinearisation.HeadingRowIsTheChange: the normalised next heading is an input of the stage; the rows are compared with the heading before normalisation.
- MotionLimits.StepKeepsTheAcceleration: one direction; outside the envelope the scaled Twist keeps the body acceleration or not, depending on how much it has to give way.
- LtvQpProblem.Problem.Build: the zero-speed guard flags of the problem are diagnostic outputs and are not modelled; sizes of the nominal sequences are equal by construction.
- LtvQpAudit.Validate: sizes and finiteness of matrices and results are one input; the nonlinear reconstruction of states is not part of this model.
- LtvQpSparse.LtvHessianPattern: dense fallback patterns for other sizes are not modelled.
- SnapshotDigest.AuditSeesEveryByte: streams that differ in several bytes may collide, as with any 64-bit digest.
- TrajectoryTracker.NearestIsNearestPoint: segments shorter than the direction threshold but not turns in place have no best-point claim; their candidate is the foot the code takes.
- TrajectoryTracker.Tracker.SetTrajectory: trajectories are time-ordered, as the node leaves every reference it installs.
- The Livox driver, odometry filters, static map fusion, the arbiter and the map node: I/O and thin wrappers around unseen libraries.
