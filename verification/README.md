# Verified model of the OpenArm control stack

A Dafny 4.11 model of the parts of the OpenArm repository that decide whether an arm may
move, how it moves and what it may touch, with proofs of what those parts promise.

| area | modules |
|---|---|
| controller: lifecycle, plans, monitors, feedback ring, motors | `Motors`, `ArmFeedback`, `ArmRuntimes`, `ControllerModel`, `ControllerSafety`, `ControllerRuns`, `ControllerArms`, `ControllerCycle`, `ControllerGates`, `EmergencyStop`, `KeepoutScene`, `Controllers` |
| seventh-order trajectories | `Polynomials`, `Smoothstep`, `Trajectory`, `Reference` |
| collision geometry | `SegmentDistance`, `PlanarNorm`, `CylinderSearch`, `CollisionScene`, `SceneDistance` |
| route search | `RouteEdge`, `RoutePlanner`, `RouteReach` |
| inverse kinematics | `PositionIk`, `DampedStep`, `LinearSolve` |
| calibration sessions | `RecipeModel`, `RecipeHistory`, `RecipeExample`, `RecipeSessions`, `ManualSessions` |
| command transport | `CanFrames`, `Transport`, `CommandBytes` |
| CAN probe and command frames | `CanProbe`, `MitFrame` |
| manifest text and digests | `DelimitedText`, `ManifestText`, `ManifestPrinting`, `Sha256Spec`, `Sha256Constants`, `Sha256` |
| shared types and facts | `Common`, `RealFacts`, `Geometry` |

How the parts are modelled:

- Doubles are exact reals, so every number is finite; square and cube roots are parameters
  constrained by their defining equations. Counters are natural numbers; where the source
  checks a 64-bit bound, so does the model.
- What the source updates in place is a class, an array or a loop here too. The controller,
  an arm and a recipe session also have their operations as functions on values
  (`ControllerModel`, `ArmFeedback`, `RecipeModel`): each method's contract equates the
  object's whole next state with the function's, and statements about all runs are lemmas
  about the functions.
- The transport is a state machine over the atomic steps of `send`, `receive`,
  `issueAuthority` and `close`: a list of events is an interleaving.
- Kinematics, inverse kinematics inside a route, collision values inside a controller cycle,
  mesh gaps, number formatting, the bus and the clock are parameters of the model, and the
  statements hold for all of them.

Where the code and its surroundings disagree, the model follows the code:

- The closest-point routine is documented as exact. A squared length or a denominator in
  (0, 1e-18] can make it miss the minimum (`SegmentDistance.CutOffCanMissTheMinimum` has one
  such pair); exactly when it does is `SegmentDistance.CodeIsNearestIffResolved`.
- Printing a manifest that carries no digest computes one over the digest line's own prefix,
  so the parser refuses the text (`ManifestText.UnsealedRecordNeedsCollision`). No caller in the
  repository meets the case: both that print a digest line set the digest first
  (runtime/src/persistence.cpp:567-573 and 955-961).
- The position solver reports success when its last kinematics evaluation fails, because the
  error is still zero then (`PositionIk.SolveBlind`). An OK is backed by an evaluation if and
  only if kinematics succeed at the clamped seed (`PositionIk.Solve`). The forward kinematics
  fail on data that are not finite and on nothing else (model/src/openarm_model.c:112-128), so
  over exact reals the shipped left and right models do not meet the case.
- The comment on `advance` says nothing can mask the emergency stop
  (control/src/control_core.cpp:1446-1450). An advance halts the controller at an asserted stop
  if and only if the controller has not noted the stop already, unless it was halted before
  (`EmergencyStop.AdvanceUnderStop`, and over runs `EmergencyStop.StopAfterRun`). Two ways lead
  to an advance that does nothing: a planner notes the stop while a command runs
  (`EmergencyStop.CommandOutlivesTheStop`), or the controller halts at the stop, and is then
  reset, opened and armed again while it stays asserted, since none of these operations looks
  at it (`EmergencyStop.ArmingOutlivesTheStop`). In both the motors stay enabled; no plant is
  stepped in any case.

## Model

| member | source | states |
|---|---|---|
| `SegmentDistance.DistanceIsQuadratic` | model/src/openarm_collision.c:133-153 | the squared distance of two points at parameters s and t is the quadratic form the code minimises |
| `SegmentDistance.StationaryIsNearest` | model/src/openarm_collision.c:142-153 | a point of the unit square with no descent direction is a global minimum, parallel and degenerate segments included |
| `SegmentDistance.NearestIsStationary` | model/src/openarm_collision.c:142-153 | and every global minimum is such a point |
| `SegmentDistance.StationaryIffResolved` | model/src/openarm_collision.c:136-157 | the code's choice is stationary exactly when every slope it skipped because of a cut-off has the right sign, a condition on the inner products of the inputs alone |
| `SegmentDistance.CodeIsNearestIffResolved` | model/src/openarm_collision.c:136-157 | for every pair of segments: the chosen parameters minimise the distance over the whole unit square if and only if that condition holds |
| `SegmentDistance.CleanInputsAreResolved` | model/src/openarm_collision.c:136-157 | the condition holds whenever both squared lengths and the denominator are zero or above 1e-18 |
| `SegmentDistance.CutOffCanMissTheMinimum` | model/src/openarm_collision.c:148-150 | a concrete pair with a denominator inside the cut-off for which the reported distance is not the minimum |
| `SegmentDistance.MinimumDistance` | model/src/openarm_collision.c:159-168 | the same as a statement about clearances |
| `SegmentDistance.SegmentClearanceDetail` | model/src/openarm_collision.c:102-168 | the function itself: unusable exactly for a negative radius; otherwise the clearance at the chosen parameters, which is the least clearance whenever the condition holds |
| `Smoothstep.SmoothstepIsPosition` | control/src/control_core.cpp:54-63 | the two coded polynomials are the seventh-order law and its derivative |
| `Smoothstep.VelocityPeak` | control/src/control_core.cpp:54-63 | the first derivative stays between 0 and 2.1875 |
| `Smoothstep.AccelerationPeak` | control/src/control_core.cpp:1116-1119 | the second derivative stays within the factor 8 the planner uses |
| `Smoothstep.JerkPeak` | control/src/control_core.cpp:1120-1122 | the third derivative stays within 52.5 |
| `Trajectory.JointThreshold` | control/src/control_core.cpp:1111-1122 | the three quotients, square root and cube root say exactly when a duration is enough for a joint |
| `Trajectory.TrajectoryDuration` | control/src/control_core.cpp:1102-1130 | the least whole number of nanoseconds that is enough for every active joint and ten cycles, or saturation |
| `Trajectory.DurationPositive` | control/src/control_core.cpp:1106-1129 | no move takes zero time |
| `Reference.SegmentRate` | control/src/control_core.cpp:1533-1547 | within a segment position, velocity and acceleration each change no faster than the limit on the next derivative |
| `Reference.PlanRespectsLimits` | control/src/control_core.cpp:1520-1548 | over a whole plan, across any number of waypoints and after its end: position, velocity and acceleration between any two moments change no faster than the scaled velocity, acceleration and jerk limits |
| `Reference.PlanMeetsWaypoints` | control/src/control_core.cpp:1520-1548 | at each waypoint time the reference is at the waypoint with zero velocity and acceleration, from both sides |
| `Reference.PlanStaysBetween` | control/src/control_core.cpp:1520-1548 | at every moment the reference lies between the two waypoints of its segment |
| `Reference.PlanAfter` | control/src/control_core.cpp:1527-1532 | after the last waypoint time the reference stays there |
| `Reference.ReferenceAt` | control/src/control_core.cpp:1520-1548 | the cycle's segment search and evaluation compute exactly that reference for every joint of both arms |
| `Reference.CommandIsPlanValue` | control/src/control_core.cpp:1533-1547 | the commanded position and velocity are the plan's position and velocity laws |
| `Reference.PlanTimes` | control/src/control_core.cpp:914-933 | the planner's timetable: each segment gets the least duration that is enough; it is refused only when no timetable fits 64 bits |
| `Reference.TimedIsFeasible` | control/src/control_core.cpp:914-933 | every timetable so made is slow enough for every joint |
| `Reference.PlanWithinLimits` | control/src/control_core.cpp:1520-1548 | at every moment of such a plan the commanded velocity and acceleration themselves are within the scaled limits |
| `Reference.TimedPlanKeepsLimits` | control/src/control_core.cpp:914-933 | every plan so timed keeps each joint, at every moment, within its own limits times the request's scales |
| `Transport.StepKeepsClose` | transport/src/transport.cpp:343-354 | every atomic step keeps: a close past its store stops new work, past its join nothing is in progress, and once returned no grant is left |
| `Transport.StepKeepsCalls` | transport/src/transport.cpp:212-275 | every step keeps: a send that got past a check satisfies it, and a cleared send owns a covering grant |
| `Transport.StepKeepsGrants` | transport/src/transport.cpp:295-341 | every step keeps: live grants are issued ones, dangerous frames only, and none exist if the backend refuses issuance |
| `Transport.StepKeepsSerials` | transport/src/transport.cpp:222-234 | every step keeps: a grant is live, held by one send, or spent on one frame, never two of these |
| `Transport.RunKeepsInvariant` | transport/src/transport.cpp:201-354 | all of this over every interleaving |
| `Transport.EveryFrameSpendsItsOwnGrant` | transport/src/transport.cpp:212-275 | in every interleaving each frame other than a query was paid for by its own grant for exactly that frame and class, unexpired and reaching the deadline, and no grant is spent twice |
| `Transport.RefusingBackendSeesQueriesOnly` | transport/src/transport.cpp:295-304 | a backend that refuses issuance only ever receives well-formed, timely queries |
| `Transport.BackendFrames` | transport/src/transport.cpp:144-191 | whatever reaches the backend: never motion or unknown; outside the parameter identifier only the four special frames; on it only the four known commands with a valid target |
| `CommandBytes.ClassesOnBytes` | transport/src/transport.cpp:144-191 | what each class means of the bytes: a query is a register read or a status request with zero padding; everything else that is let through changes the drive |
| `CommandBytes.OnlyAskingIsFree` | transport/src/transport.cpp:212-275 | in every interleaving, read off the bytes: a frame goes without a grant exactly when it only asks; every frame that changes a drive spent its own grant, issued for exactly these bytes and good until its deadline; a refusing backend is asked and nothing else |
| `CommandBytes.SendGoesExactly` | transport/src/transport.cpp:237-275 | after any interleaving an uninterrupted send hands over its frame, and that alone, exactly when it is open, timely and either asks without authority or brings the live grant of these bytes |
| `CommandBytes.ExpiredGrantIsErased` | transport/src/transport.cpp:222-228 | a send that brings an expired grant is refused and the grant is gone |
| `CommandBytes.IssueGrantsExactly` | transport/src/transport.cpp:295-341 | an uninterrupted issue makes a grant exactly for bytes that change a drive, from an open, permitting transport, for at most five seconds |
| `Transport.NothingAfterClose` | transport/src/transport.cpp:343-354 | after a close returned, whatever runs or was waiting hands nothing over and no grant exists |
| `Transport.CloseIsFinal` | transport/src/transport.cpp:343-354 | the same for every run cut at such a point |
| `Transport.SendReachesBackendIffAllowed` | transport/src/transport.cpp:237-275 | an uninterrupted send hands its frame over if and only if it is open, timely, well formed and authorised; then its grant is gone |
| `Transport.IssuedGrantAllowsSend` | transport/src/transport.cpp:295-341 | an issued authority does authorise a timely send of its frame |
| `Transport.FailedIssueLeavesNothing` | transport/src/transport.cpp:327-335 | an issue whose handle cannot be allocated leaves grants, issued count and calls as they were |
| `Motors.EncodeInvertsDecode` | control/src/control_core.cpp:69-78 | a decoded field lies in the span and encodes to itself |
| `Motors.UnpackInvertsPack` | control/src/control_core.cpp:263-276 | the feedback frame carries status, position, velocity and torque fields without loss |
| `Motors.CaptureThenPublish` | control/src/control_core.cpp:281-298 | what is measured is the plant to the resolution of the frame: status, position, velocity and contact torque |
| `Motors.ForcedMeasurement` | control/src/control_core.cpp:300-307 | a forced state is measured to within half a step of the frame of the position and velocity asked for, clamped to its span, and without torque |
| `Motors.FieldEnds` | control/src/control_core.cpp:69-78 | field values run from the lower end of the span to the upper |
| `Motors.FrameIsOneNumber` | control/src/control_core.cpp:263-276 | the first six bytes are status, identifier, position, velocity and torque written one after the other |
| `Motors.StepIsLimited` | control/src/control_core.cpp:214-244 | a plant step keeps to the drive's velocity, and to its acceleration unless it arrives |
| `Motors.StepStopsAtCommand` | control/src/control_core.cpp:214-244 | commanded to rest, a plant never steps past its command |
| `Motors.StepMovesToCommand` | control/src/control_core.cpp:214-244 | and started from rest it moves towards it |
| `Motors.TorqueIsPressure` | control/src/control_core.cpp:247-266 | an obstructed drive reports the gain times how far its joint is from its command |
| `Motors.ObstacleGain` | control/src/control_core.cpp:200-212 | without a gain of its own an obstacle brings the drive to its rated torque at 0.15 rad |
| `Motors.HoldDoesNotDrift` | control/src/control_core.cpp:441-446 | holding in place leaves the measured pose unchanged, however often it is repeated |
| `ArmFeedback.RoundIsMaximalPrefix` | control/src/control_core.cpp:392-419 | a publishing round takes the longest prefix of ready generations, stopping after an incomplete one or at a spent counter |
| `ArmFeedback.PublishDueIsFifo` | control/src/control_core.cpp:392-419 | publishing takes exactly that round out of the ring: the sequence rises by one per complete generation, and status, position, velocity, torque and capture time of every motor are read from the newest complete one's frame, or unchanged when there is none |
| `ArmFeedback.StepKeepsCoherent` | control/src/control_core.cpp:327-446 | after every arm operation the seven measurements share one capture time, the generation timestamp; it and the sequence never decrease |
| `ArmFeedback.RunKeepsCoherent` | control/src/control_core.cpp:327-446 | over every timed run, under arbitrary injections and delay changes |
| `ArmFeedback.SequenceCountsGenerations` | control/src/control_core.cpp:392-439 | each operation raises the sequence by exactly the complete generations it delivered or forced |
| `ArmFeedback.StepStaysFaithful` | control/src/control_core.cpp:381-439 | every generation captured since the queue was last cleared has left the ring or waits in it, in capture order, and none left before its ready time; of those that left, the sequence counts the complete ones and every motor shows the newest of them, while an incomplete one was discarded unseen |
| `ArmFeedback.RunStaysFaithful` | control/src/control_core.cpp:381-439 | so over every timed run |
| `ArmFeedback.RunKeepsGridded` | control/src/control_core.cpp:263-307 | over every run, once anything was delivered or forced every measured position is one that came out of a frame |
| `ArmFeedback.StopStays` | control/src/control_core.cpp:441-446 | so a stop in place changes no measured position |
| `ArmFeedback.NewArmRun` | control/src/control_core.cpp:321-446 | all of this for every timed run of a new arm, with nothing assumed of it |
| `ArmFeedback.StuckStays` | control/src/control_core.cpp:214-220 | a frozen or obstructed plant does not move |
| `ArmFeedback.CycleFailsExactly` | control/src/control_core.cpp:354-379 | the cycle fails exactly for a refused command, a ready time past 64 bits or a full ring of 64 |
| `ArmFeedback.CycleShowsPlants` | control/src/control_core.cpp:354-419 | with nothing waiting: a cycle that loses no joint shows every plant as the step left it; one that loses joints shows nothing new; a delayed one shows nothing yet |
| `ArmFeedback.CycleKeepsEnabled` | control/src/control_core.cpp:354-379 | a cycle switches no motor and never takes the sequence back |
| `ArmRuntimes.ArmRuntime.constructor` | control/src/control_core.cpp:321-325 | in place, with arrays: a new arm: nothing measured, nothing waiting, disabled; the arm's whole state afterwards is the value operation's result |
| `ArmRuntimes.ArmRuntime.SetEnabled` | control/src/control_core.cpp:327-331 | in place, with arrays: switches all seven motors; the arm's whole state afterwards is the value operation's result |
| `ArmRuntimes.ArmRuntime.SetBlocked` | control/src/control_core.cpp:504-515 | in place, with arrays: blocks or frees all seven; the arm's whole state afterwards is the value operation's result |
| `ArmRuntimes.ArmRuntime.SetInjection` | control/src/control_core.cpp:333-352 | in place, with arrays: replaces masks, delay and fault marks; the arm's whole state afterwards is the value operation's result |
| `ArmRuntimes.ArmRuntime.Enqueue` | control/src/control_core.cpp:381-390 | in place, with arrays: appends to the ring, refused when 64 wait; the arm's whole state afterwards is the value operation's result |
| `ArmRuntimes.ArmRuntime.Pop` | control/src/control_core.cpp:412-413 | in place, with arrays: takes the oldest out of the ring; the arm's whole state afterwards is the value operation's result |
| `ArmRuntimes.ArmRuntime.Deliver` | control/src/control_core.cpp:404-409 | in place, with arrays: publishes every motor and makes the generation visible; the arm's whole state afterwards is the value operation's result |
| `ArmRuntimes.ArmRuntime.PublishDue` | control/src/control_core.cpp:392-419 | in place, with arrays: the whole publishing loop over the ring; the arm's whole state afterwards is the value operation's result |
| `ArmRuntimes.ArmRuntime.ClearQueue` | control/src/control_core.cpp:421-428 | in place, with arrays: drops what waits; the arm's whole state afterwards is the value operation's result |
| `ArmRuntimes.ArmRuntime.ForceState` | control/src/control_core.cpp:430-439 | in place, with arrays: forces every motor and drops what waits; the arm's whole state afterwards is the value operation's result |
| `ArmRuntimes.ArmRuntime.MaterializeStop` | control/src/control_core.cpp:441-446 | in place, with arrays: holds or releases in place; the arm's whole state afterwards is the value operation's result |
| `ArmRuntimes.ArmRuntime.CommandAndStep` | control/src/control_core.cpp:354-379 | in place, with arrays: command, step, capture, enqueue, publish, with every failure exit; the arm's whole state afterwards is the value operation's result |
| `Controllers.Controller.constructor` | control/src/control_core.cpp:538-563 | a closed controller over two new arms, with nothing published: which satisfies the invariant |
| `Controllers.Controller.OpenAndVerify` | control/src/control_core.cpp:565-589 | verification: the status and the controller's whole next state, both arms and unread events included, are the value operation's; the invariant is kept and no spent plan comes back |
| `Controllers.Controller.Challenge` | control/src/control_core.cpp:634-652 | a fresh challenge: the status and the controller's whole next state, both arms and unread events included, are the value operation's; the invariant is kept and no spent plan comes back |
| `Controllers.Controller.ArmWith` | control/src/control_core.cpp:654-678 | arming against the outstanding challenge: the status and the controller's whole next state, both arms and unread events included, are the value operation's; the invariant is kept and no spent plan comes back |
| `Controllers.Controller.PlanMotion` | control/src/control_core.cpp:747-767 | planning preconditions, and the plan bound to this feedback and verification: the status and the controller's whole next state, both arms and unread events included, are the value operation's; the invariant is kept and no spent plan comes back |
| `Controllers.Controller.Execute` | control/src/control_core.cpp:1132-1176 | acceptance of a plan: the status and the controller's whole next state, both arms and unread events included, are the value operation's; the invariant is kept and no spent plan comes back |
| `Controllers.Controller.SetInterlock` | control/src/control_core.cpp:1738-1759 | emergency stop and deadman: the status and the controller's whole next state, both arms and unread events included, are the value operation's; the invariant is kept and no spent plan comes back |
| `Controllers.Controller.Stop` | control/src/control_core.cpp:1772-1797 | controlled or disabling stop: the status and the controller's whole next state, both arms and unread events included, are the value operation's; the invariant is kept and no spent plan comes back |
| `Controllers.Controller.Disarm` | control/src/control_core.cpp:1799-1812 | disarming: the status and the controller's whole next state, both arms and unread events included, are the value operation's; the invariant is kept and no spent plan comes back |
| `Controllers.Controller.Reset` | control/src/control_core.cpp:1814-1831 | reset to closed: the status and the controller's whole next state, both arms and unread events included, are the value operation's; the invariant is kept and no spent plan comes back |
| `Controllers.Controller.Heartbeat` | control/src/control_core.cpp:1725-1736 | producer heartbeat: the status and the controller's whole next state, both arms and unread events included, are the value operation's; the invariant is kept and no spent plan comes back |
| `Controllers.Controller.SetSceneRevision` | control/src/control_core.cpp:1761-1770 | scene revision: the status and the controller's whole next state, both arms and unread events included, are the value operation's; the invariant is kept and no spent plan comes back |
| `Controllers.Controller.PollEvent` | control/src/control_core.cpp:1833-1841 | reading the oldest event: the status and the controller's whole next state, both arms and unread events included, are the value operation's; the invariant is kept and no spent plan comes back |
| `Controllers.Controller.SetSimFault` | control/src/control_core.cpp:1674-1698 | fault injection: the status and the controller's whole next state, both arms and unread events included, are the value operation's; the invariant is kept and no spent plan comes back |
| `Controllers.Controller.SetSimState` | control/src/control_core.cpp:1700-1723 | forced joint state: the status and the controller's whole next state, both arms and unread events included, are the value operation's; the invariant is kept and no spent plan comes back |
| `Controllers.Controller.ClearSimContact` | control/src/control_core.cpp:1439-1441 | removing an obstacle: the status and the controller's whole next state, both arms and unread events included, are the value operation's; the invariant is kept and no spent plan comes back |
| `Controllers.Controller.Advance` | control/src/control_core.cpp:1445-1637 | one whole control cycle: the status and the controller's whole next state, both arms and unread events included, are the value operation's; the invariant is kept and no spent plan comes back |
| `Controllers.Controller.Publish` | control/src/control_core.cpp:1843-1868 | appends to the 64-slot event ring in place; when 64 are unread, overwrites the oldest and fails closed |
| `ControllerSafety.NewIsGood` | control/src/control_core.cpp:538-563 | a new controller satisfies the invariant |
| `ControllerSafety.ApplyMoves` | control/src/control_core.cpp:565-1902 | every operation keeps it, and only makes permitted moves |
| `ControllerSafety.RunKeepsGood` | control/src/control_core.cpp:565-1902 | between any two operations of every run: never VERIFYING, ARMING or STOPPING; EXECUTING iff a plan is held iff a command number is; armed or executing means all 14 motors enabled; closed, disarmed or emergency-stopped means all disabled |
| `ControllerSafety.OverwrittenEventFailsClosed` | control/src/control_core.cpp:1843-1868 | an operation that loses an unread event ends in FAULT with no plan, all motors disabled and the loss as newest event |
| `ControllerSafety.AcceptanceBinds` | control/src/control_core.cpp:1132-1176 | acceptance needs the present verification and feedback, and makes the plan spent |
| `ControllerSafety.SpentStaysSpent` | control/src/control_core.cpp:1132-1831 | no operation makes a spent plan acceptable again |
| `ControllerSafety.PlanAcceptedAtMostOnce` | control/src/control_core.cpp:1132-1176 | over every run a plan is accepted at most once |
| `ControllerSafety.NoPlanSurvivesReset` | control/src/control_core.cpp:1814-1831 | a plan bound before a reset is never accepted after it |
| `ControllerSafety.FreshPlanIsAccepted` | control/src/control_core.cpp:1132-1176 | a plan bound now and asked for in time is accepted |
| `ControllerSafety.ChallengeArmsAtMostOnce` | control/src/control_core.cpp:634-678 | over every run one challenge arms at most once |
| `ControllerRuns.KeepoutBound` | control/src/control_core.cpp:1221-1298 | a command that started clear and still runs has measured protected clearance of at least 10 mm minus one micrometre per latest consecutive cycle below the floor, whatever operations came between |
| `ControllerRuns.ClearStartIsBounded` | control/src/control_core.cpp:1377-1390 | an accepted command that starts clear satisfies the bound from the start |
| `ControllerRuns.CycleRemembers` | control/src/control_core.cpp:1582-1589 | a cycle that lets its command run on measured either a clear pose or one no worse than before by more than a micrometre |
| `ControllerRuns.SettleCounts` | control/src/control_core.cpp:1590-1635 | settling moves on by exactly one arrival a cycle, and completes only after three counted intervals over three cycle times |
| `ControllerRuns.CompletedNeedsUnbrokenRun` | control/src/control_core.cpp:1590-1635 | over every run COMPLETED ends an unbroken at-goal run of three cycle times in which both arms delivered three new generations |
| `ControllerRuns.OnlyCyclesTouchTheCommand` | control/src/control_core.cpp:565-1841 | no other operation touches what the monitors and settling remember, or reports COMPLETED |
| `ControllerArms.ApplyReach` | control/src/control_core.cpp:565-1902 | every controller operation is, on each arm, some timed run of that arm's own operations |
| `ControllerArms.ArmsStayInOrder` | control/src/control_core.cpp:565-1902 | so between any two operations of any run from a new controller each arm has one capture time for all seven joints, a ring in order, and shows the newest complete generation that left it |
| `ControllerArms.StopsDoNotDrift` | control/src/control_core.cpp:441-446 | and at any such moment a stop of both arms, holding or releasing, leaves every measured position as it is |
| `ControllerCycle.RunningCycleFollowsReference` | control/src/control_core.cpp:1445-1589 | after every cycle that leaves a command executing, each of the fourteen motors is commanded to its own arm's row of the command's reference at the time since the start (0 before it), mapped by its own offset and scale; and the cycle was allowed to step: sound feedback, no longer after the last cycle than the cycle time, not past producer deadline or expiry, and at the plan's start pose if it starts it |
| `ControllerCycle.IdleCycleRests` | control/src/control_core.cpp:1498-1561 | a successful cycle without a command commands every motor to rest where it was measured |
| `ControllerCycle.RefusedCycleStepsNothing` | control/src/control_core.cpp:1482-1519 | an armed cycle that may not step ends in FAULT without a plan and steps no plant; its motors stay on exactly if a late command asked for a controlled stop, the arms are virtual and sound, and the event ring has room |
| `ControllerCycle.CompletedMeansThere` | control/src/control_core.cpp:1590-1672 | a command is reported COMPLETED only from a cycle past its duration that followed the reference, with every joint of every moving arm measured within its tolerances of its own target, and its tool too where the motion says so |
| `ControllerCycle.PressesAreCounted` | control/src/control_core.cpp:1300-1345 | a monitored cycle adds one to the contact streak if some joint bears at least its threshold, else clears it, and lets the command go on only if that is not yet enough |
| `ControllerCycle.StreakIsCounted` | control/src/control_core.cpp:1300-1345 | over every run the streak of a command is the number of its latest monitored cycles in a row that were pressed |
| `ControllerCycle.NeverPressedTooLong` | control/src/control_core.cpp:1300-1345 | so no command goes on after as many pressed cycles in a row as its plan allows |
| `ControllerCycle.MonitoredCycleGoesOn` | control/src/control_core.cpp:1221-1345 | a monitored command may go on only if contact is not enough, and its pose is clear without closing a monitored terminal contact, or is no closer by more than a micrometre than before; otherwise it ends in the same cycle, idle and holding |
| `ControllerGates.AcceptedExactly` | control/src/control_core.cpp:1132-1176 | a plan is accepted if and only if the controller is idle, all motors have reported in time, together and without fault, the plan carries this instance, epoch, manifest, model and scene revision and these feedback sequences, no joint is a milliradian from its start pose, and now <= start, start + duration <= expiry, start < expiry <= plan expiry and now < producer deadline; the command then runs under those limits |
| `ControllerGates.ArmedExactly` | control/src/control_core.cpp:654-678 | arming succeeds if and only if a disarmed controller is answered with its outstanding challenge in time, every motor has reported itself disabled, the deadman is held and the event ring has room |
| `ControllerGates.ChallengedExactly` | control/src/control_core.cpp:634-652 | a challenge is issued exactly to a disarmed controller with quiet arms or to a halted one, is new, and lasts one second |
| `ControllerGates.PlannedExactly` | control/src/control_core.cpp:747-767 | a planner goes on exactly for an idle, sound, virtual controller with unchecked collisions outside an emergency stop; what it binds is bound to the present |
| `ControllerGates.OpenEnds` | control/src/control_core.cpp:565-589 | verification succeeds exactly for a closed virtual controller with room for its event, and ends disarmed with every motor at rest at zero, or later where it was measured |
| `ControllerGates.StopEnds` | control/src/control_core.cpp:1772-1797 | a disabling stop ends disarmed and off, a controlled one idle and on, without a command and without stepping a plant |
| `ControllerGates.DisarmEnds` | control/src/control_core.cpp:1799-1812 | disarming succeeds exactly in time and in a lifecycle that allows it, ends off and steps no plant |
| `ControllerGates.InterlockEnds` | control/src/control_core.cpp:1738-1759 | an emergency stop or released deadman ends in ESTOP, off and without a command, from anywhere |
| `ControllerGates.ResetExactly` | control/src/control_core.cpp:1814-1831 | a halted controller is reset exactly by its own challenge in time, and is then closed, off, under a new epoch, without injected faults |
| `ControllerGates.HeartbeatExactly` | control/src/control_core.cpp:1725-1736 | only the running command's deadline is renewed, to a later moment than now; a dead one faults the controller |
| `ControllerGates.ForcedExactly` | control/src/control_core.cpp:1700-1723 | a forced state is taken exactly inside every joint's position and velocity limits and the span of its frame |
| `ControllerGates.InjectedExactly` | control/src/control_core.cpp:1674-1698 | which injections are taken, and the masks, delay and fault marks they leave on their arm alone |
| `ControllerGates.EventSays` | control/src/control_core.cpp:1843-1868 | the newest event carries the moment, lifecycle, command and the older of the two sequences, or says that it overwrote one |
| `KeepoutScene.WatchingKeepsFloor` | control/src/control_core.cpp:1178-1214 | a keepout evaluation that is the scoped report at 10 mm meets the assumption of `ControllerRuns.KeepoutBound` |
| `KeepoutScene.GuardedCommandStaysApart` | control/src/control_core.cpp:1221-1298 | over every run: in each monitored cycle that lets a command go on, at the pose it measured, every capsule pair and pole segment not exempt on which the routines are exact is really at least 10 mm apart, less one micrometre per latest consecutive cycle below the floor |
| `EmergencyStop.AdvanceUnderStop` | control/src/control_core.cpp:1451-1468 | with the emergency stop asserted an advance steps no plant: each motor's plant stays as it was or rests in its measured pose. It ends in ESTOP or FAULT if and only if the controller had not noted the stop or was halted already, and without a plan if and only if it had not noted the stop or held none; when it had not, all motors are disabled and it ends in ESTOP, or in FAULT exactly if the event ring is full |
| `EmergencyStop.RunNotes` | control/src/control_core.cpp:750-753 | over every run the stop is noted if and only if the latest operation that noted it (an advance, or a planner other than the single-joint one, finding it asserted) or forgot it (an advance finding it released) noted it |
| `EmergencyStop.NotedMeans` | control/src/control_core.cpp:1451-1467 | the same over the list of operations: some operation noted the stop and none after it forgot it |
| `EmergencyStop.StopAfterRun` | control/src/control_core.cpp:1451-1468 | so after any operations a caller can tell beforehand: the next advance under the stop halts the controller, and drops its plan, exactly under those conditions |
| `EmergencyStop.PlanningHidesTheStop` | control/src/control_core.cpp:750-753 | in every state, a planner that finds the stop asserted makes the next advance under it leave lifecycle, plan, command and arms as they are |
| `EmergencyStop.CommandOutlivesTheStop` | control/src/control_core.cpp:747-753 | a run from a new controller in which a command is still executing, all motors on, after such an advance |
| `EmergencyStop.ArmingOutlivesTheStop` | control/src/control_core.cpp:565-678 | a run from a new controller that halts at the stop, is reset and armed while it stays asserted, and is still armed, all motors on, after the next advance |
| `EmergencyStop.StopHoldsExactly` | control/src/control_core.cpp:1451-1468 | in every run from a new controller an advance under the stop leaves each plant as it was or at rest exactly where it was measured |
| `RecipeHistory.StepKeepsInv` | commission/src/calibration_session.cpp:431-709 | every accepted step keeps the session's fields true to its trace; a refused one aborts or changes nothing |
| `RecipeHistory.RunKeepsInv` | commission/src/calibration_session.cpp:431-752 | over every sequence of steps, commits and aborts |
| `RecipeHistory.EnergyGrows` | commission/src/calibration_session.cpp:334-350 | contact energy only accumulates |
| `RecipeHistory.StopsFit` | commission/src/calibration_session.cpp:655-668 | the shared offset maps both stops to within half their distance of the model stop |
| `RecipeHistory.RunKeepsVetted` | commission/src/calibration_session.cpp:276-332 | over every sequence of operations, every accepted step has a recent sample without fault, cool, and names the recipe's own evidence, fixture and posture; precheck lies in the start window, and outside the motion the drive is off and the stop clear |
| `RecipeHistory.CommitMeansFullPass` | commission/src/calibration_session.cpp:276-752 | a commit is granted only after one in-order pass: from the start window with the drive off, two separate full dwells in contact on every sample, and between them a retreat of the full distance and no more than the tolerance further, ended slowly; each sample newer than the last, energy never over its ceiling, every motion step by ready time plus two approach times and a retreat time, inside the travel envelope, with the stop clear, the deadman held, the drive enabled and speed, torque and temperature within limits, every step on a recent faultless sample bound to the recipe's evidence, fixture and posture, and both stop means mapped within half the repeatability tolerance |
| `RecipeExample.CommitIsReachable` | commission/src/calibration_session.cpp:431-745 | a nine-step session that does reach its commit |
| `RecipeSessions.RecipeSession.constructor` | commission/src/calibration_session.cpp:264-265 | a session in precheck, true to an empty trace of accepted steps |
| `RecipeSessions.RecipeSession.Step` | commission/src/calibration_session.cpp:431-709 | a step in any phase, in place: status and whole next state are the value operation's, the trace grows by the step exactly if it is accepted, and the fields stay true to the trace |
| `RecipeSessions.RecipeSession.Commit` | commission/src/calibration_session.cpp:711-745 | hands out the patch from review with a newer revision only, and then the trace is the full pass described for `RecipeHistory.CommitMeansFullPass` |
| `RecipeSessions.RecipeSession.Abort` | commission/src/calibration_session.cpp:747-752 | aborts unless already ended |
| `ManualSessions.MeanBetween` | commission/src/calibration_session.cpp:55-80 | the mean lies between the extremes of its window |
| `ManualSessions.ScaleError` | commission/src/calibration_session.cpp:180-188 | a unit slope misses the model distance by at most the scale error times the measured distance |
| `ManualSessions.TwoPointResidual` | commission/src/calibration_session.cpp:189-195 | the two residuals are opposite and at most half of that |
| `ManualSessions.ManualSession.Sample` | commission/src/calibration_session.cpp:104-143 | EUNSTABLE exactly for a sample that moves too fast or lies further than the spread limit from some sample of its window; which samples are refused, restart, clear or extend the window, whose samples are steady and each strictly newer than the last; a finished window moves on to the second reference or to the candidate, with its average as mean |
| `ManualSessions.ManualSession.CalculateCandidate` | commission/src/calibration_session.cpp:167-196 | all references finished: a candidate exactly if there is one reference or both distances are large enough and agree with a unit slope of the known sign; otherwise ELIMIT in the same phase |
| `ManualSessions.ManualSession.BeginReview` | commission/src/calibration_session.cpp:198-204 | only a candidate enters review |
| `ManualSessions.ManualSession.Commit` | commission/src/calibration_session.cpp:206-235 | committed only from review with a newer revision and evidence; every sample of every window then maps within the spread plus half the scale error over the reference distance |
| `ManualSessions.ManualSession.Abort` | commission/src/calibration_session.cpp:237-245 | aborts unless already ended |
| `RouteEdge.ValidateEdge` | model/src/openarm_route.c:146-226 | the 17-sample loop computes the edge |
| `RouteEdge.ValidEdgeIff` | model/src/openarm_route.c:146-226 | an edge is valid exactly when its path is solvable throughout and its clearance recovers, if it must and may, without ever giving any back, and is then kept to the end |
| `RouteEdge.EdgeFacts` | model/src/openarm_route.c:162-225 | a valid edge ends with planning clearance, leaves a preserved arm alone, recovered iff its start lacked clearance, minimum at least 10 mm and without recovery 25 mm |
| `RouteReach.EdgeFollowsTheLine` | model/src/openarm_route.c:182-197 | for an inverse kinematics that brings the tool within e of the point asked for: along a valid edge sample k keeps each free tool within e of start + k/16 (target - start) |
| `RouteReach.EdgeStepsAreSmall` | model/src/openarm_route.c:85-118 | each sample is solved from the one before, so no joint of a free arm moves more than the request's step between them |
| `RouteReach.EdgeArrives` | model/src/openarm_route.c:182-225 | a valid edge ends with each free tool within e of its target, and a preserved one where it was and should be |
| `RouteReach.RouteArrives` | model/src/openarm_route.c:303-334 | every waypoint of a returned route has its joints at its own tool points, and the last at the target asked for |
| `RoutePlanner.GrowTree` | model/src/openarm_route.c:281-300 | discovering a candidate keeps the tree of valid edges, whose entries are all different, so the queue has room |
| `RoutePlanner.Expand` | model/src/openarm_route.c:277-301 | one queue entry: all its valid edges to undiscovered candidates are taken |
| `RoutePlanner.WalkBack` | model/src/openarm_route.c:305-311 | the predecessor walk yields the tree path and never runs out of room |
| `RoutePlanner.ReadBack` | model/src/openarm_route.c:303-334 | the route read back is a chain of valid edges |
| `RoutePlanner.Plan` | model/src/openarm_route.c:228-335 | EINVAL exactly for an unacceptable request; a route is a chain of valid edges from the start to the target with no candidate twice; ENOPATH means the search is exhausted; ECAPACITY never happens |
| `RoutePlanner.RouteKeepsClearance` | model/src/openarm_route.c:146-226 | along any such route every waypoint has planning clearance, only the first edge can recover, and a preserved arm's joints are those of the start |
| `RoutePlanner.RouteReportsClearance` | model/src/openarm_route.c:312-333 | its flag is set iff the start lacked clearance, and its minimum is at least 10 mm, without recovery 25 mm |
| `RoutePlanner.ExhaustedMeansNoLastEdge` | model/src/openarm_route.c:302 | then neither the start nor any discovered pose has a valid edge to the target |
| `Sha256Spec.PaddingIsMinimal` | runtime/src/sha256.cpp:67-75 | the padding meets section 5.1.1 of FIPS 180-4: the least number of zero bits |
| `Sha256Spec.LengthFieldSpells` | runtime/src/sha256.cpp:72-75 | the length field holds the bit length for every message under 2^61 bytes |
| `Sha256Constants.RoundConstants` | runtime/src/sha256.cpp:13-24 | every round constant is the first 32 bits of the fraction of the cube root of its prime |
| `Sha256Constants.InitialValues` | runtime/src/sha256.cpp:59-62 | every initial value those of the square root |
| `Sha256.FillSchedule` | runtime/src/sha256.cpp:27-40 | the schedule array is the standard's message schedule |
| `Sha256.Round` | runtime/src/sha256.cpp:43-51 | the shifted working variables are one round of the standard |
| `Sha256.CompressInPlace` | runtime/src/sha256.cpp:26-54 | the block function is the standard's, in place |
| `Sha256.HashWholeBlocks` | runtime/src/sha256.cpp:58-66 | the streaming loop folds all whole blocks |
| `Sha256.FillTail` | runtime/src/sha256.cpp:67-75 | the tail buffer is the rest of the message with its padding |
| `Sha256.FoldAppend` | runtime/src/sha256.cpp:63-77 | folding a message in two parts |
| `Sha256.Sha256Hex` | runtime/src/sha256.cpp:58-87 | the result is the hexadecimal digest of section 6.2 of FIPS 180-4 |
| `Sha256.ByteRoundTrip` | runtime/src/sha256.cpp:103-111 | two digits read back to their byte |
| `Sha256.DecodeHex` | runtime/src/sha256.cpp:103-111 | reading the inner digest back loses nothing |
| `Sha256.PadKeys` | runtime/src/sha256.cpp:92-98 | the padded keys |
| `Sha256.HmacSha256Hex` | runtime/src/sha256.cpp:89-115 | the keyed digest is section 2 of RFC 2104 |
| `DelimitedText.FieldsOfJoin` | runtime/src/manifest.cpp:91-104 | splitting joined fields gives them back |
| `DelimitedText.Split` | runtime/src/manifest.cpp:91-104 | the splitting loop |
| `DelimitedText.SplitLines` | runtime/src/manifest.cpp:273-282 | the line loop, with its length limit |
| `DelimitedText.WordFoundAt` | runtime/src/manifest.cpp:287-291 | a word at a line start is first found where the first such line begins |
| `ManifestText.MotorReadsBack` | runtime/src/manifest.cpp:318-365 | a printed motor line parses to its motor |
| `ManifestText.MarkerIsDigestLine` | runtime/src/manifest.cpp:287-291 | the first digest marker is the line break before the digest line |
| `ManifestText.ParseCanonical` | runtime/src/manifest.cpp:216-393 | printing then parsing returns the record, with the digest it was printed with, exactly when that digest is the hash of the text before the digest line and the record is valid; otherwise refuses |
| `ManifestText.SealedRecordSurvives` | runtime/src/manifest.cpp:216-393 | a record carrying its own digest survives the round trip unchanged |
| `ManifestText.UnsealedRecordNeedsCollision` | runtime/src/manifest.cpp:259-263 | a record printed without a digest is refused unless two different texts hash alike, because the computed digest covers the start of its own line |
| `ManifestText.AcceptedDigestCoversBody` | runtime/src/manifest.cpp:287-298 | in every accepted text the hash covers exactly the sixteen lines before the digest line |
| `ManifestPrinting.PrintCanonical` | runtime/src/manifest.cpp:216-265 | the appending printer |
| `ManifestText.AcceptedRecordIsSized` | runtime/src/manifest.cpp:299-391 | in every accepted text each number fits its field's integer type, names are safe and fit their buffers, and the buses are the backend's |
| `ManifestPrinting.ParseManifest` | runtime/src/manifest.cpp:267-393 | the parsing loops, each number read in its field's type |
| `ManifestPrinting.PatchChangesOneMotor` | runtime/src/manifest.cpp:395-447 | a patch raises the revision to its own and changes one motor only, the one with its serial: scale a, offset b, direction the sign of a, and the evidence of the patch |
| `ManifestPrinting.PatchedRecordSurvives` | runtime/src/manifest.cpp:395-454 | its sealed result survives printing and parsing |
| `PlanarNorm.Triangle` | model/src/openarm_collision.c:178 | the planar norm satisfies the triangle inequality |
| `CylinderSearch.NoPointIsCloser` | model/src/openarm_collision.c:176-187 | no point of the solid cylinder is closer than the two gaps say |
| `CylinderSearch.SomePointIsThatClose` | model/src/openarm_collision.c:176-187 | and one is exactly that far |
| `CylinderSearch.SquaredConvex` | model/src/openarm_collision.c:208-211 | the squared distance is convex along the segment |
| `CylinderSearch.NarrowHigh` | model/src/openarm_collision.c:222-224 | dropping the upper third keeps a point as close as any |
| `CylinderSearch.NarrowLow` | model/src/openarm_collision.c:224-226 | dropping the lower third too |
| `CylinderSearch.DistanceMoves` | model/src/openarm_collision.c:189-256 | the distance changes by at most the way moved |
| `CylinderSearch.NarrowedBrackets` | model/src/openarm_collision.c:208-228 | after n rounds two thirds to the nth of the segment is left, with a point as close as any on it |
| `CylinderSearch.CapsuleClearance` | model/src/openarm_collision.c:189-256 | the reported clearance is never more than 1e-9 below the true one, and never above it for any segment up to 1e8 m |
| `CollisionScene.Evaluate` | model/src/openarm_collision.c:263-353 | stops at the first violation with the minimum so far, or is clear with the overall minimum |
| `CollisionScene.EvaluateScoped` | model/src/openarm_collision.c:405-582 | the minimum over everything not exempt, clear exactly if all of it keeps the threshold, otherwise the place of the least clearance |
| `CollisionScene.MinIsLeast` | model/src/openarm_collision.c:308-348 | a running minimum is below everything counted and is one of those |
| `CollisionScene.EvaluatorsAgree` | model/src/openarm_collision.c:263-582 | without a contact policy: the same verdict, the same minimum when clear, and never a larger scoped minimum when not |
| `CollisionScene.ClearKeepsThreshold` | model/src/openarm_collision.c:567-581 | clear exactly when the reported minimum keeps the threshold |
| `CollisionScene.ContactExemptsOnePair` | model/src/openarm_collision.c:519-536 | with a policy clear means that all other checks keep the threshold and the terminal pair does or is excused: too close, caps facing, hands at least 23 mm apart and other meshes clear |
| `SceneDistance.BodiesAre` | model/src/openarm_collision.c:30-45 | the radii of links and tools, the centreline against the pole, and the pole |
| `SceneDistance.Measure` | model/src/openarm_collision.c:306-340 | the two clearance routines, called with the source's radii and pole, give the scene of eight points a side |
| `SceneDistance.ValueIsTrue` | model/src/openarm_collision.c:308-348 | each of the 63 values is reached by two points to within 1e-9, and undercut by none where its routine is exact |
| `SceneDistance.BeyondKeepsSolidsApart` | model/src/openarm_collision.c:308-348 | a clearance of the centrelines is a distance of the solids: any point of the one capsule from any point of the other or of the pole |
| `SceneDistance.ReportBoundsTheArms` | model/src/openarm_collision.c:405-582 | the scoped minimum bounds the true distance of all solids not exempt, and unless it is the mesh gap something not exempt comes within 1e-9 of it |
| `SceneDistance.ClearMeansApart` | model/src/openarm_collision.c:405-582 | clear means that all solids not exempt are at least the threshold apart |
| `SceneDistance.ApartMeansClear` | model/src/openarm_collision.c:405-582 | and apart by 1e-9 more means clear |
| `SceneDistance.EarlyReportIsTrue` | model/src/openarm_collision.c:263-353 | the same for the evaluator that stops early, whose violation names two things that really come that close |
| `CanProbe.ValidateManifest` | can/src/openarm_can.c:810-839 | accepted exactly when every motor is sound and all identifiers are pairwise different |
| `CanProbe.OkIff` | can/src/openarm_can.c:924-930 | the verdict is OK exactly when the bus went quiet before the limit and every motor answered exactly once, on time, after its request, disabled, with nothing enabled, faulted or stale |
| `CanProbe.KindOnFields` | can/src/openarm_can.c:884-922 | what a frame counts as, read off identifier, length, time and the two nibbles of its first byte |
| `CanProbe.OkOnFields` | can/src/openarm_can.c:884-930 | so OK exactly when the limit was not reached and every motor sent exactly one frame on its identifier, after its request and in time, of eight bytes, with its own number and status nibble 0, and none with nibble 1 or 8 to 14 and none before its request |
| `CanProbe.EnabledOnFields` | can/src/openarm_can.c:924-926 | and EState exactly when some drive reported itself enabled |
| `CanProbe.VerdictIgnoresOrder` | can/src/openarm_can.c:876-930 | the verdict does not depend on the order of frames |
| `CanProbe.VerdictIgnoresUnrelated` | can/src/openarm_can.c:885-900 | nor on unrelated, late or undecodable frames |
| `CanProbe.TallyStep` | can/src/openarm_can.c:884-922 | the report's masks and counters follow the counts |
| `CanProbe.Collect` | can/src/openarm_can.c:876-923 | the receive loop |
| `CanProbe.Probe` | can/src/openarm_can.c:841-931 | the answer is that verdict over the frames delivered, for every transport behaviour; OK exactly under the conditions of `CanProbe.OkOnFields` |
| `MitFrame.TruncatesDownward` | can/src/openarm_can.c:181-189 | a value in range decodes from its field to itself or at most one step lower |
| `MitFrame.FieldRoundTrip` | can/src/openarm_can.c:181-189 | every field value is the code of what it decodes to |
| `MitFrame.UnpackInvertsPack` | can/src/openarm_can.c:279-287 | packing loses nothing |
| `MitFrame.PackInvertsUnpack` | can/src/openarm_can.c:279-287 | every eight bytes are some command |
| `MitFrame.FrameIsOneNumber` | can/src/openarm_can.c:279-287 | the eight bytes are position, velocity, kp, kd and torque written one after the other, in 16 and four times 12 bits |
| `MitFrame.LimitValue` | can/src/openarm_can.c:191-204 | limits or refuses one quantity |
| `MitFrame.EncodeMit` | can/src/openarm_can.c:235-291 | refusals, the saturation mask, and a frame that carries every limited quantity to within one step |
| `DampedStep.OptimalIsLeast` | model/src/openarm_model.c:237-271 | a step that solves the normal equations has the least linearised squared error plus damped weighted distance from the posture pull among all steps that leave pinned joints alone; under damping it is the only one, and without damping the nearest to the pull among all that move the tool alike |
| `DampedStep.StepIsOptimal` | model/src/openarm_model.c:249-271 | the step the source makes joint by joint, from one linear solve each, solves the normal equations |
| `DampedStep.DampingBetween` | model/src/openarm_model.c:245-247 | damping stays between its bounds, at the lower one away from singular poses and at the upper one in them |
| `DampedStep.ComputeStep` | model/src/openarm_model.c:232-274 | the loops over Gram matrix, solves and posture terms give exactly such a least step, or ESINGULAR exactly when some free joint's system lacks a pivot |
| `PositionIk.ClampSeed` | model/src/openarm_model.c:319-326 | weights and box are checked joint by joint, the first complaint counting, and the seed is clamped into the box |
| `PositionIk.SettleActiveSet` | model/src/openarm_model.c:343-357 | the active set grows until no joint at a bound is pushed out of the box, which eight passes always reach; the step is the least one for that set |
| `PositionIk.InitialAlpha` | model/src/openarm_model.c:361-374 | from inside the box there is always room, so the EBOUNDS exit is never taken; the fraction keeps every joint in the box and within the step limit |
| `PositionIk.LineSearch` | model/src/openarm_model.c:376-396 | the halving search ends, and accepts only a pose in the box with strictly less error that lies on the step, unclamped and within the step limit |
| `PositionIk.Iterate` | model/src/openarm_model.c:326-398 | one pass of the loop body: moves only by part of a least-squares step, strictly closer |
| `PositionIk.Solve` | model/src/openarm_model.c:295-416 | argument errors in the source's order; otherwise the result is in the margin box, never further off than the clamped seed, and reached from it by strictly improving parts of least-squares steps; OK exactly when the final error is within tolerance; an OK is backed by a successful evaluation if and only if kinematics succeed at the clamped seed |
| `PositionIk.SolveBlind` | model/src/openarm_model.c:400-413 | where they fail at the clamped seed, the answer is OK without one successful evaluation |
| `PositionIk.ArgumentsExactly` | model/src/openarm_model.c:319-326 | the arguments pass exactly if every joint's seed, posture, weight and limits are usable; else the first that is not decides |
| `PositionIk.TaskMeans` | model/src/openarm_model.c:232-271 | the step of an iterate is computed for the way from tool to target, with the posture pull in proportion to the distance left and damping between its bounds |
| `LinearSolve.ReduceRowEquivalent` | model/src/openarm_model.c:175-180 | an elimination step keeps the solutions |
| `LinearSolve.SelectPivot` | model/src/openarm_model.c:161-165 | the first row whose entry is the largest: no later row has a larger one and every earlier row a strictly smaller one |
| `LinearSolve.PivotsIgnoreRhs` | model/src/openarm_model.c:160-166 | whether a system is taken depends on its matrix alone |
| `LinearSolve.SolvableHasOne` | model/src/openarm_model.c:154-185 | a system that is taken has a solution |
| `LinearSolve.ClearColumn` | model/src/openarm_model.c:175-180 | clears a column in place, keeping the solutions |
| `LinearSolve.Solve3` | model/src/openarm_model.c:154-185 | taken exactly when every column offers a pivot of at least 1e-15; a solution returned is the one and only solution |

## Left out

- IEEE rounding, NaN and infinities: all values are exact reals and finite.
- 64-bit wrap-around of counters and clocks: sequences, epochs, command numbers and nonces are unbounded, except that a feedback sequence at its 64-bit maximum stops publishing as in the source.
- ControllerModel planners: forward and inverse kinematics of the Cartesian planners, joint limit checks and the retreat proof inside paired planning are not modelled; a plan is any motion bound to the present feedback and verification.
- ControllerModel.Commanded: the reference inside a cycle is a parameter; what the source computes there is modelled and proved separately in `Reference`.
- Controller contact report: the record of a stop's cause and poses, snapshots and kinematics queries are output copies.
- Controllers.Controller: its plain fields are kept in one record field, and branch conditions are read off a snapshot of the state.
- Simulated obstacles: whether an arm is resisted in a cycle is an input of the cycle.
- Motors: the two temperature bytes of the feedback frame are not modelled; one motor is a value inside the arm's array, stepped by functions; nothing is proved of the time its plant takes to converge.
- Transport: the receive path is modelled only as far as close must wait for it; sockets, clocks and random numbers are choices of the environment; which binary32 values a register accepts is a parameter.
- RecipeModel: the next-action record returned with each step is not modelled; its limits and deadlines repeat the state.
- ManualSessions.ManualSession.Sample: header and finiteness checks are not modelled.
- RoutePlanner.Plan: the table of anchor poses is a parameter of 21 poses; the search is not claimed to find a shortest route, since an edge depends on the joint vector its start was discovered with.
- CylinderSearch.CapsuleClearance: true clearance is stated pointwise, as a bound against every point of the segment and attainment at one, instead of as an infimum; nothing is claimed against it from above for a segment over 1e8 m.
- SceneDistance: bodies are the source's capsules and pole, which it calls nominal; that they cover the hardware is not claimed.
- CollisionScene: the facing test of the terminal caps and the claw meshes are parameters; failures of the mesh library are not modelled.
- ManifestText.ParseCanonical: number conversion is a parameter, told the type of the field, that inverts on representable numbers with tokens of at most 64 characters; the 18-line signed form is parsed in the model but not printed, as its printer belongs to persistence.
- Sha256Spec: words are bit-vectors and bytes small integers; that the listed numbers are the first 64 primes is by inspection.
- PositionIk.Solve: forward kinematics, the Jacobian, its least singular value and the length of the error are parameters with nothing assumed of them, so nothing is claimed of convergence.
- LinearSolve.Solve3: nothing is claimed about how close to singular a refused system is.
- CanProbe.Probe: output record validation and per-frame reception details beyond the first byte are not modelled.
- Gripper commands, register queries, the sweep tools, persistence, inventory, the C interfaces and the ROS nodes: field copying, I/O and checks that would only add easy members.
