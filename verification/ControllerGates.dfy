/** Exactly when the controller accepts a plan, arms and issues a challenge, in terms of what its
    caller and its motors have told it. */
module ControllerGates {
  import opened Common
  import D = Motors
  import A = ArmFeedback
  import opened ControllerModel
  import opened ControllerSafety
  import opened ControllerCycle
  import E = EmergencyStop

  /** A zero start time means now. */
  function StartOf(s: State, r: ExecuteRequest): nat {
    if r.startNs == 0 then s.nowNs else r.startNs
  }

  /** The plan was bound to this verification of this controller, to the revisions in force and to
      the newest feedback, and the arms have not moved since. */
  predicate BoundNow(s: State, p: Plan) {
    && p.instance == s.options.instance && p.epoch == s.epoch
    && p.manifestRevision == s.options.manifestRevision && p.modelRevision == s.options.modelRevision
    && p.sceneRevision == s.sceneRevision
    && p.seed.left == s.arms.left.feedbackSeq && p.seed.right == s.arms.right.feedbackSeq
    && BothAtStart(s.arms, p)
  }

  /** The command starts no earlier than now, ends before it and the plan expire, and its producer
      is still due. */
  predicate InWindow(s: State, p: Plan, r: ExecuteRequest) {
    && s.nowNs <= StartOf(s, r) && StartOf(s, r) + p.motion.durationNs <= r.expiryNs && StartOf(s, r) < r.expiryNs
    && r.expiryNs <= p.expiryNs && s.nowNs < r.producerDeadlineNs
  }

  /** A plan is accepted exactly when the controller is idle, its arms are sound, the plan is bound
      to the present and the request fits; the command then runs under those limits. */
  lemma AcceptedExactly(w: World, s: State, p: Plan, r: ExecuteRequest)
    requires Good(s)
    ensures Accepts(w, s, OpExecute(p, r)) <==>
            s.lifecycle == ArmedIdle && Sound(s.options, s.arms, s.nowNs) && BoundNow(s, p) && InWindow(s, p, r)
    ensures var t := Execute(w, s, p, r).s;
            Accepts(w, s, OpExecute(p, r)) && |s.events| < 64 ==>
              && t.executing == Some(p) && t.commandId == s.nextCommandId && t.startNs == StartOf(s, r)
              && t.expiryNs == r.expiryNs && t.producerDeadlineNs == r.producerDeadlineNs && t.stopKind == r.stopKind
              && t.contactStreak == 0 && t.arms == s.arms && (t.started <==> StartOf(s, r) == s.nowNs)
  {
    hide LatchFault, Overflow, Powered, SettleSound, FeedbackIntegrity, Healthy, StartPoseMatches, Measure, Sound, BothAtStart;
    LatchKeepsCommandCount(s);
    SoundIs(s);
    AtStartIs(s, p);
    var begun := Begin(w, s, p, r, StartOf(s, r));
    PublishFacts(begun, if begun.started then StartedEvent else QueuedEvent, OK, begun.commandId);
  }

  /** The caller repeats the outstanding challenge, within its second. */
  predicate Answers(s: State, t: Ticket) {
    && s.nonce != 0 && t.nonce == s.nonce && t.epoch == s.epoch && t.expiryNs == s.nonceExpiryNs
    && s.nowNs <= s.nonceExpiryNs
  }

  predicate AllDisabled(a: A.Arm) {
    forall j :: 0 <= j < A.JOINTS ==> a.motors[j].measured.status == 0
  }

  /** Every motor has reported in time, together with the others, and reported itself disabled. */
  predicate QuietArms(s: State) {
    Sound(s.options, s.arms, s.nowNs) && AllDisabled(s.arms.left) && AllDisabled(s.arms.right)
  }

  lemma QuietIs(s: State)
    ensures QuietArms(s) <==> Fresh(s) && Healthy(s) && MotorsReportDisabled(s)
  {
  }

  /** Arming succeeds exactly when a disarmed controller is answered, its arms are quiet, the
      deadman is held and its event ring has room; all fourteen motors are then on. */
  lemma ArmedExactly(s: State, t: Ticket)
    requires Good(s)
    ensures ArmWith(s, t).status == OK <==>
            s.lifecycle == Disarmed && Answers(s, t) && QuietArms(s) && s.deadman && |s.events| < 64
    ensures var a := ArmWith(s, t);
            a.status == OK ==> a.s.lifecycle == ArmedIdle && Powered(a.s.arms, true) && a.s.nonce == 0
  {
    hide LatchFault, Overflow, Powered, SettleSound, FeedbackIntegrity, Healthy, MotorsReportDisabled, EnableInPlace, QuietArms;
    QuietIs(s);
    ArmMoves(s, t);
    LatchNeverOk(s, EEstop);
    LatchNeverOk(s, EFault);
  }

  /** A challenge is issued exactly to a disarmed controller with quiet arms, or to a halted one;
      it is new and good for a second. */
  lemma ChallengedExactly(s: State)
    ensures Challenge(s).status == OK <==>
            (s.lifecycle == Disarmed && QuietArms(s)) || s.lifecycle == Fault || s.lifecycle == EStop
    ensures Challenge(s).status == OK ==>
              Challenge(s).s == s.(nonce := s.nonceCounter + 1, nonceCounter := s.nonceCounter + 1,
                                   nonceExpiryNs := s.nowNs + 1_000_000_000)
  {
    hide LatchFault, FeedbackIntegrity, Healthy, MotorsReportDisabled, QuietArms;
    QuietIs(s);
    LatchNeverOk(s, EFault);
  }

  // ---------------------------------------------------------------------------
  // Where the other operations end.

  /** A stop drops the command and steps no plant: a disabling one ends disarmed with all motors
      off, a controlled one idle with all motors holding. */
  lemma StopEnds(s: State, kind: StopKind)
    requires Good(s) && (s.lifecycle == ArmedIdle || s.lifecycle == Executing) && |s.events| + 1 < 64
    ensures var t := Stop(s, kind).s;
            && Stop(s, kind).status == OK && t.executing == None && t.commandId == 0
            && (kind == StopDisable ==> t.lifecycle == Disarmed && Powered(t.arms, false))
            && (kind == StopControlled ==> t.lifecycle == ArmedIdle && Powered(t.arms, true))
            && E.NothingStepped(s, t)
  {
    hide MaterializeStop, Overflow, Powered, SettleSound, E.Stopped, E.ArmHeld;
    StopMoves(s, kind);
    E.MaterializeStops(s, kind == StopControlled);
    StoppedHeld(s, MaterializeStop(s, kind == StopControlled));
    StopIs(s, kind);
  }

  lemma StoppedHeld(s: State, t: State)
    requires E.Stopped(s.arms.left, t.arms.left) && E.Stopped(s.arms.right, t.arms.right)
    ensures E.NothingStepped(s, t)
  {
    hide E.Stopped, E.ArmHeld;
    E.StoppedOnce(s.arms.left, t.arms.left);
    E.StoppedOnce(s.arms.right, t.arms.right);
  }

  lemma StopIs(s: State, kind: StopKind)
    requires (s.lifecycle == ArmedIdle || s.lifecycle == Executing) && |s.events| + 1 < 64
    ensures var t := Stop(s, kind).s;
            && Stop(s, kind).status == OK && t.arms == MaterializeStop(s, kind == StopControlled).arms
            && t.executing == None && t.commandId == 0
            && t.lifecycle == if kind == StopDisable then Disarmed else ArmedIdle
  {
    hide StopArm, Overflow;
  }

  /** Disarming in time ends disarmed with all motors off, and steps no plant. */
  lemma DisarmEnds(s: State, deadlineNs: nat)
    requires Good(s) && |s.events| < 64
    ensures Disarm(s, deadlineNs).status == OK <==>
            s.nowNs <= deadlineNs && (s.lifecycle == ArmedIdle || s.lifecycle == Executing || s.lifecycle == Disarmed)
    ensures var t := Disarm(s, deadlineNs).s;
            Disarm(s, deadlineNs).status == OK ==>
              t.lifecycle == Disarmed && t.executing == None && Powered(t.arms, false) && E.NothingStepped(s, t)
  {
    hide MaterializeStop, Overflow, Powered, SettleSound, E.Stopped, E.ArmHeld;
    DisarmMoves(s, deadlineNs);
    E.MaterializeStops(DropPlan(s), false);
    StoppedHeld(s, MaterializeStop(DropPlan(s), false));
  }

  /** A halted controller is reset exactly by the answer to its own challenge; it is then closed,
      off, under a new epoch and without injected faults. */
  lemma ResetExactly(s: State, epoch: nat, nonce: nat)
    requires Good(s)
    ensures Reset(s, epoch, nonce).status == OK <==>
            (s.lifecycle == Fault || s.lifecycle == EStop) && epoch == s.epoch && nonce == s.nonce != 0
            && s.nowNs <= s.nonceExpiryNs
    ensures var t := Reset(s, epoch, nonce).s;
            Reset(s, epoch, nonce).status == OK ==>
              && t.lifecycle == Closed && t.epoch == s.epoch + 1 && t.nonce == 0 && Powered(t.arms, false)
              && Uninjected(t.arms.left) && Uninjected(t.arms.right)
    ensures Reset(s, epoch, nonce).status != OK ==> Reset(s, epoch, nonce).s == s
  {
    hide Powered, SettleSound, ResetArm;
    ResetMoves(s, epoch, nonce);
    ResetClears(s.arms.left);
    ResetClears(s.arms.right);
  }

  predicate Uninjected(a: A.Arm) {
    && a.freeze == {} && a.drop == {} && a.commandFail == {} && a.delayNs == 0 && a.queue == []
    && forall j :: 0 <= j < A.JOINTS ==> a.motors[j].faultStatus == 0
  }

  lemma ResetClears(a: A.Arm)
    ensures Uninjected(ResetArm(a))
  {
  }

  /** An emergency stop or a released deadman halts from anywhere, with all motors off. */
  lemma InterlockEnds(s: State, estop: bool, deadman: bool)
    requires Good(s) && (estop || !deadman)
    ensures var t := SetInterlock(s, estop, deadman).s;
            && t.lifecycle == (if |s.events| < 64 then EStop else Fault)
            && t.executing == None && t.commandId == 0 && Powered(t.arms, false) && t.deadman == deadman
            && SetInterlock(s, estop, deadman).status != OK
  {
    hide Publish, Interlocked, Powered, SettleSound;
    var stopped := Interlocked(s, deadman);
    InterlockMoves(s, estop, deadman);
    InterlockedMoves(s, deadman);
    InterlockedFrame(s, deadman);
    InterlockPublishes(s, estop, deadman);
    PublishFacts(stopped, EStopEvent, EEstop, s.commandId);
    PublishHasRoom(stopped, EStopEvent, EEstop, s.commandId);
    PublishIsFull(stopped, EStopEvent, EEstop, s.commandId);
  }

  /** Only the running command's producer renews its deadline, and only to a later moment than
      now; a dead one faults the controller. */
  lemma HeartbeatExactly(s: State, commandId: nat, deadlineNs: nat)
    requires Good(s)
    ensures Heartbeat(s, commandId, deadlineNs).status == OK <==>
            s.lifecycle == Executing && commandId == s.commandId && deadlineNs > s.nowNs
    ensures Heartbeat(s, commandId, deadlineNs).status == OK ==>
              Heartbeat(s, commandId, deadlineNs).s == s.(producerDeadlineNs := deadlineNs)
    ensures s.lifecycle == Executing && commandId == s.commandId && deadlineNs <= s.nowNs ==>
              Heartbeat(s, commandId, deadlineNs).s.lifecycle == Fault && Heartbeat(s, commandId, deadlineNs).s.executing == None
  {
    hide LatchFault, Powered, SettleSound;
    LatchIsNoSuccess(s, EStale, true);
    LatchStops(s, EStale, true);
  }

  /** A forced state is taken exactly inside every joint's limits and frame. */
  lemma ForcedExactly(s: State, right: bool, q: A.Joints, dq: A.Joints)
    ensures SetSimState(s, right, q, dq).status == OK <==>
            s.options.virtual && forall j :: 0 <= j < A.JOINTS ==>
              var c := (if right then s.arms.right else s.arms.left).motors[j].config;
              && c.lower <= q[j] <= c.upper && -c.maxVelocity <= dq[j] <= c.maxVelocity
              && -c.pmax <= (q[j] - c.qOffset) / c.qScale <= c.pmax
    ensures SetSimState(s, right, q, dq).status != OK ==> SetSimState(s, right, q, dq).s == s
  {
    hide A.Force;
  }

  // ---------------------------------------------------------------------------
  // Verification, planning, simulation and events.

  /** Verification is for a closed virtual controller; it ends disarmed under a new epoch with all
      motors off, at rest and just heard from: at zero the first time, later where they were
      measured. */
  lemma OpenEnds(s: State)
    requires Good(s)
    ensures OpenAndVerify(s).status == OK <==> s.lifecycle == Closed && s.options.virtual && |s.events| < 64
    ensures var t := OpenAndVerify(s).s;
            OpenAndVerify(s).status == OK ==>
              && t.lifecycle == Disarmed && t.epoch == s.epoch + 1 && Powered(t.arms, false)
              && Placed(s.arms.left, t.arms.left, s.epoch == 0, s.nowNs) && Placed(s.arms.right, t.arms.right, s.epoch == 0, s.nowNs)
  {
    hide Overflow, Powered, SettleSound, Reverify, Placed;
    OpenMoves(s);
    ReverifyPlaces(s.arms.left, s.epoch == 0, s.nowNs);
    ReverifyPlaces(s.arms.right, s.epoch == 0, s.nowNs);
  }

  /** Each motor is commanded to rest at zero, or where it was measured. */
  predicate Placed(a: A.Arm, b: A.Arm, zero: bool, nowNs: nat) {
    && b.feedbackSeq == a.feedbackSeq + 1 && b.queue == []
    && forall j :: 0 <= j < A.JOINTS ==>
         && b.motors[j].measured.tNs == nowNs && b.motors[j].plantDq == 0.0
         && b.motors[j].plantQ == if zero then -a.motors[j].config.qOffset / a.motors[j].config.qScale else a.motors[j].measured.rawQ
  }

  lemma ReverifyPlaces(a: A.Arm, zero: bool, nowNs: nat)
    ensures Placed(a, Reverify(a, zero, nowNs), zero, nowNs)
  {
    hide D.Reading, D.Capture;
    var b := Reverify(a, zero, nowNs);
    forall j | 0 <= j < A.JOINTS
      ensures b.motors[j].plantDq == 0.0
      ensures b.motors[j].plantQ == if zero then -a.motors[j].config.qOffset / a.motors[j].config.qScale else a.motors[j].measured.rawQ
    {
      D.CancelMapping(a.motors[j].measured.rawQ, a.motors[j].config.qScale, a.motors[j].config.qOffset, D.MappedQ(a.motors[j]));
    }
  }

  /** A planner goes on exactly for an idle controller with sound arms, outside an emergency stop,
      whose scene needs no check of its own; the plan it then binds would be accepted now. */
  lemma PlannedExactly(s: State, estop: bool)
    ensures PlanPreconditions(s, estop).status == OK <==>
            !estop && s.lifecycle == ArmedIdle && Sound(s.options, s.arms, s.nowNs) && s.options.virtual && s.options.unchecked
    ensures PlanPreconditions(s, estop).status == OK ==> PlanPreconditions(s, estop).s == s
    ensures forall motion, expiryNs :: BoundNow(s, Bind(s, motion, expiryNs))
  {
    hide LatchFault, FeedbackIntegrity, Healthy, Sound, BothAtStart, StartPoseMatches;
    SoundIs(s);
    LatchNeverOk(s, EFault);
    forall motion, expiryNs
      ensures BoundNow(s, Bind(s, motion, expiryNs))
    {
      var p := Bind(s, motion, expiryNs);
      BoundPoseMatches(s, motion, expiryNs);
      AtStartIs(s, p);
    }
  }

  lemma BoundPoseMatches(s: State, motion: Motion, expiryNs: nat)
    ensures StartPoseMatches(s, Bind(s, motion, expiryNs))
  {
    NearItself(A.MeasuredQ(s.arms.left));
    NearItself(A.MeasuredQ(s.arms.right));
  }

  /** What an injection leaves behind on its arm; the other arm is untouched. */
  lemma InjectedExactly(s: State, right: bool, i: A.Injection)
    ensures SetSimFault(s, right, i).status == OK <==>
            && s.options.virtual && (forall j :: j in i.freeze || j in i.drop || j in i.fault || j in i.commandFail ==> j < 7)
            && (i.fault == {} || i.status == 0 || 8 <= i.status <= 14)
    ensures var t := SetSimFault(s, right, i).s;
            SetSimFault(s, right, i).status == OK ==>
              var a := if right then t.arms.right else t.arms.left;
              && (if right then t.arms.left == s.arms.left else t.arms.right == s.arms.right)
              && a.freeze == i.freeze && a.drop == i.drop && a.commandFail == i.commandFail && a.delayNs == i.delayNs
              && forall j :: 0 <= j < A.JOINTS ==>
                   a.motors[j].faultStatus == if j !in i.fault then 0 else if i.status == 0 then 8 else i.status
  {
    hide D.ForceState, A.WellFormed;
    MasksAreJoints(i.freeze, i.drop, i.fault, i.commandFail);
  }

  lemma MasksAreJoints(a: set<nat>, b: set<nat>, c: set<nat>, d: set<nat>)
    ensures a + b + c + d <= A.ALL_JOINTS <==> forall j :: j in a || j in b || j in c || j in d ==> j < 7
    ensures a + b + c + d <= A.ALL_JOINTS ==> a * A.ALL_JOINTS == a && b * A.ALL_JOINTS == b && d * A.ALL_JOINTS == d
  {
  }

  /** A published event is the newest, and carries the moment, the lifecycle, the command and the
      older of the two arms' sequences; one that overwrote another says so instead. */
  lemma EventSays(s: State, kind: EventKind, cause: Status, commandId: nat)
    requires |s.events| <= 64
    ensures var p := Publish(s, kind, cause, commandId);
            && p.ok == (|s.events| < 64) && |p.s.events| > 0
            && var e := p.s.events[|p.s.events| - 1];
            && e.tNs == s.nowNs && e.commandId == commandId
            && e.feedbackSeq <= p.s.arms.left.feedbackSeq && e.feedbackSeq <= p.s.arms.right.feedbackSeq
            && (e.feedbackSeq == p.s.arms.left.feedbackSeq || e.feedbackSeq == p.s.arms.right.feedbackSeq)
            && (p.ok ==> e.kind == kind && e.cause == cause && e.lifecycle == s.lifecycle && p.s.events == s.events + [e])
            && (!p.ok ==> e.kind == FaultedEvent && e.cause == EBusy && e.lifecycle == Fault && p.s.events == s.events[1..] + [e])
  {
    hide StopArm;
  }
}
