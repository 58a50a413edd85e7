/** The controller on values: every operation as a function of the whole state. */
module ControllerModel {
  import opened Common
  import opened RealFacts
  import opened Motors
  import opened ArmFeedback

  const EVENT_CAPACITY: nat := 64
  const FIRST_NONCE: nat := 0x4f50_454e_4152_4d
  const CHALLENGE_LIFETIME_NS: nat := 1_000_000_000
  const START_DRIFT_RAD: real := 0.001
  const WORSENING_EPSILON_M: real := 0.000001
  const INTERVENTION_M: real := 0.010

  datatype Lifecycle = Closed | Verifying | Disarmed | Arming | ArmedIdle | Executing | Stopping | Fault | EStop

  datatype Status = OK | EInval | EState | EUnsupported | EStale | EFault | EIdentity | EEstop | ECollision
                  | ELimit | ETimeout | ECan | EBusy

  datatype StopKind = StopDisable | StopControlled

  datatype EventKind = VerifiedEvent | ArmedEvent | QueuedEvent | StartedEvent | SettlingEvent | CompletedEvent
                     | AbortedEvent | StoppedEvent | DisarmedEvent | FaultedEvent | EStopEvent

  datatype Event = Event(kind: EventKind, lifecycle: Lifecycle, tNs: nat, commandId: nat, feedbackSeq: nat, cause: Status)

  datatype Options = Options(
    virtual: bool, unchecked: bool, cycleNs: nat, timeoutNs: nat, skewNs: nat,
    manifestRevision: nat, modelRevision: nat, instance: nat)

  /** What a planner worked out; the rest of a plan binds it to one moment of one controller. */
  datatype Motion = Motion(
    active: Pair<bool>, target: Pair<Joints>, positionTolerance: Pair<real>, velocityTolerance: Pair<real>,
    checksTcp: bool, durationNs: nat, contactMonitored: bool, terminalContact: bool,
    persistenceCycles: nat, thresholds: Pair<Joints>, path: nat)

  datatype Plan = Plan(
    motion: Motion, expiryNs: nat, start: Pair<Joints>, seed: Pair<nat>,
    manifestRevision: nat, modelRevision: nat, sceneRevision: nat, instance: nat, epoch: nat)

  /** One evaluation of the protected clearance. */
  datatype Keepout = Keepout(clear: bool, clearance: Option<real>, touching: bool)

  datatype Reference = Reference(q: Pair<Joints>, dq: Pair<Joints>)

  /** Kinematics, collision geometry and trajectory sampling, which this module does not open. */
  datatype World = World(
    reference: (Plan, nat) -> Reference,
    keepout: (Joints, Joints, bool) -> Keepout,
    tcpReached: (Plan, bool, Joints) -> bool)

  datatype State = State(
    options: Options,
    sceneRevision: nat,
    arms: Pair<Arm>,
    lifecycle: Lifecycle,
    nowNs: nat,
    epoch: nat,
    nonceCounter: nat,
    nonce: nat,
    nonceExpiryNs: nat,
    nextCommandId: nat,
    commandId: nat,
    startNs: nat,
    expiryNs: nat,
    producerDeadlineNs: nat,
    settleStartNs: nat,
    settleSeq: Pair<nat>,
    settleIntervals: nat,
    stopKind: StopKind,
    started: bool,
    settlingPublished: bool,
    deadman: bool,
    contactStreak: nat,
    lastClearance: Option<real>,
    estopLatched: bool,
    executing: Option<Plan>,
    events: seq<Event>)

  function NewController(options: Options, sceneRevision: nat, arms: Pair<Arm>): State {
    State(options, sceneRevision, arms, Closed, 0, 0, FIRST_NONCE, 0, 0, 1, 0, 0, 0, 0, 0, Pair(0, 0), 0, StopDisable,
          false, false, true, 0, Some(0.0), false, None, [])
  }

  datatype Result = Result(s: State, status: Status)

  // ---------------------------------------------------------------------------
  // What the controller reads from its arms.

  function Sequences(s: State): Pair<nat> {
    Pair(s.arms.left.feedbackSeq, s.arms.right.feedbackSeq)
  }

  function Distance(a: nat, b: nat): nat {
    if a > b then a - b else b - a
  }

  function FeedbackIntegrity(s: State): Status {
    if !CompleteFresh(s.arms.left, s.nowNs, s.options.timeoutNs)
       || !CompleteFresh(s.arms.right, s.nowNs, s.options.timeoutNs) then EStale
    else if Distance(s.arms.left.generationNs, s.arms.right.generationNs) <= s.options.skewNs then OK
    else ECan
  }

  predicate Fresh(s: State) {
    FeedbackIntegrity(s) == OK
  }

  predicate Healthy(s: State) {
    FaultFree(s.arms.left) && FaultFree(s.arms.right)
  }

  predicate MotorsReportDisabled(s: State) {
    && ReportsDisabled(s.arms.left, s.nowNs, s.options.timeoutNs)
    && ReportsDisabled(s.arms.right, s.nowNs, s.options.timeoutNs)
  }

  function Drift(q: real, start: real): real {
    Abs(q - start)
  }

  predicate Near(q: Joints, start: Joints) {
    forall j :: 0 <= j < JOINTS ==> Drift(q[j], start[j]) <= START_DRIFT_RAD
  }

  predicate StartPoseMatches(s: State, p: Plan) {
    Near(MeasuredQ(s.arms.left), p.start.left) && Near(MeasuredQ(s.arms.right), p.start.right)
  }

  function Measure(w: World, s: State, terminalContact: bool): Keepout {
    w.keepout(MeasuredQ(s.arms.left), MeasuredQ(s.arms.right), terminalContact)
  }

  predicate ArmAtGoal(w: World, p: Plan, right: bool, a: Arm, target: Joints, tolerance: real, velocity: real) {
    && (forall j :: 0 <= j < JOINTS ==>
          Abs(MappedQ(a.motors[j]) - target[j]) <= tolerance && Abs(MappedDq(a.motors[j])) <= velocity)
    && (p.motion.checksTcp ==> w.tcpReached(p, right, MeasuredQ(a)))
  }

  predicate MeasuredAtGoal(w: World, s: State) {
    && s.executing.Some?
    && var p := s.executing.value;
    && var m := p.motion;
    && (m.active.left ==>
          ArmAtGoal(w, p, false, s.arms.left, m.target.left, m.positionTolerance.left, m.velocityTolerance.left))
    && (m.active.right ==>
          ArmAtGoal(w, p, true, s.arms.right, m.target.right, m.positionTolerance.right, m.velocityTolerance.right))
  }

  predicate OverThreshold(a: Arm, thresholds: Joints) {
    exists j :: 0 <= j < JOINTS && thresholds[j] > 0.0 && Abs(MappedTau(a.motors[j])) >= thresholds[j]
  }

  // ---------------------------------------------------------------------------
  // Shared steps.

  function StopArm(a: Arm, virtual: bool, hold: bool, nowNs: nat): (r: Arm)
    ensures AllEnabled(r, hold && virtual && a.feedbackSeq != 0)
    ensures r.feedbackSeq >= a.feedbackSeq
    ensures virtual && a.feedbackSeq != 0 ==> r.feedbackSeq > a.feedbackSeq
  {
    if !virtual then SetEnabled(a, false)
    else if a.feedbackSeq != 0 then ArmFeedback.MaterializeStop(a, hold, nowNs)
    else Retire(SetEnabled(a, false))
  }

  function MaterializeStop(s: State, hold: bool): State {
    s.(arms := Pair(StopArm(s.arms.left, s.options.virtual, hold, s.nowNs),
                    StopArm(s.arms.right, s.options.virtual, hold, s.nowNs)))
  }

  function DropPlan(s: State): State {
    s.(executing := None, commandId := 0)
  }

  datatype Published = Published(s: State, ok: bool)

  function Announce(s: State, kind: EventKind, cause: Status, commandId: nat): State {
    s.(events := s.events + [Event(kind, s.lifecycle, s.nowNs, commandId,
                                   if s.arms.left.feedbackSeq < s.arms.right.feedbackSeq then s.arms.left.feedbackSeq
                                   else s.arms.right.feedbackSeq, cause)])
  }

  /** What an overwritten event costs: the plan, the motors and the lifecycle. */
  function Overflow(s: State): State
    requires s.events != []
  {
    MaterializeStop(DropPlan(s), false).(events := s.events[1..], stopKind := StopDisable, lifecycle := Fault)
  }

  function Publish(s: State, kind: EventKind, cause: Status, commandId: nat): (p: Published)
    ensures p.s.nowNs == s.nowNs
  {
    if |s.events| == EVENT_CAPACITY then Published(Announce(Overflow(s), FaultedEvent, EBusy, commandId), false)
    else Published(Announce(s, kind, cause, commandId), true)
  }

  function PublishAs(s: State, kind: EventKind, cause: Status, commandId: nat, status: Status): Result {
    var p := Publish(s, kind, cause, commandId);
    Result(p.s, if p.ok then status else EBusy)
  }

  predicate HoldAvailable(s: State) {
    s.options.virtual && s.executing.Some? && Fresh(s) && Healthy(s) && s.stopKind == StopControlled
  }

  function LatchFault(s: State, cause: Status, controlled: bool): Result {
    var stopped := MaterializeStop(DropPlan(s), controlled && HoldAvailable(s));
    var latched := stopped.(stopKind := StopDisable, lifecycle := Fault,
                            nonce := s.nonceCounter + 1, nonceCounter := s.nonceCounter + 1);
    PublishAs(latched, FaultedEvent, cause, s.commandId, cause)
  }

  // ---------------------------------------------------------------------------
  // Operations.

  function Reverify(a: Arm, first: bool, nowNs: nat): Arm {
    Force(SetEnabled(a, false), if first then ZERO else MeasuredQ(a), ZERO, nowNs)
  }

  function OpenAndVerify(s: State): Result {
    if s.lifecycle != Closed then Result(s, EState)
    else if !s.options.virtual then Result(s, EUnsupported)
    else
      var first := s.epoch == 0;
      var arms := Pair(Reverify(s.arms.left, first, s.nowNs), Reverify(s.arms.right, first, s.nowNs));
      PublishAs(s.(arms := arms, epoch := s.epoch + 1, lifecycle := Disarmed), VerifiedEvent, OK, 0, OK)
  }

  function Challenge(s: State): Result {
    var forReset := s.lifecycle == Fault || s.lifecycle == EStop;
    if s.lifecycle != Disarmed && !forReset then Result(s, EState)
    else if !forReset && (!Fresh(s) || !Healthy(s) || !MotorsReportDisabled(s)) then
      if !Healthy(s) then LatchFault(s, EFault, false) else Result(s, EStale)
    else
      Result(s.(nonce := s.nonceCounter + 1, nonceCounter := s.nonceCounter + 1,
                nonceExpiryNs := s.nowNs + CHALLENGE_LIFETIME_NS), OK)
  }

  datatype Ticket = Ticket(epoch: nat, nonce: nat, expiryNs: nat)

  predicate TicketMatches(s: State, t: Ticket) {
    && t.epoch == s.epoch && t.nonce == s.nonce && s.nonce != 0
    && t.expiryNs == s.nonceExpiryNs && s.nowNs <= s.nonceExpiryNs
  }

  function EnableInPlace(a: Arm, nowNs: nat): (r: Arm)
    ensures AllEnabled(r, true) && r.feedbackSeq == a.feedbackSeq + 1
  {
    Force(SetEnabled(a, true), MeasuredQ(a), ZERO, nowNs)
  }

  function ArmWith(s: State, t: Ticket): Result {
    if s.lifecycle != Disarmed then Result(s, EState)
    else if !TicketMatches(s, t) then Result(s, EIdentity)
    else if !Fresh(s) then Result(s, EStale)
    else if !Healthy(s) || !MotorsReportDisabled(s) || !s.deadman then
      LatchFault(s, if !s.deadman then EEstop else EFault, false)
    else
      var arms := Pair(EnableInPlace(s.arms.left, s.nowNs), EnableInPlace(s.arms.right, s.nowNs));
      PublishAs(s.(arms := arms, nonce := 0, lifecycle := ArmedIdle), ArmedEvent, OK, 0, OK)
  }

  predicate CollisionAllowed(s: State) {
    s.options.virtual && s.options.unchecked
  }

  /** The checks in front of every planner.  The single-joint planner does not sample the
      emergency stop, so it passes false. */
  function PlanPreconditions(s: State, estop: bool): Result {
    if estop then Result(s.(estopLatched := true), EEstop)
    else if s.lifecycle != ArmedIdle then Result(s, EState)
    else if !Fresh(s) then Result(s, EStale)
    else if !Healthy(s) then LatchFault(s, EFault, false)
    else if !CollisionAllowed(s) then Result(s, ECollision)
    else Result(s, OK)
  }

  /** Binds a motion to this controller, this verification and this feedback. */
  function Bind(s: State, motion: Motion, expiryNs: nat): Plan {
    Plan(motion, expiryNs, Pair(MeasuredQ(s.arms.left), MeasuredQ(s.arms.right)), Sequences(s),
         s.options.manifestRevision, s.options.modelRevision, s.sceneRevision, s.options.instance, s.epoch)
  }

  datatype ExecuteRequest = ExecuteRequest(startNs: nat, expiryNs: nat, producerDeadlineNs: nat, stopKind: StopKind)

  predicate PlanBelongs(s: State, p: Plan) {
    && p.manifestRevision == s.options.manifestRevision && p.modelRevision == s.options.modelRevision
    && p.sceneRevision == s.sceneRevision && p.seed == Sequences(s) && StartPoseMatches(s, p)
  }

  predicate RequestFits(s: State, p: Plan, r: ExecuteRequest, startNs: nat) {
    && s.nowNs <= startNs < r.expiryNs <= p.expiryNs && s.nowNs < r.producerDeadlineNs
    && p.motion.durationNs <= r.expiryNs - startNs
  }

  function Begin(w: World, s: State, p: Plan, r: ExecuteRequest, startNs: nat): State {
    s.(executing := Some(p), commandId := s.nextCommandId, nextCommandId := s.nextCommandId + 1,
       startNs := startNs, expiryNs := r.expiryNs, producerDeadlineNs := r.producerDeadlineNs,
       settleStartNs := 0, settleSeq := Pair(0, 0), settleIntervals := 0, stopKind := r.stopKind,
       started := startNs == s.nowNs, settlingPublished := false, lifecycle := Executing,
       contactStreak := 0, lastClearance := Measure(w, s, p.motion.terminalContact).clearance)
  }

  function Execute(w: World, s: State, p: Plan, r: ExecuteRequest): Result {
    if s.lifecycle != ArmedIdle then Result(s, EState)
    else if !Fresh(s) then Result(s, EStale)
    else if !Healthy(s) then LatchFault(s, EFault, false)
    else if p.instance != s.options.instance || p.epoch != s.epoch then Result(s, EIdentity)
    else if !PlanBelongs(s, p) then Result(s, EStale)
    else
      var startNs := if r.startNs == 0 then s.nowNs else r.startNs;
      if !RequestFits(s, p, r, startNs) then Result(s, EInval)
      else
        var begun := Begin(w, s, p, r, startNs);
        PublishAs(begun, if begun.started then StartedEvent else QueuedEvent, OK, begun.commandId, OK)
  }

  function SetInterlock(s: State, estop: bool, deadman: bool): Result {
    var t := s.(deadman := deadman);
    if !estop && deadman then Result(t, OK)
    else
      var dropped := DropPlan(t);
      var stopped :=
        if s.lifecycle == Closed || s.lifecycle == Verifying then
          dropped.(arms := Pair(Retire(SetEnabled(s.arms.left, false)), Retire(SetEnabled(s.arms.right, false))))
        else MaterializeStop(dropped, false);
      PublishAs(stopped.(lifecycle := EStop, nonce := s.nonceCounter + 1, nonceCounter := s.nonceCounter + 1),
                EStopEvent, EEstop, s.commandId, EEstop)
  }

  function Stop(s: State, kind: StopKind): Result {
    if s.lifecycle != Executing && s.lifecycle != ArmedIdle then Result(s, EState)
    else
      var stopping := s.(lifecycle := Stopping);
      var aborted := if s.executing.Some? then Publish(stopping, AbortedEvent, OK, s.commandId) else Published(stopping, true);
      if !aborted.ok then Result(aborted.s, EBusy)
      else
        var stopped := MaterializeStop(DropPlan(aborted.s), kind == StopControlled);
        PublishAs(stopped.(lifecycle := if kind == StopDisable then Disarmed else ArmedIdle, stopKind := StopDisable),
                  StoppedEvent, OK, s.commandId, OK)
  }

  function Disarm(s: State, deadlineNs: nat): Result {
    if deadlineNs < s.nowNs then Result(s, ETimeout)
    else if s.lifecycle != ArmedIdle && s.lifecycle != Executing && s.lifecycle != Disarmed then Result(s, EState)
    else
      PublishAs(MaterializeStop(DropPlan(s), false).(lifecycle := Disarmed), DisarmedEvent, OK, 0, OK)
  }

  function ResetArm(a: Arm): Arm {
    Retire(SetEnabled(SetInjection(a, NO_INJECTION), false))
  }

  function Reset(s: State, epoch: nat, nonce: nat): Result {
    if s.lifecycle != Fault && s.lifecycle != EStop then Result(s, EState)
    else if epoch != s.epoch || nonce != s.nonce || nonce == 0 || s.nowNs > s.nonceExpiryNs then Result(s, EIdentity)
    else
      Result(s.(arms := Pair(ResetArm(s.arms.left), ResetArm(s.arms.right)), epoch := s.epoch + 1, nonce := 0,
                lifecycle := Closed), OK)
  }

  function Heartbeat(s: State, commandId: nat, deadlineNs: nat): Result {
    if s.lifecycle != Executing || commandId == 0 || commandId != s.commandId then Result(s, EState)
    else if deadlineNs <= s.nowNs then LatchFault(s, EStale, true)
    else Result(s.(producerDeadlineNs := deadlineNs), OK)
  }

  function SetSceneRevision(s: State, revision: nat): Result {
    if revision == 0 then Result(s, EInval)
    else if !s.options.virtual then Result(s, EUnsupported)
    else if s.lifecycle == Executing then Result(s, EBusy)
    else Result(s.(sceneRevision := revision), OK)
  }

  function SetArm(s: State, right: bool, a: Arm): State {
    s.(arms := if right then s.arms.(right := a) else s.arms.(left := a))
  }

  function GetArm(s: State, right: bool): Arm {
    if right then s.arms.right else s.arms.left
  }

  /** Simulated faults; an injected motor fault is made visible at once. */
  function SetSimFault(s: State, right: bool, i: Injection): Result {
    if !s.options.virtual then Result(s, EUnsupported)
    else if !(i.freeze + i.drop + i.fault + i.commandFail <= ALL_JOINTS) then Result(s, EInval)
    else if i.fault != {} && i.status != 0 && (i.status < 8 || i.status > 14) then Result(s, EInval)
    else
      var status := if i.status == 0 then 8 else i.status;
      var a := SetInjection(GetArm(s, right), i.(status := if i.fault == {} then 0 else status));
      Result(SetArm(s, right, if i.fault == {} then a else Force(a, MeasuredQ(a), MeasuredDq(a), s.nowNs)), OK)
  }

  predicate WithinLimits(a: Arm, q: Joints, dq: Joints) {
    forall j :: 0 <= j < JOINTS ==>
      var c := a.motors[j].config;
      c.lower <= q[j] <= c.upper && Abs((q[j] - c.qOffset) / c.qScale) <= c.pmax && Abs(dq[j]) <= c.maxVelocity
  }

  function SetSimState(s: State, right: bool, q: Joints, dq: Joints): Result {
    if !s.options.virtual then Result(s, EUnsupported)
    else if !WithinLimits(GetArm(s, right), q, dq) then Result(s, ELimit)
    else Result(SetArm(s, right, Force(GetArm(s, right), q, dq, s.nowNs)), OK)
  }

  function ClearSimContact(s: State, right: bool): Result {
    if !s.options.virtual then Result(s, EUnsupported)
    else Result(SetArm(s, right, SetBlockedAll(GetArm(s, right), false, 0.0)), OK)
  }

  function PollEvent(s: State): Result {
    if s.events == [] then Result(s, ETimeout) else Result(s.(events := s.events[1..]), OK)
  }

  // ---------------------------------------------------------------------------
  // One control cycle.

  /** `estop` is the process-wide latch as this call reads it; `resisted` is what the
      virtual obstacles decide about each arm. */
  datatype AdvanceInput = AdvanceInput(ns: nat, estop: bool, resisted: Pair<bool>, gain: Pair<real>)

  /** A stage of a cycle ends the call or hands the state on. */
  datatype Stage = Done(result: Result) | Going(s: State)

  function Later(a: nat, b: nat): nat {
    if a >= b then a else b
  }

  function AdvanceStopped(s: State, ns: nat): Result {
    var t := s.(estopLatched := true, nowNs := Later(ns, s.nowNs));
    if s.estopLatched then Result(t, EEstop) else SetInterlock(t, true, s.deadman)
  }

  function IdleStatus(l: Lifecycle): Status {
    if l == ArmedIdle || l == Executing || l == Disarmed then OK else if l == Fault then EFault else EState
  }

  /** The supervision of an armed controller before anything moves. */
  function Supervise(s: State, previousNs: nat): (g: Stage)
    ensures g.Going? ==> g.s == s
  {
    if s.lifecycle != ArmedIdle && s.lifecycle != Executing then Going(s)
    else if !Healthy(s) then Done(LatchFault(s, EFault, false))
    else if FeedbackIntegrity(s) != OK then Done(LatchFault(s, FeedbackIntegrity(s), false))
    else if s.nowNs - previousNs > s.options.cycleNs then Done(LatchFault(s, ETimeout, true))
    else Going(s)
  }

  predicate Running(s: State) {
    s.lifecycle == Executing && s.executing.Some?
  }

  function StartDue(s: State): (g: Stage)
    ensures g.Going? ==> g.s.nowNs == s.nowNs
  {
    if !Running(s) then Going(s)
    else if s.nowNs > s.producerDeadlineNs then Done(LatchFault(s, EStale, true))
    else if s.nowNs > s.expiryNs then Done(LatchFault(s, ETimeout, true))
    else if s.started || s.nowNs < s.startNs then Going(s)
    else if !Fresh(s) || !StartPoseMatches(s, s.executing.value) then Done(LatchFault(s, EStale, false))
    else
      var p := Publish(s.(started := true), StartedEvent, OK, s.commandId);
      if p.ok then Going(p.s) else Done(Result(p.s, EBusy))
  }

  function Commanded(w: World, s: State): Reference {
    if !Running(s) then Reference(Pair(MeasuredQ(s.arms.left), MeasuredQ(s.arms.right)), Pair(ZERO, ZERO))
    else w.reference(s.executing.value, if s.nowNs <= s.startNs then 0 else s.nowNs - s.startNs)
  }

  function Resist(s: State, input: AdvanceInput): State {
    s.(arms := Pair(SetBlockedAll(s.arms.left, input.resisted.left, input.gain.left),
                    SetBlockedAll(s.arms.right, input.resisted.right, input.gain.right)))
  }

  /** Steps the left arm, then the right; the first failure faults. */
  function StepArms(s: State, r: Reference, previousNs: nat): Stage
    requires previousNs <= s.nowNs
  {
    var dt := (s.nowNs - previousNs) as real / 1000000000.0;
    var left := CommandAndStep(s.arms.left, r.q.left, r.dq.left, s.nowNs, dt);
    var t := s.(arms := Pair(left.arm, s.arms.right));
    if !left.ok then Done(LatchFault(t, ECan, false))
    else
      var right := CommandAndStep(s.arms.right, r.q.right, r.dq.right, s.nowNs, dt);
      var u := s.(arms := Pair(left.arm, right.arm));
      if right.ok then Going(u) else Done(LatchFault(u, ECan, false))
  }

  function CheckFeedback(s: State): Stage {
    if FeedbackIntegrity(s) != OK then Done(LatchFault(s, FeedbackIntegrity(s), false))
    else if !Healthy(s) then Done(LatchFault(s, EFault, false))
    else Going(s)
  }

  function CompleteOnContact(s: State): Result {
    var stopped := MaterializeStop(s, true);
    PublishAs(DropPlan(stopped).(settleStartNs := 0, settleSeq := Pair(0, 0), settleIntervals := 0,
                                 settlingPublished := false, lifecycle := ArmedIdle),
              StoppedEvent, OK, s.commandId, OK)
  }

  /** Torque: enough consecutive cycles over a threshold end the command. */
  function MonitorContact(s: State, p: Plan): Stage {
    if !p.motion.contactMonitored then Going(s)
    else if !OverThreshold(s.arms.left, p.motion.thresholds.left)
            && !OverThreshold(s.arms.right, p.motion.thresholds.right) then
      Going(s.(contactStreak := 0))
    else
      var t := s.(contactStreak := s.contactStreak + 1);
      if t.contactStreak < p.motion.persistenceCycles then Going(t) else Done(CompleteOnContact(t))
  }

  /** Below the floor but not closing: let it run. */
  predicate NotWorsening(previous: Option<real>, k: Keepout) {
    previous.Some? && k.clearance.Some? && k.clearance.value >= previous.value - WORSENING_EPSILON_M
  }

  function MonitorKeepout(w: World, s: State, p: Plan): Stage {
    var k := Measure(w, s, p.motion.terminalContact);
    var t := s.(lastClearance := k.clearance);
    if k.clear then
      if p.motion.contactMonitored && p.motion.terminalContact && k.touching then Done(CompleteOnContact(t)) else Going(t)
    else if NotWorsening(s.lastClearance, k) then Going(t)
    else Done(CompleteOnContact(t))
  }

  function Monitor(w: World, s: State): Stage {
    if !Running(s) || !s.started then Going(s)
    else
      var contact := MonitorContact(s, s.executing.value);
      if contact.Done? then contact else MonitorKeepout(w, contact.s, s.executing.value)
  }

  function AnnounceSettling(s: State): Stage {
    if s.settlingPublished then Going(s)
    else
      var p := Publish(s, SettlingEvent, OK, s.commandId);
      if p.ok then Going(p.s.(settlingPublished := true)) else Done(Result(p.s, EBusy))
  }

  /** Counts intervals in which both arms delivered something new. */
  function CountSettling(s: State): State {
    if s.settleStartNs == 0 then s.(settleStartNs := s.nowNs, settleSeq := Sequences(s), settleIntervals := 0)
    else if s.arms.left.feedbackSeq != s.settleSeq.left && s.arms.right.feedbackSeq != s.settleSeq.right then
      s.(settleSeq := Sequences(s), settleIntervals := s.settleIntervals + 1)
    else s
  }

  predicate Settled(s: State)
    requires s.settleStartNs <= s.nowNs
  {
    s.settleIntervals >= 3 && s.nowNs - s.settleStartNs >= 3 * s.options.cycleNs
  }

  function Complete(s: State): Result {
    PublishAs(DropPlan(s).(lifecycle := ArmedIdle), CompletedEvent, OK, s.commandId, OK)
  }

  function Settle(w: World, s: State): Result {
    if !Running(s) || s.nowNs < s.startNs + s.executing.value.motion.durationNs then Result(s, OK)
    else
      var a := AnnounceSettling(s);
      if a.Done? then a.result
      else if !MeasuredAtGoal(w, s) then
        Result(a.s.(settleStartNs := 0, settleSeq := Pair(0, 0), settleIntervals := 0), OK)
      else
        var t := CountSettling(a.s);
        if t.settleStartNs <= t.nowNs && Settled(t) then Complete(t) else Result(t, OK)
  }

  /** Everything up to the monitors: supervision, reference, plant and feedback checks. */
  function Pump(w: World, s: State, input: AdvanceInput, previousNs: nat): Stage
    requires previousNs <= s.nowNs
  {
    var supervised := Supervise(s, previousNs);
    if supervised.Done? then supervised
    else
      var begun := StartDue(supervised.s);
      if begun.Done? then begun
      else
        var moved := StepArms(Resist(begun.s, input), Commanded(w, begun.s), previousNs);
        if moved.Done? then moved else CheckFeedback(moved.s)
  }

  /** The state an advance to `ns` starts its cycle from. */
  function Tick(s: State, ns: nat): State {
    s.(estopLatched := false, nowNs := ns)
  }

  function Advance(w: World, s: State, input: AdvanceInput): Result {
    if input.estop then AdvanceStopped(s, input.ns)
    else if input.ns < s.nowNs then Result(s.(estopLatched := false), EInval)
    else if input.ns == s.nowNs || IdleStatus(s.lifecycle) != OK then
      Result(Tick(s, input.ns), IdleStatus(s.lifecycle))
    else
      var pumped := Pump(w, Tick(s, input.ns), input, s.nowNs);
      if pumped.Done? then pumped.result
      else
        var monitored := Monitor(w, pumped.s);
        if monitored.Done? then monitored.result else Settle(w, monitored.s)
  }

  // ---------------------------------------------------------------------------
  // Runs.

  datatype Op = OpOpen
              | OpChallenge
              | OpArm(ticket: Ticket)
              | OpPlan(estop: bool)
              | OpExecute(plan: Plan, request: ExecuteRequest)
              | OpAdvance(input: AdvanceInput)
              | OpInterlock(estop: bool, deadman: bool)
              | OpStop(kind: StopKind)
              | OpDisarm(deadlineNs: nat)
              | OpReset(epoch: nat, nonce: nat)
              | OpHeartbeat(commandId: nat, deadlineNs: nat)
              | OpScene(revision: nat)
              | OpSimFault(right: bool, injection: Injection)
              | OpSimState(right: bool, q: Joints, dq: Joints)
              | OpSimContactOff(right: bool)
              | OpPoll

  function Apply(w: World, s: State, op: Op): Result {
    match op
    case OpOpen => OpenAndVerify(s)
    case OpChallenge => Challenge(s)
    case OpArm(ticket) => ArmWith(s, ticket)
    case OpPlan(estop) => PlanPreconditions(s, estop)
    case OpExecute(plan, request) => Execute(w, s, plan, request)
    case OpAdvance(input) => Advance(w, s, input)
    case OpInterlock(estop, deadman) => SetInterlock(s, estop, deadman)
    case OpStop(kind) => Stop(s, kind)
    case OpDisarm(deadlineNs) => Disarm(s, deadlineNs)
    case OpReset(epoch, nonce) => Reset(s, epoch, nonce)
    case OpHeartbeat(commandId, deadlineNs) => Heartbeat(s, commandId, deadlineNs)
    case OpScene(revision) => SetSceneRevision(s, revision)
    case OpSimFault(right, injection) => SetSimFault(s, right, injection)
    case OpSimState(right, q, dq) => SetSimState(s, right, q, dq)
    case OpSimContactOff(right) => ClearSimContact(s, right)
    case OpPoll => PollEvent(s)
  }

  function Run(w: World, s: State, ops: seq<Op>): State
    decreases |ops|
  {
    if ops == [] then s else Run(w, Apply(w, s, ops[0]).s, ops[1..])
  }
}
