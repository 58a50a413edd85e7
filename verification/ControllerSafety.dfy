/** What holds between any two controller operations, over every run. */
module ControllerSafety {
  import opened Common
  import A = ArmFeedback
  import opened ControllerModel

  predicate Powered(arms: Pair<A.Arm>, on: bool) {
    A.AllEnabled(arms.left, on) && A.AllEnabled(arms.right, on)
  }

  /** An arm further on whose motors are switched as before. */
  predicate Follows(a: A.Arm, b: A.Arm) {
    && a.feedbackSeq <= b.feedbackSeq
    && (A.AllEnabled(a, true) ==> A.AllEnabled(b, true))
    && (A.AllEnabled(a, false) ==> A.AllEnabled(b, false))
  }

  /** Both arms have delivered feedback at least once. */
  predicate Seen(s: State) {
    s.arms.left.feedbackSeq > 0 && s.arms.right.feedbackSeq > 0
  }

  /** The lifecycle as a caller sees it between operations. */
  predicate Between(s: State) {
    && !s.lifecycle.Verifying? && !s.lifecycle.Arming? && !s.lifecycle.Stopping?
    && (s.lifecycle == Executing <==> s.executing.Some?)
    && (s.executing.Some? <==> s.commandId != 0)
    && s.nextCommandId > 0
    && (s.lifecycle == ArmedIdle || s.lifecycle == Executing ==> Powered(s.arms, true))
    && (s.lifecycle == Closed || s.lifecycle == Disarmed || s.lifecycle == EStop ==> Powered(s.arms, false))
    && (s.lifecycle == ArmedIdle || s.lifecycle == Executing || s.lifecycle == Disarmed ==> s.options.virtual && Seen(s))
    && |s.events| <= EVENT_CAPACITY
  }

  predicate AtMost(a: Pair<nat>, b: Pair<nat>) {
    a.left <= b.left && a.right <= b.right
  }

  predicate Under(a: Pair<nat>, b: Pair<nat>) {
    a.left < b.left && a.right < b.right
  }

  /** The plan in execution was bound to feedback no newer than what settling has counted,
      and every counted interval saw both arms move on. */
  predicate SettleSound(s: State) {
    && (s.executing.Some? ==> AtMost(s.executing.value.seed, Sequences(s)))
    && (s.executing.Some? && s.settleStartNs == 0 ==> s.settleIntervals == 0)
    && (s.executing.Some? && s.settleStartNs != 0 ==>
          AtMost(s.executing.value.seed, s.settleSeq) && AtMost(s.settleSeq, Sequences(s)))
    && (s.executing.Some? && s.settleIntervals > 0 ==> Under(s.executing.value.seed, s.settleSeq))
  }

  predicate Good(s: State) {
    Between(s) && SettleSound(s) && s.nonce <= s.nonceCounter
  }

  /** Where an operation that overwrote an unread event ends. */
  predicate FailedClosed(s: State) {
    && s.lifecycle == Fault && s.executing == None && s.commandId == 0 && Powered(s.arms, false)
    && |s.events| == EVENT_CAPACITY
    && var last := s.events[EVENT_CAPACITY - 1]; last.kind == FaultedEvent && last.cause == EBusy && last.lifecycle == Fault
  }

  /** Counters only grow. */
  predicate Grows(s: State, t: State) {
    && t.options == s.options
    && s.epoch <= t.epoch
    && AtMost(Sequences(s), Sequences(t))
    && s.nonceCounter <= t.nonceCounter
    && s.nextCommandId <= t.nextCommandId
  }

  /** What an operation may do: lose no event unless it fails closed, return to armed-idle
      only with newer feedback than the plan it held, keep the plan while executing, and
      draw a challenge only from fresh numbers. */
  predicate Moves(s: State, t: State) {
    && Grows(s, t)
    && (s.events <= t.events || FailedClosed(t))
    && (t.lifecycle == ArmedIdle && s.lifecycle != ArmedIdle && s.lifecycle != Executing ==>
          s.epoch < t.epoch || Under(Sequences(s), Sequences(t)))
    && (t.lifecycle == ArmedIdle && s.executing.Some? ==> Under(s.executing.value.seed, Sequences(t)))
    && (t.lifecycle == Executing && s.lifecycle == Executing ==> t.executing == s.executing)
    && (t.lifecycle == Executing ==> s.lifecycle == Executing || s.lifecycle == ArmedIdle)
    && (t.nonce == s.nonce || t.nonce == 0 || t.nonce > s.nonceCounter)
  }

  // ---------------------------------------------------------------------------
  // Shared steps.

  lemma StopFacts(s: State, hold: bool)
    ensures var t := MaterializeStop(s, hold);
            && t == s.(arms := t.arms)
            && AtMost(Sequences(s), Sequences(t))
            && (!hold ==> Powered(t.arms, false))
            && (s.options.virtual && Seen(s) ==> Powered(t.arms, hold) && Under(Sequences(s), Sequences(t)))
  {
    hide StopArm, A.AllEnabled;
  }

  /** Publishing changes nothing but the events, or fails closed. */
  lemma PublishFacts(s: State, kind: EventKind, cause: Status, commandId: nat)
    requires |s.events| <= EVENT_CAPACITY
    ensures var p := Publish(s, kind, cause, commandId);
            && |p.s.events| <= EVENT_CAPACITY
            && (p.ok ==> p.s == s.(events := p.s.events) && s.events <= p.s.events)
            && (!p.ok ==> FailedClosed(p.s) && p.s == s.(arms := p.s.arms, events := p.s.events, executing := None,
                                                         commandId := 0, stopKind := StopDisable, lifecycle := Fault))
            && AtMost(Sequences(s), Sequences(p.s))
  {
    hide MaterializeStop, A.AllEnabled;
    if |s.events| == EVENT_CAPACITY {
      StopFacts(DropPlan(s), false);
    }
  }

  lemma PrefixTransitive(a: seq<Event>, b: seq<Event>, c: seq<Event>)
    ensures a <= b && b <= c ==> a <= c
  {
  }

  lemma RingFits(s: State)
    requires Good(s)
    ensures |s.events| <= EVENT_CAPACITY
  {
  }

  lemma PublishIsGood(t: State, kind: EventKind, cause: Status, commandId: nat, status: Status)
    requires Good(t)
    ensures Good(PublishAs(t, kind, cause, commandId, status).s)
  {
    hide Publish, Powered;
    PublishFacts(t, kind, cause, commandId);
  }

  /** An operation that ends by publishing is as good as the state it publishes from. */
  lemma PublishMoves(s: State, t: State, kind: EventKind, cause: Status, commandId: nat, status: Status)
    requires Good(t) && Moves(s, t)
    ensures Good(PublishAs(t, kind, cause, commandId, status).s)
    ensures Moves(s, PublishAs(t, kind, cause, commandId, status).s)
  {
    hide Publish, SettleSound, Between, FailedClosed, Powered;
    RingFits(t);
    PublishIsGood(t, kind, cause, commandId, status);
    PublishFacts(t, kind, cause, commandId);
    PrefixTransitive(s.events, t.events, Publish(t, kind, cause, commandId).s.events);
    FullStaysFull(t, kind, cause, commandId);
    FailedClosedInFault(Publish(t, kind, cause, commandId).s);
  }

  lemma FailedClosedInFault(s: State)
    ensures FailedClosed(s) ==> s.lifecycle == Fault
  {
  }

  lemma FullStaysFull(t: State, kind: EventKind, cause: Status, commandId: nat)
    ensures FailedClosed(t) ==> !Publish(t, kind, cause, commandId).ok
  {
  }

  lemma LatchMoves(s: State, cause: Status, controlled: bool)
    requires Good(s)
    ensures Good(LatchFault(s, cause, controlled).s) && Moves(s, LatchFault(s, cause, controlled).s)
  {
    hide MaterializeStop, PublishAs, Powered, HoldAvailable;
    var hold := controlled && HoldAvailable(s);
    StopFacts(DropPlan(s), hold);
    var latched := MaterializeStop(DropPlan(s), hold).(stopKind := StopDisable, lifecycle := Fault,
                                                      nonce := s.nonceCounter + 1, nonceCounter := s.nonceCounter + 1);
    PublishMoves(s, latched, FaultedEvent, cause, s.commandId, cause);
  }

  // ---------------------------------------------------------------------------
  // Operations outside the cycle.

  lemma OpenMoves(s: State)
    requires Good(s)
    ensures Good(OpenAndVerify(s).s) && Moves(s, OpenAndVerify(s).s)
  {
    hide PublishAs, A.AllEnabled, A.Force, A.SetEnabled;
    if s.lifecycle == Closed && s.options.virtual {
      var first := s.epoch == 0;
      var arms := Pair(Reverify(s.arms.left, first, s.nowNs), Reverify(s.arms.right, first, s.nowNs));
      PublishMoves(s, s.(arms := arms, epoch := s.epoch + 1, lifecycle := Disarmed), VerifiedEvent, OK, 0, OK);
    }
  }

  lemma ChallengeMoves(s: State)
    requires Good(s)
    ensures Good(Challenge(s).s) && Moves(s, Challenge(s).s)
  {
    hide LatchFault, A.AllEnabled, FeedbackIntegrity, Healthy, MotorsReportDisabled;
    LatchMoves(s, EFault, false);
  }

  lemma ArmMoves(s: State, t: Ticket)
    requires Good(s)
    ensures Good(ArmWith(s, t).s) && Moves(s, ArmWith(s, t).s)
  {
    hide LatchFault, PublishAs, A.AllEnabled, FeedbackIntegrity, Healthy, MotorsReportDisabled, EnableInPlace;
    LatchMoves(s, if !s.deadman then EEstop else EFault, false);
    if s.lifecycle == Disarmed {
      var arms := Pair(EnableInPlace(s.arms.left, s.nowNs), EnableInPlace(s.arms.right, s.nowNs));
      PublishMoves(s, s.(arms := arms, nonce := 0, lifecycle := ArmedIdle), ArmedEvent, OK, 0, OK);
    }
  }

  lemma PlanMoves(s: State, estop: bool)
    requires Good(s)
    ensures Good(PlanPreconditions(s, estop).s) && Moves(s, PlanPreconditions(s, estop).s)
  {
    hide LatchFault, A.AllEnabled, FeedbackIntegrity, Healthy;
    LatchMoves(s, EFault, false);
  }

  lemma ExecuteMoves(w: World, s: State, p: Plan, r: ExecuteRequest)
    requires Good(s)
    ensures Good(Execute(w, s, p, r).s) && Moves(s, Execute(w, s, p, r).s)
  {
    hide LatchFault, PublishAs, A.AllEnabled, FeedbackIntegrity, Healthy, StartPoseMatches, Measure;
    LatchMoves(s, EFault, false);
    if s.lifecycle == ArmedIdle && p.seed == Sequences(s) {
      var startNs := if r.startNs == 0 then s.nowNs else r.startNs;
      var begun := Begin(w, s, p, r, startNs);
      PublishMoves(s, begun, if begun.started then StartedEvent else QueuedEvent, OK, begun.commandId, OK);
    }
  }

  lemma DeadmanMoves(s: State, deadman: bool)
    requires Good(s)
    ensures Good(s.(deadman := deadman)) && Moves(s, s.(deadman := deadman))
  {
    hide Powered;
  }

  /** The state an interlock publishes from. */
  function Interlocked(s: State, deadman: bool): State {
    var dropped := DropPlan(s.(deadman := deadman));
    var stopped :=
      if s.lifecycle == Closed || s.lifecycle == Verifying then
        dropped.(arms := Pair(A.Retire(A.SetEnabled(s.arms.left, false)), A.Retire(A.SetEnabled(s.arms.right, false))))
      else MaterializeStop(dropped, false);
    stopped.(lifecycle := EStop, nonce := s.nonceCounter + 1, nonceCounter := s.nonceCounter + 1)
  }

  lemma InterlockedMoves(s: State, deadman: bool)
    requires Good(s)
    ensures Good(Interlocked(s, deadman)) && Moves(s, Interlocked(s, deadman))
  {
    hide MaterializeStop, A.AllEnabled, A.SetEnabled, A.Retire;
    StopFacts(DropPlan(s.(deadman := deadman)), false);
    RetireKeepsPower(A.SetEnabled(s.arms.left, false), false);
    RetireKeepsPower(A.SetEnabled(s.arms.right, false), false);
  }

  lemma InterlockPublishes(s: State, estop: bool, deadman: bool)
    ensures SetInterlock(s, estop, deadman).s ==
            if !estop && deadman then s.(deadman := deadman)
            else Publish(Interlocked(s, deadman), EStopEvent, EEstop, s.commandId).s
  {
    hide MaterializeStop, Publish, A.SetEnabled, A.Retire;
  }

  lemma InterlockedFrame(s: State, deadman: bool)
    ensures var t := Interlocked(s, deadman);
            t == s.(deadman := deadman, executing := None, commandId := 0, arms := t.arms, lifecycle := EStop,
                    nonce := s.nonceCounter + 1, nonceCounter := s.nonceCounter + 1)
  {
    hide StopArm, A.SetEnabled, A.Retire;
  }

  lemma InterlockMoves(s: State, estop: bool, deadman: bool)
    requires Good(s)
    ensures Good(SetInterlock(s, estop, deadman).s) && Moves(s, SetInterlock(s, estop, deadman).s)
  {
    hide Good, Moves, MaterializeStop, PublishAs, A.SetEnabled, A.Retire;
    DeadmanMoves(s, deadman);
    InterlockedMoves(s, deadman);
    PublishMoves(s, Interlocked(s, deadman), EStopEvent, EEstop, s.commandId, EEstop);
  }

  lemma RetireKeepsPower(a: A.Arm, on: bool)
    ensures A.AllEnabled(a, on) ==> A.AllEnabled(A.Retire(a), on)
    ensures A.Retire(a).feedbackSeq == a.feedbackSeq
  {
  }

  /** Announcing the abort either fails closed or leaves the rest to do. */
  lemma AbortFacts(s: State)
    requires Good(s) && (s.lifecycle == Executing || s.lifecycle == ArmedIdle)
    ensures var p := Publish(s.(lifecycle := Stopping), AbortedEvent, OK, s.commandId);
            && (!p.ok ==> Good(p.s) && Moves(s, p.s))
            && (p.ok ==> p.s == s.(lifecycle := Stopping, events := p.s.events) && s.events <= p.s.events
                         && |p.s.events| <= EVENT_CAPACITY)
  {
    hide Publish, Powered;
    PublishFacts(s.(lifecycle := Stopping), AbortedEvent, OK, s.commandId);
  }

  /** Stopping after the abort is out. */
  lemma StopRest(s: State, events: seq<Event>, kind: StopKind)
    requires Good(s) && (s.lifecycle == Executing || s.lifecycle == ArmedIdle)
    requires s.events <= events && |events| <= EVENT_CAPACITY
    ensures var stopped := MaterializeStop(DropPlan(s.(lifecycle := Stopping, events := events)), kind == StopControlled);
            var t := stopped.(lifecycle := if kind == StopDisable then Disarmed else ArmedIdle, stopKind := StopDisable);
            Good(t) && Moves(s, t)
  {
    hide MaterializeStop, Powered;
    StopFacts(DropPlan(s.(lifecycle := Stopping, events := events)), kind == StopControlled);
  }

  lemma StopMoves(s: State, kind: StopKind)
    requires Good(s)
    ensures Good(Stop(s, kind).s) && Moves(s, Stop(s, kind).s)
  {
    hide MaterializeStop, PublishAs, Publish, Between, SettleSound, FailedClosed;
    if s.lifecycle == Executing || s.lifecycle == ArmedIdle {
      AbortFacts(s);
      var stopping := s.(lifecycle := Stopping);
      var aborted := if s.executing.Some? then Publish(stopping, AbortedEvent, OK, s.commandId) else Published(stopping, true);
      if aborted.ok {
        EventsFit(s);
        StopRest(s, aborted.s.events, kind);
        var stopped := MaterializeStop(DropPlan(aborted.s), kind == StopControlled);
        PublishMoves(s, stopped.(lifecycle := if kind == StopDisable then Disarmed else ArmedIdle, stopKind := StopDisable),
                     StoppedEvent, OK, s.commandId, OK);
      }
    } else {
      SameMoves(s);
    }
  }

  lemma EventsFit(s: State)
    requires Good(s)
    ensures |s.events| <= EVENT_CAPACITY && (s.executing == None || s.lifecycle == Executing)
  {
    hide Powered;
  }

  lemma SameMoves(s: State)
    requires Good(s)
    ensures Moves(s, s)
  {
    hide Powered;
  }

  lemma DisarmMoves(s: State, deadlineNs: nat)
    requires Good(s)
    ensures Good(Disarm(s, deadlineNs).s) && Moves(s, Disarm(s, deadlineNs).s)
  {
    hide MaterializeStop, PublishAs, Powered;
    if s.lifecycle == ArmedIdle || s.lifecycle == Executing || s.lifecycle == Disarmed {
      StopFacts(DropPlan(s), false);
      PublishMoves(s, MaterializeStop(DropPlan(s), false).(lifecycle := Disarmed), DisarmedEvent, OK, 0, OK);
    }
  }

  lemma ResetMoves(s: State, epoch: nat, nonce: nat)
    requires Good(s)
    ensures Good(Reset(s, epoch, nonce).s) && Moves(s, Reset(s, epoch, nonce).s)
  {
    hide A.AllEnabled, A.SetEnabled, A.SetInjection;
    RetireKeepsPower(A.SetEnabled(A.SetInjection(s.arms.left, A.NO_INJECTION), false), false);
    RetireKeepsPower(A.SetEnabled(A.SetInjection(s.arms.right, A.NO_INJECTION), false), false);
  }

  lemma HeartbeatMoves(s: State, commandId: nat, deadlineNs: nat)
    requires Good(s)
    ensures Good(Heartbeat(s, commandId, deadlineNs).s) && Moves(s, Heartbeat(s, commandId, deadlineNs).s)
  {
    hide LatchFault, A.AllEnabled;
    LatchMoves(s, EStale, true);
  }

  /** Simulation hooks replace one arm by one that follows it. */
  lemma SetArmMoves(s: State, right: bool, a: A.Arm)
    requires Good(s) && Follows(GetArm(s, right), a)
    ensures Good(SetArm(s, right, a)) && Moves(s, SetArm(s, right, a))
  {
    hide A.AllEnabled;
  }

  lemma SimFaultMoves(s: State, right: bool, i: A.Injection)
    requires Good(s)
    ensures Good(SetSimFault(s, right, i).s) && Moves(s, SetSimFault(s, right, i).s)
  {
    hide A.AllEnabled, A.SetInjection, A.Force, SetArm;
    var status := if i.status == 0 then 8 else i.status;
    var a := A.SetInjection(GetArm(s, right), i.(status := if i.fault == {} then 0 else status));
    SetArmMoves(s, right, if i.fault == {} then a else A.Force(a, A.MeasuredQ(a), A.MeasuredDq(a), s.nowNs));
  }

  lemma SimStateMoves(s: State, right: bool, q: A.Joints, dq: A.Joints)
    requires Good(s)
    ensures Good(SetSimState(s, right, q, dq).s) && Moves(s, SetSimState(s, right, q, dq).s)
  {
    hide A.AllEnabled, A.Force, SetArm, WithinLimits;
    SetArmMoves(s, right, A.Force(GetArm(s, right), q, dq, s.nowNs));
  }

  lemma ContactOffMoves(s: State, right: bool)
    requires Good(s)
    ensures Good(ClearSimContact(s, right).s) && Moves(s, ClearSimContact(s, right).s)
  {
    hide A.AllEnabled, A.SetBlockedAll, SetArm;
    SetArmMoves(s, right, A.SetBlockedAll(GetArm(s, right), false, 0.0));
  }

  // ---------------------------------------------------------------------------
  // The cycle, stage by stage.

  /** A stage that hands the state on keeps the command and loses nothing. */
  predicate Carries(s: State, t: State) {
    && Grows(s, t) && s.events <= t.events
    && t.lifecycle == s.lifecycle && t.executing == s.executing && t.nonce == s.nonce && t.nonceCounter == s.nonceCounter
  }

  predicate StageOk(s: State, g: Stage) {
    match g
    case Done(r) => Good(r.s) && Moves(s, r.s)
    case Going(t) => Good(t) && Carries(s, t)
  }

  lemma CarriesThenMoves(s: State, t: State, u: State)
    requires Carries(s, t) && Moves(t, u)
    ensures Moves(s, u)
  {
    hide FailedClosed;
    if t.events <= u.events {
      PrefixTransitive(s.events, t.events, u.events);
    }
  }

  lemma StageThen(s: State, t: State, g: Stage)
    requires Carries(s, t) && StageOk(t, g)
    ensures StageOk(s, g)
  {
    hide Good, FailedClosed;
    match g
    case Done(r) => CarriesThenMoves(s, t, r.s);
    case Going(u) => PrefixTransitive(s.events, t.events, u.events);
  }

  lemma SuperviseOk(s: State, previousNs: nat)
    requires Good(s)
    ensures StageOk(s, Supervise(s, previousNs))
  {
    hide LatchFault, A.AllEnabled, Healthy, FeedbackIntegrity;
    LatchMoves(s, EFault, false);
    LatchMoves(s, FeedbackIntegrity(s), false);
    LatchMoves(s, ETimeout, true);
  }

  lemma StartDueOk(s: State)
    requires Good(s)
    ensures StageOk(s, StartDue(s))
    ensures StartDue(s).Going? ==> StartDue(s).s.nowNs == s.nowNs
  {
    hide LatchFault, Good, Moves, Carries, FeedbackIntegrity, StartPoseMatches, Publish;
    CarriesItself(s);
    StartedIsGood(s);
    var t := s.(started := true);
    PublishStage(t, StartedEvent, s.commandId);
    var p := Publish(t, StartedEvent, OK, s.commandId);
    StageThen(s, t, if p.ok then Going(p.s) else Done(Result(p.s, EBusy)));
    LatchMoves(s, EStale, true);
    LatchMoves(s, ETimeout, true);
    LatchMoves(s, EStale, false);
  }

  lemma PublishStage(s: State, kind: EventKind, commandId: nat)
    requires Good(s)
    ensures var p := Publish(s, kind, OK, commandId); StageOk(s, if p.ok then Going(p.s) else Done(Result(p.s, EBusy)))
  {
    hide Publish, Powered;
    PublishFacts(s, kind, OK, commandId);
  }

  lemma CarriesItself(s: State)
    ensures Carries(s, s)
  {
  }

  lemma StartedIsGood(s: State)
    requires Good(s)
    ensures Good(s.(started := true)) && Carries(s, s.(started := true))
  {
    hide Powered;
  }

  lemma ResistOk(s: State, input: AdvanceInput)
    requires Good(s)
    ensures Good(Resist(s, input)) && Carries(s, Resist(s, input))
  {
    hide A.AllEnabled, A.SetBlockedAll;
  }

  lemma ArmsOk(s: State, left: A.Arm, right: A.Arm)
    requires Good(s) && Follows(s.arms.left, left) && Follows(s.arms.right, right)
    ensures var t := s.(arms := Pair(left, right)); Good(t) && Carries(s, t)
  {
    hide A.AllEnabled;
  }

  lemma CycleFollows(a: A.Arm, q: A.Joints, dq: A.Joints, nowNs: nat, dt: real)
    ensures Follows(a, A.CommandAndStep(a, q, dq, nowNs, dt).arm)
  {
    hide A.CommandAndStep, A.AllEnabled;
    A.CycleKeepsEnabled(a, q, dq, nowNs, dt, true);
    A.CycleKeepsEnabled(a, q, dq, nowNs, dt, false);
  }

  /** A step with these arms either goes on or faults. */
  lemma ArmsStage(s: State, left: A.Arm, right: A.Arm)
    requires Good(s) && Follows(s.arms.left, left) && Follows(s.arms.right, right)
    ensures var t := s.(arms := Pair(left, right)); StageOk(s, Going(t)) && StageOk(s, Done(LatchFault(t, ECan, false)))
  {
    hide LatchFault, Good, Carries, Moves, Follows;
    ArmsOk(s, left, right);
    var t := s.(arms := Pair(left, right));
    LatchMoves(t, ECan, false);
    CarriesThenMoves(s, t, LatchFault(t, ECan, false).s);
  }

  lemma StepArmsOk(s: State, r: Reference, previousNs: nat)
    requires Good(s) && previousNs <= s.nowNs
    ensures StageOk(s, StepArms(s, r, previousNs))
  {
    hide A.CommandAndStep, LatchFault, A.AllEnabled, Good, StageOk;
    var dt := (s.nowNs - previousNs) as real / 1000000000.0;
    var left := A.CommandAndStep(s.arms.left, r.q.left, r.dq.left, s.nowNs, dt);
    var right := A.CommandAndStep(s.arms.right, r.q.right, r.dq.right, s.nowNs, dt);
    CycleFollows(s.arms.left, r.q.left, r.dq.left, s.nowNs, dt);
    CycleFollows(s.arms.right, r.q.right, r.dq.right, s.nowNs, dt);
    ArmsStage(s, left.arm, s.arms.right);
    ArmsStage(s, left.arm, right.arm);
  }

  lemma CheckFeedbackOk(s: State)
    requires Good(s)
    ensures StageOk(s, CheckFeedback(s))
  {
    hide LatchFault, A.AllEnabled, FeedbackIntegrity, Healthy;
    LatchMoves(s, FeedbackIntegrity(s), false);
    LatchMoves(s, EFault, false);
  }

  lemma PumpOk(w: World, s: State, input: AdvanceInput, previousNs: nat)
    requires Good(s) && previousNs <= s.nowNs
    ensures StageOk(s, Pump(w, s, input, previousNs))
  {
    hide Supervise, StartDue, StepArms, CheckFeedback, Resist, Commanded, Good, Carries, Moves;
    SuperviseOk(s, previousNs);
    var g1 := Supervise(s, previousNs);
    if g1.Going? {
      StartDueOk(g1.s);
      StageThen(s, g1.s, StartDue(g1.s));
      var g2 := StartDue(g1.s);
      if g2.Going? {
        ResistOk(g2.s, input);
        var resisted := Resist(g2.s, input);
        StageThen(s, g2.s, Going(resisted));
        ResistKeepsTime(g2.s, input);
        StepArmsOk(resisted, Commanded(w, g2.s), previousNs);
        var g3 := StepArms(resisted, Commanded(w, g2.s), previousNs);
        StageThen(s, resisted, g3);
        if g3.Going? {
          CheckFeedbackOk(g3.s);
          StageThen(s, g3.s, CheckFeedback(g3.s));
        }
      }
    }
  }

  lemma ResistKeepsTime(s: State, input: AdvanceInput)
    ensures Resist(s, input).nowNs == s.nowNs
  {
  }

  lemma CompleteOnContactMoves(s: State)
    requires Good(s) && s.executing.Some?
    ensures Good(CompleteOnContact(s).s) && Moves(s, CompleteOnContact(s).s)
  {
    hide MaterializeStop, PublishAs, Powered;
    StopFacts(s, true);
    PublishMoves(s, DropPlan(MaterializeStop(s, true)).(settleStartNs := 0, settleSeq := Pair(0, 0), settleIntervals := 0,
                                                       settlingPublished := false, lifecycle := ArmedIdle),
                 StoppedEvent, OK, s.commandId, OK);
  }

  lemma MonitorContactOk(s: State, p: Plan)
    requires Good(s) && s.executing.Some?
    ensures StageOk(s, MonitorContact(s, p))
  {
    hide OverThreshold, CompleteOnContact, A.AllEnabled;
    var t := s.(contactStreak := s.contactStreak + 1);
    CompleteOnContactMoves(t);
    CarriesThenMoves(s, t, CompleteOnContact(t).s);
  }

  lemma MonitorKeepoutOk(w: World, s: State, p: Plan)
    requires Good(s) && s.executing.Some?
    ensures StageOk(s, MonitorKeepout(w, s, p))
  {
    hide Measure, CompleteOnContact, A.AllEnabled, NotWorsening;
    var t := s.(lastClearance := Measure(w, s, p.motion.terminalContact).clearance);
    CompleteOnContactMoves(t);
    CarriesThenMoves(s, t, CompleteOnContact(t).s);
  }

  lemma MonitorOk(w: World, s: State)
    requires Good(s)
    ensures StageOk(s, Monitor(w, s))
  {
    hide MonitorContact, MonitorKeepout, A.AllEnabled, Moves;
    if Running(s) && s.started {
      var p := s.executing.value;
      MonitorContactOk(s, p);
      var g := MonitorContact(s, p);
      if g.Going? {
        MonitorKeepoutOk(w, g.s, p);
        StageThen(s, g.s, MonitorKeepout(w, g.s, p));
      }
    }
  }

  lemma AnnounceSettlingOk(s: State)
    requires Good(s)
    ensures StageOk(s, AnnounceSettling(s))
  {
    hide Publish, A.AllEnabled;
    PublishFacts(s, SettlingEvent, OK, s.commandId);
  }

  lemma CountSettlingOk(s: State)
    requires Good(s) && s.nowNs > 0
    ensures Good(CountSettling(s)) && Carries(s, CountSettling(s))
  {
    hide Between, SettleSound, FailedClosed, CountSettling;
    CountKeepsRest(s);
    CountKeepsBetween(s);
    CountIsSound(s);
  }

  lemma CountKeepsRest(s: State)
    ensures var t := CountSettling(s);
            t == s.(settleStartNs := t.settleStartNs, settleSeq := t.settleSeq, settleIntervals := t.settleIntervals)
  {
  }

  lemma CountKeepsBetween(s: State)
    requires Between(s)
    ensures Between(CountSettling(s))
  {
    hide CountSettling, Powered;
    CountKeepsRest(s);
  }

  lemma CountIsSound(s: State)
    requires SettleSound(s) && s.nowNs > 0
    ensures SettleSound(CountSettling(s))
  {
  }

  lemma CompleteMoves(s: State)
    requires Good(s) && s.executing.Some? && s.settleIntervals > 0
    ensures Good(Complete(s).s) && Moves(s, Complete(s).s)
  {
    hide PublishAs, A.AllEnabled;
    assert Under(s.executing.value.seed, Sequences(s));
    PublishMoves(s, DropPlan(s).(lifecycle := ArmedIdle), CompletedEvent, OK, s.commandId, OK);
  }

  lemma SettleOk(w: World, s: State)
    requires Good(s) && s.nowNs > 0
    ensures Good(Settle(w, s).s) && Moves(s, Settle(w, s).s)
  {
    hide MeasuredAtGoal, AnnounceSettling, CountSettling, Complete, A.AllEnabled;
    AnnounceSettlingOk(s);
    var g := AnnounceSettling(s);
    AnnounceKeeps(s);
    if g.Going? && Running(s) {
      CountSettlingOk(g.s);
      var t := CountSettling(g.s);
      CarriesThenMoves(s, g.s, t);
      if t.settleIntervals > 0 {
        CompleteMoves(t);
        CarriesThenMoves(g.s, t, Complete(t).s);
        CarriesThenMoves(s, g.s, Complete(t).s);
      }
    }
  }

  lemma AnnounceKeeps(s: State)
    ensures AnnounceSettling(s).Going? ==> AnnounceSettling(s).s.nowNs == s.nowNs
  {
  }

  lemma TickOk(s: State, ns: nat)
    requires Good(s)
    ensures Good(Tick(s, ns)) && Carries(s, Tick(s, ns))
  {
    hide Powered;
  }

  lemma StoppedMoves(s: State, ns: nat)
    requires Good(s)
    ensures Good(AdvanceStopped(s, ns).s) && Moves(s, AdvanceStopped(s, ns).s)
  {
    hide SetInterlock, Powered;
    var t := s.(estopLatched := true, nowNs := Later(ns, s.nowNs));
    InterlockMoves(t, true, s.deadman);
    CarriesThenMoves(s, t, SetInterlock(t, true, s.deadman).s);
  }

  lemma PumpKeepsTime(w: World, s: State, input: AdvanceInput, previousNs: nat)
    requires previousNs <= s.nowNs
    ensures Pump(w, s, input, previousNs).Going? ==> Pump(w, s, input, previousNs).s.nowNs == s.nowNs
  {
    hide Publish, A.CommandAndStep, LatchFault, Commanded, FeedbackIntegrity, Healthy, StartPoseMatches;
  }

  lemma MonitorKeepsTime(w: World, s: State)
    ensures Monitor(w, s).Going? ==> Monitor(w, s).s.nowNs == s.nowNs
  {
    hide Measure, OverThreshold, CompleteOnContact;
  }

  lemma AdvanceMoves(w: World, s: State, input: AdvanceInput)
    requires Good(s)
    ensures Good(Advance(w, s, input).s) && Moves(s, Advance(w, s, input).s)
  {
    hide AdvanceStopped, Pump, Monitor, Settle, Powered, Moves, Good, Carries;
    StoppedMoves(s, input.ns);
    TickOk(s, input.ns);
    TickOk(s, s.nowNs);
    CarriedMoves(s, Tick(s, input.ns));
    CarriedMoves(s, Tick(s, s.nowNs));
    assert Tick(s, s.nowNs) == s.(estopLatched := false);
    if input.ns > s.nowNs {
      var begun := Tick(s, input.ns);
      PumpOk(w, begun, input, s.nowNs);
      PumpKeepsTime(w, begun, input, s.nowNs);
      var pumped := Pump(w, begun, input, s.nowNs);
      StageThen(s, begun, pumped);
      if pumped.Going? {
        MonitorOk(w, pumped.s);
        MonitorKeepsTime(w, pumped.s);
        var monitored := Monitor(w, pumped.s);
        StageThen(s, pumped.s, monitored);
        if monitored.Going? {
          SettleOk(w, monitored.s);
          CarriesThenMoves(s, monitored.s, Settle(w, monitored.s).s);
        }
      }
    }
  }

  /** Going on unchanged is a permitted move. */
  lemma CarriedMoves(s: State, t: State)
    requires Good(s) && Good(t) && Carries(s, t)
    ensures Moves(s, t)
  {
    hide Powered;
  }

  /** One operation: the invariant holds again, and the move is a permitted one. */
  lemma ApplyMoves(w: World, s: State, op: Op)
    requires Good(s)
    ensures Good(Apply(w, s, op).s)
    ensures op != OpPoll ==> Moves(s, Apply(w, s, op).s)
  {
    hide Good, Moves, OpenAndVerify, Challenge, ArmWith, PlanPreconditions, Execute, Advance, SetInterlock, Stop,
         Disarm, Reset, Heartbeat, SetSceneRevision, SetSimFault, SetSimState, ClearSimContact, PollEvent;
    match op
    case OpOpen => OpenMoves(s);
    case OpChallenge => ChallengeMoves(s);
    case OpArm(ticket) => ArmMoves(s, ticket);
    case OpPlan(estop) => PlanMoves(s, estop);
    case OpExecute(plan, request) => ExecuteMoves(w, s, plan, request);
    case OpAdvance(input) => AdvanceMoves(w, s, input);
    case OpInterlock(estop, deadman) => InterlockMoves(s, estop, deadman);
    case OpStop(kind) => StopMoves(s, kind);
    case OpDisarm(deadlineNs) => DisarmMoves(s, deadlineNs);
    case OpReset(epoch, nonce) => ResetMoves(s, epoch, nonce);
    case OpHeartbeat(commandId, deadlineNs) => HeartbeatMoves(s, commandId, deadlineNs);
    case OpScene(revision) => SceneMoves(s, revision);
    case OpSimFault(right, injection) => SimFaultMoves(s, right, injection);
    case OpSimState(right, q, dq) => SimStateMoves(s, right, q, dq);
    case OpSimContactOff(right) => ContactOffMoves(s, right);
    case OpPoll => PollKeeps(s);
  }

  lemma SceneMoves(s: State, revision: nat)
    requires Good(s)
    ensures Good(SetSceneRevision(s, revision).s) && Moves(s, SetSceneRevision(s, revision).s)
  {
    hide Powered;
  }

  lemma PollKeeps(s: State)
    requires Good(s)
    ensures Good(PollEvent(s).s) && PollEvent(s).s == s.(events := PollEvent(s).s.events)
  {
    hide Powered;
  }

  lemma NewIsGood(options: Options, sceneRevision: nat, arms: Pair<A.Arm>)
    requires A.IsNew(arms.left) && A.IsNew(arms.right)
    ensures Good(NewController(options, sceneRevision, arms))
  {
  }

  /** Between any two operations of any run: never mid-transition, executing exactly while a
      plan and a command are held, powered exactly when armed, and no more than 64 events. */
  lemma {:induction false} RunKeepsGood(w: World, s: State, ops: seq<Op>)
    requires Good(s)
    ensures Good(Run(w, s, ops))
    decreases |ops|
  {
    if ops != [] {
      ApplyMoves(w, s, ops[0]);
      RunKeepsGood(w, Apply(w, s, ops[0]).s, ops[1..]);
    }
  }

  /** An operation that overwrites an unread event ends in FAULT, without a plan, with all
      motors off, and says so in the newest event. */
  lemma OverwrittenEventFailsClosed(w: World, s: State, op: Op)
    requires Good(s) && op != OpPoll
    ensures s.events <= Apply(w, s, op).s.events || FailedClosed(Apply(w, s, op).s)
  {
    hide Apply;
    ApplyMoves(w, s, op);
  }

  // ---------------------------------------------------------------------------
  // A plan runs at most once.

  predicate Accepts(w: World, s: State, op: Op) {
    op.OpExecute? && Apply(w, s, op).s.nextCommandId > s.nextCommandId
  }

  /** The plan can no longer be accepted: its verification is over, its feedback is old, or
      the controller is not idle and cannot become idle without making it old. */
  predicate Spent(s: State, p: Plan) {
    || p.epoch < s.epoch
    || Under(p.seed, Sequences(s))
    || (p.epoch <= s.epoch && AtMost(p.seed, Sequences(s)) && s.lifecycle != ArmedIdle
        && (s.lifecycle == Executing ==> s.executing == Some(p)))
  }

  /** What acceptance needs and makes. */
  lemma AcceptanceBinds(w: World, s: State, p: Plan, r: ExecuteRequest)
    requires Good(s) && Accepts(w, s, OpExecute(p, r))
    ensures s.lifecycle == ArmedIdle && p.epoch == s.epoch && p.seed == Sequences(s) && p.instance == s.options.instance
    ensures Spent(Execute(w, s, p, r).s, p)
  {
    hide LatchFault, Publish, Powered, FeedbackIntegrity, Healthy, StartPoseMatches, Measure;
    LatchKeepsCommandCount(s);
    if s.lifecycle == ArmedIdle && p.epoch == s.epoch && p.seed == Sequences(s) {
      var startNs := if r.startNs == 0 then s.nowNs else r.startNs;
      var begun := Begin(w, s, p, r, startNs);
      PublishFacts(begun, if begun.started then StartedEvent else QueuedEvent, OK, begun.commandId);
    }
  }

  lemma LatchKeepsCommandCount(s: State)
    ensures LatchFault(s, EFault, false).s.nextCommandId == s.nextCommandId
  {
    hide StopArm;
  }

  lemma SpentMoves(s: State, t: State, p: Plan)
    requires Good(s) && Moves(s, t) && Spent(s, p)
    ensures Spent(t, p)
  {
    hide Powered, FailedClosed, SettleSound;
  }

  lemma SpentStaysSpent(w: World, s: State, op: Op, p: Plan)
    requires Good(s) && Spent(s, p)
    ensures Spent(Apply(w, s, op).s, p)
    ensures op.OpExecute? && op.plan == p ==> !Accepts(w, s, op)
  {
    ApplyMoves(w, s, op);
    if op == OpPoll {
      PollKeeps(s);
    } else {
      SpentMoves(s, Apply(w, s, op).s, p);
      if op.OpExecute? && op.plan == p && Accepts(w, s, op) {
        AcceptanceBinds(w, s, p, op.request);
      }
    }
    hide Apply, Good, Moves, PollEvent;
  }

  /** What each operation guarantees: the invariant is kept and no spent plan comes back. */
  ghost predicate SafeStep(s: State, t: State) {
    Good(s) ==> Good(t) && forall p :: Spent(s, p) ==> Spent(t, p)
  }

  lemma ApplyIsSafe(w: World, s: State, op: Op)
    ensures SafeStep(s, Apply(w, s, op).s)
  {
    hide Apply, Spent, Good;
    if Good(s) {
      ApplyMoves(w, s, op);
      forall p | Spent(s, p)
        ensures Spent(Apply(w, s, op).s, p)
      {
        SpentStaysSpent(w, s, op, p);
      }
    }
  }

  const STILL_REFERENCE: Reference := Reference(Pair(A.ZERO, A.ZERO), Pair(A.ZERO, A.ZERO))

  /** Most operations do not look at the world. */
  const NO_WORLD: World := World((p, ns) => STILL_REFERENCE, (l, r, policy) => Keepout(false, None, false), (p, right, q) => false)

  /** The states a run passes through. */
  function After(w: World, s: State, ops: seq<Op>, k: nat): State
    requires k <= |ops|
  {
    Run(w, s, ops[..k])
  }

  lemma {:induction false} RunExtends(w: World, s: State, ops: seq<Op>, k: nat)
    requires k < |ops|
    ensures After(w, s, ops, k + 1) == Apply(w, After(w, s, ops, k), ops[k]).s
    decreases k
  {
    assert ops[..k + 1] == ops[..k] + [ops[k]];
    RunJoins(w, s, ops[..k], [ops[k]]);
  }

  lemma {:induction false} RunJoins(w: World, s: State, before: seq<Op>, after: seq<Op>)
    ensures Run(w, s, before + after) == Run(w, Run(w, s, before), after)
    decreases |before|
  {
    hide Apply;
    if before == [] {
      assert before + after == after;
    } else {
      assert (before + after)[1..] == before[1..] + after;
      RunJoins(w, Apply(w, s, before[0]).s, before[1..], after);
    }
  }

  lemma {:induction false} SpentForever(w: World, s: State, ops: seq<Op>, p: Plan, i: nat, j: nat)
    requires Good(s) && i <= j <= |ops| && Spent(After(w, s, ops, i), p)
    ensures Good(After(w, s, ops, j)) && Spent(After(w, s, ops, j), p)
    decreases j
  {
    hide Good, Spent, Apply;
    RunKeepsGood(w, s, ops[..j]);
    if i < j {
      SpentForever(w, s, ops, p, i, j - 1);
      RunExtends(w, s, ops, j - 1);
      SpentStaysSpent(w, After(w, s, ops, j - 1), ops[j - 1], p);
    }
  }

  /** Over every run: a plan the controller accepted is never accepted again. */
  lemma PlanAcceptedAtMostOnce(w: World, s: State, ops: seq<Op>, i: nat, j: nat)
    requires Good(s) && i < j < |ops|
    requires ops[i].OpExecute? && ops[j].OpExecute? && ops[i].plan == ops[j].plan
    requires Accepts(w, After(w, s, ops, i), ops[i])
    ensures !Accepts(w, After(w, s, ops, j), ops[j])
  {
    hide Good, Spent, Accepts, After;
    var p := ops[i].plan;
    RunKeepsGoodAt(w, s, ops, i);
    assert ops[i] == OpExecute(p, ops[i].request);
    AcceptanceBinds(w, After(w, s, ops, i), p, ops[i].request);
    RunExtends(w, s, ops, i);
    SpentForever(w, s, ops, p, i + 1, j);
    SpentStaysSpent(w, After(w, s, ops, j), ops[j], p);
  }

  /** Over every run: a plan bound before a successful reset is not accepted after it. */
  lemma NoPlanSurvivesReset(w: World, s: State, ops: seq<Op>, i: nat, j: nat, p: Plan)
    requires Good(s) && i < j < |ops| && ops[i].OpReset? && ops[j].OpExecute? && ops[j].plan == p
    requires p.epoch <= After(w, s, ops, i).epoch && Apply(w, After(w, s, ops, i), ops[i]).status == OK
    ensures !Accepts(w, After(w, s, ops, j), ops[j])
  {
    RunExtends(w, s, ops, i);
    assert p.epoch < After(w, s, ops, i + 1).epoch;
    SpentForever(w, s, ops, p, i + 1, j);
    SpentStaysSpent(w, After(w, s, ops, j), ops[j], p);
    hide Good, Accepts, Apply;
  }

  /** A challenge that has been used or replaced never comes back. */
  predicate Stale(s: State, nonce: nat) {
    0 < nonce <= s.nonceCounter && s.nonce != nonce
  }

  predicate ArmsWith(w: World, s: State, op: Op, nonce: nat) {
    op.OpArm? && op.ticket.nonce == nonce && Apply(w, s, op).status == OK
  }

  lemma StaleStaysStale(w: World, s: State, op: Op, nonce: nat)
    requires Good(s) && Stale(s, nonce)
    ensures Stale(Apply(w, s, op).s, nonce) && !ArmsWith(w, s, op, nonce)
  {
    ApplyMoves(w, s, op);
    if op == OpPoll {
      PollKeeps(s);
    }
    StaleTicket(w, s, op, nonce);
    hide Apply, FailedClosed, Good;
  }

  lemma StaleTicket(w: World, s: State, op: Op, nonce: nat)
    requires Stale(s, nonce)
    ensures !ArmsWith(w, s, op, nonce)
  {
    hide LatchFault, PublishAs, FeedbackIntegrity, Healthy, MotorsReportDisabled;
  }

  lemma ArmingUsesTheTicket(w: World, s: State, op: Op, nonce: nat)
    requires Good(s) && ArmsWith(w, s, op, nonce)
    ensures Stale(Apply(w, s, op).s, nonce)
  {
    hide LatchFault, FeedbackIntegrity, Healthy, MotorsReportDisabled, EnableInPlace, Powered, SettleSound;
    LatchNeverOk(s, if !s.deadman then EEstop else EFault);
  }

  lemma LatchNeverOk(s: State, cause: Status)
    ensures cause != OK ==> LatchFault(s, cause, false).status != OK
  {
    hide MaterializeStop;
  }

  lemma {:induction false} StaleForever(w: World, s: State, ops: seq<Op>, nonce: nat, i: nat, j: nat)
    requires Good(s) && i <= j <= |ops| && Stale(After(w, s, ops, i), nonce)
    ensures Good(After(w, s, ops, j)) && Stale(After(w, s, ops, j), nonce)
    decreases j
  {
    hide Good, Stale, Apply;
    RunKeepsGood(w, s, ops[..j]);
    if i < j {
      StaleForever(w, s, ops, nonce, i, j - 1);
      RunExtends(w, s, ops, j - 1);
      StaleStaysStale(w, After(w, s, ops, j - 1), ops[j - 1], nonce);
    }
  }

  /** Over every run: one challenge arms the controller at most once. */
  lemma ChallengeArmsAtMostOnce(w: World, s: State, ops: seq<Op>, i: nat, j: nat, nonce: nat)
    requires Good(s) && i < j < |ops| && ArmsWith(w, After(w, s, ops, i), ops[i], nonce)
    ensures !ArmsWith(w, After(w, s, ops, j), ops[j], nonce)
  {
    hide Good, Stale, Apply, ArmsWith, After;
    RunKeepsGoodAt(w, s, ops, i);
    ArmingUsesTheTicket(w, After(w, s, ops, i), ops[i], nonce);
    RunExtends(w, s, ops, i);
    StaleForever(w, s, ops, nonce, i + 1, j);
    StaleStaysStale(w, After(w, s, ops, j), ops[j], nonce);
  }

  lemma RunKeepsGoodAt(w: World, s: State, ops: seq<Op>, k: nat)
    requires Good(s) && k <= |ops|
    ensures Good(After(w, s, ops, k))
  {
    RunKeepsGood(w, s, ops[..k]);
  }

  /** And a fresh plan does run: bound to the present state and asked for in time, it is
      accepted and reported. */
  lemma FreshPlanIsAccepted(w: World, s: State, motion: Motion, expiryNs: nat, r: ExecuteRequest)
    requires Good(s) && s.lifecycle == ArmedIdle && Fresh(s) && Healthy(s) && |s.events| < EVENT_CAPACITY
    requires RequestFits(s, Bind(s, motion, expiryNs), r, if r.startNs == 0 then s.nowNs else r.startNs)
    ensures var p := Bind(s, motion, expiryNs);
            var e := Execute(w, s, p, r);
            Accepts(w, s, OpExecute(p, r)) && e.status == OK && e.s.executing == Some(p) && e.s.lifecycle == Executing
            && e.s.commandId == s.nextCommandId
  {
    hide FeedbackIntegrity, Healthy, Measure, Powered;
    NearItself(A.MeasuredQ(s.arms.left));
    NearItself(A.MeasuredQ(s.arms.right));
  }

  lemma NearItself(q: A.Joints)
    ensures Near(q, q)
  {
    assert forall x: real :: Drift(x, x) == 0.0;
  }
}
