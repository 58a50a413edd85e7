/** What the controller does to its arms: every operation is, on each arm, a timed run of the
    arm's own operations, so what holds over all runs of an arm holds inside the controller. */
module ControllerArms {
  import opened Common
  import D = Motors
  import A = ArmFeedback
  import opened ControllerModel
  import opened ControllerSafety

  /** One arm comes from the other by operations that never go back in time. */
  ghost predicate Reaches(a: A.Arm, clock: nat, b: A.Arm, to: nat) {
    exists ops :: Leads(a, clock, ops, b, to)
  }

  ghost predicate Leads(a: A.Arm, clock: nat, ops: seq<A.ArmOp>, b: A.Arm, to: nat) {
    A.Timed(clock, ops) && A.ClockAtEnd(clock, ops) <= to && b == A.RunArm(a, ops)
  }

  lemma ReachesItself(a: A.Arm, clock: nat, to: nat)
    requires clock <= to
    ensures Reaches(a, clock, a, to)
  {
    assert Leads(a, clock, [], a, to);
  }

  lemma ReachesByOne(a: A.Arm, op: A.ArmOp, clock: nat)
    requires clock <= A.ClockAfter(clock, op)
    ensures Reaches(a, clock, A.Apply(a, op), A.ClockAfter(clock, op))
  {
    hide A.Apply;
    var b := A.Apply(a, op);
    assert [op][1..] == [];
    assert A.RunArm(a, [op]) == A.RunArm(b, []);
    assert A.ClockAtEnd(clock, [op]) == A.ClockAtEnd(A.ClockAfter(clock, op), []);
    assert A.Timed(A.ClockAfter(clock, op), []);
    assert Leads(a, clock, [op], b, A.ClockAfter(clock, op));
  }

  /** An earlier clock allows no less, and ends no later. */
  lemma {:induction false} EarlierClock(clock: nat, later: nat, ops: seq<A.ArmOp>)
    requires clock <= later && A.Timed(later, ops)
    ensures A.Timed(clock, ops) && A.ClockAtEnd(clock, ops) <= A.ClockAtEnd(later, ops)
    decreases |ops|
  {
    if ops != [] {
      EarlierClock(A.ClockAfter(clock, ops[0]), A.ClockAfter(later, ops[0]), ops[1..]);
    }
  }

  lemma {:induction false} LeadsOn(a: A.Arm, clock: nat, first: seq<A.ArmOp>, b: A.Arm, mid: nat, second: seq<A.ArmOp>,
                                   c: A.Arm, to: nat)
    requires Leads(a, clock, first, b, mid) && Leads(b, mid, second, c, to)
    ensures Leads(a, clock, first + second, c, to)
    decreases |first|
  {
    hide A.Apply;
    if first == [] {
      assert first + second == second;
      EarlierClock(clock, mid, second);
    } else {
      assert (first + second)[1..] == first[1..] + second;
      LeadsOn(A.Apply(a, first[0]), A.ClockAfter(clock, first[0]), first[1..], b, mid, second, c, to);
    }
  }

  lemma ReachesThen(a: A.Arm, clock: nat, b: A.Arm, mid: nat, c: A.Arm, to: nat)
    requires Reaches(a, clock, b, mid) && Reaches(b, mid, c, to)
    ensures Reaches(a, clock, c, to)
  {
    hide Leads;
    var first :| Leads(a, clock, first, b, mid);
    var second :| Leads(b, mid, second, c, to);
    LeadsOn(a, clock, first, b, mid, second, c, to);
  }

  // ---------------------------------------------------------------------------
  // One arm inside an operation.

  lemma ByTwo(a: A.Arm, first: A.ArmOp, second: A.ArmOp, nowNs: nat)
    requires A.ClockAfter(nowNs, first) == nowNs && A.ClockAfter(nowNs, second) == nowNs
    ensures Reaches(a, nowNs, A.Apply(A.Apply(a, first), second), nowNs)
  {
    hide A.Apply, Reaches;
    ReachesByOne(a, first, nowNs);
    ReachesByOne(A.Apply(a, first), second, nowNs);
    ReachesThen(a, nowNs, A.Apply(a, first), nowNs, A.Apply(A.Apply(a, first), second), nowNs);
  }

  lemma Disabled(a: A.Arm, nowNs: nat)
    ensures Reaches(a, nowNs, A.SetEnabled(a, false), nowNs)
    ensures Reaches(a, nowNs, A.Retire(A.SetEnabled(a, false)), nowNs)
  {
    hide Reaches, A.SetEnabled, A.Retire;
    ReachesByOne(a, A.Enable(false), nowNs);
    ByTwo(a, A.Enable(false), A.DropPending, nowNs);
  }

  lemma StopArmReaches(a: A.Arm, virtual: bool, hold: bool, nowNs: nat)
    ensures Reaches(a, nowNs, StopArm(a, virtual, hold, nowNs), nowNs)
  {
    hide Reaches, A.SetEnabled, A.Retire, A.MaterializeStop;
    Disabled(a, nowNs);
    ReachesByOne(a, A.StopAt(hold, nowNs), nowNs);
  }

  lemma ForcedAfter(a: A.Arm, on: bool, q: A.Joints, nowNs: nat)
    ensures Reaches(a, nowNs, A.Force(A.SetEnabled(a, on), q, A.ZERO, nowNs), nowNs)
  {
    hide Reaches, A.SetEnabled, A.Force;
    ByTwo(a, A.Enable(on), A.ForceAt(q, A.ZERO, nowNs), nowNs);
  }

  lemma ResetReaches(a: A.Arm, nowNs: nat)
    ensures Reaches(a, nowNs, ResetArm(a), nowNs)
  {
    hide Reaches, A.SetEnabled, A.Retire, A.SetInjection;
    var b := A.SetInjection(a, A.NO_INJECTION);
    ReachesByOne(a, A.Inject(A.NO_INJECTION), nowNs);
    Disabled(b, nowNs);
    ReachesThen(a, nowNs, b, nowNs, ResetArm(a), nowNs);
  }

  // ---------------------------------------------------------------------------
  // Both arms.

  ghost predicate ArmsReach(s: State, t: State) {
    && s.nowNs <= t.nowNs
    && Reaches(s.arms.left, s.nowNs, t.arms.left, t.nowNs) && Reaches(s.arms.right, s.nowNs, t.arms.right, t.nowNs)
  }

  ghost predicate StageReach(s: State, g: Stage) {
    ArmsReach(s, if g.Done? then g.result.s else g.s)
  }

  lemma SameArms(s: State, t: State)
    requires t.arms == s.arms && s.nowNs <= t.nowNs
    ensures ArmsReach(s, t)
  {
    hide Reaches;
    ReachesItself(s.arms.left, s.nowNs, t.nowNs);
    ReachesItself(s.arms.right, s.nowNs, t.nowNs);
  }

  lemma ArmsReachThen(s: State, t: State, u: State)
    requires ArmsReach(s, t) && ArmsReach(t, u)
    ensures ArmsReach(s, u)
  {
    hide Reaches;
    ReachesThen(s.arms.left, s.nowNs, t.arms.left, t.nowNs, u.arms.left, u.nowNs);
    ReachesThen(s.arms.right, s.nowNs, t.arms.right, t.nowNs, u.arms.right, u.nowNs);
  }

  lemma MaterializeReach(s: State, hold: bool)
    ensures ArmsReach(s, MaterializeStop(s, hold))
  {
    hide Reaches, StopArm;
    StopArmReaches(s.arms.left, s.options.virtual, hold, s.nowNs);
    StopArmReaches(s.arms.right, s.options.virtual, hold, s.nowNs);
  }

  lemma PublishReach(s: State, kind: EventKind, cause: Status, commandId: nat)
    ensures ArmsReach(s, Publish(s, kind, cause, commandId).s)
  {
    hide Reaches, MaterializeStop;
    SameArms(s, s);
    MaterializeReach(DropPlan(s), false);
  }

  /** An operation that stops in some way and then publishes. */
  lemma PublishReachThen(s: State, t: State, kind: EventKind, cause: Status, commandId: nat)
    requires ArmsReach(s, t)
    ensures ArmsReach(s, Publish(t, kind, cause, commandId).s)
  {
    hide ArmsReach, Publish;
    PublishReach(t, kind, cause, commandId);
    ArmsReachThen(s, t, Publish(t, kind, cause, commandId).s);
  }

  lemma LatchReach(s: State, cause: Status, controlled: bool)
    ensures ArmsReach(s, LatchFault(s, cause, controlled).s)
  {
    hide Reaches, MaterializeStop, Publish, HoldAvailable;
    var hold := controlled && HoldAvailable(s);
    MaterializeReach(DropPlan(s), hold);
    var latched := MaterializeStop(DropPlan(s), hold).(stopKind := StopDisable, lifecycle := Fault,
                                                      nonce := s.nonceCounter + 1, nonceCounter := s.nonceCounter + 1);
    PublishReachThen(s, latched, FaultedEvent, cause, s.commandId);
  }

  lemma OpenReach(s: State)
    ensures ArmsReach(s, OpenAndVerify(s).s)
  {
    hide Reaches, Publish, A.Force, A.SetEnabled;
    SameArms(s, s);
    var first := s.epoch == 0;
    ForcedAfter(s.arms.left, false, if first then A.ZERO else A.MeasuredQ(s.arms.left), s.nowNs);
    ForcedAfter(s.arms.right, false, if first then A.ZERO else A.MeasuredQ(s.arms.right), s.nowNs);
    var arms := Pair(Reverify(s.arms.left, first, s.nowNs), Reverify(s.arms.right, first, s.nowNs));
    PublishReachThen(s, s.(arms := arms, epoch := s.epoch + 1, lifecycle := Disarmed), VerifiedEvent, OK, 0);
  }

  lemma ChallengeReach(s: State)
    ensures ArmsReach(s, Challenge(s).s)
  {
    hide Reaches, LatchFault, FeedbackIntegrity, Healthy, MotorsReportDisabled;
    SameArms(s, s);
    LatchReach(s, EFault, false);
  }

  lemma ArmReach(s: State, t: Ticket)
    ensures ArmsReach(s, ArmWith(s, t).s)
  {
    hide Reaches, LatchFault, Publish, FeedbackIntegrity, Healthy, MotorsReportDisabled, A.Force, A.SetEnabled;
    SameArms(s, s);
    LatchReach(s, if !s.deadman then EEstop else EFault, false);
    ForcedAfter(s.arms.left, true, A.MeasuredQ(s.arms.left), s.nowNs);
    ForcedAfter(s.arms.right, true, A.MeasuredQ(s.arms.right), s.nowNs);
    var arms := Pair(EnableInPlace(s.arms.left, s.nowNs), EnableInPlace(s.arms.right, s.nowNs));
    PublishReachThen(s, s.(arms := arms, nonce := 0, lifecycle := ArmedIdle), ArmedEvent, OK, 0);
  }

  lemma PlanReach(s: State, estop: bool)
    ensures ArmsReach(s, PlanPreconditions(s, estop).s)
  {
    hide Reaches, LatchFault, FeedbackIntegrity, Healthy;
    SameArms(s, s);
    LatchReach(s, EFault, false);
  }

  lemma ExecuteReach(w: World, s: State, p: Plan, r: ExecuteRequest)
    ensures ArmsReach(s, Execute(w, s, p, r).s)
  {
    hide Reaches, LatchFault, Publish, FeedbackIntegrity, Healthy, PlanBelongs, Measure;
    SameArms(s, s);
    LatchReach(s, EFault, false);
    var begun := Begin(w, s, p, r, if r.startNs == 0 then s.nowNs else r.startNs);
    PublishReachThen(s, begun, if begun.started then StartedEvent else QueuedEvent, OK, begun.commandId);
  }

  lemma InterlockReach(s: State, estop: bool, deadman: bool)
    ensures ArmsReach(s, SetInterlock(s, estop, deadman).s)
  {
    hide Reaches, Publish, MaterializeStop, A.SetEnabled, A.Retire;
    SameArms(s, s);
    InterlockPublishes(s, estop, deadman);
    MaterializeReach(DropPlan(s.(deadman := deadman)), false);
    Disabled(s.arms.left, s.nowNs);
    Disabled(s.arms.right, s.nowNs);
    PublishReachThen(s, Interlocked(s, deadman), EStopEvent, EEstop, s.commandId);
  }

  lemma StopReach(s: State, kind: StopKind)
    ensures ArmsReach(s, Stop(s, kind).s)
  {
    hide Reaches, Publish, MaterializeStop;
    SameArms(s, s);
    var stopping := s.(lifecycle := Stopping);
    PublishReach(stopping, AbortedEvent, OK, s.commandId);
    var aborted := if s.executing.Some? then Publish(stopping, AbortedEvent, OK, s.commandId) else Published(stopping, true);
    MaterializeReach(DropPlan(aborted.s), kind == StopControlled);
    var stopped := MaterializeStop(DropPlan(aborted.s), kind == StopControlled);
    ArmsReachThen(s, aborted.s, stopped);
    PublishReachThen(s, stopped.(lifecycle := if kind == StopDisable then Disarmed else ArmedIdle, stopKind := StopDisable),
                     StoppedEvent, OK, s.commandId);
  }

  lemma DisarmReach(s: State, deadlineNs: nat)
    ensures ArmsReach(s, Disarm(s, deadlineNs).s)
  {
    hide Reaches, Publish, MaterializeStop;
    SameArms(s, s);
    MaterializeReach(DropPlan(s), false);
    PublishReachThen(s, MaterializeStop(DropPlan(s), false).(lifecycle := Disarmed), DisarmedEvent, OK, 0);
  }

  lemma ResetReach(s: State, epoch: nat, nonce: nat)
    ensures ArmsReach(s, Reset(s, epoch, nonce).s)
  {
    hide Reaches, ResetArm;
    SameArms(s, s);
    ResetReaches(s.arms.left, s.nowNs);
    ResetReaches(s.arms.right, s.nowNs);
  }

  lemma HeartbeatReach(s: State, commandId: nat, deadlineNs: nat)
    ensures ArmsReach(s, Heartbeat(s, commandId, deadlineNs).s)
  {
    hide Reaches, LatchFault;
    SameArms(s, s);
    LatchReach(s, EStale, true);
  }

  lemma SetArmReach(s: State, right: bool, a: A.Arm)
    requires Reaches(GetArm(s, right), s.nowNs, a, s.nowNs)
    ensures ArmsReach(s, SetArm(s, right, a))
  {
    hide Reaches;
    ReachesItself(s.arms.left, s.nowNs, s.nowNs);
    ReachesItself(s.arms.right, s.nowNs, s.nowNs);
  }

  lemma SimFaultReach(s: State, right: bool, i: A.Injection)
    ensures ArmsReach(s, SetSimFault(s, right, i).s)
  {
    hide Reaches, A.SetInjection, A.Force, SetArm, GetArm;
    SameArms(s, s);
    var status := if i.status == 0 then 8 else i.status;
    var injection := i.(status := if i.fault == {} then 0 else status);
    var a, b := GetArm(s, right), A.SetInjection(GetArm(s, right), injection);
    ReachesByOne(a, A.Inject(injection), s.nowNs);
    ReachesByOne(b, A.ForceAt(A.MeasuredQ(b), A.MeasuredDq(b), s.nowNs), s.nowNs);
    var c := A.Force(b, A.MeasuredQ(b), A.MeasuredDq(b), s.nowNs);
    ReachesThen(a, s.nowNs, b, s.nowNs, c, s.nowNs);
    SetArmReach(s, right, b);
    SetArmReach(s, right, c);
  }

  lemma HooksReach(w: World, s: State, op: Op)
    requires op.OpScene? || op.OpSimState? || op.OpSimContactOff? || op.OpPoll?
    ensures ArmsReach(s, Apply(w, s, op).s)
  {
    hide Reaches, A.Force, A.SetBlockedAll, SetArm, GetArm, WithinLimits;
    SameArms(s, s);
    match op
    case OpSimState(right, q, dq) =>
      ReachesByOne(GetArm(s, right), A.ForceAt(q, dq, s.nowNs), s.nowNs);
      SetArmReach(s, right, A.Force(GetArm(s, right), q, dq, s.nowNs));
    case OpSimContactOff(right) =>
      ReachesByOne(GetArm(s, right), A.Block(false, 0.0), s.nowNs);
      SetArmReach(s, right, A.SetBlockedAll(GetArm(s, right), false, 0.0));
    case _ =>
      SameArms(s, Apply(w, s, op).s);
  }

  // ---------------------------------------------------------------------------
  // A cycle, stage by stage.

  lemma SuperviseReach(s: State, previousNs: nat)
    ensures StageReach(s, Supervise(s, previousNs))
  {
    hide Reaches, LatchFault, FeedbackIntegrity, Healthy;
    SameArms(s, s);
    LatchReach(s, EFault, false);
    LatchReach(s, FeedbackIntegrity(s), false);
    LatchReach(s, ETimeout, true);
  }

  lemma StartDueReach(s: State)
    ensures StageReach(s, StartDue(s))
  {
    hide Reaches, LatchFault, Publish, FeedbackIntegrity, StartPoseMatches;
    SameArms(s, s);
    LatchReach(s, EStale, true);
    LatchReach(s, ETimeout, true);
    LatchReach(s, EStale, false);
    PublishReach(s.(started := true), StartedEvent, OK, s.commandId);
  }

  lemma ResistReach(s: State, input: AdvanceInput)
    ensures ArmsReach(s, Resist(s, input)) && Resist(s, input).nowNs == s.nowNs
  {
    hide Reaches, A.SetBlockedAll;
    ReachesByOne(s.arms.left, A.Block(input.resisted.left, input.gain.left), s.nowNs);
    ReachesByOne(s.arms.right, A.Block(input.resisted.right, input.gain.right), s.nowNs);
  }

  lemma StepArmsReach(s: State, r: Reference, previousNs: nat)
    requires previousNs <= s.nowNs
    ensures StageReach(s, StepArms(s, r, previousNs))
  {
    hide Reaches, LatchFault, A.CommandAndStep;
    var dt := (s.nowNs - previousNs) as real / 1000000000.0;
    var left := A.CommandAndStep(s.arms.left, r.q.left, r.dq.left, s.nowNs, dt).arm;
    var right := A.CommandAndStep(s.arms.right, r.q.right, r.dq.right, s.nowNs, dt).arm;
    ReachesByOne(s.arms.left, A.Cycle(r.q.left, r.dq.left, s.nowNs, dt), s.nowNs);
    ReachesByOne(s.arms.right, A.Cycle(r.q.right, r.dq.right, s.nowNs, dt), s.nowNs);
    ReachesItself(s.arms.right, s.nowNs, s.nowNs);
    var t, u := s.(arms := Pair(left, s.arms.right)), s.(arms := Pair(left, right));
    LatchReach(t, ECan, false);
    ArmsReachThen(s, t, LatchFault(t, ECan, false).s);
    LatchReach(u, ECan, false);
    ArmsReachThen(s, u, LatchFault(u, ECan, false).s);
  }

  lemma CheckFeedbackReach(s: State)
    ensures StageReach(s, CheckFeedback(s))
  {
    hide Reaches, LatchFault, FeedbackIntegrity, Healthy;
    SameArms(s, s);
    LatchReach(s, FeedbackIntegrity(s), false);
    LatchReach(s, EFault, false);
  }

  lemma StageReachThen(s: State, t: State, g: Stage)
    requires ArmsReach(s, t) && StageReach(t, g)
    ensures StageReach(s, g)
  {
    hide ArmsReach;
    ArmsReachThen(s, t, if g.Done? then g.result.s else g.s);
  }

  lemma PumpReach(w: World, s: State, input: AdvanceInput, previousNs: nat)
    requires previousNs <= s.nowNs
    ensures StageReach(s, Pump(w, s, input, previousNs))
  {
    hide ArmsReach, Supervise, StartDue, StepArms, CheckFeedback, Resist, Commanded;
    SuperviseReach(s, previousNs);
    StartDueReach(s);
    var g := StartDue(s);
    if g.Going? {
      var resisted := Resist(g.s, input);
      ResistReach(g.s, input);
      ArmsReachThen(s, g.s, resisted);
      StepArmsReach(resisted, Commanded(w, g.s), previousNs);
      var moved := StepArms(resisted, Commanded(w, g.s), previousNs);
      StageReachThen(s, resisted, moved);
      if moved.Going? {
        CheckFeedbackReach(moved.s);
        StageReachThen(s, moved.s, CheckFeedback(moved.s));
      }
    }
  }

  lemma ContactReach(s: State)
    ensures ArmsReach(s, CompleteOnContact(s).s)
  {
    hide Reaches, MaterializeStop, Publish;
    MaterializeReach(s, true);
    PublishReachThen(s, DropPlan(MaterializeStop(s, true)).(settleStartNs := 0, settleSeq := Pair(0, 0), settleIntervals := 0,
                                                           settlingPublished := false, lifecycle := ArmedIdle),
                     StoppedEvent, OK, s.commandId);
  }

  lemma MonitorReach(w: World, s: State)
    ensures StageReach(s, Monitor(w, s))
  {
    hide Reaches, CompleteOnContact, Measure, OverThreshold, NotWorsening;
    SameArms(s, s);
    if Running(s) && s.started {
      var p := s.executing.value;
      ContactReach(s.(contactStreak := s.contactStreak + 1));
      var g := MonitorContact(s, p);
      if g.Going? {
        ContactReach(g.s.(lastClearance := Measure(w, g.s, p.motion.terminalContact).clearance));
      }
    }
  }

  lemma SettleReach(w: World, s: State)
    ensures ArmsReach(s, Settle(w, s).s)
  {
    hide Reaches, Publish, MeasuredAtGoal;
    SameArms(s, s);
    PublishReach(s, SettlingEvent, OK, s.commandId);
    var a := AnnounceSettling(s);
    if a.Going? {
      var t := CountSettling(a.s);
      PublishReachThen(s, DropPlan(t).(lifecycle := ArmedIdle), CompletedEvent, OK, t.commandId);
    }
  }

  lemma AdvanceReach(w: World, s: State, input: AdvanceInput)
    ensures ArmsReach(s, Advance(w, s, input).s)
  {
    hide ArmsReach, Pump, Monitor, Settle, SetInterlock;
    var noted := s.(estopLatched := true, nowNs := Later(input.ns, s.nowNs));
    SameArms(s, noted);
    SameArms(s, s.(estopLatched := false));
    InterlockReach(noted, true, s.deadman);
    ArmsReachThen(s, noted, SetInterlock(noted, true, s.deadman).s);
    if input.ns >= s.nowNs {
      var ticked := Tick(s, input.ns);
      SameArms(s, ticked);
      PumpReach(w, ticked, input, s.nowNs);
      var g := Pump(w, ticked, input, s.nowNs);
      StageReachThen(s, ticked, g);
      if g.Going? {
        MonitorReach(w, g.s);
        var m := Monitor(w, g.s);
        StageReachThen(s, g.s, m);
        if m.Going? {
          SettleReach(w, m.s);
          ArmsReachThen(s, m.s, Settle(w, m.s).s);
        }
      }
    }
  }

  /** Every controller operation is, on each arm, a timed run of arm operations. */
  lemma ApplyReach(w: World, s: State, op: Op)
    ensures ArmsReach(s, Apply(w, s, op).s)
  {
    hide ArmsReach, Advance, PlanPreconditions, Execute, SetInterlock, Stop, OpenAndVerify, Challenge, ArmWith, Disarm,
         Heartbeat, Reset, SetSceneRevision, SetSimFault, SetSimState, ClearSimContact, PollEvent;
    match op
    case OpAdvance(input) => AdvanceReach(w, s, input);
    case OpPlan(estop) => PlanReach(s, estop);
    case OpExecute(plan, request) => ExecuteReach(w, s, plan, request);
    case OpInterlock(estop, deadman) => InterlockReach(s, estop, deadman);
    case OpStop(kind) => StopReach(s, kind);
    case OpOpen => OpenReach(s);
    case OpChallenge => ChallengeReach(s);
    case OpArm(ticket) => ArmReach(s, ticket);
    case OpDisarm(deadlineNs) => DisarmReach(s, deadlineNs);
    case OpHeartbeat(commandId, deadlineNs) => HeartbeatReach(s, commandId, deadlineNs);
    case OpReset(epoch, nonce) => ResetReach(s, epoch, nonce);
    case OpSimFault(right, injection) => SimFaultReach(s, right, injection);
    case _ => HooksReach(w, s, op);
  }

  lemma {:induction false} RunReach(w: World, s: State, ops: seq<Op>)
    ensures ArmsReach(s, Run(w, s, ops))
    decreases |ops|
  {
    hide ArmsReach, Apply;
    if ops == [] {
      SameArms(s, s);
    } else {
      var t := Apply(w, s, ops[0]).s;
      ApplyReach(w, s, ops[0]);
      RunReach(w, t, ops[1..]);
      ArmsReachThen(s, t, Run(w, t, ops[1..]));
    }
  }

  // ---------------------------------------------------------------------------
  // What that gives for a controller's whole life.

  /** An arm's life so far: operations in time order that lead from the new arm to this one, and
      what the log of exactly these operations says of it. */
  ghost predicate Lived(first: A.Arm, ops: seq<A.ArmOp>, a: A.Arm, nowNs: nat) {
    Leads(first, 0, ops, a, nowNs) && A.Faithful(A.RunLog(A.NewLog(first), first, ops), a)
  }

  /** An arm as an arm's own theorems describe it at this moment. */
  ghost predicate ArmInOrder(first: A.Arm, a: A.Arm, nowNs: nat) {
    A.Coherent(a, nowNs) && A.Gridded(a) && exists ops :: Lived(first, ops, a, nowNs)
  }

  lemma CoherentLater(a: A.Arm, clock: nat, later: nat)
    requires A.Coherent(a, clock) && clock <= later
    ensures A.Coherent(a, later)
  {
  }

  lemma NewArmInOrder(a: A.Arm, b: A.Arm, to: nat)
    requires A.IsNew(a) && Reaches(a, 0, b, to)
    ensures ArmInOrder(a, b, to)
  {
    hide A.IsNew, A.Coherent, A.Faithful, A.Gridded, A.RunArm;
    var ops :| Leads(a, 0, ops, b, to);
    A.NewArmRun(a, ops);
    CoherentLater(b, A.ClockAtEnd(0, ops), to);
    A.NewIsGridded(a);
    A.RunKeepsGridded(a, ops);
    assert Lived(a, ops, b, to);
  }

  /** Between any two operations of any run from a new controller both arms are in order: the
      seven measurements of an arm share one capture time, and its whole life is a timed run of
      arm operations after which every generation captured since the queue was last cleared has
      left it or waits in it, in order, and the motors show the newest complete one that left. */
  lemma ArmsStayInOrder(w: World, options: Options, sceneRevision: nat, arms: Pair<A.Arm>, ops: seq<Op>)
    requires A.IsNew(arms.left) && A.IsNew(arms.right)
    ensures var t := Run(w, NewController(options, sceneRevision, arms), ops);
            ArmInOrder(arms.left, t.arms.left, t.nowNs) && ArmInOrder(arms.right, t.arms.right, t.nowNs)
  {
    hide A.IsNew, Reaches, ArmInOrder;
    var s := NewController(options, sceneRevision, arms);
    RunReach(w, s, ops);
    var t := Run(w, s, ops);
    NewArmInOrder(arms.left, t.arms.left, t.nowNs);
    NewArmInOrder(arms.right, t.arms.right, t.nowNs);
  }

  lemma SwitchedOff(m: D.Motor)
    ensures D.MappedQ(m.(enabled := false)) == D.MappedQ(m)
  {
  }

  /** No stop of an arm in order changes a measured position, whatever its kind. */
  lemma StopKeepsPose(a: A.Arm, virtual: bool, hold: bool, nowNs: nat)
    requires A.Gridded(a)
    ensures A.MeasuredQ(StopArm(a, virtual, hold, nowNs)) == A.MeasuredQ(a)
  {
    hide A.Gridded, A.MaterializeStop, D.MappedQ;
    if virtual && a.feedbackSeq != 0 {
      A.StopStays(a, hold, nowNs);
    } else {
      var b := StopArm(a, virtual, hold, nowNs);
      forall j | 0 <= j < A.JOINTS
        ensures D.MappedQ(b.motors[j]) == D.MappedQ(a.motors[j])
      {
        SwitchedOff(a.motors[j]);
        assert b.motors[j] == a.motors[j].(enabled := false);
      }
    }
  }

  /** So however often a controller stops, in any run, the measured pose does not drift. */
  lemma StopsDoNotDrift(w: World, options: Options, sceneRevision: nat, arms: Pair<A.Arm>, ops: seq<Op>, hold: bool)
    requires A.IsNew(arms.left) && A.IsNew(arms.right)
    ensures var t := Run(w, NewController(options, sceneRevision, arms), ops);
            var u := MaterializeStop(t, hold);
            && A.MeasuredQ(u.arms.left) == A.MeasuredQ(t.arms.left) && A.MeasuredQ(u.arms.right) == A.MeasuredQ(t.arms.right)
  {
    hide A.IsNew, Run, StopArm, A.MeasuredQ, A.Gridded;
    ArmsStayInOrder(w, options, sceneRevision, arms, ops);
    var t := Run(w, NewController(options, sceneRevision, arms), ops);
    StopKeepsPose(t.arms.left, t.options.virtual, hold, t.nowNs);
    StopKeepsPose(t.arms.right, t.options.virtual, hold, t.nowNs);
  }
}
