/** What an asserted emergency stop does to a control cycle, and when it does not do it. */
module EmergencyStop {
  import opened Common
  import D = Motors
  import A = ArmFeedback
  import C = ControllerArms
  import opened ControllerModel
  import opened ControllerSafety

  predicate Halted(s: State) {
    s.lifecycle == EStop || s.lifecycle == Fault
  }

  // ---------------------------------------------------------------------------
  // Plants: nothing is stepped.

  predicate SamePlant(m: D.Motor, n: D.Motor) {
    n.config == m.config && n.plantQ == m.plantQ && n.plantDq == m.plantDq && n.measured == m.measured
  }

  /** The measured pose of a motor, after a trip through a feedback frame. */
  function Remeasured(m: D.Motor): real {
    D.Requantised(m.measured.rawQ, m.config.pmax, D.Q_MAXIMUM)
  }

  /** Put to rest where it was measured, and measured again. */
  predicate Rested(m: D.Motor, n: D.Motor) {
    n.config == m.config && n.plantQ == m.measured.rawQ && n.plantDq == 0.0 && n.measured.rawQ == Remeasured(m)
  }

  /** Not stepped: the plant is as it was, or at rest in its measured pose. */
  predicate Held(m: D.Motor, n: D.Motor) {
    || (n.plantQ == m.plantQ && n.plantDq == m.plantDq)
    || (n.plantDq == 0.0 && (n.plantQ == m.measured.rawQ || n.plantQ == Remeasured(m)))
  }

  /** An arm never heard from is not forced. */
  predicate Stopped(a: A.Arm, b: A.Arm) {
    && (forall j :: 0 <= j < A.JOINTS ==> SamePlant(a.motors[j], b.motors[j]) || Rested(a.motors[j], b.motors[j]))
    && (a.feedbackSeq == 0 ==>
          b.feedbackSeq == 0 && forall j :: 0 <= j < A.JOINTS ==> SamePlant(a.motors[j], b.motors[j]))
  }

  predicate ArmHeld(a: A.Arm, b: A.Arm) {
    && (forall j :: 0 <= j < A.JOINTS ==> Held(a.motors[j], b.motors[j]))
    && (a.feedbackSeq == 0 ==> forall j :: 0 <= j < A.JOINTS ==> SamePlant(a.motors[j], b.motors[j]))
  }

  predicate NothingStepped(s: State, t: State) {
    ArmHeld(s.arms.left, t.arms.left) && ArmHeld(s.arms.right, t.arms.right)
  }

  /** Once a motor has been measured through a frame, measuring it again gives the same pose. */
  lemma RemeasuredOnGrid(m: D.Motor)
    requires D.OnGrid(m)
    ensures Remeasured(m) == m.measured.rawQ
  {
    var n: nat :| n <= D.Q_MAXIMUM && m.measured.rawQ == D.Decode(n, m.config.pmax, D.Q_MAXIMUM);
    D.EncodeInvertsDecode(n, m.config.pmax, D.Q_MAXIMUM);
  }

  /** The plant is as it was, or at rest exactly where it was measured. */
  predicate HeldExactly(m: D.Motor, n: D.Motor) {
    (n.plantQ == m.plantQ && n.plantDq == m.plantDq) || (n.plantDq == 0.0 && n.plantQ == m.measured.rawQ)
  }

  predicate ArmHeldExactly(a: A.Arm, b: A.Arm) {
    forall j :: 0 <= j < A.JOINTS ==> HeldExactly(a.motors[j], b.motors[j])
  }

  lemma GriddedIsHeldExactly(a: A.Arm, b: A.Arm)
    requires ArmHeld(a, b) && A.Gridded(a)
    ensures ArmHeldExactly(a, b)
  {
    hide D.Requantised, D.OnGrid;
    if a.feedbackSeq > 0 {
      forall j | 0 <= j < A.JOINTS
        ensures HeldExactly(a.motors[j], b.motors[j])
      {
        assert D.OnGrid(a.motors[j]);
        RemeasuredOnGrid(a.motors[j]);
      }
    }
  }

  lemma ForcedRests(m: D.Motor, on: bool, ns: nat)
    ensures Rested(m, D.ForceState(m.(enabled := on), D.MappedQ(m), 0.0, ns))
  {
    hide D.Requantised, D.NearField, D.Reading, D.Capture;
    D.CancelMapping(m.measured.rawQ, m.config.qScale, m.config.qOffset, D.MappedQ(m));
    D.ForcedMeasurement(m.(enabled := on), D.MappedQ(m), 0.0, ns);
  }

  lemma StopArmStops(a: A.Arm, virtual: bool, hold: bool, nowNs: nat)
    ensures Stopped(a, StopArm(a, virtual, hold, nowNs))
  {
    hide D.ForceState, Rested;
    forall j | 0 <= j < A.JOINTS
      ensures Rested(a.motors[j], D.ForceState(a.motors[j].(enabled := hold), D.MappedQ(a.motors[j]), 0.0, nowNs))
    {
      ForcedRests(a.motors[j], hold, nowNs);
    }
  }

  lemma StoppedTwice(a: A.Arm, b: A.Arm, c: A.Arm)
    requires Stopped(a, b) && Stopped(b, c)
    ensures ArmHeld(a, c)
  {
    hide D.Requantised;
  }

  lemma StoppedOnce(a: A.Arm, b: A.Arm)
    requires Stopped(a, b)
    ensures ArmHeld(a, b)
  {
    hide D.Requantised;
  }

  lemma SameArmStops(a: A.Arm)
    ensures Stopped(a, a)
  {
  }

  lemma DisabledStops(a: A.Arm)
    ensures Stopped(a, A.Retire(A.SetEnabled(a, false)))
  {
  }

  lemma MaterializeStops(s: State, hold: bool)
    ensures var t := MaterializeStop(s, hold);
            t == s.(arms := t.arms) && Stopped(s.arms.left, t.arms.left) && Stopped(s.arms.right, t.arms.right)
  {
    hide Stopped, StopArm, A.AllEnabled;
    StopArmStops(s.arms.left, s.options.virtual, hold, s.nowNs);
    StopArmStops(s.arms.right, s.options.virtual, hold, s.nowNs);
  }

  /** Publishing stops the arms if it overwrites an event, and else leaves them. */
  lemma PublishStops(s: State, kind: EventKind, cause: Status, commandId: nat)
    ensures var p := Publish(s, kind, cause, commandId);
            && Stopped(s.arms.left, p.s.arms.left) && Stopped(s.arms.right, p.s.arms.right)
            && p.s.estopLatched == s.estopLatched
            && p.s.lifecycle == (if |s.events| == EVENT_CAPACITY then Fault else s.lifecycle)
            && (s.executing == None ==> p.s.executing == None) && (s.commandId == 0 ==> p.s.commandId == 0)
  {
    hide Stopped, MaterializeStop;
    SameArmStops(s.arms.left);
    SameArmStops(s.arms.right);
    MaterializeStops(DropPlan(s), false);
  }

  lemma InterlockedStops(s: State)
    requires Good(s)
    ensures var t := Interlocked(s, s.deadman);
            && Stopped(s.arms.left, t.arms.left) && Stopped(s.arms.right, t.arms.right)
            && Powered(t.arms, false) && t.lifecycle == EStop && t.executing == None && t.commandId == 0
            && t.events == s.events && |t.events| <= EVENT_CAPACITY && t.estopLatched == s.estopLatched
  {
    InterlockedMoves(s, s.deadman);
    MaterializeStops(DropPlan(s.(deadman := s.deadman)), false);
    DisabledStops(s.arms.left);
    DisabledStops(s.arms.right);
    hide Stopped, MaterializeStop, A.AllEnabled, A.SetEnabled, A.Retire, SettleSound, FailedClosed;
  }

  /** What the interlock does when the stop is asserted. */
  lemma InterlockHalts(s: State)
    requires Good(s)
    ensures var t := SetInterlock(s, true, s.deadman).s;
            && NothingStepped(s, t) && Powered(t.arms, false) && t.executing == None && t.commandId == 0
            && t.lifecycle == (if |s.events| == EVENT_CAPACITY then Fault else EStop)
            && t.estopLatched == s.estopLatched
  {
    hide Stopped, ArmHeld, Publish, Powered, Interlocked, Good;
    var stopped := Interlocked(s, s.deadman);
    InterlockedStops(s);
    PublishStops(stopped, EStopEvent, EEstop, s.commandId);
    var t := Publish(stopped, EStopEvent, EEstop, s.commandId).s;
    InterlockPublishes(s, true, s.deadman);
    StoppedTwice(s.arms.left, stopped.arms.left, t.arms.left);
    StoppedTwice(s.arms.right, stopped.arms.right, t.arms.right);
    PublishFacts(stopped, EStopEvent, EEstop, s.commandId);
  }

  // ---------------------------------------------------------------------------
  // One advance under an asserted stop.

  /** With the stop asserted no advance steps a plant.  It halts the controller exactly if the
      controller had not taken note of the stop before or was halted already; it drops the plan
      exactly if the controller had not taken note, or held none. */
  lemma AdvanceUnderStop(w: World, s: State, input: AdvanceInput)
    requires Good(s) && input.estop
    ensures var t := Advance(w, s, input).s;
            && NothingStepped(s, t) && t.estopLatched
            && (Halted(t) <==> !s.estopLatched || Halted(s))
            && (t.executing == None <==> !s.estopLatched || s.executing == None)
    ensures var t := Advance(w, s, input).s;
            if s.estopLatched then t == s.(nowNs := Later(input.ns, s.nowNs)) && Advance(w, s, input).status == EEstop
            else Powered(t.arms, false) && t.commandId == 0
                 && t.lifecycle == (if |s.events| == EVENT_CAPACITY then Fault else EStop)
  {
    hide SetInterlock, Powered, Stopped, ArmHeld;
    var noted := s.(estopLatched := true, nowNs := Later(input.ns, s.nowNs));
    if s.estopLatched {
      SameArmStops(s.arms.left);
      SameArmStops(s.arms.right);
      StoppedOnce(s.arms.left, s.arms.left);
      StoppedOnce(s.arms.right, s.arms.right);
    } else {
      NotedIsGood(s, input.ns);
      InterlockHalts(noted);
    }
  }

  lemma NotedIsGood(s: State, ns: nat)
    requires Good(s)
    ensures Good(s.(estopLatched := true, nowNs := Later(ns, s.nowNs)))
  {
    hide Powered;
  }

  // ---------------------------------------------------------------------------
  // When the controller has taken note of the stop, over every run.

  /** Advances and planners sample the stop; nothing else does. */
  predicate Notes(op: Op) {
    (op.OpAdvance? && op.input.estop) || (op.OpPlan? && op.estop)
  }

  /** Only an advance that finds the stop released forgets it. */
  predicate Forgets(op: Op) {
    op.OpAdvance? && !op.input.estop
  }

  /** The latest operation that noted or forgot the stop noted it. */
  function Noted(ops: seq<Op>, before: bool): bool {
    if ops == [] then before
    else if Notes(ops[|ops| - 1]) then true
    else if Forgets(ops[|ops| - 1]) then false
    else Noted(ops[..|ops| - 1], before)
  }

  lemma {:induction false} NotedMeans(ops: seq<Op>, before: bool)
    ensures Noted(ops, before) <==>
            || (exists i :: 0 <= i < |ops| && Notes(ops[i]) && forall j :: i < j < |ops| ==> !Forgets(ops[j]))
            || (before && forall j :: 0 <= j < |ops| ==> !Forgets(ops[j]))
    decreases |ops|
  {
    if ops != [] {
      var n := |ops| - 1;
      NotedMeans(ops[..n], before);
      assert forall i :: 0 <= i < n ==> ops[..n][i] == ops[i];
    }
  }

  predicate Keeps(s: State, t: State) {
    t.estopLatched == s.estopLatched
  }

  predicate StageKeeps(s: State, g: Stage) {
    Keeps(s, if g.Done? then g.result.s else g.s)
  }

  lemma PublishKeeps(s: State, kind: EventKind, cause: Status, commandId: nat)
    ensures Keeps(s, Publish(s, kind, cause, commandId).s)
  {
    hide StopArm;
  }

  lemma LatchKeeps(s: State, cause: Status, controlled: bool)
    ensures Keeps(s, LatchFault(s, cause, controlled).s)
  {
    hide StopArm, HoldAvailable;
  }

  lemma SuperviseKeeps(s: State, previousNs: nat)
    ensures StageKeeps(s, Supervise(s, previousNs))
  {
    hide LatchFault, FeedbackIntegrity, Healthy;
    LatchKeeps(s, EFault, false);
    LatchKeeps(s, FeedbackIntegrity(s), false);
    LatchKeeps(s, ETimeout, true);
  }

  lemma StartDueKeeps(s: State)
    ensures StageKeeps(s, StartDue(s))
  {
    hide LatchFault, Publish, FeedbackIntegrity, StartPoseMatches;
    LatchKeeps(s, EStale, true);
    LatchKeeps(s, ETimeout, true);
    LatchKeeps(s, EStale, false);
    PublishKeeps(s.(started := true), StartedEvent, OK, s.commandId);
  }

  lemma StepArmsKeeps(s: State, r: Reference, previousNs: nat)
    requires previousNs <= s.nowNs
    ensures StageKeeps(s, StepArms(s, r, previousNs))
  {
    hide LatchFault, A.CommandAndStep;
    var dt := (s.nowNs - previousNs) as real / 1000000000.0;
    var left := A.CommandAndStep(s.arms.left, r.q.left, r.dq.left, s.nowNs, dt);
    var right := A.CommandAndStep(s.arms.right, r.q.right, r.dq.right, s.nowNs, dt);
    LatchKeeps(s.(arms := Pair(left.arm, s.arms.right)), ECan, false);
    LatchKeeps(s.(arms := Pair(left.arm, right.arm)), ECan, false);
  }

  lemma CheckFeedbackKeeps(s: State)
    ensures StageKeeps(s, CheckFeedback(s))
  {
    hide LatchFault, FeedbackIntegrity, Healthy;
    LatchKeeps(s, FeedbackIntegrity(s), false);
    LatchKeeps(s, EFault, false);
  }

  lemma PumpKeeps(w: World, s: State, input: AdvanceInput, previousNs: nat)
    requires previousNs <= s.nowNs
    ensures StageKeeps(s, Pump(w, s, input, previousNs))
  {
    hide Supervise, StartDue, StepArms, CheckFeedback, Resist, Commanded;
    SuperviseKeeps(s, previousNs);
    StartDueKeeps(s);
    var g := StartDue(s);
    if g.Going? {
      var resisted := Resist(g.s, input);
      ResistKeeps(g.s, input);
      StepArmsKeeps(resisted, Commanded(w, g.s), previousNs);
      var moved := StepArms(resisted, Commanded(w, g.s), previousNs);
      if moved.Going? {
        CheckFeedbackKeeps(moved.s);
      }
    }
  }

  lemma ResistKeeps(s: State, input: AdvanceInput)
    ensures Resist(s, input) == s.(arms := Resist(s, input).arms)
  {
    hide A.SetBlockedAll;
  }

  lemma ContactKeeps(s: State)
    ensures Keeps(s, CompleteOnContact(s).s)
  {
    hide StopArm;
  }

  lemma MonitorKeeps(w: World, s: State)
    ensures StageKeeps(s, Monitor(w, s))
  {
    hide CompleteOnContact, Measure, OverThreshold, NotWorsening;
    if Running(s) && s.started {
      var p := s.executing.value;
      ContactKeeps(s.(contactStreak := s.contactStreak + 1));
      var g := MonitorContact(s, p);
      if g.Going? {
        ContactKeeps(g.s.(lastClearance := Measure(w, g.s, p.motion.terminalContact).clearance));
      }
    }
  }

  lemma SettleKeeps(w: World, s: State)
    ensures Keeps(s, Settle(w, s).s)
  {
    hide Publish, MeasuredAtGoal;
    PublishKeeps(s, SettlingEvent, OK, s.commandId);
    var a := AnnounceSettling(s);
    if a.Going? {
      var t := CountSettling(a.s);
      PublishKeeps(DropPlan(t).(lifecycle := ArmedIdle), CompletedEvent, OK, t.commandId);
    }
  }

  lemma AdvanceNotes(w: World, s: State, input: AdvanceInput)
    ensures Advance(w, s, input).s.estopLatched == input.estop
  {
    hide Pump, Monitor, Settle, SetInterlock;
    if input.estop {
      InterlockKeeps(s.(estopLatched := true, nowNs := Later(input.ns, s.nowNs)), true, s.deadman);
    } else if input.ns > s.nowNs {
      PumpKeeps(w, Tick(s, input.ns), input, s.nowNs);
      var g := Pump(w, Tick(s, input.ns), input, s.nowNs);
      if g.Going? {
        MonitorKeeps(w, g.s);
        if Monitor(w, g.s).Going? {
          SettleKeeps(w, Monitor(w, g.s).s);
        }
      }
    }
  }

  lemma InterlockKeeps(s: State, estop: bool, deadman: bool)
    ensures Keeps(s, SetInterlock(s, estop, deadman).s)
  {
    hide Publish, Interlocked;
    PublishKeeps(Interlocked(s, deadman), EStopEvent, EEstop, s.commandId);
    InterlockedFrame(s, deadman);
    InterlockPublishes(s, estop, deadman);
  }

  lemma StopKeeps(s: State, kind: StopKind)
    ensures Keeps(s, Stop(s, kind).s)
  {
    hide StopArm, Publish;
    var stopping := s.(lifecycle := Stopping);
    PublishKeeps(stopping, AbortedEvent, OK, s.commandId);
    var aborted := if s.executing.Some? then Publish(stopping, AbortedEvent, OK, s.commandId) else Published(stopping, true);
    var stopped := MaterializeStop(DropPlan(aborted.s), kind == StopControlled);
    PublishKeeps(stopped.(lifecycle := if kind == StopDisable then Disarmed else ArmedIdle, stopKind := StopDisable),
                 StoppedEvent, OK, s.commandId);
  }

  lemma OpenKeeps(s: State)
    ensures Keeps(s, OpenAndVerify(s).s)
  {
    hide Publish, Reverify;
    var first := s.epoch == 0;
    var arms := Pair(Reverify(s.arms.left, first, s.nowNs), Reverify(s.arms.right, first, s.nowNs));
    PublishKeeps(s.(arms := arms, epoch := s.epoch + 1, lifecycle := Disarmed), VerifiedEvent, OK, 0);
  }

  lemma ChallengeKeeps(s: State)
    ensures Keeps(s, Challenge(s).s)
  {
    hide LatchFault, FeedbackIntegrity, Healthy, MotorsReportDisabled;
    LatchKeeps(s, EFault, false);
  }

  lemma ArmKeeps(s: State, t: Ticket)
    ensures Keeps(s, ArmWith(s, t).s)
  {
    hide LatchFault, Publish, FeedbackIntegrity, Healthy, MotorsReportDisabled, EnableInPlace;
    LatchKeeps(s, if !s.deadman then EEstop else EFault, false);
    var arms := Pair(EnableInPlace(s.arms.left, s.nowNs), EnableInPlace(s.arms.right, s.nowNs));
    PublishKeeps(s.(arms := arms, nonce := 0, lifecycle := ArmedIdle), ArmedEvent, OK, 0);
  }

  lemma DisarmKeeps(s: State, deadlineNs: nat)
    ensures Keeps(s, Disarm(s, deadlineNs).s)
  {
    hide Publish, StopArm;
    PublishKeeps(MaterializeStop(DropPlan(s), false).(lifecycle := Disarmed), DisarmedEvent, OK, 0);
  }

  lemma HeartbeatKeeps(s: State, commandId: nat, deadlineNs: nat)
    ensures Keeps(s, Heartbeat(s, commandId, deadlineNs).s)
  {
    hide LatchFault;
    LatchKeeps(s, EStale, true);
  }

  lemma ExecuteKeeps(w: World, s: State, p: Plan, r: ExecuteRequest)
    ensures Keeps(s, Execute(w, s, p, r).s)
  {
    hide LatchFault, Publish, FeedbackIntegrity, Healthy, PlanBelongs, Measure;
    LatchKeeps(s, EFault, false);
    var begun := Begin(w, s, p, r, if r.startNs == 0 then s.nowNs else r.startNs);
    PublishKeeps(begun, if begun.started then StartedEvent else QueuedEvent, OK, begun.commandId);
  }

  lemma PlanNotes(s: State, estop: bool)
    ensures PlanPreconditions(s, estop).s.estopLatched == (estop || s.estopLatched)
  {
    hide LatchFault, FeedbackIntegrity, Healthy;
    LatchKeeps(s, EFault, false);
  }

  lemma HooksKeep(w: World, s: State, op: Op)
    requires op.OpReset? || op.OpScene? || op.OpSimFault? || op.OpSimState? || op.OpSimContactOff? || op.OpPoll?
    ensures Keeps(s, Apply(w, s, op).s)
  {
    hide A.SetInjection, A.Force, A.SetBlockedAll, GetArm, WithinLimits, ResetArm;
  }

  /** Each operation notes the stop, forgets it, or leaves the matter. */
  lemma ApplyNotes(w: World, s: State, op: Op)
    ensures Apply(w, s, op).s.estopLatched == if Notes(op) then true else if Forgets(op) then false else s.estopLatched
  {
    hide Advance, PlanPreconditions, Execute, SetInterlock, Stop, OpenAndVerify, Challenge, ArmWith, Disarm, Heartbeat,
         Reset, SetSceneRevision, SetSimFault, SetSimState, ClearSimContact, PollEvent;
    match op
    case OpAdvance(input) => AdvanceNotes(w, s, input);
    case OpPlan(estop) => PlanNotes(s, estop);
    case OpExecute(plan, request) => ExecuteKeeps(w, s, plan, request);
    case OpInterlock(estop, deadman) => InterlockKeeps(s, estop, deadman);
    case OpStop(kind) => StopKeeps(s, kind);
    case OpOpen => OpenKeeps(s);
    case OpChallenge => ChallengeKeeps(s);
    case OpArm(ticket) => ArmKeeps(s, ticket);
    case OpDisarm(deadlineNs) => DisarmKeeps(s, deadlineNs);
    case OpHeartbeat(commandId, deadlineNs) => HeartbeatKeeps(s, commandId, deadlineNs);
    case _ => HooksKeep(w, s, op);
  }

  /** Over every run the latch says whether the latest operation that noted or forgot the stop
      noted it. */
  lemma {:induction false} RunNotes(w: World, s: State, ops: seq<Op>)
    ensures Run(w, s, ops).estopLatched == Noted(ops, s.estopLatched)
    decreases |ops|
  {
    hide Apply, Notes, Forgets;
    if ops != [] {
      var n := |ops| - 1;
      RunNotes(w, s, ops[..n]);
      assert ops == ops[..n] + [ops[n]];
      RunJoins(w, s, ops[..n], [ops[n]]);
      ApplyNotes(w, Run(w, s, ops[..n]), ops[n]);
    }
  }

  /** After any operations, an advance under an asserted stop halts the controller exactly if
      those operations left the stop unnoted or the controller halted; and it drops the plan
      exactly if they left the stop unnoted or no plan. */
  lemma StopAfterRun(w: World, s: State, ops: seq<Op>, input: AdvanceInput)
    requires Good(s) && input.estop
    ensures var m := Run(w, s, ops);
            var t := Run(w, s, ops + [OpAdvance(input)]);
            && NothingStepped(m, t)
            && (Halted(t) <==> !Noted(ops, s.estopLatched) || Halted(m))
            && (t.executing == None <==> !Noted(ops, s.estopLatched) || m.executing == None)
  {
    hide Advance, Good, NothingStepped;
    RunKeepsGood(w, s, ops);
    RunNotes(w, s, ops);
    RunJoins(w, s, ops, [OpAdvance(input)]);
    AdvanceUnderStop(w, Run(w, s, ops), input);
  }

  /** In every run from a new controller each motor then stays as it was, or rests exactly
      where it was measured. */
  lemma StopHoldsExactly(w: World, options: Options, sceneRevision: nat, arms: Pair<A.Arm>, ops: seq<Op>, input: AdvanceInput)
    requires A.IsNew(arms.left) && A.IsNew(arms.right) && input.estop
    ensures var m := Run(w, NewController(options, sceneRevision, arms), ops);
            var t := Advance(w, m, input).s;
            ArmHeldExactly(m.arms.left, t.arms.left) && ArmHeldExactly(m.arms.right, t.arms.right)
  {
    hide A.IsNew, A.Gridded, ArmHeld, ArmHeldExactly, Advance, Good, Run;
    var s := NewController(options, sceneRevision, arms);
    NewIsGood(options, sceneRevision, arms);
    RunKeepsGood(w, s, ops);
    var m := Run(w, s, ops);
    C.ArmsStayInOrder(w, options, sceneRevision, arms, ops);
    AdvanceUnderStop(w, m, input);
    GriddedIsHeldExactly(m.arms.left, Advance(w, m, input).s.arms.left);
    GriddedIsHeldExactly(m.arms.right, Advance(w, m, input).s.arms.right);
  }

  // ---------------------------------------------------------------------------
  // Where it fails.

  /** A planner that finds the stop asserted hides it from the advance that follows: the
      command, the plan and the motors stay as they are, in every state. */
  lemma PlanningHidesTheStop(w: World, s: State, input: AdvanceInput)
    requires input.estop
    ensures var t := Run(w, s, [OpPlan(true), OpAdvance(input)]);
            && t.lifecycle == s.lifecycle && t.executing == s.executing && t.commandId == s.commandId && t.arms == s.arms
  {
    hide SetInterlock;
    RunTwo(w, s, OpPlan(true), OpAdvance(input));
  }

  lemma RunTwo(w: World, s: State, first: Op, second: Op)
    ensures Run(w, s, [first, second]) == Apply(w, Apply(w, s, first).s, second).s
  {
    hide Apply;
    assert [first, second][1..] == [second];
    assert Run(w, Apply(w, s, first).s, [second]) == Run(w, Apply(w, Apply(w, s, first).s, second).s, []);
  }

  /** No drive reports a fault of its own. */
  predicate Sound(a: A.Arm) {
    forall j :: 0 <= j < A.JOINTS ==> a.motors[j].faultStatus == 0
  }

  predicate SoundArms(s: State) {
    Sound(s.arms.left) && Sound(s.arms.right)
  }

  lemma ForcedStatus(m: D.Motor, q: real, dq: real, ns: nat)
    requires m.faultStatus == 0
    ensures var n := D.ForceState(m, q, dq, ns);
            n.measured.status == (if m.enabled then 1 else 0) && n.measured.valid && n.faultStatus == 0 && n.measured.tNs == ns
  {
    hide D.NearField, D.Requantised, D.Publish, D.Capture;
    D.ForcedMeasurement(m, q, dq, ns);
  }

  lemma ForcedArm(a: A.Arm, on: bool, q: A.Joints, ns: nat)
    requires Sound(a)
    ensures var b := A.Force(A.SetEnabled(a, on), q, A.ZERO, ns);
            && Sound(b) && A.FaultFree(b) && b.generationNs == ns
            && (forall timeout :: A.CompleteFresh(b, ns, timeout))
            && (!on ==> forall timeout :: A.ReportsDisabled(b, ns, timeout))
  {
    hide D.ForceState;
    forall j | 0 <= j < A.JOINTS
      ensures var n := D.ForceState(a.motors[j].(enabled := on), q[j], 0.0, ns);
              n.measured.status == (if on then 1 else 0) && n.measured.valid && n.faultStatus == 0 && n.measured.tNs == ns
    {
      ForcedStatus(a.motors[j].(enabled := on), q[j], 0.0, ns);
    }
  }

  /** A controller that opens, draws a challenge and arms with it. */
  function Arming(s: State): seq<Op> {
    [OpOpen, OpChallenge, OpArm(Ticket(s.epoch + 1, s.nonceCounter + 1, s.nowNs + CHALLENGE_LIFETIME_NS))]
  }

  predicate Ready(s: State) {
    && s.options.virtual && s.lifecycle == Closed && s.deadman && SoundArms(s) && |s.events| + 2 <= EVENT_CAPACITY
  }

  lemma OpenReady(s: State)
    requires Ready(s)
    ensures var t := OpenAndVerify(s).s;
            && t.lifecycle == Disarmed && Fresh(t) && Healthy(t) && MotorsReportDisabled(t) && SoundArms(t)
            && t == s.(arms := t.arms, epoch := s.epoch + 1, lifecycle := Disarmed, events := t.events)
            && |t.events| == |s.events| + 1
  {
    hide A.CompleteFresh, A.FaultFree, A.ReportsDisabled, A.Force, A.SetEnabled, Sound;
    var first := s.epoch == 0;
    ForcedArm(s.arms.left, false, if first then A.ZERO else A.MeasuredQ(s.arms.left), s.nowNs);
    ForcedArm(s.arms.right, false, if first then A.ZERO else A.MeasuredQ(s.arms.right), s.nowNs);
  }

  lemma ArmReady(s: State, t: Ticket)
    requires s.lifecycle == Disarmed && Fresh(s) && Healthy(s) && MotorsReportDisabled(s) && SoundArms(s) && s.deadman
    requires TicketMatches(s, t) && |s.events| < EVENT_CAPACITY
    ensures var u := ArmWith(s, t).s;
            && u.lifecycle == ArmedIdle && Powered(u.arms, true) && Fresh(u) && Healthy(u)
            && u == s.(arms := u.arms, nonce := 0, lifecycle := ArmedIdle, events := u.events)
            && |u.events| == |s.events| + 1
  {
    hide A.CompleteFresh, A.FaultFree, A.ReportsDisabled, A.Force, A.SetEnabled, Sound, A.AllEnabled;
    ForcedArm(s.arms.left, true, A.MeasuredQ(s.arms.left), s.nowNs);
    ForcedArm(s.arms.right, true, A.MeasuredQ(s.arms.right), s.nowNs);
  }

  lemma RunThree(w: World, s: State, first: Op, second: Op, third: Op)
    ensures Run(w, s, [first, second, third]) == Apply(w, Apply(w, Apply(w, s, first).s, second).s, third).s
  {
    hide Apply;
    assert [first, second, third][1..] == [second, third];
    RunTwo(w, Apply(w, s, first).s, second, third);
  }

  lemma ArmingArms(w: World, s: State)
    requires Ready(s)
    ensures var t := Run(w, s, Arming(s));
            && t.lifecycle == ArmedIdle && Powered(t.arms, true) && Fresh(t) && Healthy(t)
            && t.nowNs == s.nowNs && t.estopLatched == s.estopLatched && |t.events| == |s.events| + 2
  {
    hide OpenAndVerify, ArmWith, FeedbackIntegrity, Healthy, MotorsReportDisabled, SoundArms, Powered, LatchFault;
    var ticket := Ticket(s.epoch + 1, s.nonceCounter + 1, s.nowNs + CHALLENGE_LIFETIME_NS);
    RunThree(w, s, OpOpen, OpChallenge, OpArm(ticket));
    OpenReady(s);
    var verified := OpenAndVerify(s).s;
    var challenged := Challenge(verified).s;
    assert challenged == verified.(nonce := challenged.nonce, nonceCounter := challenged.nonceCounter,
                                 nonceExpiryNs := challenged.nonceExpiryNs);
    NonceApart(verified, challenged);
    ArmReady(challenged, ticket);
  }

  /** What arming looks at does not include the challenge. */
  lemma NonceApart(s: State, t: State)
    requires t == s.(nonce := t.nonce, nonceCounter := t.nonceCounter, nonceExpiryNs := t.nonceExpiryNs)
    ensures Fresh(t) == Fresh(s) && Healthy(t) == Healthy(s) && MotorsReportDisabled(t) == MotorsReportDisabled(s)
    ensures SoundArms(t) == SoundArms(s)
  {
  }

  lemma NewIsReady(options: Options, sceneRevision: nat, arms: Pair<A.Arm>)
    requires options.virtual && A.IsNew(arms.left) && A.IsNew(arms.right)
    ensures Ready(NewController(options, sceneRevision, arms))
  {
  }

  /** The first way: a new controller is armed, accepts a plan, is asked for another plan while
      the stop is asserted, and then advanced.  It is still executing, with all motors on. */
  lemma CommandOutlivesTheStop(w: World, options: Options, sceneRevision: nat, arms: Pair<A.Arm>, motion: Motion,
                               input: AdvanceInput)
    requires options.virtual && A.IsNew(arms.left) && A.IsNew(arms.right) && motion.durationNs <= 10 && input.estop
    ensures var s := NewController(options, sceneRevision, arms);
            var armed := Run(w, s, Arming(s));
            var request := ExecuteRequest(0, 10, 10, StopDisable);
            var ops := Arming(s) + [OpExecute(Bind(armed, motion, 10), request)] + [OpPlan(true), OpAdvance(input)];
            var t := Run(w, s, ops);
            t.lifecycle == Executing && t.executing.Some? && t.commandId != 0 && Powered(t.arms, true)
  {
    hide Apply, Powered, Arming, Fresh, Healthy;
    var s := NewController(options, sceneRevision, arms);
    NewIsReady(options, sceneRevision, arms);
    NewIsGood(options, sceneRevision, arms);
    ArmingArms(w, s);
    var armed := Run(w, s, Arming(s));
    RunKeepsGood(w, s, Arming(s));
    var request := ExecuteRequest(0, 10, 10, StopDisable);
    var plan := Bind(armed, motion, 10);
    FreshPlanIsAccepted(w, armed, motion, 10, request);
    var started := Execute(w, armed, plan, request).s;
    ApplyExecutes(w, armed, plan, request);
    RunJoins(w, s, Arming(s), [OpExecute(plan, request)]);
    RunOne(w, armed, OpExecute(plan, request));
    RunJoins(w, s, Arming(s) + [OpExecute(plan, request)], [OpPlan(true), OpAdvance(input)]);
    PlanningHidesTheStop(w, started, input);
    ApplyMoves(w, armed, OpExecute(plan, request));
    ExecutingIsPowered(started);
  }

  lemma ApplyExecutes(w: World, s: State, p: Plan, r: ExecuteRequest)
    ensures Apply(w, s, OpExecute(p, r)) == Execute(w, s, p, r)
  {
    hide Execute;
  }

  lemma RunOne(w: World, s: State, op: Op)
    ensures Run(w, s, [op]) == Apply(w, s, op).s
  {
    hide Apply;
    assert Run(w, s, [op]) == Run(w, Apply(w, s, op).s, []);
  }

  lemma ExecutingIsPowered(s: State)
    requires Good(s) && s.lifecycle == Executing
    ensures Powered(s.arms, true) && s.commandId != 0
  {
  }

  /** The arms of a controller halted before it was ever opened. */
  lemma HaltedArms(a: A.Arm)
    requires Sound(a)
    ensures Sound(ResetArm(A.Retire(A.SetEnabled(a, false))))
  {
  }

  lemma ClosedHalts(s: State, ns: nat)
    requires Ready(s) && !s.estopLatched
    ensures var t := AdvanceStopped(s, ns).s;
            && t == s.(arms := t.arms, nowNs := t.nowNs, estopLatched := true, executing := None, commandId := 0,
                       lifecycle := EStop, nonce := s.nonceCounter + 1, nonceCounter := s.nonceCounter + 1,
                       events := t.events)
            && |t.events| == |s.events| + 1
            && t.arms == Pair(A.Retire(A.SetEnabled(s.arms.left, false)), A.Retire(A.SetEnabled(s.arms.right, false)))
  {
    hide A.SetEnabled, A.Retire, MaterializeStop, SoundArms;
  }

  /** A closed controller halts at the stop; challenge and reset then close it again without
      looking at the stop. */
  lemma ResetForgetsNothing(w: World, s: State, input: AdvanceInput)
    requires Ready(s) && input.estop && !s.estopLatched && |s.events| + 3 <= EVENT_CAPACITY
    ensures var t := Run(w, s, [OpAdvance(input), OpChallenge, OpReset(s.epoch, s.nonceCounter + 2)]);
            Ready(t) && t.estopLatched
  {
    hide A.SetEnabled, A.Retire, ResetArm, AdvanceStopped, Sound, LatchFault, FeedbackIntegrity, Healthy, MotorsReportDisabled;
    RunThree(w, s, OpAdvance(input), OpChallenge, OpReset(s.epoch, s.nonceCounter + 2));
    ClosedHalts(s, input.ns);
    HaltedArms(s.arms.left);
    HaltedArms(s.arms.right);
  }

  /** The second way: a controller halts at the stop, is reset and armed again while the stop
      stays asserted, and is then advanced.  It stays armed, with all motors on. */
  lemma ArmingOutlivesTheStop(w: World, options: Options, sceneRevision: nat, arms: Pair<A.Arm>, input: AdvanceInput)
    requires options.virtual && A.IsNew(arms.left) && A.IsNew(arms.right) && input.estop
    ensures var s := NewController(options, sceneRevision, arms);
            var halting := [OpAdvance(input), OpChallenge, OpReset(0, FIRST_NONCE + 2)];
            var t := Run(w, s, halting + Arming(Run(w, s, halting)) + [OpAdvance(input)]);
            t.lifecycle == ArmedIdle && Powered(t.arms, true)
  {
    hide Advance, Powered, Arming, Fresh, Healthy, Ready, Good;
    var s := NewController(options, sceneRevision, arms);
    var halting := [OpAdvance(input), OpChallenge, OpReset(0, FIRST_NONCE + 2)];
    NewIsReady(options, sceneRevision, arms);
    NewIsGood(options, sceneRevision, arms);
    ResetForgetsNothing(w, s, input);
    var reset := Run(w, s, halting);
    RunKeepsGood(w, s, halting);
    RunJoins(w, s, halting, Arming(reset));
    ArmingArms(w, reset);
    var armed := Run(w, reset, Arming(reset));
    RunKeepsGood(w, reset, Arming(reset));
    RunJoins(w, s, halting + Arming(reset), [OpAdvance(input)]);
    RunOne(w, armed, OpAdvance(input));
    AdvanceUnderStop(w, armed, input);
  }
}
