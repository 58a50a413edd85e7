/** What a control cycle does to the arms, in terms of the command it executes, the clock and
    what the motors report. */
module ControllerCycle {
  import opened Common
  import opened RealFacts
  import D = Motors
  import A = ArmFeedback
  import R = ControllerRuns
  import E = EmergencyStop
  import opened ControllerModel
  import opened ControllerSafety

  // ---------------------------------------------------------------------------
  // What the motors are told and what they report, motor by motor.

  /** The motor's command is this pose and velocity of its joint. */
  predicate Told(m: D.Motor, q: real, dq: real) {
    m.commandQ == (q - m.config.qOffset) / m.config.qScale && m.commandDq == dq / m.config.qScale
  }

  predicate ArmTold(a: A.Arm, q: A.Joints, dq: A.Joints) {
    forall j :: 0 <= j < A.JOINTS ==> Told(a.motors[j], q[j], dq[j])
  }

  /** The motor's command is to rest where it was measured. */
  predicate ToldToRest(m: D.Motor, before: D.Motor) {
    m.commandQ == before.measured.rawQ && m.commandDq == 0.0
  }

  predicate ArmToldToRest(a: A.Arm, before: A.Arm) {
    forall j :: 0 <= j < A.JOINTS ==> ToldToRest(a.motors[j], before.motors[j])
  }

  /** Joint position and velocity as measured. */
  function JointQ(m: D.Motor): real {
    m.config.qScale * m.measured.rawQ + m.config.qOffset
  }

  function JointDq(m: D.Motor): real {
    m.config.qScale * m.measured.rawDq
  }

  /** Every motor has reported, belongs to the newest generation, and not too long ago. */
  predicate Current(a: A.Arm, nowNs: nat, timeoutNs: nat) {
    forall j :: 0 <= j < A.JOINTS ==>
      var seen := a.motors[j].measured;
      j in a.generationMask && seen.valid && seen.tNs <= nowNs <= seen.tNs + timeoutNs
  }

  predicate NoFault(a: A.Arm) {
    forall j :: 0 <= j < A.JOINTS ==> a.motors[j].measured.status <= 7
  }

  predicate Together(left: nat, right: nat, skewNs: nat) {
    left <= right + skewNs && right <= left + skewNs
  }

  /** Both arms have reported in time, together and without a fault. */
  predicate Sound(o: Options, arms: Pair<A.Arm>, nowNs: nat) {
    && Current(arms.left, nowNs, o.timeoutNs) && Current(arms.right, nowNs, o.timeoutNs)
    && Together(arms.left.generationNs, arms.right.generationNs, o.skewNs)
    && NoFault(arms.left) && NoFault(arms.right)
  }

  /** No joint is further than a milliradian from the pose the plan was made in. */
  predicate AtStart(a: A.Arm, start: A.Joints) {
    forall j :: 0 <= j < A.JOINTS ==> -0.001 <= JointQ(a.motors[j]) - start[j] <= 0.001
  }

  predicate BothAtStart(arms: Pair<A.Arm>, p: Plan) {
    AtStart(arms.left, p.start.left) && AtStart(arms.right, p.start.right)
  }

  lemma SoundIs(s: State)
    ensures Sound(s.options, s.arms, s.nowNs) <==> Fresh(s) && Healthy(s)
  {
  }

  lemma AtStartIs(s: State, p: Plan)
    ensures BothAtStart(s.arms, p) <==> StartPoseMatches(s, p)
  {
    NearIs(s.arms.left, p.start.left);
    NearIs(s.arms.right, p.start.right);
  }

  lemma NearIs(a: A.Arm, start: A.Joints)
    ensures AtStart(a, start) <==> Near(A.MeasuredQ(a), start)
  {
    var q := A.MeasuredQ(a);
    assert forall j :: 0 <= j < A.JOINTS ==> q[j] == JointQ(a.motors[j]);
  }

  // ---------------------------------------------------------------------------
  // Plants are told.

  lemma MotorTold(m: D.Motor, q: real, dq: real, dt: real, frozen: bool)
    ensures Told(D.AfterStep(D.Command(m, q, dq), dt, frozen), q, dq)
  {
    hide D.AfterStep;
  }

  lemma MotorsTold(a: A.Arm, q: A.Joints, dq: A.Joints, dt: real)
    ensures ArmTold(A.StepMotors(a, q, dq, dt), q, dq)
  {
    hide D.AfterStep, D.Command, Told;
    forall j | 0 <= j < A.JOINTS
      ensures Told(A.StepMotors(a, q, dq, dt).motors[j], q[j], dq[j])
    {
      MotorTold(a.motors[j], q[j], dq[j], dt, j in a.freeze);
    }
  }

  lemma StepTells(a: A.Arm, q: A.Joints, dq: A.Joints, nowNs: nat, dt: real)
    ensures A.CommandAndStep(a, q, dq, nowNs, dt).ok ==> ArmTold(A.CommandAndStep(a, q, dq, nowNs, dt).arm, q, dq)
  {
    hide ArmTold, A.StepMotors, A.Snap, A.PublishDue, A.RoundApplied, A.WellFormed;
    var stepped := A.StepMotors(a, q, dq, dt);
    MotorsTold(a, q, dq, dt);
    var queued := A.Enqueue(stepped, A.Snap(stepped, nowNs));
    if queued.ok {
      QueuedTold(stepped, A.Snap(stepped, nowNs), q, dq);
      A.PublishDueIsFifo(queued.arm, nowNs);
      TellingStays(queued.arm, A.PublishDue(queued.arm, nowNs), A.TakeRound(queued.arm.queue, queued.arm.feedbackSeq, nowNs), q, dq);
    }
  }

  lemma QueuedTold(a: A.Arm, g: A.Generation, q: A.Joints, dq: A.Joints)
    requires A.Sound(g) && ArmTold(a, q, dq)
    ensures ArmTold(A.Enqueue(a, g).arm, q, dq)
  {
  }

  lemma TellingStays(a: A.Arm, end: A.Outcome, r: A.Round, q: A.Joints, dq: A.Joints)
    requires ArmTold(a, q, dq) && A.RoundApplied(a, end, r)
    ensures ArmTold(end.arm, q, dq)
  {
    hide A.Shows;
  }

  /** An obstacle changes neither what a motor measured nor how it is mapped. */
  lemma ResistKeepsReadings(a: A.Arm, blocked: bool, gain: real)
    ensures forall j :: 0 <= j < A.JOINTS ==>
              var b := A.SetBlockedAll(a, blocked, gain);
              b.motors[j].config == a.motors[j].config && b.motors[j].measured == a.motors[j].measured
  {
  }

  /** Told its own measured pose, a motor is told to rest. */
  lemma OwnPoseRests(m: D.Motor, before: D.Motor)
    requires m.config == before.config && Told(m, D.MappedQ(before), 0.0)
    ensures ToldToRest(m, before)
  {
    D.CancelMapping(before.measured.rawQ, before.config.qScale, before.config.qOffset, D.MappedQ(before));
  }

  lemma StepKeepsConfigs(a: A.Arm, q: A.Joints, dq: A.Joints, nowNs: nat, dt: real)
    ensures forall j :: 0 <= j < A.JOINTS ==>
              A.CommandAndStep(a, q, dq, nowNs, dt).arm.motors[j].config == a.motors[j].config
  {
    hide A.Snap, A.PublishDue, A.WellFormed, A.Shows, D.StepPlant;
    var stepped := A.StepMotors(a, q, dq, dt);
    var queued := A.Enqueue(stepped, A.Snap(stepped, nowNs));
    if queued.ok {
      A.PublishDueIsFifo(queued.arm, nowNs);
    }
  }

  lemma OwnPoseArmRests(a: A.Arm, b: A.Arm)
    requires forall j :: 0 <= j < A.JOINTS ==> b.motors[j].config == a.motors[j].config
    requires ArmTold(b, A.MeasuredQ(a), A.ZERO)
    ensures ArmToldToRest(b, a)
  {
    hide D.MappedQ, Told, ToldToRest;
    forall j | 0 <= j < A.JOINTS
      ensures ToldToRest(b.motors[j], a.motors[j])
    {
      assert Told(b.motors[j], A.MeasuredQ(a)[j], A.ZERO[j]);
      OwnPoseRests(b.motors[j], a.motors[j]);
    }
  }

  // ---------------------------------------------------------------------------
  // The cycle up to its monitors.

  /** Nanoseconds into the command, none before its start. */
  function ElapsedNs(s: State): nat {
    if s.startNs < s.nowNs then s.nowNs - s.startNs else 0
  }

  /** What both arms are told, given the state the cycle began in. */
  predicate Follows(w: World, before: State, s: State) {
    if s.lifecycle == Executing && s.executing.Some? then
      var r := w.reference(s.executing.value, ElapsedNs(s));
      ArmTold(s.arms.left, r.q.left, r.dq.left) && ArmTold(s.arms.right, r.q.right, r.dq.right)
    else ArmToldToRest(s.arms.left, before.arms.left) && ArmToldToRest(s.arms.right, before.arms.right)
  }

  /** When a cycle from `before` at this time may step a plant at all. */
  predicate MayStep(before: State, nowNs: nat) {
    && (before.lifecycle == ArmedIdle || before.lifecycle == Executing ==>
          Sound(before.options, before.arms, nowNs) && nowNs <= before.nowNs + before.options.cycleNs)
    && (before.lifecycle == Executing && before.executing.Some? ==>
          && nowNs <= before.producerDeadlineNs && nowNs <= before.expiryNs
          && (!before.started && before.startNs <= nowNs ==> BothAtStart(before.arms, before.executing.value)))
  }

  lemma StepsTell(s: State, r: Reference, previousNs: nat)
    requires previousNs <= s.nowNs
    ensures var g := StepArms(s, r, previousNs);
            g.Going? ==>
              && g.s == s.(arms := g.s.arms)
              && ArmTold(g.s.arms.left, r.q.left, r.dq.left) && ArmTold(g.s.arms.right, r.q.right, r.dq.right)
              && (forall j :: 0 <= j < A.JOINTS ==> g.s.arms.left.motors[j].config == s.arms.left.motors[j].config)
              && (forall j :: 0 <= j < A.JOINTS ==> g.s.arms.right.motors[j].config == s.arms.right.motors[j].config)
  {
    hide A.CommandAndStep, ArmTold, LatchFault;
    var dt := (s.nowNs - previousNs) as real / 1000000000.0;
    StepTells(s.arms.left, r.q.left, r.dq.left, s.nowNs, dt);
    StepTells(s.arms.right, r.q.right, r.dq.right, s.nowNs, dt);
    StepKeepsConfigs(s.arms.left, r.q.left, r.dq.left, s.nowNs, dt);
    StepKeepsConfigs(s.arms.right, r.q.right, r.dq.right, s.nowNs, dt);
  }

  /** Starting is announced, and changes nothing else. */
  lemma StartDueFrame(s: State)
    ensures StartDue(s).Going? ==>
              StartDue(s).s == s.(started := s.started || (Running(s) && s.startNs <= s.nowNs), events := StartDue(s).s.events)
  {
    hide LatchFault, Fresh, StartPoseMatches, Overflow;
  }

  lemma RestedArm(a: A.Arm, resisted: A.Arm, b: A.Arm, blocked: bool, gain: real)
    requires resisted == A.SetBlockedAll(a, blocked, gain) && ArmTold(b, A.MeasuredQ(a), A.ZERO)
    requires forall j :: 0 <= j < A.JOINTS ==> b.motors[j].config == resisted.motors[j].config
    ensures ArmToldToRest(b, a)
  {
    hide A.SetBlockedAll, ArmTold, ArmToldToRest, A.MeasuredQ;
    ResistKeepsReadings(a, blocked, gain);
    OwnPoseArmRests(a, b);
  }

  lemma MovedFollows(w: World, s: State, input: AdvanceInput, previousNs: nat)
    requires previousNs <= s.nowNs
    ensures var g := StepArms(Resist(s, input), Commanded(w, s), previousNs);
            g.Going? ==> Follows(w, s, g.s) && g.s == s.(arms := g.s.arms)
  {
    hide StepArms, A.SetBlockedAll, A.MeasuredQ, ArmTold, ArmToldToRest;
    var g := StepArms(Resist(s, input), Commanded(w, s), previousNs);
    StepsTell(Resist(s, input), Commanded(w, s), previousNs);
    if g.Going? && !Running(s) {
      RestedArm(s.arms.left, Resist(s, input).arms.left, g.s.arms.left, input.resisted.left, input.gain.left);
      RestedArm(s.arms.right, Resist(s, input).arms.right, g.s.arms.right, input.resisted.right, input.gain.right);
    }
  }

  /** A cycle that gets past its supervision was allowed to step. */
  lemma SupervisedMayStep(s: State, nowNs: nat)
    requires nowNs > s.nowNs
    ensures var t := Tick(s, nowNs);
            Supervise(t, s.nowNs).Going? && StartDue(t).Going? ==> MayStep(s, nowNs)
  {
    hide LatchFault, Publish, Sound, BothAtStart, FeedbackIntegrity, StartPoseMatches, Healthy;
    SoundIs(Tick(s, nowNs));
    if s.executing.Some? {
      AtStartIs(Tick(s, nowNs), s.executing.value);
    }
  }

  /** What is known where a cycle reaches its monitors: it was allowed to step, each arm was told
      its own row of the reference at this moment (or, without a command, to rest where it was
      measured), and what the arms report is sound again. */
  lemma CycleToMonitors(w: World, s: State, op: Op)
    requires R.Pumped(w, s, op).Some?
    ensures var t := R.Pumped(w, s, op).value;
            && t.nowNs == op.input.ns > s.nowNs && MayStep(s, t.nowNs) && Follows(w, s, t)
            && Sound(t.options, t.arms, t.nowNs)
            && t == s.(nowNs := t.nowNs, estopLatched := false, arms := t.arms, events := t.events,
                       started := s.started || (Running(s) && s.startNs <= t.nowNs))
  {
    hide Supervise, StartDue, StepArms, LatchFault, FeedbackIntegrity, Healthy, Resist, Commanded, Sound, MayStep, Follows;
    var begin := Tick(s, op.input.ns);
    SupervisedMayStep(s, op.input.ns);
    StartDueFrame(begin);
    assert Supervise(begin, s.nowNs).Going? && StartDue(begin).Going?;
    var begun := StartDue(begin).s;
    ResistKeepsTime(begun, op.input);
    MovedFollows(w, begun, op.input, s.nowNs);
    var t := StepArms(Resist(begun, op.input), Commanded(w, begun), s.nowNs).s;
    SameFollows(w, begun, s, t);
    SoundIs(t);
  }

  lemma SameFollows(w: World, b: State, c: State, t: State)
    requires Follows(w, b, t) && b.arms == c.arms
    ensures Follows(w, c, t)
  {
    hide ArmTold;
  }

  // ---------------------------------------------------------------------------
  // Whole cycles.

  /** An advance at a later time with the emergency stop released. */
  predicate Steps(s: State, op: Op) {
    op.OpAdvance? && !op.input.estop && op.input.ns > s.nowNs
  }

  /** Neither monitors nor settling move an arm unless they end the command. */
  lemma MonitorsMoveNothing(w: World, s: State)
    requires s.commandId != 0 && Running(s) && Monitor(w, s).Going?
    ensures var m := Monitor(w, s).s;
            && m.arms == s.arms && m.executing == s.executing && m.lifecycle == s.lifecycle
            && m == s.(contactStreak := m.contactStreak, lastClearance := m.lastClearance)
  {
    R.MonitorKeeps(w, s);
  }

  /** A completed command leaves the arms as they are. */
  lemma CompleteMovesNothing(s: State)
    ensures !R.Unfinished(s, Complete(s).s) ==> Complete(s).s.arms == s.arms
  {
    hide Publish;
    R.PublishKeeps(DropPlan(s).(lifecycle := ArmedIdle), CompletedEvent, OK, s.commandId);
  }

  lemma SettlingMovesNothing(w: World, s: State)
    requires s.commandId != 0
    ensures var t := Settle(w, s).s;
            t.commandId != 0 ==> t.arms == s.arms && t.executing == s.executing && t.lifecycle == s.lifecycle
                                 && t.nowNs == s.nowNs && t.startNs == s.startNs && t.options == s.options
                                 && t.contactStreak == s.contactStreak && t.started == s.started
    ensures !R.Unfinished(s, Settle(w, s).s) ==> Settle(w, s).s.arms == s.arms
  {
    hide AnnounceSettling, CountSettling, Complete, MeasuredAtGoal, Settle, R.Unfinished;
    SinceThen(s, s, s);
    R.SettleCases(w, s);
    R.AnnounceFacts(s);
    var a := AnnounceSettling(s);
    if a.Going? {
      R.CountFacts(a.s);
      var c := CountSettling(a.s);
      R.CompleteDrops(c);
      CompleteMovesNothing(c);
      SinceThen(s, a.s, c);
      SinceThen(s, c, Complete(c).s);
      SinceThen(s, a.s, Settle(w, s).s);
    }
  }

  lemma SinceThen(s: State, t: State, u: State)
    ensures s == t ==> R.Unfinished(s, t)
    ensures s.events == t.events || R.Unfinished(s, t) ==>
              (t.events == u.events ==> R.Unfinished(s, u)) && (R.Unfinished(t, u) ==> R.Unfinished(s, u))
  {
  }

  /** A cycle after which the command is still executing was allowed to step, told each arm its
      own row of the command's reference at this moment, and heard from both arms. */
  lemma RunningCycleFollowsReference(w: World, s: State, op: Op)
    requires Good(s) && Steps(s, op) && Apply(w, s, op).s.executing.Some?
    ensures var t := Apply(w, s, op).s;
            && t.executing == s.executing && t.lifecycle == Executing && t.nowNs == op.input.ns
            && MayStep(s, t.nowNs) && Follows(w, s, t) && Sound(t.options, t.arms, t.nowNs)
  {
    hide Apply, Follows, Sound, MayStep, Settle, Monitor;
    CommandIsPlan(w, s, op);
    if s.commandId == 0 {
      R.IdleCycle(w, s, op);
    } else if R.Pumped(w, s, op) == None {
      CutShortDrops(w, s, op);
    } else {
      R.CycleGoesOn(w, s, op);
      CycleToMonitors(w, s, op);
      var p := R.Pumped(w, s, op).value;
      R.MonitorKeeps(w, p);
      if Monitor(w, p).Going? {
        MonitorsMoveNothing(w, p);
        SettlingMovesNothing(w, Monitor(w, p).s);
        SameArmsFollow(w, s, p, Apply(w, s, op).s);
      }
    }
  }

  lemma CutShortDrops(w: World, s: State, op: Op)
    requires Good(s) && Steps(s, op) && s.commandId != 0 && R.Pumped(w, s, op) == None
    ensures Apply(w, s, op).s.commandId == 0
  {
    hide Pump, Powered, SettleSound;
    R.PumpKeeps(w, Tick(s, op.input.ns), op.input, s.nowNs);
  }

  lemma SameArmsFollow(w: World, before: State, s: State, t: State)
    requires Follows(w, before, s) && t.arms == s.arms && t.executing == s.executing && t.lifecycle == s.lifecycle
    requires t.nowNs == s.nowNs && t.startNs == s.startNs
    ensures Follows(w, before, t)
  {
    hide ArmTold, ArmToldToRest;
  }

  lemma CommandIsPlan(w: World, s: State, op: Op)
    requires Good(s)
    ensures Good(Apply(w, s, op).s)
    ensures (s.commandId == 0 <==> s.executing == None) && (s.executing.Some? <==> s.lifecycle == Executing)
    ensures var t := Apply(w, s, op).s;
            (t.commandId == 0 <==> t.executing == None) && (t.executing.Some? <==> t.lifecycle == Executing)
  {
    hide Apply, SettleSound, Powered;
    ApplyMoves(w, s, op);
  }

  lemma LatchIsNoSuccess(s: State, cause: Status, controlled: bool)
    ensures cause != OK ==> LatchFault(s, cause, controlled).status != OK
  {
    hide Publish, StopArm, HoldAvailable;
  }

  /** With no command a cut-short cycle is never reported as a success. */
  lemma CutShortFails(w: World, s: State, input: AdvanceInput, previousNs: nat)
    requires previousNs <= s.nowNs && s.executing == None
    ensures var g := Pump(w, s, input, previousNs); g.Done? ==> g.result.status != OK
  {
    hide LatchFault, Healthy, FeedbackIntegrity, Resist, Commanded, A.CommandAndStep;
    forall t: State, cause: Status, controlled: bool | cause != OK
      ensures LatchFault(t, cause, controlled).status != OK
    {
      LatchIsNoSuccess(t, cause, controlled);
    }
  }

  /** A successful cycle without a command tells every motor to rest where it was measured. */
  lemma IdleCycleRests(w: World, s: State, op: Op)
    requires Good(s) && Steps(s, op) && s.executing == None && Apply(w, s, op).status == OK
    ensures var t := Apply(w, s, op).s;
            && ArmToldToRest(t.arms.left, s.arms.left) && ArmToldToRest(t.arms.right, s.arms.right)
            && MayStep(s, t.nowNs) && Sound(t.options, t.arms, t.nowNs) && t.lifecycle == s.lifecycle
  {
    hide Pump, Sound, MayStep, ArmToldToRest, Powered, SettleSound;
    CutShortFails(w, Tick(s, op.input.ns), op.input, s.nowNs);
    assert R.Pumped(w, s, op).Some?;
    CycleToMonitors(w, s, op);
  }

  // ---------------------------------------------------------------------------
  // Completion.

  /** Each joint of an arm is within its tolerances of the target. */
  predicate JointsThere(a: A.Arm, target: A.Joints, tolerance: real, velocity: real) {
    forall j :: 0 <= j < A.JOINTS ==>
      && target[j] - tolerance <= JointQ(a.motors[j]) <= target[j] + tolerance
      && -velocity <= JointDq(a.motors[j]) <= velocity
  }

  /** Every arm the motion moves is at its target, and so is its tool where the motion says so. */
  predicate There(w: World, p: Plan, arms: Pair<A.Arm>) {
    && (p.motion.active.left ==>
          JointsThere(arms.left, p.motion.target.left, p.motion.positionTolerance.left, p.motion.velocityTolerance.left))
    && (p.motion.active.right ==>
          JointsThere(arms.right, p.motion.target.right, p.motion.positionTolerance.right, p.motion.velocityTolerance.right))
    && (p.motion.checksTcp && p.motion.active.left ==> w.tcpReached(p, false, A.MeasuredQ(arms.left)))
    && (p.motion.checksTcp && p.motion.active.right ==> w.tcpReached(p, true, A.MeasuredQ(arms.right)))
  }

  lemma ThereIs(w: World, s: State)
    requires s.executing.Some?
    ensures MeasuredAtGoal(w, s) <==> There(w, s.executing.value, s.arms)
  {
  }

  lemma SettledIsThere(w: World, s: State)
    requires s.commandId != 0 && Running(s) && !R.Unfinished(s, Settle(w, s).s)
    ensures There(w, s.executing.value, s.arms) && s.nowNs >= s.startNs + s.executing.value.motion.durationNs
  {
    hide Settle, MeasuredAtGoal, There, R.NextSettling;
    R.SettleCounts(w, s);
    ThereIs(w, s);
  }

  /** A command is reported COMPLETED only from a cycle at the end of its time in which both arms
      were told its reference and were measured within its tolerances of its target. */
  lemma CompletedMeansThere(w: World, s: State, op: Op)
    requires Good(s) && Steps(s, op) && s.executing.Some? && !R.Unfinished(s, Apply(w, s, op).s)
    ensures var t := Apply(w, s, op).s;
            && There(w, s.executing.value, t.arms) && Sound(s.options, t.arms, op.input.ns)
            && op.input.ns >= s.startNs + s.executing.value.motion.durationNs
            && MayStep(s, op.input.ns)
            && Follows(w, s, s.(arms := t.arms, nowNs := op.input.ns))
  {
    hide Apply, Follows, Sound, MayStep, Settle, Monitor, There, R.Unfinished;
    CommandIsPlan(w, s, op);
    if R.Pumped(w, s, op) == None {
      R.CycleCutShort(w, s, op);
    } else {
      R.CycleGoesOn(w, s, op);
      CycleToMonitors(w, s, op);
      var p := R.Pumped(w, s, op).value;
      R.MonitorKeeps(w, p);
      match Monitor(w, p)
      case Done(r) => SinceThen(s, p, r.s);
      case Going(m) =>
        MonitorsMoveNothing(w, p);
        SinceThen(s, m, Settle(w, m).s);
        SinceThen(s, p, m);
        SettlingMovesNothing(w, m);
        SettledIsThere(w, m);
        SameArmsFollow(w, s, p, s.(arms := m.arms, nowNs := op.input.ns));
    }
  }

  // ---------------------------------------------------------------------------
  // A cycle that may not step.

  /** Too long since the last cycle, or past what the command or its producer allows. */
  predicate Late(s: State, nowNs: nat) {
    || nowNs > s.nowNs + s.options.cycleNs
    || (s.executing.Some? && (nowNs > s.producerDeadlineNs || nowNs > s.expiryNs))
  }

  /** A late command is held in place if it asked for that, the arms are virtual and what they
      report is sound. */
  predicate HeldInPlace(s: State, nowNs: nat) {
    && Late(s, nowNs) && s.executing.Some? && s.stopKind == StopControlled && s.options.virtual
    && Sound(s.options, s.arms, nowNs)
  }

  lemma LatchStops(s: State, cause: Status, controlled: bool)
    ensures var t := LatchFault(s, cause, controlled).s;
            && E.NothingStepped(s, t) && t.lifecycle == Fault && t.executing == None
            && (|s.events| < EVENT_CAPACITY ==>
                  A.AllEnabled(t.arms.left, controlled && HoldAvailable(s) && s.arms.left.feedbackSeq != 0)
                  && A.AllEnabled(t.arms.right, controlled && HoldAvailable(s) && s.arms.right.feedbackSeq != 0))
  {
    hide HoldAvailable, MaterializeStop, Publish, E.Stopped, E.ArmHeld, A.AllEnabled;
    StopEnables(DropPlan(s), controlled && HoldAvailable(s));
    var hold := controlled && HoldAvailable(s);
    HoldIsVirtual(s);
    var stopped := MaterializeStop(DropPlan(s), hold);
    E.MaterializeStops(DropPlan(s), hold);
    var latched := stopped.(stopKind := StopDisable, lifecycle := Fault,
                            nonce := s.nonceCounter + 1, nonceCounter := s.nonceCounter + 1);
    E.PublishStops(latched, FaultedEvent, cause, s.commandId);
    R.PublishKeeps(latched, FaultedEvent, cause, s.commandId);
    PublishHasRoom(latched, FaultedEvent, cause, s.commandId);
    var t := Publish(latched, FaultedEvent, cause, s.commandId).s;
    E.StoppedTwice(s.arms.left, stopped.arms.left, t.arms.left);
    E.StoppedTwice(s.arms.right, stopped.arms.right, t.arms.right);
  }

  lemma HoldIsVirtual(s: State)
    ensures HoldAvailable(s) ==> s.options.virtual
  {
  }

  lemma PublishHasRoom(s: State, kind: EventKind, cause: Status, commandId: nat)
    ensures |s.events| < EVENT_CAPACITY ==> Publish(s, kind, cause, commandId).ok
  {
    hide Overflow;
  }

  lemma StopEnables(s: State, hold: bool)
    ensures var t := MaterializeStop(s, hold);
            && t == s.(arms := t.arms)
            && A.AllEnabled(t.arms.left, hold && s.options.virtual && s.arms.left.feedbackSeq != 0)
            && A.AllEnabled(t.arms.right, hold && s.options.virtual && s.arms.right.feedbackSeq != 0)
  {
    hide StopArm, A.AllEnabled;
  }

  /** Supervision in the order the cycle makes it. */
  lemma RefusedIsLatched(w: World, s: State, op: Op)
    requires Good(s) && Steps(s, op) && (s.lifecycle == ArmedIdle || s.lifecycle == Executing)
    requires !MayStep(s, op.input.ns)
    ensures exists cause, controlled :: Apply(w, s, op) == LatchFault(Tick(s, op.input.ns), cause, controlled)
                                        && (controlled && HoldAvailable(Tick(s, op.input.ns)) <==> HeldInPlace(s, op.input.ns))
  {
    hide LatchFault, StepArms, Commanded, Resist, Sound, BothAtStart, FeedbackIntegrity, StartPoseMatches, Healthy, Powered,
         SettleSound;
    var t := Tick(s, op.input.ns);
    SoundIs(t);
    if s.executing.Some? {
      AtStartIs(t, s.executing.value);
    }
    var cause := if !Healthy(t) then EFault
                 else if FeedbackIntegrity(t) != OK then FeedbackIntegrity(t)
                 else if op.input.ns - s.nowNs > s.options.cycleNs then ETimeout
                 else if op.input.ns > s.producerDeadlineNs then EStale
                 else if op.input.ns > s.expiryNs then ETimeout
                 else EStale;
    assert Apply(w, s, op) == LatchFault(t, cause, Healthy(t) && FeedbackIntegrity(t) == OK && Late(s, op.input.ns));
  }

  /** A cycle of an armed controller that may not step ends in FAULT without a plan and steps no
      plant; its motors stay enabled exactly if a late command is held in place, and room is left
      for the event that says so. */
  lemma RefusedCycleStepsNothing(w: World, s: State, op: Op)
    requires Good(s) && Steps(s, op) && (s.lifecycle == ArmedIdle || s.lifecycle == Executing)
    requires !MayStep(s, op.input.ns)
    ensures var t := Apply(w, s, op).s;
            && E.NothingStepped(s, t) && t.lifecycle == Fault && t.executing == None
            && Powered(t.arms, HeldInPlace(s, op.input.ns) && |s.events| < EVENT_CAPACITY)
  {
    hide LatchFault, Apply, MayStep, E.NothingStepped, HeldInPlace, HoldAvailable, A.AllEnabled, SettleSound;
    RefusedIsLatched(w, s, op);
    var cause, controlled :| Apply(w, s, op) == LatchFault(Tick(s, op.input.ns), cause, controlled)
                             && (controlled && HoldAvailable(Tick(s, op.input.ns)) <==> HeldInPlace(s, op.input.ns));
    LatchStops(Tick(s, op.input.ns), cause, controlled);
    TickSteps(s, op.input.ns, Apply(w, s, op).s);
    ApplyMoves(w, s, op);
    if |s.events| == EVENT_CAPACITY {
      FullLatchPowersOff(Tick(s, op.input.ns), cause, controlled);
    }
  }

  lemma TickSteps(s: State, ns: nat, t: State)
    requires E.NothingStepped(Tick(s, ns), t)
    ensures E.NothingStepped(s, t)
  {
    hide E.ArmHeld;
  }

  lemma FullLatchPowersOff(s: State, cause: Status, controlled: bool)
    requires |s.events| == EVENT_CAPACITY
    ensures Powered(LatchFault(s, cause, controlled).s.arms, false)
  {
    hide HoldAvailable, MaterializeStop, Powered;
    var latched := MaterializeStop(DropPlan(s), controlled && HoldAvailable(s)).(stopKind := StopDisable, lifecycle := Fault,
                            nonce := s.nonceCounter + 1, nonceCounter := s.nonceCounter + 1);
    StopEnables(DropPlan(s), controlled && HoldAvailable(s));
    PublishFacts(latched, FaultedEvent, cause, s.commandId);
    PublishIsFull(latched, FaultedEvent, cause, s.commandId);
  }

  lemma PublishIsFull(s: State, kind: EventKind, cause: Status, commandId: nat)
    ensures |s.events| == EVENT_CAPACITY ==> !Publish(s, kind, cause, commandId).ok
  {
    hide Overflow;
  }

  // ---------------------------------------------------------------------------
  // Contact.

  /** Some joint bears at least its torque threshold, seen from its own side of the joint. */
  predicate Pressed(arms: Pair<A.Arm>, thresholds: Pair<A.Joints>) {
    exists j :: 0 <= j < A.JOINTS && (Bears(arms.left.motors[j], thresholds.left[j])
                                      || Bears(arms.right.motors[j], thresholds.right[j]))
  }

  predicate Bears(m: D.Motor, threshold: real) {
    threshold > 0.0 && (m.measured.rawTau / m.config.qScale >= threshold || m.measured.rawTau / m.config.qScale <= -threshold)
  }

  lemma PressedIs(s: State, thresholds: Pair<A.Joints>)
    ensures Pressed(s.arms, thresholds) <==>
            OverThreshold(s.arms.left, thresholds.left) || OverThreshold(s.arms.right, thresholds.right)
  {
  }

  /** Cycles pressed in a row, this one included. */
  function Streak(s: State, p: Plan, arms: Pair<A.Arm>): nat {
    if !p.motion.contactMonitored then s.contactStreak
    else if Pressed(arms, p.motion.thresholds) then s.contactStreak + 1
    else 0
  }

  /** The streak ends the command. */
  predicate Enough(s: State, p: Plan, arms: Pair<A.Arm>) {
    p.motion.contactMonitored && Pressed(arms, p.motion.thresholds) && s.contactStreak + 1 >= p.motion.persistenceCycles
  }

  lemma ContactStage(s: State)
    requires s.executing.Some?
    ensures var p := s.executing.value;
            if Enough(s, p, s.arms) then MonitorContact(s, p).Done?
            else MonitorContact(s, p) == Going(s.(contactStreak := Streak(s, p, s.arms)))
  {
    hide CompleteOnContact, OverThreshold, Pressed;
    PressedIs(s, s.executing.value.motion.thresholds);
  }

  lemma MonitorCounts(w: World, s: State)
    requires s.commandId != 0 && Running(s) && Monitor(w, s).Going?
    ensures var m, p := Monitor(w, s).s, s.executing.value;
            if s.started then !Enough(s, p, s.arms) && m.contactStreak == Streak(s, p, s.arms)
            else m.contactStreak == s.contactStreak
  {
    hide MonitorContact, Streak, Enough, Measure;
    ContactStage(s);
  }

  /** A monitored cycle that lets its command go on counts its own press, and is not the one that
      makes enough of them; before the start nothing is counted. */
  lemma PressesAreCounted(w: World, s: State, op: Op)
    requires Good(s) && Steps(s, op) && Apply(w, s, op).s.executing.Some?
    ensures var t := Apply(w, s, op).s;
            var p := t.executing.value;
            && t.started == (s.started || s.startNs <= t.nowNs)
            && (t.started ==> !Enough(s, p, t.arms) && t.contactStreak == Streak(s, p, t.arms))
            && (!t.started ==> t.contactStreak == s.contactStreak)
  {
    hide Apply, Settle, Monitor, Pressed, Follows, Sound, MayStep;
    CommandIsPlan(w, s, op);
    RunningCycleFollowsReference(w, s, op);
    if R.Pumped(w, s, op) == None {
      CutShortDrops(w, s, op);
    } else {
      R.CycleGoesOn(w, s, op);
      CycleToMonitors(w, s, op);
      var p := R.Pumped(w, s, op).value;
      R.MonitorKeeps(w, p);
      if Monitor(w, p).Going? {
        MonitorsMoveNothing(w, p);
        MonitorCounts(w, p);
        SettlingMovesNothing(w, Monitor(w, p).s);
      }
    }
  }

  /** Command `id` is in execution and this many of its latest monitored cycles in a row were
      pressed. */
  predicate Counted(s: State, id: nat, n: nat) {
    0 < id < s.nextCommandId && (s.commandId == id ==> s.contactStreak == n)
  }

  /** This cycle watched its running command for contact. */
  predicate Watched(s: State, op: Op, t: State) {
    Steps(s, op) && t.executing.Some? && t.started && t.executing.value.motion.contactMonitored
  }

  predicate PressedIn(s: State, op: Op, t: State) {
    Watched(s, op, t) && Pressed(t.arms, t.executing.value.motion.thresholds)
  }

  /** The count after one more operation: a monitored cycle adds its press or starts over. */
  function PressedAfter(w: World, s: State, op: Op, n: nat): nat {
    var t := Apply(w, s, op).s;
    if !Watched(s, op, t) then n else if PressedIn(s, op, t) then n + 1 else 0
  }

  function PressedRun(w: World, s: State, ops: seq<Op>, n: nat): nat
    decreases |ops|
  {
    if ops == [] then n else PressedRun(w, Apply(w, s, ops[0]).s, ops[1..], PressedAfter(w, s, ops[0], n))
  }

  /** An advance that is no cycle leaves the count alone. */
  lemma StandingAdvance(w: World, s: State, op: Op)
    requires Good(s) && op.OpAdvance? && !Steps(s, op)
    ensures R.KeepsCommand(s, Apply(w, s, op).s)
  {
    hide SetInterlock, Powered, SettleSound;
    R.InterlockKeeps(s.(estopLatched := true, nowNs := Later(op.input.ns, s.nowNs)), true, s.deadman);
  }

  lemma StepStaysCounted(w: World, s: State, op: Op, id: nat, n: nat)
    requires Good(s) && Counted(s, id, n)
    ensures Counted(Apply(w, s, op).s, id, PressedAfter(w, s, op, n))
    ensures var t := Apply(w, s, op).s;
            t.commandId == id && PressedIn(s, op, t) ==> PressedAfter(w, s, op, n) < t.executing.value.motion.persistenceCycles
  {
    hide Apply, Pressed;
    CommandIsPlan(w, s, op);
    var t := Apply(w, s, op).s;
    if !op.OpAdvance? {
      R.OnlyCyclesTouchTheCommand(w, s, op);
    } else if !Steps(s, op) {
      StandingAdvance(w, s, op);
    } else if s.commandId == 0 {
      R.IdleCycle(w, s, op);
    } else {
      R.CycleRemembers(w, s, op);
      if t.executing.Some? {
        PressesAreCounted(w, s, op);
        RunningCycleFollowsReference(w, s, op);
      }
    }
  }

  /** Over every run: while a command is in execution its count is exactly the number of its
      latest monitored cycles in a row in which some joint bore its threshold. */
  lemma {:induction false} StreakIsCounted(w: World, s: State, ops: seq<Op>, id: nat, n: nat)
    requires Good(s) && Counted(s, id, n)
    ensures Counted(Run(w, s, ops), id, PressedRun(w, s, ops, n))
    decreases |ops|
  {
    hide Apply, Good, Counted, PressedAfter;
    if ops != [] {
      ApplyMoves(w, s, ops[0]);
      StepStaysCounted(w, s, ops[0], id, n);
      StreakIsCounted(w, Apply(w, s, ops[0]).s, ops[1..], id, PressedAfter(w, s, ops[0], n));
    }
  }

  /** And no command goes on after as many pressed cycles in a row as its plan allows. */
  lemma NeverPressedTooLong(w: World, s: State, ops: seq<Op>, op: Op, id: nat, n: nat)
    requires Good(s) && Counted(s, id, n)
    ensures var y := Run(w, s, ops);
            var t := Apply(w, y, op).s;
            t.commandId == id && PressedIn(y, op, t) ==>
              PressedAfter(w, y, op, PressedRun(w, s, ops, n)) < t.executing.value.motion.persistenceCycles
  {
    hide Apply, Run, PressedAfter, PressedRun, Counted, Pressed;
    RunKeepsGood(w, s, ops);
    StreakIsCounted(w, s, ops, id, n);
    StepStaysCounted(w, Run(w, s, ops), op, id, PressedRun(w, s, ops, n));
  }

  // ---------------------------------------------------------------------------
  // When a monitored command goes on.

  /** No contact to stop for, and a pose that is clear, or no closer than before; a pose that closes
      a monitored terminal contact has arrived. */
  predicate MayGoOn(w: World, s: State, p: Plan, arms: Pair<A.Arm>) {
    var k := w.keepout(A.MeasuredQ(arms.left), A.MeasuredQ(arms.right), p.motion.terminalContact);
    && !Enough(s, p, arms)
    && if k.clear then !(p.motion.contactMonitored && p.motion.terminalContact && k.touching)
       else s.lastClearance.Some? && k.clearance.Some? && k.clearance.value >= s.lastClearance.value - 0.000001
  }

  lemma MonitorExactly(w: World, s: State)
    requires s.commandId != 0 && Running(s) && s.started
    ensures Monitor(w, s).Going? <==> MayGoOn(w, s, s.executing.value, s.arms)
  {
    hide MonitorContact, Enough, CompleteOnContact;
    ContactStage(s);
  }

  /** A command that may not go on ends in the same cycle, its arms holding where they are; one that
      goes on might. */
  lemma MonitoredCycleGoesOn(w: World, s: State, op: Op)
    requires Good(s) && Steps(s, op) && s.executing.Some? && R.Pumped(w, s, op).Some? && R.Pumped(w, s, op).value.started
    ensures var seen, t := R.Pumped(w, s, op).value, Apply(w, s, op).s;
            var may := MayGoOn(w, s, s.executing.value, seen.arms);
            && (t.executing.Some? ==> may)
            && (!may ==> t.executing == None && t.commandId == 0
                         && (|seen.events| < 64 ==> t.lifecycle == ArmedIdle && Powered(t.arms, true)))
  {
    hide Apply, Settle, Monitor, MayGoOn, Powered, SettleSound, CompleteOnContact;
    CommandIsPlan(w, s, op);
    R.CycleGoesOn(w, s, op);
    CycleToMonitors(w, s, op);
    var p := R.Pumped(w, s, op).value;
    MonitorExactly(w, p);
    SameMayGoOn(w, s, p, s.executing.value);
    R.MonitorKeeps(w, p);
    if Monitor(w, p).Done? {
      EndedByMonitor(w, p);
      ApplyMoves(w, s, op);
      PoweredIdle(Apply(w, s, op).s);
    }
  }

  lemma SameMayGoOn(w: World, s: State, t: State, p: Plan)
    requires t.contactStreak == s.contactStreak && t.lastClearance == s.lastClearance
    ensures MayGoOn(w, t, p, t.arms) == MayGoOn(w, s, p, t.arms)
  {
    hide Pressed;
  }

  lemma PoweredIdle(s: State)
    requires Good(s)
    ensures s.lifecycle == ArmedIdle ==> Powered(s.arms, true)
  {
    hide Powered, SettleSound;
  }

  lemma ContactEndsIdle(s: State)
    ensures |s.events| < 64 ==> CompleteOnContact(s).s.lifecycle == ArmedIdle
  {
    hide StopArm, Overflow;
  }

  lemma EndedByMonitor(w: World, s: State)
    requires Running(s) && s.started && Monitor(w, s).Done?
    ensures |s.events| < 64 ==> Monitor(w, s).result.s.lifecycle == ArmedIdle
  {
    hide CompleteOnContact, OverThreshold, NotWorsening, Measure;
    var p := s.executing.value;
    ContactEndsIdle(s.(contactStreak := s.contactStreak + 1));
    var g := MonitorContact(s, p);
    if g.Going? {
      ContactEndsIdle(g.s.(lastClearance := Measure(w, g.s, p.motion.terminalContact).clearance));
    }
  }
}
