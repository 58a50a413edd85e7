/** What the monitors and the settling rule guarantee over a whole command. */
module ControllerRuns {
  import opened Common
  import A = ArmFeedback
  import opened ControllerModel
  import opened ControllerSafety

  // ---------------------------------------------------------------------------
  // One operation, seen from the command in execution.

  /** The command goes on undisturbed, or it is gone; a new one has a new number. */
  predicate KeepsCommand(s: State, t: State) {
    && s.nextCommandId <= t.nextCommandId
    && (t.commandId == 0 || t.commandId == s.commandId
        || (s.commandId == 0 && s.nextCommandId <= t.commandId && t.settleStartNs == 0
            && t.settleSeq == Pair(0, 0) && t.settleIntervals == 0 && t.contactStreak == 0))
    && (t.commandId == s.commandId && s.commandId != 0 ==>
          && t.contactStreak == s.contactStreak && t.lastClearance == s.lastClearance && t.settleStartNs == s.settleStartNs
          && t.settleSeq == s.settleSeq && t.settleIntervals == s.settleIntervals)
  }

  /** No COMPLETED event was added. */
  predicate Unfinished(s: State, t: State) {
    t.events == s.events || (t.events != [] && t.events[|t.events| - 1].kind != CompletedEvent)
  }

  lemma PublishKeeps(s: State, kind: EventKind, cause: Status, commandId: nat)
    ensures var p := Publish(s, kind, cause, commandId);
            && KeepsCommand(s, p.s)
            && (p.ok ==> p.s == s.(events := p.s.events))
            && p.s.events != [] && p.s.events[|p.s.events| - 1].kind == (if p.ok then kind else FaultedEvent)
            && (!p.ok ==> p.s.commandId == 0) && p.s.nextCommandId == s.nextCommandId
  {
    hide StopArm;
  }

  lemma LatchKeeps(s: State, cause: Status, controlled: bool)
    ensures KeepsCommand(s, LatchFault(s, cause, controlled).s) && Unfinished(s, LatchFault(s, cause, controlled).s)
    ensures LatchFault(s, cause, controlled).s.commandId == 0
  {
    hide StopArm, Publish, HoldAvailable;
    var stopped := MaterializeStop(DropPlan(s), controlled && HoldAvailable(s));
    var latched := stopped.(stopKind := StopDisable, lifecycle := Fault,
                            nonce := s.nonceCounter + 1, nonceCounter := s.nonceCounter + 1);
    PublishKeeps(latched, FaultedEvent, cause, s.commandId);
  }

  lemma InterlockKeeps(s: State, estop: bool, deadman: bool)
    ensures KeepsCommand(s, SetInterlock(s, estop, deadman).s) && Unfinished(s, SetInterlock(s, estop, deadman).s)
    ensures estop ==> SetInterlock(s, estop, deadman).s.commandId == 0
  {
    hide Publish, Interlocked;
    PublishKeeps(Interlocked(s, deadman), EStopEvent, EEstop, s.commandId);
    InterlockedFrame(s, deadman);
    InterlockPublishes(s, estop, deadman);
  }

  lemma StopKeeps(s: State, kind: StopKind)
    ensures KeepsCommand(s, Stop(s, kind).s) && Unfinished(s, Stop(s, kind).s)
  {
    hide StopArm, Publish;
    PublishKeeps(s.(lifecycle := Stopping), AbortedEvent, OK, s.commandId);
    var stopping := s.(lifecycle := Stopping);
    var aborted := if s.executing.Some? then Publish(stopping, AbortedEvent, OK, s.commandId) else Published(stopping, true);
    var stopped := MaterializeStop(DropPlan(aborted.s), kind == StopControlled);
    PublishKeeps(stopped.(lifecycle := if kind == StopDisable then Disarmed else ArmedIdle, stopKind := StopDisable),
                 StoppedEvent, OK, s.commandId);
  }

  lemma ExecuteKeeps(w: World, s: State, p: Plan, r: ExecuteRequest)
    requires Good(s)
    ensures KeepsCommand(s, Execute(w, s, p, r).s) && Unfinished(s, Execute(w, s, p, r).s)
  {
    hide LatchFault, Publish, FeedbackIntegrity, Healthy, PlanBelongs, Measure, Powered, SettleSound;
    LatchKeeps(s, EFault, false);
    var startNs := if r.startNs == 0 then s.nowNs else r.startNs;
    var begun := Begin(w, s, p, r, startNs);
    PublishKeeps(begun, if begun.started then StartedEvent else QueuedEvent, OK, begun.commandId);
  }

  lemma OpenKeeps(s: State)
    ensures KeepsCommand(s, OpenAndVerify(s).s) && Unfinished(s, OpenAndVerify(s).s)
  {
    hide Publish, Reverify;
    var first := s.epoch == 0;
    var arms := Pair(Reverify(s.arms.left, first, s.nowNs), Reverify(s.arms.right, first, s.nowNs));
    PublishKeeps(s.(arms := arms, epoch := s.epoch + 1, lifecycle := Disarmed), VerifiedEvent, OK, 0);
  }

  lemma ArmKeeps(s: State, t: Ticket)
    ensures KeepsCommand(s, ArmWith(s, t).s) && Unfinished(s, ArmWith(s, t).s)
  {
    hide LatchFault, Publish, FeedbackIntegrity, Healthy, MotorsReportDisabled, EnableInPlace;
    LatchKeeps(s, if !s.deadman then EEstop else EFault, false);
    var arms := Pair(EnableInPlace(s.arms.left, s.nowNs), EnableInPlace(s.arms.right, s.nowNs));
    PublishKeeps(s.(arms := arms, nonce := 0, lifecycle := ArmedIdle), ArmedEvent, OK, 0);
  }

  lemma DisarmKeeps(s: State, deadlineNs: nat)
    ensures KeepsCommand(s, Disarm(s, deadlineNs).s) && Unfinished(s, Disarm(s, deadlineNs).s)
  {
    hide Publish, StopArm;
    PublishKeeps(MaterializeStop(DropPlan(s), false).(lifecycle := Disarmed), DisarmedEvent, OK, 0);
  }

  /** No operation but a control cycle touches what the monitors and settling remember, and
      none but a control cycle reports COMPLETED. */
  lemma OnlyCyclesTouchTheCommand(w: World, s: State, op: Op)
    requires Good(s) && !op.OpAdvance?
    ensures KeepsCommand(s, Apply(w, s, op).s)
    ensures op != OpPoll ==> Unfinished(s, Apply(w, s, op).s)
  {
    hide OpenAndVerify, ArmWith, LatchFault, Execute, SetInterlock, Stop, Disarm, Good, KeepsCommand, Unfinished,
         Challenge, PlanPreconditions, Reset, Heartbeat, SetSceneRevision, SetSimFault, SetSimState, ClearSimContact,
         PollEvent, Advance;
    match op
    case OpOpen => OpenKeeps(s);
    case OpArm(ticket) => ArmKeeps(s, ticket);
    case OpExecute(plan, request) => ExecuteKeeps(w, s, plan, request);
    case OpInterlock(estop, deadman) => InterlockKeeps(s, estop, deadman);
    case OpStop(kind) => StopKeeps(s, kind);
    case OpDisarm(deadlineNs) => DisarmKeeps(s, deadlineNs);
    case _ => QuietOperations(w, s, op);
  }

  lemma QuietOperations(w: World, s: State, op: Op)
    requires op.OpChallenge? || op.OpPlan? || op.OpReset? || op.OpHeartbeat? || op.OpScene? || op.OpSimFault?
             || op.OpSimState? || op.OpSimContactOff? || op.OpPoll?
    ensures KeepsCommand(s, Apply(w, s, op).s)
    ensures op != OpPoll ==> Unfinished(s, Apply(w, s, op).s)
  {
    hide Challenge, PlanPreconditions, Heartbeat, Reset, SetSceneRevision, SetSimFault, SetSimState, ClearSimContact,
         PollEvent, KeepsCommand, Unfinished;
    match op
    case OpChallenge => ChallengeKeeps(s);
    case OpPlan(estop) => PlanKeeps(s, estop);
    case OpHeartbeat(commandId, deadlineNs) => HeartbeatKeeps(s, commandId, deadlineNs);
    case _ => HooksKeep(w, s, op);
  }

  lemma ChallengeKeeps(s: State)
    ensures KeepsCommand(s, Challenge(s).s) && Unfinished(s, Challenge(s).s)
  {
    hide LatchFault, FeedbackIntegrity, Healthy, MotorsReportDisabled;
    LatchKeeps(s, EFault, false);
  }

  lemma PlanKeeps(s: State, estop: bool)
    ensures KeepsCommand(s, PlanPreconditions(s, estop).s) && Unfinished(s, PlanPreconditions(s, estop).s)
  {
    hide LatchFault, FeedbackIntegrity, Healthy;
    LatchKeeps(s, EFault, false);
  }

  lemma HeartbeatKeeps(s: State, commandId: nat, deadlineNs: nat)
    ensures KeepsCommand(s, Heartbeat(s, commandId, deadlineNs).s) && Unfinished(s, Heartbeat(s, commandId, deadlineNs).s)
  {
    hide LatchFault;
    LatchKeeps(s, EStale, true);
  }

  lemma HooksKeep(w: World, s: State, op: Op)
    requires op.OpReset? || op.OpScene? || op.OpSimFault? || op.OpSimState? || op.OpSimContactOff? || op.OpPoll?
    ensures KeepsCommand(s, Apply(w, s, op).s)
    ensures op != OpPoll ==> Unfinished(s, Apply(w, s, op).s)
  {
    if op.OpSimFault? || op.OpSimState? || op.OpSimContactOff? {
      SimulationKeeps(w, s, op);
      hide Apply;
    } else {
      hide ResetArm;
    }
  }

  lemma SimulationKeeps(w: World, s: State, op: Op)
    requires op.OpSimFault? || op.OpSimState? || op.OpSimContactOff?
    ensures KeepsCommand(s, Apply(w, s, op).s) && Unfinished(s, Apply(w, s, op).s)
  {
    hide WithinLimits, A.SetInjection, A.Force, A.SetBlockedAll, GetArm, KeepsCommand, Unfinished, SetArm;
    SameKeeps(s);
    forall a: A.Arm | true
      ensures KeepsCommand(s, SetArm(s, op.right, a)) && Unfinished(s, SetArm(s, op.right, a))
    {
      SetArmKeeps(s, op.right, a);
    }
  }

  lemma SameKeeps(s: State)
    ensures KeepsCommand(s, s) && Unfinished(s, s)
  {
  }

  lemma SetArmKeeps(s: State, right: bool, a: A.Arm)
    ensures KeepsCommand(s, SetArm(s, right, a)) && Unfinished(s, SetArm(s, right, a))
  {
  }

  // ---------------------------------------------------------------------------
  // One cycle, seen from the command in execution.

  /** The state in which a cycle reaches its monitors, if it does. */
  function Pumped(w: World, s: State, op: Op): Option<State> {
    if !op.OpAdvance? || op.input.estop || op.input.ns <= s.nowNs || IdleStatus(s.lifecycle) != OK then None
    else
      var g := Pump(w, Tick(s, op.input.ns), op.input, s.nowNs);
      if g.Done? then None else Some(g.s)
  }

  /** The clearance a cycle measured for its command, if it got that far. */
  function Evaluated(w: World, s: State, op: Op): Option<Keepout> {
    var pumped := Pumped(w, s, op);
    if pumped == None || !Running(pumped.value) || !pumped.value.started then None
    else
      var p := pumped.value.executing.value;
      if MonitorContact(pumped.value, p).Done? then None
      else Some(Measure(w, pumped.value, p.motion.terminalContact))
  }

  /** One cycle past the end of the trajectory: when, whether at the goal, and with which feedback. */
  datatype Arrival = Arrival(nowNs: nat, atGoal: bool, seqs: Pair<nat>)

  function Arrived(w: World, s: State, op: Op): Option<Arrival> {
    var pumped := Pumped(w, s, op);
    if pumped == None || Monitor(w, pumped.value).Done? then None
    else
      var m := Monitor(w, pumped.value).s;
      if !Running(m) || m.nowNs < m.startNs + m.executing.value.motion.durationNs then None
      else Some(Arrival(m.nowNs, MeasuredAtGoal(w, m), Sequences(m)))
  }

  /** What a stage before the monitors may do to the command. */
  predicate StageKeeps(s: State, g: Stage) {
    match g
    case Done(r) => r.s.commandId == 0 && KeepsCommand(s, r.s) && Unfinished(s, r.s)
    case Going(t) => KeepsCommand(s, t) && Unfinished(s, t) && t.commandId == s.commandId && t.nowNs == s.nowNs
                     && t.executing == s.executing && t.lifecycle == s.lifecycle && t.options == s.options
  }

  lemma StageKeepsThen(s: State, t: State, g: Stage)
    requires StageKeeps(s, Going(t)) && StageKeeps(t, g)
    ensures StageKeeps(s, g)
  {
  }

  lemma SuperviseKeeps(s: State, previousNs: nat)
    ensures StageKeeps(s, Supervise(s, previousNs))
  {
    hide LatchFault, FeedbackIntegrity, Healthy;
    LatchKeeps(s, EFault, false);
    LatchKeeps(s, FeedbackIntegrity(s), false);
    LatchKeeps(s, ETimeout, true);
  }

  lemma StartDueKeeps(s: State)
    ensures StageKeeps(s, StartDue(s))
  {
    hide LatchFault, Publish, FeedbackIntegrity, StartPoseMatches;
    LatchKeeps(s, ETimeout, true);
    LatchKeeps(s, EStale, true);
    LatchKeeps(s, EStale, false);
    PublishKeeps(s.(started := true), StartedEvent, OK, s.commandId);
  }

  lemma ResistKeeps(s: State, input: AdvanceInput)
    ensures StageKeeps(s, Going(Resist(s, input)))
  {
    hide A.SetBlockedAll;
  }

  lemma CheckFeedbackKeeps(s: State)
    ensures StageKeeps(s, CheckFeedback(s))
  {
    hide LatchFault, FeedbackIntegrity, Healthy;
    LatchKeeps(s, EFault, false);
    LatchKeeps(s, FeedbackIntegrity(s), false);
  }

  lemma PumpKeeps(w: World, s: State, input: AdvanceInput, previousNs: nat)
    requires previousNs <= s.nowNs
    ensures StageKeeps(s, Pump(w, s, input, previousNs))
  {
    hide Supervise, StartDue, StepArms, CheckFeedback, Resist, Commanded, KeepsCommand, Unfinished;
    SuperviseKeeps(s, previousNs);
    var g1 := Supervise(s, previousNs);
    if g1.Going? {
      StartDueKeeps(g1.s);
      StageKeepsThen(s, g1.s, StartDue(g1.s));
      var g2 := StartDue(g1.s);
      if g2.Going? {
        var resisted := Resist(g2.s, input);
        ResistKeeps(g2.s, input);
        StageKeepsThen(s, g2.s, Going(resisted));
        StepArmsKeeps(resisted, Commanded(w, g2.s), previousNs);
        var g3 := StepArms(resisted, Commanded(w, g2.s), previousNs);
        StageKeepsThen(s, resisted, g3);
        if g3.Going? {
          CheckFeedbackKeeps(g3.s);
          StageKeepsThen(s, g3.s, CheckFeedback(g3.s));
        }
      }
    }
  }

  lemma StepArmsKeeps(s: State, r: Reference, previousNs: nat)
    requires previousNs <= s.nowNs
    ensures StageKeeps(s, StepArms(s, r, previousNs))
  {
    hide LatchFault, A.CommandAndStep;
    var dt := (s.nowNs - previousNs) as real / 1000000000.0;
    var left := A.CommandAndStep(s.arms.left, r.q.left, r.dq.left, s.nowNs, dt);
    var right := A.CommandAndStep(s.arms.right, r.q.right, r.dq.right, s.nowNs, dt);
    LatchKeeps(s.(arms := Pair(left.arm, s.arms.right)), ECan, false);
    LatchKeeps(s.(arms := Pair(left.arm, right.arm)), ECan, false);
  }

  /** What settling remembers. */
  datatype Settling = Settling(startNs: nat, seqs: Pair<nat>, intervals: nat)

  function SettlingOf(s: State): Settling {
    Settling(s.settleStartNs, s.settleSeq, s.settleIntervals)
  }

  /** Settling after one more cycle: cleared off the goal, counted at it. */
  function NextSettling(g: Settling, a: Option<Arrival>): Settling {
    if a == None then g
    else if !a.value.atGoal then Settling(0, Pair(0, 0), 0)
    else if g.startNs == 0 then Settling(a.value.nowNs, a.value.seqs, 0)
    else if a.value.seqs.left != g.seqs.left && a.value.seqs.right != g.seqs.right then
      Settling(g.startNs, a.value.seqs, g.intervals + 1)
    else g
  }

  lemma ContactKeeps(s: State)
    ensures CompleteOnContact(s).s.commandId == 0 && KeepsIdentity(s, CompleteOnContact(s).s)
    ensures Unfinished(s, CompleteOnContact(s).s)
  {
    hide StopArm, Publish;
    PublishKeeps(DropPlan(MaterializeStop(s, true)).(settleStartNs := 0, settleSeq := Pair(0, 0), settleIntervals := 0,
                                                     settlingPublished := false, lifecycle := ArmedIdle),
                 StoppedEvent, OK, s.commandId);
  }

  /** The monitors end the command or leave everything but their own memory. */
  lemma MonitorKeeps(w: World, s: State)
    requires s.commandId != 0
    ensures match Monitor(w, s)
            case Done(r) => r.s.commandId == 0 && KeepsIdentity(s, r.s) && Unfinished(s, r.s)
            case Going(t) => t == s.(contactStreak := t.contactStreak, lastClearance := t.lastClearance)
  {
    hide CompleteOnContact, Measure, OverThreshold, NotWorsening;
    if Running(s) && s.started {
      var p := s.executing.value;
      var counted := s.(contactStreak := s.contactStreak + 1);
      ContactKeeps(counted);
      var g := MonitorContact(s, p);
      if g.Going? {
        ContactKeeps(g.s.(lastClearance := Measure(w, g.s, p.motion.terminalContact).clearance));
      }
    }
  }

  predicate KeepsIdentity(s: State, t: State) {
    s.nextCommandId <= t.nextCommandId && (t.commandId == 0 || t.commandId == s.commandId)
  }

  /** The keepout monitor remembers what it measured, and lets the command go on only if that
      is clear or no worse than before. */
  lemma MonitorRemembers(w: World, s: State)
    requires Running(s) && s.started && Monitor(w, s).Going?
    ensures MonitorContact(s, s.executing.value).Going?
    ensures var k := Measure(w, s, s.executing.value.motion.terminalContact);
            Monitor(w, s).s.lastClearance == k.clearance && (k.clear || NotWorsening(s.lastClearance, k))
  {
    hide CompleteOnContact, OverThreshold, NotWorsening;
  }

  lemma AnnounceFacts(s: State)
    requires s.commandId != 0
    ensures match AnnounceSettling(s)
            case Done(r) => r.s.commandId == 0 && Unfinished(s, r.s) && r.s.nextCommandId == s.nextCommandId
            case Going(t) => t == s.(events := t.events, settlingPublished := true) && Unfinished(s, t)
  {
    hide Publish;
    PublishKeeps(s, SettlingEvent, OK, s.commandId);
  }

  /** The arrival a settling cycle sees in the state it starts from. */
  function ArrivalIn(w: World, s: State): Option<Arrival> {
    if !Running(s) || s.nowNs < s.startNs + s.executing.value.motion.durationNs then None
    else Some(Arrival(s.nowNs, MeasuredAtGoal(w, s), Sequences(s)))
  }

  /** What a settling cycle ends with. */
  lemma SettleCases(w: World, s: State)
    requires s.commandId != 0
    ensures var a := ArrivalIn(w, s);
            var g := AnnounceSettling(s);
            Settle(w, s).s == (if a == None then s
                               else if g.Done? then g.result.s
                               else if !a.value.atGoal then
                                 g.s.(settleStartNs := 0, settleSeq := Pair(0, 0), settleIntervals := 0)
                               else
                                 var t := CountSettling(g.s);
                                 if t.settleStartNs <= t.nowNs && Settled(t) then Complete(t).s else t)
  {
    hide AnnounceSettling, CountSettling, Complete, MeasuredAtGoal;
  }

  lemma CountFacts(s: State)
    ensures CountSettling(s) == s.(settleStartNs := CountSettling(s).settleStartNs, settleSeq := CountSettling(s).settleSeq,
                                   settleIntervals := CountSettling(s).settleIntervals)
    ensures SettlingOf(CountSettling(s)) == NextSettling(SettlingOf(s), Some(Arrival(s.nowNs, true, Sequences(s))))
  {
  }

  lemma CompleteDrops(s: State)
    requires s.commandId != 0
    ensures Complete(s).s.commandId == 0 && Complete(s).s.nextCommandId == s.nextCommandId
  {
    hide Publish;
    PublishKeeps(DropPlan(s).(lifecycle := ArmedIdle), CompletedEvent, OK, s.commandId);
  }

  /** A cycle past its monitors moves settling on by exactly one arrival, and reports
      COMPLETED only when the arrival closes three intervals over three cycle times. */
  lemma SettleCounts(w: World, s: State)
    requires s.commandId != 0
    ensures var a := ArrivalIn(w, s);
            var t := Settle(w, s).s;
            && (t.commandId == s.commandId ==> SettlingOf(t) == NextSettling(SettlingOf(s), a))
            && (!Unfinished(s, t) ==>
                  && a.Some? && a.value.atGoal
                  && var g := NextSettling(SettlingOf(s), a);
                  g.intervals >= 3 && g.startNs + 3 * s.options.cycleNs <= s.nowNs)
  {
    hide AnnounceSettling, CountSettling, Complete, MeasuredAtGoal, Settle;
    SettleCases(w, s);
    AnnounceFacts(s);
    var g := AnnounceSettling(s);
    if g.Going? {
      CountFacts(g.s);
      CompleteDrops(CountSettling(g.s));
      assert Sequences(g.s) == Sequences(s);
    }
  }

  lemma SettleKeeps(w: World, s: State)
    requires s.commandId != 0
    ensures var t := Settle(w, s).s;
            KeepsIdentity(s, t) && (t.commandId == s.commandId ==> t.lastClearance == s.lastClearance)
  {
    hide AnnounceSettling, CountSettling, Complete, MeasuredAtGoal, Settle;
    SettleCases(w, s);
    AnnounceFacts(s);
    var g := AnnounceSettling(s);
    if g.Going? {
      CountFacts(g.s);
      CompleteDrops(CountSettling(g.s));
    }
  }

  // ---------------------------------------------------------------------------
  // The keepout bound.

  /** A clear verdict means the intervention floor is kept. */
  ghost predicate ClearMeansFloor(w: World) {
    forall l, r, policy :: w.keepout(l, r, policy).clear ==>
      w.keepout(l, r, policy).clearance.Some? && w.keepout(l, r, policy).clearance.value >= INTERVENTION_M
  }

  /** A cycle that does not get to its monitors leaves the command as it was or drops it. */
  lemma CycleCutShort(w: World, s: State, op: Op)
    requires op.OpAdvance? && s.commandId != 0 && Pumped(w, s, op) == None
    ensures var t := Apply(w, s, op).s;
            && KeepsIdentity(s, t) && Unfinished(s, t)
            && (t.commandId == s.commandId ==> t.lastClearance == s.lastClearance && SettlingOf(t) == SettlingOf(s))
  {
    hide Pump, Monitor, Settle, SetInterlock;
    var stopped := s.(estopLatched := true, nowNs := Later(op.input.ns, s.nowNs));
    InterlockKeeps(stopped, true, s.deadman);
    if op.input.ns > s.nowNs {
      PumpKeeps(w, Tick(s, op.input.ns), op.input, s.nowNs);
    }
  }

  /** A cycle that does is its monitors, then settling. */
  lemma CycleGoesOn(w: World, s: State, op: Op)
    requires Good(s) && op.OpAdvance? && s.commandId != 0 && Pumped(w, s, op).Some?
    ensures var p := Pumped(w, s, op).value;
            && Running(p) && p.commandId == s.commandId && p.lastClearance == s.lastClearance && p.nowNs > 0
            && SettlingOf(p) == SettlingOf(s) && s.nextCommandId <= p.nextCommandId && Unfinished(s, p)
            && p.options == s.options
            && Apply(w, s, op).s == (match Monitor(w, p) case Done(r) => r.s case Going(m) => Settle(w, m).s)
  {
    hide Pump, Monitor, Settle, Powered, SettleSound;
    PumpKeeps(w, Tick(s, op.input.ns), op.input, s.nowNs);
  }

  /** What a cycle does to the remembered clearance of a command it lets run on. */
  lemma CycleRemembers(w: World, s: State, op: Op)
    requires Good(s) && op.OpAdvance? && s.commandId != 0
    ensures var t := Apply(w, s, op).s;
            var e := Evaluated(w, s, op);
            && KeepsIdentity(s, t)
            && (t.commandId == s.commandId ==>
                  && (e == None ==> t.lastClearance == s.lastClearance)
                  && (e.Some? ==> t.lastClearance == e.value.clearance
                                  && (e.value.clear || NotWorsening(s.lastClearance, e.value))))
  {
    if Pumped(w, s, op) == None {
      CycleCutShort(w, s, op);
    } else {
      CycleGoesOn(w, s, op);
      var p := Pumped(w, s, op).value;
      MonitorKeeps(w, p);
      if Monitor(w, p).Going? {
        if p.started {
          MonitorRemembers(w, p);
        } else {
          assert Monitor(w, p).s == p;
        }
        SettleKeeps(w, Monitor(w, p).s);
      }
    }
    hide Apply, Pumped, Monitor, Settle, MonitorContact, Measure, NotWorsening, Good;
  }

  /** Consecutive processed cycles below the floor, up to and including this operation. */
  function CountBelow(w: World, s: State, op: Op, n: nat): nat {
    match Evaluated(w, s, op)
    case None => n
    case Some(k) => if k.clear then 0 else n + 1
  }

  function CountBelowRun(w: World, s: State, ops: seq<Op>, n: nat): nat
    decreases |ops|
  {
    if ops == [] then n else CountBelowRun(w, Apply(w, s, ops[0]).s, ops[1..], CountBelow(w, s, ops[0], n))
  }

  function Floor(n: nat): real {
    0.010 - n as real * 0.000001
  }

  /** While command `id` runs, its last measured clearance is no lower than the floor minus a
      micrometre per cycle below it. */
  predicate Bounded(s: State, id: nat, n: nat) {
    && 0 < id < s.nextCommandId
    && (s.commandId == id ==> s.lastClearance.Some? && s.lastClearance.value >= Floor(n))
  }

  lemma FloorSteps(n: nat)
    ensures Floor(n + 1) == Floor(n) - WORSENING_EPSILON_M && Floor(n) <= Floor(0) == INTERVENTION_M
  {
  }

  lemma CycleStaysBounded(w: World, s: State, op: Op, id: nat, n: nat)
    requires Good(s) && ClearMeansFloor(w) && Bounded(s, id, n) && op.OpAdvance? && s.commandId != 0
    ensures Bounded(Apply(w, s, op).s, id, CountBelow(w, s, op, n))
  {
    hide Apply, Evaluated, Good, Floor, ClearMeansFloor;
    CycleRemembers(w, s, op);
    FloorSteps(n);
    var e := Evaluated(w, s, op);
    if e.Some? && e.value.clear {
      EvaluatedFloor(w, s, op);
    }
  }

  lemma StepStaysBounded(w: World, s: State, op: Op, id: nat, n: nat)
    requires Good(s) && ClearMeansFloor(w) && Bounded(s, id, n)
    ensures Bounded(Apply(w, s, op).s, id, CountBelow(w, s, op, n))
  {
    hide Apply, Pumped, Good, Floor, ClearMeansFloor;
    if op.OpAdvance? && s.commandId != 0 {
      CycleStaysBounded(w, s, op, id, n);
      return;
    }
    if op.OpAdvance? {
      IdleCycle(w, s, op);
    } else {
      OnlyCyclesTouchTheCommand(w, s, op);
      NoCycle(w, s, op);
    }
  }

  lemma NoCycle(w: World, s: State, op: Op)
    requires !op.OpAdvance?
    ensures Pumped(w, s, op) == None
  {
  }

  lemma EvaluatedFloor(w: World, s: State, op: Op)
    requires ClearMeansFloor(w) && Evaluated(w, s, op).Some? && Evaluated(w, s, op).value.clear
    ensures Evaluated(w, s, op).value.clearance.Some? && Evaluated(w, s, op).value.clearance.value >= INTERVENTION_M
  {
  }

  /** Without a command, a cycle starts none. */
  lemma IdleCycle(w: World, s: State, op: Op)
    requires Good(s) && op.OpAdvance? && s.commandId == 0
    ensures Apply(w, s, op).s.commandId == 0 && s.nextCommandId <= Apply(w, s, op).s.nextCommandId
    ensures Unfinished(s, Apply(w, s, op).s)
  {
    hide Pump, SetInterlock, Powered, SettleSound;
    InterlockKeeps(s.(estopLatched := true, nowNs := Later(op.input.ns, s.nowNs)), true, s.deadman);
    if op.input.ns > s.nowNs {
      PumpKeeps(w, Tick(s, op.input.ns), op.input, s.nowNs);
    }
  }

  /** If a command starts clear of the floor and still runs after any further operations, the
      last clearance measured for it is at least 10 mm minus one micrometre for each of its
      latest consecutive cycles below the floor. */
  lemma {:induction false} KeepoutBound(w: World, s: State, ops: seq<Op>, id: nat, n: nat)
    requires Good(s) && ClearMeansFloor(w) && Bounded(s, id, n)
    ensures Bounded(Run(w, s, ops), id, CountBelowRun(w, s, ops, n))
    decreases |ops|
  {
    if ops != [] {
      ApplyMoves(w, s, ops[0]);
      StepStaysBounded(w, s, ops[0], id, n);
      KeepoutBound(w, Apply(w, s, ops[0]).s, ops[1..], id, CountBelow(w, s, ops[0], n));
    }
  }

  /** An accepted command that starts clear is bounded from the start. */
  lemma ClearStartIsBounded(w: World, s: State, p: Plan, r: ExecuteRequest)
    requires Good(s) && ClearMeansFloor(w) && Accepts(w, s, OpExecute(p, r))
    requires Measure(w, s, p.motion.terminalContact).clear
    ensures Bounded(Execute(w, s, p, r).s, s.nextCommandId, 0)
  {
    hide Execute, Publish, Powered, SettleSound;
    AcceptedIsBegun(w, s, p, r);
    var startNs := if r.startNs == 0 then s.nowNs else r.startNs;
    var begun := Begin(w, s, p, r, startNs);
    PublishKeeps(begun, if begun.started then StartedEvent else QueuedEvent, OK, begun.commandId);
    FloorSteps(0);
  }

  lemma AcceptedIsBegun(w: World, s: State, p: Plan, r: ExecuteRequest)
    requires Accepts(w, s, OpExecute(p, r))
    ensures var begun := Begin(w, s, p, r, if r.startNs == 0 then s.nowNs else r.startNs);
            Execute(w, s, p, r).s == Publish(begun, if begun.started then StartedEvent else QueuedEvent, OK, begun.commandId).s
  {
    hide LatchFault, Publish, FeedbackIntegrity, Healthy, PlanBelongs, Begin, RequestFits;
    LatchKeepsCommandCount(s);
  }

  // ---------------------------------------------------------------------------
  // Completion.

  /** The latest unbroken run of at-goal cycles of the current command. */
  function Unbroken(w: World, s: State, op: Op, run: seq<Arrival>): seq<Arrival> {
    if s.commandId == 0 then [] else Extended(run, Arrived(w, s, op))
  }

  function UnbrokenRun(w: World, s: State, ops: seq<Op>, run: seq<Arrival>): seq<Arrival>
    decreases |ops|
  {
    if ops == [] then run else UnbrokenRun(w, Apply(w, s, ops[0]).s, ops[1..], Unbroken(w, s, ops[0], run))
  }

  /** Settling starts with the run, and counts only intervals both arms really delivered. */
  predicate Counts(g: Settling, run: seq<Arrival>) {
    && (forall i :: 0 <= i < |run| ==> run[i].atGoal)
    && if run == [] then g == Settling(0, Pair(0, 0), 0)
       else
         && g.startNs == run[0].nowNs > 0
         && run[0].seqs.left + g.intervals <= g.seqs.left && run[0].seqs.right + g.intervals <= g.seqs.right
  }

  predicate Tracks(s: State, run: seq<Arrival>) {
    s.commandId != 0 ==> Counts(SettlingOf(s), run)
  }

  function Extended(run: seq<Arrival>, a: Option<Arrival>): seq<Arrival> {
    match a
    case None => run
    case Some(x) => if x.atGoal then run + [x] else []
  }

  lemma NextCounts(g: Settling, run: seq<Arrival>, a: Option<Arrival>)
    requires Counts(g, run) && (a.Some? ==> a.value.nowNs > 0 && AtMost(g.seqs, a.value.seqs))
    ensures Counts(NextSettling(g, a), Extended(run, a))
    ensures a.Some? ==> AtMost(NextSettling(g, a).seqs, a.value.seqs)
  {
  }

  /** The settling memory is never ahead of the feedback a cycle arrives with. */
  lemma ArrivalIsLater(w: World, s: State, op: Op)
    requires Good(s) && s.commandId != 0 && Pumped(w, s, op).Some? && Monitor(w, Pumped(w, s, op).value).Going?
    ensures var m := Monitor(w, Pumped(w, s, op).value).s;
            AtMost(Sequences(s), Sequences(m)) && Arrived(w, s, op) == ArrivalIn(w, m)
  {
    hide Pump, Monitor, Good, MeasuredAtGoal;
    var begun := Tick(s, op.input.ns);
    TickOk(s, op.input.ns);
    PumpOk(w, begun, op.input, s.nowNs);
    CycleGoesOn(w, s, op);
    MonitorKeeps(w, Pumped(w, s, op).value);
  }

  /** One cycle of a running command keeps the count, and completes it only on a full run. */
  lemma CycleTracks(w: World, s: State, op: Op, run: seq<Arrival>)
    requires Good(s) && s.commandId != 0 && Tracks(s, run) && op.OpAdvance?
    ensures Tracks(Apply(w, s, op).s, Extended(run, Arrived(w, s, op)))
    ensures !Unfinished(s, Apply(w, s, op).s) ==> FullRun(s.options, Extended(run, Arrived(w, s, op)))
  {
    var p := Pumped(w, s, op);
    if p == None {
      CycleCutShort(w, s, op);
      assert Arrived(w, s, op) == None;
    } else {
      CycleGoesOn(w, s, op);
      MonitorKeeps(w, p.value);
      if Monitor(w, p.value).Going? {
        ArrivalIsLater(w, s, op);
        SettledCycleTracks(w, s, Monitor(w, p.value).s, run);
      } else {
        assert Arrived(w, s, op) == None;
      }
    }
    hide Apply, Pumped, Monitor, Good, Arrived, FullRun, Settle, Counts, MeasuredAtGoal;
  }

  lemma SettleSeqIsOld(s: State, run: seq<Arrival>)
    requires Good(s) && s.commandId != 0 && Counts(SettlingOf(s), run)
    ensures AtMost(s.settleSeq, Sequences(s))
  {
    hide Powered;
  }

  lemma SettledCycleTracks(w: World, s: State, m: State, run: seq<Arrival>)
    requires Good(s) && s.commandId == m.commandId != 0 && Tracks(s, run) && SettlingOf(m) == SettlingOf(s)
    requires AtMost(Sequences(s), Sequences(m)) && m.nowNs > 0 && m.options == s.options && Unfinished(s, m)
    ensures var t := Settle(w, m).s;
            && Tracks(t, Extended(run, ArrivalIn(w, m)))
            && (!Unfinished(s, t) ==> FullRun(s.options, Extended(run, ArrivalIn(w, m))))
  {
    hide Settle, MeasuredAtGoal, NextSettling, Good;
    SettleKeeps(w, m);
    SettleCounts(w, m);
    var a := ArrivalIn(w, m);
    SettleSeqIsOld(s, run);
    assert a.Some? ==> a.value.nowNs == m.nowNs && a.value.seqs == Sequences(m);
    NextCounts(SettlingOf(s), run, a);
  }

  /** What a COMPLETED event stands for: an unbroken run at the goal over three cycle times
      in which both arms delivered at least three new generations. */
  predicate FullRun(options: Options, run: seq<Arrival>) {
    && run != []
    && (forall i :: 0 <= i < |run| ==> run[i].atGoal)
    && run[0].nowNs + 3 * options.cycleNs <= run[|run| - 1].nowNs
    && run[0].seqs.left + 3 <= run[|run| - 1].seqs.left && run[0].seqs.right + 3 <= run[|run| - 1].seqs.right
  }

  lemma StepTracks(w: World, s: State, op: Op, run: seq<Arrival>)
    requires Good(s) && Tracks(s, run)
    ensures Tracks(Apply(w, s, op).s, Unbroken(w, s, op, run))
    ensures op != OpPoll && !Unfinished(s, Apply(w, s, op).s) ==> FullRun(s.options, Unbroken(w, s, op, run))
  {
    hide Apply, Good, FullRun, Pumped, Counts;
    if op.OpAdvance? && s.commandId != 0 {
      CycleTracks(w, s, op, run);
      return;
    }
    ZeroCounts();
    if op.OpAdvance? {
      IdleCycle(w, s, op);
    } else {
      OnlyCyclesTouchTheCommand(w, s, op);
      NoCycle(w, s, op);
    }
  }

  lemma ZeroCounts()
    ensures Counts(Settling(0, Pair(0, 0), 0), [])
  {
  }

  lemma {:induction false} RunTracks(w: World, s: State, ops: seq<Op>, run: seq<Arrival>)
    requires Good(s) && Tracks(s, run)
    ensures Tracks(Run(w, s, ops), UnbrokenRun(w, s, ops, run))
    decreases |ops|
  {
    hide Apply, Good, Tracks, Unbroken;
    if ops != [] {
      ApplyMoves(w, s, ops[0]);
      StepTracks(w, s, ops[0], run);
      RunTracks(w, Apply(w, s, ops[0]).s, ops[1..], Unbroken(w, s, ops[0], run));
    }
  }

  /** Over every run from an idle controller: an operation that reports COMPLETED ends an
      unbroken at-goal run over three cycle times and three new generations of both arms. */
  lemma CompletedNeedsUnbrokenRun(w: World, s: State, ops: seq<Op>, op: Op)
    requires Good(s) && s.commandId == 0 && op != OpPoll
    requires !Unfinished(Run(w, s, ops), Apply(w, Run(w, s, ops), op).s)
    ensures FullRun(Run(w, s, ops).options, Unbroken(w, Run(w, s, ops), op, UnbrokenRun(w, s, ops, [])))
  {
    RunKeepsGood(w, s, ops);
    RunTracks(w, s, ops, []);
    StepTracks(w, Run(w, s, ops), op, UnbrokenRun(w, s, ops, []));
    hide *;
  }
}
