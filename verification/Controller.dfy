/** The controller as it is built: fields, two arm runtimes and a 64-slot event ring, all
    updated in place.  Every method is the operation of the same name on `View()`. */
module Controllers {
  import opened Common
  import A = ArmFeedback
  import opened Motors
  import opened ArmRuntimes
  import M = ControllerModel
  import S = ControllerSafety
  import opened ControllerModel

  /** The unread events, oldest first. */
  function Unread(slots: seq<Event>, head: nat, count: nat): (q: seq<Event>)
    requires |slots| == EVENT_CAPACITY && head < EVENT_CAPACITY && count <= EVENT_CAPACITY
    ensures |q| == count
  {
    seq(count, i requires 0 <= i => slots[(head + i) % EVENT_CAPACITY])
  }

  lemma UnreadAppend(slots: seq<Event>, head: nat, count: nat, e: Event)
    requires |slots| == EVENT_CAPACITY && head < EVENT_CAPACITY && count < EVENT_CAPACITY
    ensures Unread(slots[(head + count) % EVENT_CAPACITY := e], head, count + 1) == Unread(slots, head, count) + [e]
  {
  }

  lemma UnreadPop(slots: seq<Event>, head: nat, count: nat)
    requires |slots| == EVENT_CAPACITY && head < EVENT_CAPACITY && 0 < count <= EVENT_CAPACITY
    ensures Unread(slots, head, count)[0] == slots[head]
    ensures Unread(slots, (head + 1) % EVENT_CAPACITY, count - 1) == Unread(slots, head, count)[1..]
  {
    var whole, rest := Unread(slots, head, count), Unread(slots, (head + 1) % EVENT_CAPACITY, count - 1);
    forall i | 0 <= i < count - 1
      ensures rest[i] == whole[i + 1]
    {
      assert ((head + 1) % EVENT_CAPACITY + i) % EVENT_CAPACITY == (head + (i + 1)) % EVENT_CAPACITY;
    }
  }

  /** The controller's plain fields. */
  datatype Fields = Fields(
    sceneRevision: nat, lifecycle: Lifecycle, nowNs: nat, epoch: nat, nonceCounter: nat, nonce: nat, nonceExpiryNs: nat,
    nextCommandId: nat, commandId: nat, startNs: nat, expiryNs: nat, producerDeadlineNs: nat, settleStartNs: nat,
    settleSeq: Pair<nat>, settleIntervals: nat, stopKind: StopKind, started: bool, settlingPublished: bool, deadman: bool,
    contactStreak: nat, lastClearance: Option<real>, estopLatched: bool, executing: Option<Plan>)

  function Assemble(o: Options, f: Fields, arms: Pair<A.Arm>, events: seq<Event>): State {
    State(o, f.sceneRevision, arms, f.lifecycle, f.nowNs, f.epoch, f.nonceCounter, f.nonce, f.nonceExpiryNs,
          f.nextCommandId, f.commandId, f.startNs, f.expiryNs, f.producerDeadlineNs, f.settleStartNs, f.settleSeq,
          f.settleIntervals, f.stopKind, f.started, f.settlingPublished, f.deadman, f.contactStreak, f.lastClearance,
          f.estopLatched, f.executing, events)
  }

  function FieldsOf(s: State): Fields {
    Fields.Fields(s.sceneRevision, s.lifecycle, s.nowNs, s.epoch, s.nonceCounter, s.nonce, s.nonceExpiryNs, s.nextCommandId,
                  s.commandId, s.startNs, s.expiryNs, s.producerDeadlineNs, s.settleStartNs, s.settleSeq, s.settleIntervals,
                  s.stopKind, s.started, s.settlingPublished, s.deadman, s.contactStreak, s.lastClearance, s.estopLatched,
                  s.executing)
  }

  function WithFields(s: State, f: Fields): State {
    Assemble(s.options, f, s.arms, s.events)
  }

  class Controller {
    const options: Options
    const left: ArmRuntime
    const right: ArmRuntime
    const events: array<Event>
    var eventHead: nat
    var eventCount: nat
    var my: Fields

    ghost predicate Valid()
      reads this, left, right, left.ring, right.ring
    {
      && left != right && left.motors != right.motors && left.ring != right.ring
      && left.Valid() && right.Valid()
      && events.Length == EVENT_CAPACITY && eventHead < EVENT_CAPACITY && eventCount <= EVENT_CAPACITY
    }

    function View(): (s: State)
      requires Valid()
      reads this, left, right, left.motors, left.ring, right.motors, right.ring, events
    {
      Assemble(options, my, Pair(left.View(), right.View()), Unread(events[..], eventHead, eventCount))
    }

    constructor (options: Options, sceneRevision: nat, leftMotors: seq<MotorConfig>, rightMotors: seq<MotorConfig>)
      requires |leftMotors| == A.JOINTS && |rightMotors| == A.JOINTS
      ensures Valid()
      ensures A.IsNew(View().arms.left) && A.IsNew(View().arms.right)
      ensures View() == NewController(options, sceneRevision, View().arms) && S.Good(View())
    {
      hide A.IsNew, S.Good;
      this.options := options;
      left := new ArmRuntime(leftMotors);
      right := new ArmRuntime(rightMotors);
      events := new Event[EVENT_CAPACITY](_ => Event(VerifiedEvent, Closed, 0, 0, 0, OK));
      eventHead, eventCount := 0, 0;
      my := Fields.Fields(sceneRevision, Closed, 0, 0, FIRST_NONCE, 0, 0, 1, 0, 0, 0, 0, 0, Pair(0, 0), 0, StopDisable, false,
                   false, true, 0, Some(0.0), false, None);
      new;
      S.NewIsGood(options, sceneRevision, View().arms);
    }

    // -------------------------------------------------------------------------
    // Shared steps.

    method StopArm(arm: ArmRuntime, hold: bool)
      requires arm.Valid()
      modifies arm, arm.motors
      ensures arm.Valid() && arm.View() == M.StopArm(old(arm.View()), options.virtual, hold, my.nowNs)
    {
      hide ArmRuntime.Valid;
      if options.virtual {
        if arm.feedbackSeq != 0 {
          arm.MaterializeStop(hold, my.nowNs);
        } else {
          arm.SetEnabled(false);
          arm.ClearQueue();
        }
      } else {
        arm.SetEnabled(false);
      }
    }

    method MaterializeStop(hold: bool)
      requires Valid()
      modifies left, left.motors, right, right.motors
      ensures Valid() && View() == M.MaterializeStop(old(View()), hold)
    {
      hide ArmRuntime.Valid, ArmRuntime.View, M.StopArm;
      StopArm(left, hold);
      StopArm(right, hold);
    }

    method Announce(kind: EventKind, cause: Status, id: nat)
      requires Valid() && eventCount < EVENT_CAPACITY
      modifies this`eventCount, events
      ensures Valid() && View() == M.Announce(old(View()), kind, cause, id)
    {
      hide Unread, ArmRuntime.View, ArmRuntime.Valid;
      var seqs := Sequences(View());
      var e := Event(kind, my.lifecycle, my.nowNs, id, if seqs.left < seqs.right then seqs.left else seqs.right, cause);
      UnreadAppend(events[..], eventHead, eventCount, e);
      events[(eventHead + eventCount) % EVENT_CAPACITY] := e;
      eventCount := eventCount + 1;
    }

    method Publish(kind: EventKind, cause: Status, id: nat) returns (ok: bool)
      requires Valid()
      modifies this`eventHead, this`eventCount, this`my, left, left.motors, right, right.motors, events
      ensures Valid()
      ensures M.Published(View(), ok) == M.Publish(old(View()), kind, cause, id)
    {
      hide Unread, ArmRuntime.View, ArmRuntime.Valid, M.StopArm, M.Announce;
      ok := eventCount < EVENT_CAPACITY;
      if ok {
        Announce(kind, cause, id);
      } else {
        DropOldest();
        my := my.(executing := None, commandId := 0);
        MaterializeStop(false);
        my := my.(stopKind := StopDisable, lifecycle := Fault);
        Announce(FaultedEvent, EBusy, id);
      }
    }

    /** Overwrites the oldest unread event. */
    method DropOldest()
      requires Valid() && eventCount > 0
      modifies this`eventHead, this`eventCount
      ensures Valid() && eventCount == old(eventCount) - 1 && View() == old(View()).(events := old(View()).events[1..])
    {
      hide Unread, ArmRuntime.View, ArmRuntime.Valid;
      UnreadPop(events[..], eventHead, eventCount);
      eventHead := (eventHead + 1) % EVENT_CAPACITY;
      eventCount := eventCount - 1;
    }

    method DropPlan() returns (droppedId: nat)
      requires Valid()
      modifies this`my
      ensures Valid() && View() == M.DropPlan(old(View())) && droppedId == old(View()).commandId
    {
      hide Unread, ArmRuntime.View, ArmRuntime.Valid;
      droppedId := my.commandId;
      my := my.(executing := None, commandId := 0);
    }

    /** Changes plain fields only. */
    method Set(f: Fields)
      requires Valid()
      modifies this`my
      ensures Valid() && my == f && View() == WithFields(old(View()), f)
    {
      hide Unread, ArmRuntime.View, ArmRuntime.Valid;
      my := f;
    }

    method Enter(l: Lifecycle)
      requires Valid()
      modifies this`my
      ensures Valid() && View() == old(View()).(lifecycle := l)
    {
      hide Unread, ArmRuntime.View, ArmRuntime.Valid;
      my := my.(lifecycle := l);
    }

    method SetDeadman(deadman: bool)
      requires Valid()
      modifies this`my
      ensures Valid() && View() == old(View()).(deadman := deadman)
    {
      hide Unread, ArmRuntime.View, ArmRuntime.Valid;
      my := my.(deadman := deadman);
    }

    method EnterWithNonce(l: Lifecycle, nonce: nat)
      requires Valid()
      modifies this`my
      ensures Valid() && View() == old(View()).(lifecycle := l, nonce := nonce, nonceCounter := nonce)
    {
      hide Unread, ArmRuntime.View, ArmRuntime.Valid;
      my := my.(lifecycle := l, nonce := nonce, nonceCounter := nonce);
    }

    method EnterStopped(l: Lifecycle)
      requires Valid()
      modifies this`my
      ensures Valid() && View() == old(View()).(lifecycle := l, stopKind := StopDisable)
    {
      hide Unread, ArmRuntime.View, ArmRuntime.Valid;
      my := my.(lifecycle := l, stopKind := StopDisable);
    }

    /** The plain fields as part of the whole state. */
    method Get() returns (f: Fields)
      requires Valid()
      ensures f == my == FieldsOf(View())
    {
      hide Unread, ArmRuntime.View, ArmRuntime.Valid;
      return my;
    }

    method LatchFault(cause: Status, controlled: bool) returns (status: Status)
      requires Valid()
      modifies this`eventHead, this`eventCount, this`my, left, left.motors, right, right.motors, events
      ensures Valid() && Result(View(), status) == M.LatchFault(old(View()), cause, controlled)
    {
      hide View, Valid, M.MaterializeStop, M.DropPlan, M.Publish, HoldAvailable, WithFields, FieldsOf, M.LatchFault,
           LatchedFields;
      LatchInSteps(View(), cause, controlled);
      var hold := controlled && HoldAvailable(View());
      var failedId := DropPlan();
      MaterializeStop(hold);
      var f := Get();
      Set(LatchedFields(f));
      var ok := Publish(FaultedEvent, cause, failedId);
      status := if ok then cause else EBusy;
    }

    method PublishAs(kind: EventKind, cause: Status, id: nat, wanted: Status) returns (status: Status)
      requires Valid()
      modifies this`eventHead, this`eventCount, this`my, left, left.motors, right, right.motors, events
      ensures Valid() && Result(View(), status) == M.PublishAs(old(View()), kind, cause, id, wanted)
    {
      hide View, Valid, M.Publish;
      var ok := Publish(kind, cause, id);
      status := if ok then wanted else EBusy;
    }

    // -------------------------------------------------------------------------
    // Arms, one after the other.

    method ReverifyArm(arm: ArmRuntime, first: bool)
      requires arm.Valid()
      modifies arm, arm.motors
      ensures arm.Valid() && arm.View() == Reverify(old(arm.View()), first, my.nowNs)
    {
      hide ArmRuntime.View, ArmRuntime.Valid, A.SetEnabled, A.Force, A.MeasuredQ;
      var q := arm.ReadQ();
      arm.SetEnabled(false);
      arm.ForceState(if first then A.ZERO else q, A.ZERO, my.nowNs);
    }

    method EnableArm(arm: ArmRuntime)
      requires arm.Valid()
      modifies arm, arm.motors
      ensures arm.Valid() && arm.View() == EnableInPlace(old(arm.View()), my.nowNs)
    {
      hide ArmRuntime.View, ArmRuntime.Valid, A.SetEnabled, A.Force, A.MeasuredQ;
      var q := arm.ReadQ();
      arm.SetEnabled(true);
      arm.ForceState(q, A.ZERO, my.nowNs);
    }

    method ResetOneArm(arm: ArmRuntime)
      requires arm.Valid()
      modifies arm, arm.motors
      ensures arm.Valid() && arm.View() == ResetArm(old(arm.View()))
    {
      hide ArmRuntime.View, ArmRuntime.Valid, A.SetEnabled, A.SetInjection;
      arm.SetInjection(A.NO_INJECTION);
      arm.SetEnabled(false);
      arm.ClearQueue();
    }

    method DisableArm(arm: ArmRuntime)
      requires arm.Valid()
      modifies arm, arm.motors
      ensures arm.Valid() && arm.View() == A.Retire(A.SetEnabled(old(arm.View()), false))
    {
      hide ArmRuntime.View, ArmRuntime.Valid, A.SetEnabled;
      arm.SetEnabled(false);
      arm.ClearQueue();
    }

    method ReverifyArms(first: bool)
      requires Valid()
      modifies left, left.motors, right, right.motors
      ensures Valid()
      ensures View() == WithArms(old(View()), Reverify(old(View()).arms.left, first, old(View()).nowNs),
                                 Reverify(old(View()).arms.right, first, old(View()).nowNs))
    {
      hide ArmRuntime.View, ArmRuntime.Valid, Reverify, Unread;
      ReverifyArm(left, first);
      ReverifyArm(right, first);
    }

    method EnableArms()
      requires Valid()
      modifies left, left.motors, right, right.motors
      ensures Valid()
      ensures View() == WithArms(old(View()), EnableInPlace(old(View()).arms.left, old(View()).nowNs),
                                 EnableInPlace(old(View()).arms.right, old(View()).nowNs))
    {
      hide ArmRuntime.View, ArmRuntime.Valid, EnableInPlace, Unread;
      EnableArm(left);
      EnableArm(right);
    }

    method ResetArms()
      requires Valid()
      modifies left, left.motors, right, right.motors
      ensures Valid()
      ensures View() == WithArms(old(View()), ResetArm(old(View()).arms.left), ResetArm(old(View()).arms.right))
    {
      hide ArmRuntime.View, ArmRuntime.Valid, ResetArm, Unread;
      ResetOneArm(left);
      ResetOneArm(right);
    }

    method DisableArms()
      requires Valid()
      modifies left, left.motors, right, right.motors
      ensures Valid()
      ensures View() == WithArms(old(View()), A.Retire(A.SetEnabled(old(View()).arms.left, false)),
                                 A.Retire(A.SetEnabled(old(View()).arms.right, false)))
    {
      hide ArmRuntime.View, ArmRuntime.Valid, A.SetEnabled, A.Retire, Unread;
      DisableArm(left);
      DisableArm(right);
    }

    // -------------------------------------------------------------------------
    // Operations.

    method OpenAndVerify() returns (status: Status)
      requires Valid()
      modifies this`eventHead, this`eventCount, this`my, left, left.motors, right, right.motors, events
      ensures Valid() && Result(View(), status) == M.OpenAndVerify(old(View()))
      ensures S.SafeStep(old(View()), View())
    {
      hide S.SafeStep, View, Valid, Reverify, M.PublishAs;
      S.ApplyIsSafe(S.NO_WORLD, View(), OpOpen);
      var f := Get();
      ghost var s := View();
      OptionsKept();
      if f.lifecycle != Closed {
        return EState;
      }
      if !options.virtual {
        return EUnsupported;
      }
      ReverifyArms(f.epoch == 0);
      Set(f.(epoch := f.epoch + 1, lifecycle := Disarmed));
      status := PublishAs(VerifiedEvent, OK, 0, OK);
    }

    lemma OptionsKept()
      requires Valid()
      ensures View().options == options
    {
      hide ArmRuntime.View, ArmRuntime.Valid, Unread;
    }

    method Challenge() returns (status: Status)
      requires Valid()
      modifies this`eventHead, this`eventCount, this`my, left, left.motors, right, right.motors, events
      ensures Valid() && Result(View(), status) == M.Challenge(old(View()))
      ensures S.SafeStep(old(View()), View())
    {
      hide S.SafeStep, View, Valid, FeedbackIntegrity, Healthy, MotorsReportDisabled, M.LatchFault;
      S.ApplyIsSafe(S.NO_WORLD, View(), OpChallenge);
      var s := View();
      var f := Get();
      var forReset := f.lifecycle == Fault || f.lifecycle == EStop;
      if f.lifecycle != Disarmed && !forReset {
        return EState;
      }
      if !forReset && (!Fresh(s) || !Healthy(s) || !MotorsReportDisabled(s)) {
        if !Healthy(s) {
          status := LatchFault(EFault, false);
          return;
        }
        return EStale;
      }
      Set(f.(nonceCounter := f.nonceCounter + 1, nonce := f.nonceCounter + 1,
             nonceExpiryNs := f.nowNs + CHALLENGE_LIFETIME_NS));
      return OK;
    }

    method ArmWith(t: Ticket) returns (status: Status)
      requires Valid()
      modifies this`eventHead, this`eventCount, this`my, left, left.motors, right, right.motors, events
      ensures Valid() && Result(View(), status) == M.ArmWith(old(View()), t)
      ensures S.SafeStep(old(View()), View())
    {
      hide S.SafeStep, View, Valid, FeedbackIntegrity, Healthy, MotorsReportDisabled, M.LatchFault, EnableInPlace, M.PublishAs,
           TicketMatches;
      S.ApplyIsSafe(S.NO_WORLD, View(), OpArm(t));
      var s := View();
      var f := Get();
      if f.lifecycle != Disarmed {
        return EState;
      }
      if !TicketMatches(s, t) {
        return EIdentity;
      }
      if !Fresh(s) {
        return EStale;
      }
      if !Healthy(s) || !MotorsReportDisabled(s) || !f.deadman {
        status := LatchFault(if !f.deadman then EEstop else EFault, false);
        return;
      }
      EnableArms();
      Set(f.(nonce := 0, lifecycle := ArmedIdle));
      status := PublishAs(ArmedEvent, OK, 0, OK);
    }

    /** The checks in front of the planners, and the plan bound to this moment. */
    method PlanMotion(estop: bool, motion: Motion, expiryNs: nat) returns (status: Status, plan: Option<Plan>)
      requires Valid()
      modifies this`eventHead, this`eventCount, this`my, left, left.motors, right, right.motors, events
      ensures Valid() && Result(View(), status) == M.PlanPreconditions(old(View()), estop)
      ensures S.SafeStep(old(View()), View())
      ensures plan == if status == OK then Some(Bind(View(), motion, expiryNs)) else None
    {
      hide S.SafeStep, View, Valid, FeedbackIntegrity, Healthy, M.LatchFault, Bind;
      S.ApplyIsSafe(S.NO_WORLD, View(), OpPlan(estop));
      var s := View();
      var f := Get();
      plan := None;
      if estop {
        Set(f.(estopLatched := true));
        status := EEstop;
      } else if f.lifecycle != ArmedIdle {
        status := EState;
      } else if !Fresh(s) {
        status := EStale;
      } else if !Healthy(s) {
        status := LatchFault(EFault, false);
        LatchKeepsCause(s);
      } else if !CollisionAllowed(s) {
        status := ECollision;
      } else {
        status, plan := OK, Some(Bind(s, motion, expiryNs));
      }
    }

    method Execute(w: World, p: Plan, r: ExecuteRequest) returns (status: Status)
      requires Valid()
      modifies this`eventHead, this`eventCount, this`my, left, left.motors, right, right.motors, events
      ensures Valid() && Result(View(), status) == M.Execute(w, old(View()), p, r)
      ensures S.SafeStep(old(View()), View())
    {
      hide S.SafeStep, View, Valid, FeedbackIntegrity, Healthy, M.LatchFault, M.PublishAs, PlanBelongs, RequestFits, Measure;
      S.ApplyIsSafe(w, View(), OpExecute(p, r));
      var s := View();
      var f := Get();
      OptionsKept();
      if f.lifecycle != ArmedIdle {
        return EState;
      }
      if !Fresh(s) {
        return EStale;
      }
      if !Healthy(s) {
        status := LatchFault(EFault, false);
        return;
      }
      if p.instance != options.instance || p.epoch != f.epoch {
        return EIdentity;
      }
      if !PlanBelongs(s, p) {
        return EStale;
      }
      var startNs := if r.startNs == 0 then f.nowNs else r.startNs;
      if !RequestFits(s, p, r, startNs) {
        return EInval;
      }
      var id := f.nextCommandId;
      Set(f.(executing := Some(p), commandId := id, nextCommandId := id + 1, startNs := startNs, expiryNs := r.expiryNs,
             producerDeadlineNs := r.producerDeadlineNs, settleStartNs := 0, settleSeq := Pair(0, 0), settleIntervals := 0,
             stopKind := r.stopKind, started := startNs == f.nowNs, settlingPublished := false, lifecycle := Executing,
             contactStreak := 0, lastClearance := Measure(w, s, p.motion.terminalContact).clearance));
      status := PublishAs(if startNs == f.nowNs then StartedEvent else QueuedEvent, OK, id, OK);
    }

    method SetInterlock(estop: bool, deadman: bool) returns (status: Status)
      requires Valid()
      modifies this`eventHead, this`eventCount, this`my, left, left.motors, right, right.motors, events
      ensures Valid() && Result(View(), status) == M.SetInterlock(old(View()), estop, deadman)
      ensures S.SafeStep(old(View()), View())
    {
      hide S.SafeStep, View, Valid, M.MaterializeStop, M.PublishAs, A.SetEnabled, A.Retire;
      S.ApplyIsSafe(S.NO_WORLD, View(), OpInterlock(estop, deadman));
      var before := Get();
      SetDeadman(deadman);
      if !estop && deadman {
        return OK;
      }
      var failedId := DropPlan();
      if before.lifecycle == Closed || before.lifecycle == Verifying {
        DisableArms();
      } else {
        MaterializeStop(false);
      }
      EnterWithNonce(EStop, before.nonceCounter + 1);
      status := PublishAs(EStopEvent, EEstop, failedId, EEstop);
    }

    method Stop(kind: StopKind) returns (status: Status)
      requires Valid()
      modifies this`eventHead, this`eventCount, this`my, left, left.motors, right, right.motors, events
      ensures Valid() && Result(View(), status) == M.Stop(old(View()), kind)
      ensures S.SafeStep(old(View()), View())
    {
      hide S.SafeStep, View, Valid, M.MaterializeStop, M.PublishAs, M.Publish;
      S.ApplyIsSafe(S.NO_WORLD, View(), OpStop(kind));
      var f := Get();
      if f.lifecycle != Executing && f.lifecycle != ArmedIdle {
        return EState;
      }
      Enter(Stopping);
      if f.executing.Some? {
        var ok := Publish(AbortedEvent, OK, f.commandId);
        if !ok {
          return EBusy;
        }
      }
      var dropped := DropPlan();
      MaterializeStop(kind == StopControlled);
      EnterStopped(if kind == StopDisable then Disarmed else ArmedIdle);
      status := PublishAs(StoppedEvent, OK, f.commandId, OK);
    }

    method Disarm(deadlineNs: nat) returns (status: Status)
      requires Valid()
      modifies this`eventHead, this`eventCount, this`my, left, left.motors, right, right.motors, events
      ensures Valid() && Result(View(), status) == M.Disarm(old(View()), deadlineNs)
      ensures S.SafeStep(old(View()), View())
    {
      hide S.SafeStep, View, Valid, M.MaterializeStop, M.PublishAs;
      S.ApplyIsSafe(S.NO_WORLD, View(), OpDisarm(deadlineNs));
      var f := Get();
      if deadlineNs < f.nowNs {
        return ETimeout;
      }
      if f.lifecycle != ArmedIdle && f.lifecycle != Executing && f.lifecycle != Disarmed {
        return EState;
      }
      var dropped := DropPlan();
      MaterializeStop(false);
      Enter(Disarmed);
      status := PublishAs(DisarmedEvent, OK, 0, OK);
    }

    method Reset(epoch: nat, nonce: nat) returns (status: Status)
      requires Valid()
      modifies this`my, left, left.motors, right, right.motors
      ensures Valid() && Result(View(), status) == M.Reset(old(View()), epoch, nonce)
      ensures S.SafeStep(old(View()), View())
    {
      hide S.SafeStep, View, Valid, ResetArm;
      S.ApplyIsSafe(S.NO_WORLD, View(), OpReset(epoch, nonce));
      var f := Get();
      if f.lifecycle != Fault && f.lifecycle != EStop {
        return EState;
      }
      if epoch != f.epoch || nonce != f.nonce || nonce == 0 || f.nowNs > f.nonceExpiryNs {
        return EIdentity;
      }
      ResetArms();
      Set(f.(epoch := f.epoch + 1, nonce := 0, lifecycle := Closed));
      return OK;
    }

    method Heartbeat(commandId: nat, deadlineNs: nat) returns (status: Status)
      requires Valid()
      modifies this`eventHead, this`eventCount, this`my, left, left.motors, right, right.motors, events
      ensures Valid() && Result(View(), status) == M.Heartbeat(old(View()), commandId, deadlineNs)
      ensures S.SafeStep(old(View()), View())
    {
      hide S.SafeStep, View, Valid, M.LatchFault;
      S.ApplyIsSafe(S.NO_WORLD, View(), OpHeartbeat(commandId, deadlineNs));
      var f := Get();
      if f.lifecycle != Executing || commandId == 0 || commandId != f.commandId {
        return EState;
      }
      if deadlineNs <= f.nowNs {
        status := LatchFault(EStale, true);
        return;
      }
      Set(f.(producerDeadlineNs := deadlineNs));
      return OK;
    }

    method SetSceneRevision(revision: nat) returns (status: Status)
      requires Valid()
      modifies this`my
      ensures Valid() && Result(View(), status) == M.SetSceneRevision(old(View()), revision)
      ensures S.SafeStep(old(View()), View())
    {
      hide S.SafeStep, View, Valid;
      S.ApplyIsSafe(S.NO_WORLD, View(), OpScene(revision));
      var f := Get();
      OptionsKept();
      if revision == 0 {
        return EInval;
      }
      if !options.virtual {
        return EUnsupported;
      }
      if f.lifecycle == Executing {
        return EBusy;
      }
      Set(f.(sceneRevision := revision));
      return OK;
    }

    method PollEvent() returns (status: Status, e: Option<Event>)
      requires Valid()
      modifies this`eventHead, this`eventCount
      ensures Valid() && Result(View(), status) == M.PollEvent(old(View()))
      ensures S.SafeStep(old(View()), View())
      ensures e == if old(View()).events == [] then None else Some(old(View()).events[0])
    {
      hide S.SafeStep, ArmRuntime.View, ArmRuntime.Valid, Unread;
      S.ApplyIsSafe(S.NO_WORLD, View(), OpPoll);
      if eventCount == 0 {
        return ETimeout, None;
      }
      UnreadPop(events[..], eventHead, eventCount);
      e := Some(events[eventHead]);
      DropOldest();
      status := OK;
    }

    // -------------------------------------------------------------------------
    // Simulation hooks.

    method SetSimFault(onRight: bool, i: A.Injection) returns (status: Status)
      requires Valid()
      modifies left, left.motors, right, right.motors
      ensures Valid() && Result(View(), status) == M.SetSimFault(old(View()), onRight, i)
      ensures S.SafeStep(old(View()), View())
    {
      hide S.SafeStep, ArmRuntime.View, ArmRuntime.Valid, Unread, A.SetInjection, A.Force, A.MeasuredQ, A.MeasuredDq;
      S.ApplyIsSafe(S.NO_WORLD, View(), OpSimFault(onRight, i));
      if !options.virtual {
        return EUnsupported;
      }
      if !(i.freeze + i.drop + i.fault + i.commandFail <= A.ALL_JOINTS) {
        return EInval;
      }
      if i.fault != {} && i.status != 0 && (i.status < 8 || i.status > 14) {
        return EInval;
      }
      var faultStatus := if i.status == 0 then 8 else i.status;
      var injection := i.(status := if i.fault == {} then 0 else faultStatus);
      if onRight {
        InjectArm(right, injection);
      } else {
        InjectArm(left, injection);
      }
      return OK;
    }

    /** Injects, and makes a motor fault visible at once. */
    method InjectArm(arm: ArmRuntime, i: A.Injection)
      requires arm.Valid()
      modifies arm, arm.motors
      ensures arm.Valid()
      ensures var a := A.SetInjection(old(arm.View()), i);
              arm.View() == if i.fault == {} then a else A.Force(a, A.MeasuredQ(a), A.MeasuredDq(a), my.nowNs)
    {
      hide ArmRuntime.View, ArmRuntime.Valid, A.SetInjection, A.Force;
      arm.SetInjection(i);
      if i.fault != {} {
        arm.ForceState(A.MeasuredQ(arm.View()), A.MeasuredDq(arm.View()), my.nowNs);
      }
    }

    method SetSimState(onRight: bool, q: A.Joints, dq: A.Joints) returns (status: Status)
      requires Valid()
      modifies left, left.motors, right, right.motors
      ensures Valid() && Result(View(), status) == M.SetSimState(old(View()), onRight, q, dq)
      ensures S.SafeStep(old(View()), View())
    {
      hide S.SafeStep, ArmRuntime.View, ArmRuntime.Valid, Unread, A.Force, WithinLimits;
      S.ApplyIsSafe(S.NO_WORLD, View(), OpSimState(onRight, q, dq));
      if !options.virtual {
        return EUnsupported;
      }
      if !WithinLimits(GetArm(View(), onRight), q, dq) {
        return ELimit;
      }
      if onRight {
        right.ForceState(q, dq, my.nowNs);
      } else {
        left.ForceState(q, dq, my.nowNs);
      }
      return OK;
    }

    method ClearSimContact(onRight: bool) returns (status: Status)
      requires Valid()
      modifies left.motors, right.motors
      ensures Valid() && Result(View(), status) == M.ClearSimContact(old(View()), onRight)
      ensures S.SafeStep(old(View()), View())
    {
      hide S.SafeStep, ArmRuntime.View, ArmRuntime.Valid, Unread, A.SetBlockedAll;
      S.ApplyIsSafe(S.NO_WORLD, View(), OpSimContactOff(onRight));
      if !options.virtual {
        return EUnsupported;
      }
      if onRight {
        right.SetBlocked(false, 0.0);
      } else {
        left.SetBlocked(false, 0.0);
      }
      return OK;
    }

    // -------------------------------------------------------------------------
    // One control cycle.  A stage returns the status that ends the call, or nothing.

    method Supervise(previousNs: nat) returns (ended: Option<Status>)
      requires Valid()
      modifies this`eventHead, this`eventCount, this`my, left, left.motors, right, right.motors, events
      ensures Valid() && StageOf(View(), ended) == M.Supervise(old(View()), previousNs)
    {
      hide View, Valid, M.LatchFault, FeedbackIntegrity, Healthy;
      var s := View();
      OptionsKept();
      ended := None;
      if s.lifecycle == ArmedIdle || s.lifecycle == Executing {
        if !Healthy(s) {
          var status := LatchFault(EFault, false);
          ended := Some(status);
        } else if FeedbackIntegrity(s) != OK {
          var status := LatchFault(FeedbackIntegrity(s), false);
          ended := Some(status);
        } else if s.nowNs - previousNs > options.cycleNs {
          var status := LatchFault(ETimeout, true);
          ended := Some(status);
        }
      }
    }

    method StartDue() returns (ended: Option<Status>)
      requires Valid()
      modifies this`eventHead, this`eventCount, this`my, left, left.motors, right, right.motors, events
      ensures Valid() && StageOf(View(), ended) == M.StartDue(old(View()))
    {
      hide View, Valid, M.LatchFault, FeedbackIntegrity, StartPoseMatches, M.Publish;
      var s := View();
      ended := None;
      if !Running(s) {
        return;
      }
      if s.nowNs > s.producerDeadlineNs {
        var status := LatchFault(EStale, true);
        ended := Some(status);
      } else if s.nowNs > s.expiryNs {
        var status := LatchFault(ETimeout, true);
        ended := Some(status);
      } else if !s.started && s.nowNs >= s.startNs {
        if !Fresh(s) || !StartPoseMatches(s, s.executing.value) {
          var status := LatchFault(EStale, false);
          ended := Some(status);
        } else {
          var f := Get();
          Set(f.(started := true));
          var ok := Publish(StartedEvent, OK, s.commandId);
          ended := if ok then None else Some(EBusy);
        }
      }
    }

    method Resist(input: AdvanceInput)
      requires Valid()
      modifies left.motors, right.motors
      ensures Valid() && View() == M.Resist(old(View()), input)
    {
      hide ArmRuntime.View, ArmRuntime.Valid, A.SetBlockedAll, Unread;
      left.SetBlocked(input.resisted.left, input.gain.left);
      right.SetBlocked(input.resisted.right, input.gain.right);
    }

    /** Commands and steps one arm; the other one and everything else stay. */
    method StepLeft(r: Reference, dt: real) returns (ok: bool)
      requires Valid()
      modifies left, left.motors, left.ring
      ensures Valid()
      ensures var s := old(View());
              var outcome := A.CommandAndStep(s.arms.left, r.q.left, r.dq.left, s.nowNs, dt);
              ok == outcome.ok && View() == WithArms(s, outcome.arm, s.arms.right)
    {
      hide ArmRuntime.View, ArmRuntime.Valid, A.CommandAndStep, Unread;
      ok := left.CommandAndStep(r.q.left, r.dq.left, my.nowNs, dt);
    }

    method StepRight(r: Reference, dt: real) returns (ok: bool)
      requires Valid()
      modifies right, right.motors, right.ring
      ensures Valid()
      ensures var s := old(View());
              var outcome := A.CommandAndStep(s.arms.right, r.q.right, r.dq.right, s.nowNs, dt);
              ok == outcome.ok && View() == WithArms(s, s.arms.left, outcome.arm)
    {
      hide ArmRuntime.View, ArmRuntime.Valid, A.CommandAndStep, Unread;
      ok := right.CommandAndStep(r.q.right, r.dq.right, my.nowNs, dt);
    }

    method StepArms(r: Reference, previousNs: nat) returns (ended: Option<Status>)
      requires Valid() && previousNs <= View().nowNs
      modifies this`eventHead, this`eventCount, this`my, left, left.motors, left.ring, right, right.motors, right.ring, events
      ensures Valid() && StageOf(View(), ended) == M.StepArms(old(View()), r, previousNs)
    {
      hide View, Valid, A.CommandAndStep, M.LatchFault;
      var s := View();
      var dt := (s.nowNs - previousNs) as real / 1000000000.0;
      var ok := StepLeft(r, dt);
      if ok {
        ok := StepRight(r, dt);
      }
      ended := None;
      if !ok {
        var status := LatchFault(ECan, false);
        ended := Some(status);
      }
    }

    method CheckFeedback() returns (ended: Option<Status>)
      requires Valid()
      modifies this`eventHead, this`eventCount, this`my, left, left.motors, right, right.motors, events
      ensures Valid() && StageOf(View(), ended) == M.CheckFeedback(old(View()))
    {
      hide View, Valid, M.LatchFault, FeedbackIntegrity, Healthy;
      var s := View();
      ended := None;
      if FeedbackIntegrity(s) != OK {
        var status := LatchFault(FeedbackIntegrity(s), false);
        ended := Some(status);
      } else if !Healthy(s) {
        var status := LatchFault(EFault, false);
        ended := Some(status);
      }
    }

    method Pump(w: World, input: AdvanceInput, previousNs: nat) returns (ended: Option<Status>)
      requires Valid() && previousNs <= View().nowNs
      modifies this`eventHead, this`eventCount, this`my, left, left.motors, left.ring, right, right.motors, right.ring, events
      ensures Valid() && StageOf(View(), ended) == M.Pump(w, old(View()), input, previousNs)
    {
      hide View, Valid, M.Supervise, M.StartDue, M.StepArms, M.CheckFeedback, M.Resist, Commanded;
      ended := Supervise(previousNs);
      if ended.Some? {
        return;
      }
      ended := StartDue();
      if ended.Some? {
        return;
      }
      var r := Commanded(w, View());
      ResistKeepsTime(View(), input);
      Resist(input);
      ended := StepArms(r, previousNs);
      if ended.Some? {
        return;
      }
      ended := CheckFeedback();
    }

    method CompleteOnContact() returns (status: Status)
      requires Valid()
      modifies this`eventHead, this`eventCount, this`my, left, left.motors, right, right.motors, events
      ensures Valid() && Result(View(), status) == M.CompleteOnContact(old(View()))
    {
      hide View, Valid, M.MaterializeStop, M.PublishAs;
      MaterializeStop(true);
      MaterializeKeepsId(old(View()));
      var completedId := DropPlan();
      var f := Get();
      Set(f.(settleStartNs := 0, settleSeq := Pair(0, 0), settleIntervals := 0, settlingPublished := false,
             lifecycle := ArmedIdle));
      status := PublishAs(StoppedEvent, OK, completedId, OK);
    }

    method MonitorContact(p: Plan) returns (ended: Option<Status>)
      requires Valid()
      modifies this`eventHead, this`eventCount, this`my, left, left.motors, right, right.motors, events
      ensures Valid() && StageOf(View(), ended) == M.MonitorContact(old(View()), p)
    {
      hide View, Valid, M.CompleteOnContact, OverThreshold;
      var s := View();
      var f := Get();
      ended := None;
      if !p.motion.contactMonitored {
        return;
      }
      if !OverThreshold(s.arms.left, p.motion.thresholds.left) && !OverThreshold(s.arms.right, p.motion.thresholds.right) {
        Set(f.(contactStreak := 0));
        return;
      }
      Set(f.(contactStreak := f.contactStreak + 1));
      if f.contactStreak + 1 >= p.motion.persistenceCycles {
        var status := CompleteOnContact();
        ended := Some(status);
      }
    }

    method MonitorKeepout(w: World, p: Plan) returns (ended: Option<Status>)
      requires Valid()
      modifies this`eventHead, this`eventCount, this`my, left, left.motors, right, right.motors, events
      ensures Valid() && StageOf(View(), ended) == M.MonitorKeepout(w, old(View()), p)
    {
      hide View, Valid, M.CompleteOnContact, Measure, NotWorsening;
      var s := View();
      var f := Get();
      var k := Measure(w, s, p.motion.terminalContact);
      var previous := f.lastClearance;
      Set(f.(lastClearance := k.clearance));
      var stop := if k.clear then p.motion.contactMonitored && p.motion.terminalContact && k.touching
                  else !NotWorsening(previous, k);
      ended := None;
      if stop {
        var status := CompleteOnContact();
        ended := Some(status);
      }
    }

    method Monitor(w: World) returns (ended: Option<Status>)
      requires Valid()
      modifies this`eventHead, this`eventCount, this`my, left, left.motors, right, right.motors, events
      ensures Valid() && StageOf(View(), ended) == M.Monitor(w, old(View()))
    {
      hide View, Valid, M.MonitorContact, M.MonitorKeepout;
      var s := View();
      ended := None;
      if Running(s) && s.started {
        ended := MonitorContact(s.executing.value);
        if ended == None {
          ended := MonitorKeepout(w, s.executing.value);
        }
      }
    }

    method AnnounceSettling() returns (ended: Option<Status>)
      requires Valid()
      modifies this`eventHead, this`eventCount, this`my, left, left.motors, right, right.motors, events
      ensures Valid() && StageOf(View(), ended) == M.AnnounceSettling(old(View()))
    {
      hide View, Valid, M.Publish;
      var s := View();
      ended := None;
      if !s.settlingPublished {
        var ok := Publish(SettlingEvent, OK, s.commandId);
        if ok {
          var f := Get();
          Set(f.(settlingPublished := true));
        } else {
          ended := Some(EBusy);
        }
      }
    }

    method CountSettling()
      requires Valid()
      modifies this`my
      ensures Valid() && View() == M.CountSettling(old(View()))
    {
      hide View, Valid;
      var s := View();
      var f := Get();
      if f.settleStartNs == 0 {
        Set(f.(settleStartNs := f.nowNs, settleSeq := Sequences(s), settleIntervals := 0));
      } else if s.arms.left.feedbackSeq != f.settleSeq.left && s.arms.right.feedbackSeq != f.settleSeq.right {
        Set(f.(settleSeq := Sequences(s), settleIntervals := f.settleIntervals + 1));
      }
    }

    method Complete() returns (status: Status)
      requires Valid()
      modifies this`eventHead, this`eventCount, this`my, left, left.motors, right, right.motors, events
      ensures Valid() && Result(View(), status) == M.Complete(old(View()))
    {
      hide View, Valid, M.PublishAs;
      var completedId := DropPlan();
      Enter(ArmedIdle);
      status := PublishAs(CompletedEvent, OK, completedId, OK);
    }

    method Settle(w: World) returns (status: Status)
      requires Valid()
      modifies this`eventHead, this`eventCount, this`my, left, left.motors, right, right.motors, events
      ensures Valid() && Result(View(), status) == M.Settle(w, old(View()))
    {
      hide View, Valid, M.AnnounceSettling, M.CountSettling, M.Complete, MeasuredAtGoal;
      var s := View();
      if !Running(s) || s.nowNs < s.startNs + s.executing.value.motion.durationNs {
        return OK;
      }
      var atGoal := MeasuredAtGoal(w, s);
      var ended := AnnounceSettling();
      if ended.Some? {
        return ended.value;
      }
      if !atGoal {
        var f := Get();
        Set(f.(settleStartNs := 0, settleSeq := Pair(0, 0), settleIntervals := 0));
        return OK;
      }
      CountSettling();
      var t := View();
      if t.settleStartNs <= t.nowNs && Settled(t) {
        status := Complete();
        return;
      }
      return OK;
    }

    method AdvanceStopped(ns: nat) returns (status: Status)
      requires Valid()
      modifies this`eventHead, this`eventCount, this`my, left, left.motors, right, right.motors, events
      ensures Valid() && Result(View(), status) == M.AdvanceStopped(old(View()), ns)
    {
      hide View, Valid, M.SetInterlock;
      var f := Get();
      Set(f.(estopLatched := true, nowNs := Later(ns, f.nowNs)));
      if f.estopLatched {
        return EEstop;
      }
      status := SetInterlock(true, f.deadman);
    }

    method Advance(w: World, input: AdvanceInput) returns (status: Status)
      requires Valid()
      modifies this`eventHead, this`eventCount, this`my, left, left.motors, left.ring, right, right.motors, right.ring, events
      ensures Valid() && Result(View(), status) == M.Advance(w, old(View()), input)
      ensures S.SafeStep(old(View()), View())
    {
      hide S.SafeStep, View, Valid, M.AdvanceStopped, M.Pump, M.Monitor, M.Settle;
      S.ApplyIsSafe(w, View(), OpAdvance(input));
      if input.estop {
        status := AdvanceStopped(input.ns);
        return;
      }
      var f := Get();
      if input.ns < f.nowNs {
        Set(f.(estopLatched := false));
        return EInval;
      }
      Set(f.(estopLatched := false, nowNs := input.ns));
      if input.ns == f.nowNs || IdleStatus(f.lifecycle) != OK {
        return IdleStatus(f.lifecycle);
      }
      var ended := Pump(w, input, f.nowNs);
      if ended.Some? {
        return ended.value;
      }
      ended := Monitor(w);
      if ended.Some? {
        return ended.value;
      }
      status := Settle(w);
    }
  }

  function StageOf(s: State, ended: Option<Status>): Stage {
    match ended
    case None => Going(s)
    case Some(status) => Done(Result(s, status))
  }

  lemma ResistKeepsTime(s: State, input: AdvanceInput)
    ensures M.Resist(s, input).nowNs == s.nowNs
  {
  }

  lemma MaterializeKeepsId(s: State)
    ensures M.MaterializeStop(s, true).commandId == s.commandId
  {
  }

  function WithArms(s: State, left: A.Arm, right: A.Arm): State {
    s.(arms := Pair(left, right))
  }

  lemma LatchKeepsCause(s: State)
    ensures M.LatchFault(s, EFault, false).status != OK
  {
    hide M.MaterializeStop;
  }

  function LatchedFields(f: Fields): Fields {
    f.(stopKind := StopDisable, lifecycle := Fault, nonceCounter := f.nonceCounter + 1, nonce := f.nonceCounter + 1)
  }

  lemma LatchInSteps(s: State, cause: Status, controlled: bool)
    ensures var t := M.MaterializeStop(M.DropPlan(s), controlled && HoldAvailable(s));
            var p := M.Publish(WithFields(t, LatchedFields(FieldsOf(t))), FaultedEvent, cause, s.commandId);
            M.LatchFault(s, cause, controlled) == Result(p.s, if p.ok then cause else EBusy)
  {
    hide M.StopArm, M.Publish, HoldAvailable;
  }
}
