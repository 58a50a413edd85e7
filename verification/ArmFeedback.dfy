/** One arm's feedback path on values: seven motors and a bounded queue of captured
    generations that become visible only when their delay has passed. */
module ArmFeedback {
  import opened Common
  import opened Motors

  const JOINTS: nat := 7
  const CAPACITY: nat := 64

  const ALL_JOINTS: set<nat> := set j: nat | j < JOINTS

  datatype Generation = Generation(frames: seq<Frame>, captureNs: nat, readyNs: nat, members: set<nat>)

  /** One frame per joint, all stamped with the capture time. */
  predicate Sound(g: Generation) {
    && |g.frames| == JOINTS
    && forall j :: 0 <= j < JOINTS ==> |g.frames[j].data| == 8 && g.frames[j].tNs == g.captureNs
  }

  predicate Complete(g: Generation) {
    g.members == ALL_JOINTS
  }

  datatype ArmRecord = ArmRecord(
    motors: seq<Motor>,
    queue: seq<Generation>,
    feedbackSeq: nat,
    generationMask: set<nat>,
    generationNs: nat,
    freeze: set<nat>,
    drop: set<nat>,
    commandFail: set<nat>,
    delayNs: nat)

  predicate WellFormed(a: ArmRecord) {
    |a.motors| == JOINTS && |a.queue| <= CAPACITY && forall i :: 0 <= i < |a.queue| ==> Sound(a.queue[i])
  }

  const PARKED: Motor :=
    Motor(MotorRecord(0, 1.0, 0.0, 1.0, 1.0, 1.0, 0.0, 1.0, 1.0, 1.0),
          Measured(0.0, 0.0, 0.0, 0, 0, false), 0.0, 0.0, 0.0, 0.0, false, false, 0.0, 0)

  type Arm = a: ArmRecord | WellFormed(a)
    witness ArmRecord([PARKED, PARKED, PARKED, PARKED, PARKED, PARKED, PARKED], [], 0, {}, 0, {}, {}, {}, 0)

  type Joints = q: seq<real> | |q| == JOINTS witness [0.0, 0.0, 0.0, 0.0, 0.0, 0.0, 0.0]

  const ZERO: Joints := [0.0, 0.0, 0.0, 0.0, 0.0, 0.0, 0.0]

  /** A new arm as its constructor leaves it. */
  function NewMotor(c: MotorConfig): Motor {
    var q := -c.qOffset / c.qScale;
    Motor(c, Measured(0.0, 0.0, 0.0, 0, 0, false), q, 0.0, q, 0.0, false, false, 0.0, 0)
  }

  predicate IsNew(a: Arm) {
    && (forall j :: 0 <= j < JOINTS ==> a.motors[j] == NewMotor(a.motors[j].config))
    && a.queue == [] && a.feedbackSeq == 0 && a.generationMask == {} && a.generationNs == 0
    && a.freeze == {} && a.drop == {} && a.commandFail == {} && a.delayNs == 0
  }

  // ---------------------------------------------------------------------------
  // What is visible.

  function MeasuredQ(a: Arm): Joints {
    seq(JOINTS, j requires 0 <= j < JOINTS => MappedQ(a.motors[j]))
  }

  function MeasuredDq(a: Arm): Joints {
    seq(JOINTS, j requires 0 <= j < JOINTS => MappedDq(a.motors[j]))
  }

  predicate CompleteFresh(a: Arm, nowNs: nat, timeoutNs: nat) {
    forall j :: 0 <= j < JOINTS ==>
      var m := a.motors[j].measured;
      j in a.generationMask && m.valid && nowNs >= m.tNs && nowNs - m.tNs <= timeoutNs
  }

  predicate FaultFree(a: Arm) {
    forall j :: 0 <= j < JOINTS ==> a.motors[j].measured.status < 8
  }

  predicate ReportsDisabled(a: Arm, nowNs: nat, timeoutNs: nat) {
    CompleteFresh(a, nowNs, timeoutNs) && forall j :: 0 <= j < JOINTS ==> a.motors[j].measured.status == 0
  }

  predicate AllEnabled(a: Arm, on: bool) {
    forall j :: 0 <= j < JOINTS ==> a.motors[j].enabled == on
  }

  // ---------------------------------------------------------------------------
  // Operations.

  function SetEnabled(a: Arm, on: bool): (r: Arm)
    ensures AllEnabled(r, on) && r == a.(motors := r.motors)
  {
    a.(motors := seq(JOINTS, j requires 0 <= j < JOINTS => a.motors[j].(enabled := on)))
  }

  function SetBlockedAll(a: Arm, blocked: bool, gain: real): (r: Arm)
    ensures forall on :: AllEnabled(a, on) ==> AllEnabled(r, on)
    ensures r.queue == a.queue && r.feedbackSeq == a.feedbackSeq && r.generationNs == a.generationNs
    ensures forall j :: 0 <= j < JOINTS ==> r.motors[j].measured == a.motors[j].measured
  {
    a.(motors := seq(JOINTS, j requires 0 <= j < JOINTS => SetBlocked(a.motors[j], blocked, gain)))
  }

  datatype Injection = Injection(freeze: set<nat>, drop: set<nat>, fault: set<nat>, status: nat,
                                 commandFail: set<nat>, delayNs: nat)

  const NO_INJECTION: Injection := Injection({}, {}, {}, 0, {}, 0)

  function SetInjection(a: Arm, i: Injection): (r: Arm)
    ensures forall on :: AllEnabled(a, on) ==> AllEnabled(r, on)
    ensures r.queue == a.queue && r.feedbackSeq == a.feedbackSeq && r.generationNs == a.generationNs
    ensures forall j :: 0 <= j < JOINTS ==> r.motors[j].measured == a.motors[j].measured
  {
    a.(freeze := i.freeze * ALL_JOINTS, drop := i.drop * ALL_JOINTS,
       commandFail := i.commandFail * ALL_JOINTS, delayNs := i.delayNs,
       motors := MarkFaults(a.motors, i.fault, i.status))
  }

  function MarkFaults(motors: seq<Motor>, mask: set<nat>, status: nat): (r: seq<Motor>)
    requires |motors| == JOINTS
    ensures |r| == JOINTS
    ensures forall j :: 0 <= j < JOINTS ==> r[j].measured == motors[j].measured && r[j].enabled == motors[j].enabled
  {
    seq(JOINTS, j requires 0 <= j < JOINTS => motors[j].(faultStatus := if j in mask then status else 0))
  }

  function Retire(a: Arm): Arm {
    a.(queue := [])
  }

  function Force(a: Arm, q: Joints, dq: Joints, nowNs: nat): (r: Arm)
    ensures forall on :: AllEnabled(a, on) ==> AllEnabled(r, on)
    ensures r.feedbackSeq == a.feedbackSeq + 1 && r.generationNs == nowNs && r.queue == []
    ensures forall j :: 0 <= j < JOINTS ==> r.motors[j].measured.tNs == nowNs
  {
    a.(queue := [], generationMask := ALL_JOINTS, generationNs := nowNs, feedbackSeq := a.feedbackSeq + 1,
       motors := seq(JOINTS, j requires 0 <= j < JOINTS => ForceState(a.motors[j], q[j], dq[j], nowNs)))
  }

  function MaterializeStop(a: Arm, hold: bool, nowNs: nat): (r: Arm)
    ensures AllEnabled(r, hold) && r.feedbackSeq == a.feedbackSeq + 1
  {
    Force(SetEnabled(a, hold), MeasuredQ(a), ZERO, nowNs)
  }

  datatype Outcome = Outcome(arm: Arm, ok: bool)

  function Deliver(a: Arm, g: Generation): (r: Arm)
    requires Sound(g)
    ensures forall on :: AllEnabled(a, on) ==> AllEnabled(r, on)
    ensures forall j :: 0 <= j < JOINTS ==> r.motors[j].measured.tNs == g.captureNs
  {
    a.(motors := seq(JOINTS, j requires 0 <= j < JOINTS => Publish(a.motors[j], g.frames[j])),
       generationMask := ALL_JOINTS, generationNs := g.captureNs, feedbackSeq := a.feedbackSeq + 1)
  }

  function Pop(a: Arm): Arm
    requires a.queue != []
  {
    a.(queue := a.queue[1..])
  }

  function Enqueue(a: Arm, g: Generation): Outcome
    requires Sound(g)
  {
    if |a.queue| == CAPACITY then Outcome(a, false) else Outcome(a.(queue := a.queue + [g]), true)
  }

  function PublishDue(a: Arm, nowNs: nat): Outcome
    decreases |a.queue|
  {
    if a.queue == [] || a.queue[0].readyNs > nowNs then Outcome(a, true)
    else
      var g := a.queue[0];
      if !Complete(g) then Outcome(Pop(a).(generationMask := g.members), true)
      else if a.feedbackSeq == U64_MAXIMUM then Outcome(a, false)
      else PublishDue(Pop(Deliver(a, g)), nowNs)
  }

  /** Commands every motor and steps its plant. */
  function StepMotors(a: Arm, q: Joints, dq: Joints, dt: real): (r: Arm)
    ensures forall on :: AllEnabled(a, on) ==> AllEnabled(r, on)
    ensures r == a.(motors := r.motors)
    ensures forall j :: 0 <= j < JOINTS ==>
              r.motors[j].measured == a.motors[j].measured && r.motors[j].config == a.motors[j].config
  {
    a.(motors := seq(JOINTS, j requires 0 <= j < JOINTS =>
         AfterStep(Command(a.motors[j], q[j], dq[j]), dt, j in a.freeze)))
  }

  function Snap(a: Arm, nowNs: nat): (g: Generation)
    ensures Sound(g)
  {
    Generation(seq(JOINTS, j requires 0 <= j < JOINTS => Capture(a.motors[j], nowNs)),
               nowNs, nowNs + a.delayNs, ALL_JOINTS - a.drop)
  }

  function CommandAndStep(a: Arm, q: Joints, dq: Joints, nowNs: nat, dt: real): Outcome {
    if a.commandFail != {} then Outcome(a.(generationMask := {}), false)
    else if a.delayNs + nowNs > U64_MAXIMUM then Outcome(a, false)
    else
      var stepped := StepMotors(a, q, dq, dt);
      var queued := Enqueue(stepped, Snap(stepped, nowNs));
      if !queued.ok then queued
      else
        PublishDue(queued.arm, nowNs)
  }

  // ---------------------------------------------------------------------------
  // The queue is a FIFO: what one round of publishing delivers.

  /** What one round of publishing takes: `complete` whole generations, then at most one
      incomplete one. */
  datatype Round = Round(complete: nat, partial: bool, ok: bool)

  function TakeRound(queue: seq<Generation>, feedbackSeq: nat, nowNs: nat): (r: Round) {
    if queue == [] || queue[0].readyNs > nowNs then Round(0, false, true)
    else if !Complete(queue[0]) then Round(0, true, true)
    else if feedbackSeq == U64_MAXIMUM then Round(0, false, false)
    else var rest := TakeRound(queue[1..], feedbackSeq + 1, nowNs); rest.(complete := rest.complete + 1)
  }

  function Taken(r: Round): nat {
    if r.partial then r.complete + 1 else r.complete
  }

  /** A round takes a prefix of the queue, every member ready and all but the last complete;
      it stops only at an unready head, after an incomplete generation, or at a spent
      counter. */
  lemma {:induction false} RoundIsMaximalPrefix(queue: seq<Generation>, feedbackSeq: nat, nowNs: nat)
    ensures var r := TakeRound(queue, feedbackSeq, nowNs);
            && Taken(r) <= |queue|
            && (forall i :: 0 <= i < Taken(r) ==> queue[i].readyNs <= nowNs)
            && (forall i :: 0 <= i < r.complete ==> Complete(queue[i]))
            && (r.partial ==> !Complete(queue[r.complete]))
            && (r.ok && !r.partial && r.complete < |queue| ==> queue[r.complete].readyNs > nowNs)
            && (!r.ok ==> feedbackSeq + r.complete == U64_MAXIMUM)
    decreases |queue|
  {
    hide Complete;
    if queue != [] && queue[0].readyNs <= nowNs && Complete(queue[0]) && feedbackSeq != U64_MAXIMUM {
      RoundIsMaximalPrefix(queue[1..], feedbackSeq + 1, nowNs);
      var n := Taken(TakeRound(queue[1..], feedbackSeq + 1, nowNs));
      assert forall i :: 1 <= i < |queue| ==> queue[i] == queue[1..][i - 1];
    }
  }

  /** Every motor shows this generation: position, velocity, torque, status and time are what
      its own frame says. */
  predicate Shows(a: Arm, g: Generation)
    requires Sound(g)
  {
    a.generationNs == g.captureNs
    && forall j :: 0 <= j < JOINTS ==> a.motors[j].measured == Reading(a.motors[j].config, g.frames[j])
  }

  /** Nothing but what the motors show differs. */
  predicate OnlyMeasured(a: Arm, b: Arm) {
    forall j :: 0 <= j < JOINTS ==> b.motors[j] == a.motors[j].(measured := b.motors[j].measured)
  }

  /** Every motor of `end` shows the newest of the first n queued generations, and is otherwise
      as in `a`. */
  predicate ShowsNewest(a: Arm, end: Arm, n: nat)
    requires n <= |a.queue|
  {
    if n == 0 then end.motors == a.motors && end.generationNs == a.generationNs
    else Shows(end, a.queue[n - 1]) && OnlyMeasured(a, end)
  }

  /** `end` is `a` after exactly that round: the sequence rises by one per complete
      generation and all motors show the newest complete one. */
  predicate RoundApplied(a: Arm, end: Outcome, r: Round) {
    && Taken(r) <= |a.queue| && end.ok == r.ok
    && end.arm.queue == a.queue[Taken(r)..]
    && end.arm.feedbackSeq == a.feedbackSeq + r.complete
    && ShowsNewest(a, end.arm, r.complete)
    && end.arm.generationMask == (if r.partial then a.queue[r.complete].members
                                  else if r.complete > 0 then ALL_JOINTS else a.generationMask)
  }

  lemma OneMoreDelivered(a: Arm, next: Arm, end: Outcome, r: Round)
    requires a.queue != [] && next == Pop(Deliver(a, a.queue[0])) && RoundApplied(next, end, r)
    ensures RoundApplied(a, end, r.(complete := r.complete + 1))
  {
    hide WellFormed, Sound, Reading;
    assert a.queue[Taken(r) + 1..] == next.queue[Taken(r)..];
    assert r.complete > 0 ==> a.queue[r.complete] == next.queue[r.complete - 1];
    assert r.partial ==> a.queue[r.complete + 1] == next.queue[r.complete];
  }

  /** Publishing delivers exactly one round. */
  lemma {:induction false} PublishDueIsFifo(a: Arm, nowNs: nat)
    ensures RoundApplied(a, PublishDue(a, nowNs), TakeRound(a.queue, a.feedbackSeq, nowNs))
    decreases |a.queue|
  {
    if a.queue == [] || a.queue[0].readyNs > nowNs || !Complete(a.queue[0]) || a.feedbackSeq == U64_MAXIMUM {
      return;
    }
    var next := Pop(Deliver(a, a.queue[0]));
    PublishDueIsFifo(next, nowNs);
    OneMoreDelivered(a, next, PublishDue(next, nowNs), TakeRound(next.queue, next.feedbackSeq, nowNs));
    assert next.queue == a.queue[1..] && next.feedbackSeq == a.feedbackSeq + 1;
    hide Deliver, Complete, Sound, WellFormed, RoundApplied;
  }

  // ---------------------------------------------------------------------------
  // What a cycle shows when nothing waits.

  /** A frozen or obstructed plant does not move. */
  lemma StuckStays(a: Arm, q: Joints, dq: Joints, dt: real, j: nat)
    requires j < JOINTS && (j in a.freeze || a.motors[j].blocked)
    ensures var b := StepMotors(a, q, dq, dt).motors[j];
            b.plantQ == a.motors[j].plantQ && b.plantDq == a.motors[j].plantDq
  {
    hide StepPlant;
  }

  /** The cycle fails exactly for a refused command, a ready time past 64 bits or a full ring,
      unless the sequence is about to be spent. */
  lemma CycleFailsExactly(a: Arm, q: Joints, dq: Joints, nowNs: nat, dt: real)
    requires a.feedbackSeq + 64 < U64_MAXIMUM
    ensures CommandAndStep(a, q, dq, nowNs, dt).ok <==>
            a.commandFail == {} && nowNs + a.delayNs <= U64_MAXIMUM && |a.queue| < 64
  {
    hide StepMotors, Snap, RoundApplied;
    var stepped := StepMotors(a, q, dq, dt);
    var queued := Enqueue(stepped, Snap(stepped, nowNs));
    if queued.ok {
      PublishDueIsFifo(queued.arm, nowNs);
      RoundIsMaximalPrefix(queued.arm.queue, queued.arm.feedbackSeq, nowNs);
      RoundGoesWell(queued.arm, PublishDue(queued.arm, nowNs), TakeRound(queued.arm.queue, queued.arm.feedbackSeq, nowNs));
    }
  }

  lemma RoundGoesWell(a: Arm, end: Outcome, r: Round)
    requires RoundApplied(a, end, r)
    ensures end.ok == r.ok && r.complete <= |a.queue|
  {
    hide ShowsNewest;
  }

  /** With nothing waiting and no delay, a cycle that loses no joint shows each plant as the step
      left it; one that loses a joint shows nothing new and says which joints it has; and a delayed
      one shows nothing yet. */
  lemma CycleShowsPlants(a: Arm, q: Joints, dq: Joints, nowNs: nat, dt: real)
    requires a.queue == [] && a.commandFail == {} && nowNs + a.delayNs <= U64_MAXIMUM && a.feedbackSeq < U64_MAXIMUM
    requires a.drop <= ALL_JOINTS
    ensures var b := CommandAndStep(a, q, dq, nowNs, dt).arm;
            if a.delayNs > 0 then b.feedbackSeq == a.feedbackSeq && |b.queue| == 1 && SameReadings(a, b)
            else if a.drop != {} then
              b.feedbackSeq == a.feedbackSeq && b.generationMask == ALL_JOINTS - a.drop && b.queue == [] && SameReadings(a, b)
            else
              && b.feedbackSeq == a.feedbackSeq + 1 && b.generationMask == ALL_JOINTS && b.queue == []
              && forall j :: 0 <= j < JOINTS ==>
                   var m := b.motors[j];
                   m.measured.tNs == nowNs && m.measured.rawQ == Requantised(m.plantQ, m.config.pmax, Q_MAXIMUM)
                   && m.measured.rawDq == Requantised(m.plantDq, m.config.vmax, FIELD_MAXIMUM)
  {
    hide StepMotors, Capture, Requantised, Reading;
    var stepped := StepMotors(a, q, dq, dt);
    StepKeepsReadings(a, q, dq, dt);
    var g := Snap(stepped, nowNs);
    var queued := Enqueue(stepped, g);
    assert queued.arm.queue == [g];
    if a.delayNs == 0 && a.drop == {} {
      var b := Pop(Deliver(queued.arm, g));
      forall j | 0 <= j < JOINTS
        ensures b.motors[j].measured.tNs == nowNs
        ensures b.motors[j].measured.rawQ == Requantised(b.motors[j].plantQ, b.motors[j].config.pmax, Q_MAXIMUM)
        ensures b.motors[j].measured.rawDq == Requantised(b.motors[j].plantDq, b.motors[j].config.vmax, FIELD_MAXIMUM)
      {
        CaptureThenPublish(stepped.motors[j], nowNs);
      }
      assert PublishDue(b, nowNs) == Outcome(b, true);
    }
  }

  lemma StepKeepsReadings(a: Arm, q: Joints, dq: Joints, dt: real)
    ensures SameReadings(a, StepMotors(a, q, dq, dt))
  {
    hide AfterStep;
  }

  // ---------------------------------------------------------------------------
  // Whole runs of one arm, under arbitrary injections and delay changes.

  datatype ArmOp = Enable(on: bool)
                 | Block(blocked: bool, gain: real)
                 | Inject(injection: Injection)
                 | Cycle(q: Joints, dq: Joints, nowNs: nat, dt: real)
                 | ForceAt(q: Joints, dq: Joints, nowNs: nat)
                 | StopAt(hold: bool, nowNs: nat)
                 | DropPending

  function Apply(a: Arm, op: ArmOp): Arm {
    match op
    case Enable(on) => SetEnabled(a, on)
    case Block(blocked, gain) => SetBlockedAll(a, blocked, gain)
    case Inject(injection) => SetInjection(a, injection)
    case Cycle(q, dq, nowNs, dt) => CommandAndStep(a, q, dq, nowNs, dt).arm
    case ForceAt(q, dq, nowNs) => Force(a, q, dq, nowNs)
    case StopAt(hold, nowNs) => MaterializeStop(a, hold, nowNs)
    case DropPending => Retire(a)
  }

  /** The clock after an operation; operations never go back in time. */
  function ClockAfter(clock: nat, op: ArmOp): nat {
    if op.Cycle? || op.ForceAt? || op.StopAt? then op.nowNs else clock
  }

  /** The seven measurements share one capture time, the generation's, and what waits was
      captured later, in order, and not after now. */
  ghost predicate Coherent(a: Arm, clock: nat) {
    && (forall j :: 0 <= j < JOINTS ==> a.motors[j].measured.tNs == a.generationNs)
    && a.generationNs <= clock
    && (forall i :: 0 <= i < |a.queue| ==>
          a.generationNs <= a.queue[i].captureNs <= clock && a.queue[i].captureNs <= a.queue[i].readyNs)
    && (forall i, k :: 0 <= i < k < |a.queue| ==> a.queue[i].captureNs <= a.queue[k].captureNs)
  }

  lemma NewIsCoherent(a: Arm)
    requires IsNew(a)
    ensures Coherent(a, 0)
  {
  }

  /** The arm just before its cycle publishes, when the cycle gets that far. */
  predicate Captures(a: Arm, nowNs: nat) {
    a.commandFail == {} && a.delayNs + nowNs <= U64_MAXIMUM && |a.queue| < CAPACITY
  }

  function Captured(a: Arm, q: Joints, dq: Joints, nowNs: nat, dt: real): Arm
    requires Captures(a, nowNs)
  {
    var stepped := StepMotors(a, q, dq, dt);
    Enqueue(stepped, Snap(stepped, nowNs)).arm
  }

  lemma CaptureKeepsCoherent(a: Arm, clock: nat, q: Joints, dq: Joints, nowNs: nat, dt: real)
    requires Coherent(a, clock) && clock <= nowNs && Captures(a, nowNs)
    ensures Coherent(Captured(a, q, dq, nowNs, dt), nowNs)
    ensures Captured(a, q, dq, nowNs, dt).feedbackSeq == a.feedbackSeq
    ensures Captured(a, q, dq, nowNs, dt).generationNs == a.generationNs
    ensures |Captured(a, q, dq, nowNs, dt).queue| == |a.queue| + 1
    ensures Captured(a, q, dq, nowNs, dt).queue[..|a.queue|] == a.queue
  {
    hide Capture, Command, AfterStep, WellFormed;
  }

  lemma PublishKeepsCoherent(a: Arm, nowNs: nat)
    requires Coherent(a, nowNs)
    ensures Coherent(PublishDue(a, nowNs).arm, nowNs)
    ensures PublishDue(a, nowNs).arm.generationNs >= a.generationNs
    ensures PublishDue(a, nowNs).arm.feedbackSeq >= a.feedbackSeq
  {
    hide PublishDue, TakeRound, Complete, WellFormed, Sound;
    PublishDueIsFifo(a, nowNs);
    RoundIsMaximalPrefix(a.queue, a.feedbackSeq, nowNs);
    var r := TakeRound(a.queue, a.feedbackSeq, nowNs);
    var end := PublishDue(a, nowNs).arm;
    assert forall i :: 0 <= i < |end.queue| ==> end.queue[i] == a.queue[i + Taken(r)];
    if r.complete > 0 {
      QueueIsSound(a, r.complete - 1);
      ShownTimes(end, a.queue[r.complete - 1]);
    }
  }

  lemma ShownTimes(a: Arm, g: Generation)
    requires Sound(g) && Shows(a, g)
    ensures forall j :: 0 <= j < JOINTS ==> a.motors[j].measured.tNs == a.generationNs
  {
    hide Reading;
  }

  /** The motors are the same ones and show the same. */
  predicate SameReadings(a: Arm, b: Arm) {
    forall j :: 0 <= j < JOINTS ==> b.motors[j].measured == a.motors[j].measured && b.motors[j].config == a.motors[j].config
  }

  lemma CycleIsCaptureThenPublish(a: Arm, q: Joints, dq: Joints, nowNs: nat, dt: real)
    requires Captures(a, nowNs)
    ensures CommandAndStep(a, q, dq, nowNs, dt) == PublishDue(Captured(a, q, dq, nowNs, dt), nowNs)
  {
    hide StepMotors, Snap, PublishDue;
  }

  /** A cycle that does not get to capture leaves everything visible as it was, except that
      a refused command withdraws the current generation. */
  lemma FailedCycle(a: Arm, q: Joints, dq: Joints, nowNs: nat, dt: real)
    requires !Captures(a, nowNs)
    ensures var r := CommandAndStep(a, q, dq, nowNs, dt);
            && !r.ok
            && r.arm.queue == a.queue && r.arm.feedbackSeq == a.feedbackSeq && r.arm.generationNs == a.generationNs
            && SameReadings(a, r.arm)
  {
    hide Snap, PublishDue;
  }

  lemma CycleKeepsCoherent(a: Arm, clock: nat, q: Joints, dq: Joints, nowNs: nat, dt: real)
    requires Coherent(a, clock) && clock <= nowNs
    ensures var r := CommandAndStep(a, q, dq, nowNs, dt).arm;
            Coherent(r, nowNs) && r.generationNs >= a.generationNs && r.feedbackSeq >= a.feedbackSeq
  {
    hide CommandAndStep, Captured, PublishDue, Captures, WellFormed;
    if Captures(a, nowNs) {
      CycleIsCaptureThenPublish(a, q, dq, nowNs, dt);
      CaptureKeepsCoherent(a, clock, q, dq, nowNs, dt);
      PublishKeepsCoherent(Captured(a, q, dq, nowNs, dt), nowNs);
    } else {
      FailedCycle(a, q, dq, nowNs, dt);
    }
  }

  lemma ForceIsCoherent(a: Arm, q: Joints, dq: Joints, nowNs: nat)
    ensures Coherent(Force(a, q, dq, nowNs), nowNs)
  {
    hide WellFormed;
  }

  lemma StepKeepsCoherent(a: Arm, clock: nat, op: ArmOp)
    requires Coherent(a, clock) && clock <= ClockAfter(clock, op)
    ensures Coherent(Apply(a, op), ClockAfter(clock, op))
    ensures Apply(a, op).generationNs >= a.generationNs
    ensures Apply(a, op).feedbackSeq >= a.feedbackSeq
  {
    hide CommandAndStep, Force, WellFormed, SetBlockedAll, SetInjection;
    match op
    case Cycle(q, dq, nowNs, dt) => CycleKeepsCoherent(a, clock, q, dq, nowNs, dt);
    case ForceAt(q, dq, nowNs) => ForceIsCoherent(a, q, dq, nowNs);
    case StopAt(hold, nowNs) => ForceIsCoherent(SetEnabled(a, hold), MeasuredQ(a), ZERO, nowNs);
    case _ =>
  }

  function RunArm(a: Arm, ops: seq<ArmOp>): Arm
    decreases |ops|
  {
    if ops == [] then a else RunArm(Apply(a, ops[0]), ops[1..])
  }

  predicate Timed(clock: nat, ops: seq<ArmOp>)
    decreases |ops|
  {
    ops == [] || (clock <= ClockAfter(clock, ops[0]) && Timed(ClockAfter(clock, ops[0]), ops[1..]))
  }

  function ClockAtEnd(clock: nat, ops: seq<ArmOp>): nat
    decreases |ops|
  {
    if ops == [] then clock else ClockAtEnd(ClockAfter(clock, ops[0]), ops[1..])
  }

  /** Over every run: one common capture time, which with the sequence never decreases. */
  lemma {:induction false} RunKeepsCoherent(a: Arm, clock: nat, ops: seq<ArmOp>)
    requires Coherent(a, clock) && Timed(clock, ops)
    ensures Coherent(RunArm(a, ops), ClockAtEnd(clock, ops))
    ensures RunArm(a, ops).generationNs >= a.generationNs
    ensures RunArm(a, ops).feedbackSeq >= a.feedbackSeq
    decreases |ops|
  {
    if ops != [] {
      StepKeepsCoherent(a, clock, ops[0]);
      RunKeepsCoherent(Apply(a, ops[0]), ClockAfter(clock, ops[0]), ops[1..]);
    }
  }

  /** By how much an operation raises the sequence: one per forced generation, one per
      complete generation delivered. */
  function Gained(a: Arm, op: ArmOp): nat {
    match op
    case ForceAt(_, _, _) => 1
    case StopAt(_, _) => 1
    case Cycle(q, dq, nowNs, dt) =>
      if Captures(a, nowNs) then TakeRound(Captured(a, q, dq, nowNs, dt).queue, a.feedbackSeq, nowNs).complete else 0
    case _ => 0
  }

  lemma SequenceCountsGenerations(a: Arm, op: ArmOp)
    ensures Apply(a, op).feedbackSeq == a.feedbackSeq + Gained(a, op)
  {
    if op.Cycle? {
      if Captures(a, op.nowNs) {
        var c := Captured(a, op.q, op.dq, op.nowNs, op.dt);
        CycleIsCaptureThenPublish(a, op.q, op.dq, op.nowNs, op.dt);
        PublishDueIsFifo(c, op.nowNs);
        assert c.feedbackSeq == a.feedbackSeq;
      } else {
        FailedCycle(a, op.q, op.dq, op.nowNs, op.dt);
      }
    }
    hide CommandAndStep, Captured, PublishDue, WellFormed, Force, TakeRound;
  }

  // ---------------------------------------------------------------------------
  // What was captured, what has left the ring, and what is visible of it.

  /** A generation that has left the ring, and when. */
  datatype Departure = Departure(g: Generation, atNs: nat)

  /** Since the queue was last cleared: the generations captured, those that have left the
      ring, and what the arm showed at the start. */
  datatype Log = Log(captured: seq<Generation>, left: seq<Departure>, first: seq<Measured>, firstNs: nat, firstSeq: nat)

  function NewLog(a: Arm): Log {
    Log([], [], seq(JOINTS, j requires 0 <= j < JOINTS => a.motors[j].measured), a.generationNs, a.feedbackSeq)
  }

  function Gone(left: seq<Departure>): seq<Generation> {
    seq(|left|, i requires 0 <= i < |left| => left[i].g)
  }

  /** Of those that left, the complete ones were shown, in this order; an incomplete one is
      discarded. */
  function Shown(left: seq<Departure>): seq<Generation> {
    if left == [] then []
    else
      var last := left[|left| - 1].g;
      if Complete(last) then Shown(left[..|left| - 1]) + [last] else Shown(left[..|left| - 1])
  }

  /** The arm shows the newest generation of the list, or what it showed at the start. */
  predicate Visible(log: Log, shown: seq<Generation>, a: Arm) {
    if shown == [] then
      && a.generationNs == log.firstNs && |log.first| == JOINTS
      && forall j :: 0 <= j < JOINTS ==> a.motors[j].measured == log.first[j]
    else Sound(shown[|shown| - 1]) && Shows(a, shown[|shown| - 1])
  }

  /** Everything captured has left the ring or still waits in it, in capture order; nothing left
      before it was ready; the sequence has counted the complete ones that left, and every motor
      shows the newest of them. */
  ghost predicate Faithful(log: Log, a: Arm) {
    && log.captured == Gone(log.left) + a.queue
    && (forall i :: 0 <= i < |log.left| ==> log.left[i].g.readyNs <= log.left[i].atNs)
    && a.feedbackSeq == log.firstSeq + |Shown(log.left)|
    && Visible(log, Shown(log.left), a)
  }

  function Record(log: Log, a: Arm, op: ArmOp): Log {
    match op
    case ForceAt(_, _, _) => NewLog(Apply(a, op))
    case StopAt(_, _) => NewLog(Apply(a, op))
    case DropPending => NewLog(Apply(a, op))
    case Cycle(q, dq, nowNs, dt) =>
      if !Captures(a, nowNs) then log
      else
        var queue := Captured(a, q, dq, nowNs, dt).queue;
        var gone := |queue| - |CommandAndStep(a, q, dq, nowNs, dt).arm.queue|;
        if gone < 0 || gone > |queue| then log else Extend(log, queue, gone, nowNs)
    case _ => log
  }

  /** The queue's last entry has just been captured and its first n have just left. */
  function Extend(log: Log, queue: seq<Generation>, n: nat, nowNs: nat): Log
    requires queue != [] && n <= |queue|
  {
    log.(captured := log.captured + [queue[|queue| - 1]], left := log.left + Leaving(queue, n, nowNs))
  }

  function Leaving(queue: seq<Generation>, n: nat, nowNs: nat): seq<Departure>
    requires n <= |queue|
  {
    seq(n, i requires 0 <= i < n => Departure(queue[i], nowNs))
  }

  lemma NewIsFaithful(a: Arm)
    requires a.queue == []
    ensures Faithful(NewLog(a), a)
  {
  }

  lemma {:induction false} ShownAppend(left: seq<Departure>, queue: seq<Generation>, n: nat, nowNs: nat)
    requires n <= |queue| && forall i :: 0 <= i < n ==> Complete(queue[i])
    ensures Shown(left + Leaving(queue, n, nowNs)) == Shown(left) + queue[..n]
  {
    hide Complete;
    var all := left + Leaving(queue, n, nowNs);
    if n == 0 {
      assert all == left && queue[..0] == [];
    } else {
      ShownAppend(left, queue, n - 1, nowNs);
      assert all[..|all| - 1] == left + Leaving(queue, n - 1, nowNs);
      assert queue[..n] == queue[..n - 1] + [queue[n - 1]];
    }
  }

  /** A round shows its complete generations and discards the incomplete one. */
  lemma ShownRound(left: seq<Departure>, queue: seq<Generation>, r: Round, nowNs: nat)
    requires Taken(r) <= |queue| && (forall i :: 0 <= i < r.complete ==> Complete(queue[i]))
    requires r.partial ==> !Complete(queue[r.complete])
    ensures Shown(left + Leaving(queue, Taken(r), nowNs)) == Shown(left) + queue[..r.complete]
  {
    hide Complete;
    ShownAppend(left, queue, r.complete, nowNs);
    if r.partial {
      var all := left + Leaving(queue, Taken(r), nowNs);
      assert all[..|all| - 1] == left + Leaving(queue, r.complete, nowNs);
      assert all[|all| - 1].g == queue[r.complete];
    }
  }

  /** Captured and gone line up after a round. */
  lemma QueueExtends(log: Log, before: seq<Generation>, queue: seq<Generation>, n: nat, nowNs: nat)
    requires log.captured == Gone(log.left) + before && n <= |queue| == |before| + 1 && queue[..|before|] == before
    ensures var next := Extend(log, queue, n, nowNs); next.captured == Gone(next.left) + queue[n..]
  {
    var next := Extend(log, queue, n, nowNs);
    var last := queue[|queue| - 1];
    assert queue == before + [last];
    assert Gone(next.left) == Gone(log.left) + queue[..n];
    assert log.captured + [last] == Gone(log.left) + queue;
    assert queue == queue[..n] + queue[n..];
  }

  lemma VisibleKept(log: Log, shown: seq<Generation>, a: Arm, b: Arm)
    requires Visible(log, shown, a) && SameReadings(a, b) && b.generationNs == a.generationNs
    ensures Visible(log, shown, b)
  {
    hide Reading;
  }

  /** What an arm shows after a round. */
  lemma VisibleAfterRound(log: Log, shown: seq<Generation>, c: Arm, end: Outcome, r: Round)
    requires Visible(log, shown, c) && RoundApplied(c, end, r)
    ensures Visible(log, shown + c.queue[..r.complete], end.arm)
  {
    hide Reading, Sound;
    if r.complete == 0 {
      assert shown + c.queue[..0] == shown;
    } else {
      var all := shown + c.queue[..r.complete];
      assert all[|all| - 1] == c.queue[r.complete - 1];
      QueueIsSound(c, r.complete - 1);
    }
  }

  lemma QueueIsSound(a: Arm, i: nat)
    requires i < |a.queue|
    ensures Sound(a.queue[i])
  {
  }

  lemma CycleStaysFaithful(log: Log, a: Arm, clock: nat, q: Joints, dq: Joints, nowNs: nat, dt: real)
    requires Coherent(a, clock) && clock <= nowNs && Captures(a, nowNs) && Faithful(log, a)
    ensures Faithful(Record(log, a, Cycle(q, dq, nowNs, dt)), CommandAndStep(a, q, dq, nowNs, dt).arm)
  {
    hide CommandAndStep, Captured, Captures, Coherent, Complete, Sound, WellFormed, PublishDue, TakeRound, Visible,
         ShowsNewest, SameReadings, Gone, Shown, Leaving;
    var c := Captured(a, q, dq, nowNs, dt);
    CycleIsCaptureThenPublish(a, q, dq, nowNs, dt);
    CaptureKeepsCoherent(a, clock, q, dq, nowNs, dt);
    CapturedSameReadings(a, q, dq, nowNs, dt);
    PublishDueIsFifo(c, nowNs);
    RoundIsMaximalPrefix(c.queue, c.feedbackSeq, nowNs);
    var r := TakeRound(c.queue, c.feedbackSeq, nowNs);
    QueueExtends(log, a.queue, c.queue, Taken(r), nowNs);
    ShownRound(log.left, c.queue, r, nowNs);
    VisibleKept(log, Shown(log.left), a, c);
    VisibleAfterRound(log, Shown(log.left), c, PublishDue(c, nowNs), r);
    LeavesWhenReady(log, c.queue, Taken(r), nowNs);
    ExtendKeepsStart(log, c.queue, Taken(r), nowNs, Shown(log.left) + c.queue[..r.complete], PublishDue(c, nowNs).arm);
  }

  lemma LeavesWhenReady(log: Log, queue: seq<Generation>, n: nat, nowNs: nat)
    requires n <= |queue| && queue != [] && forall i :: 0 <= i < n ==> queue[i].readyNs <= nowNs
    requires forall i :: 0 <= i < |log.left| ==> log.left[i].g.readyNs <= log.left[i].atNs
    ensures var next := Extend(log, queue, n, nowNs);
            forall i :: 0 <= i < |next.left| ==> next.left[i].g.readyNs <= next.left[i].atNs
  {
  }

  lemma ExtendKeepsStart(log: Log, queue: seq<Generation>, n: nat, nowNs: nat, shown: seq<Generation>, a: Arm)
    requires n <= |queue| && queue != []
    ensures Visible(log, shown, a) ==> Visible(Extend(log, queue, n, nowNs), shown, a)
    ensures Extend(log, queue, n, nowNs).firstSeq == log.firstSeq
    ensures Extend(log, queue, n, nowNs).left == log.left + Leaving(queue, n, nowNs)
  {
    hide Shows;
  }

  lemma QuietStaysFaithful(log: Log, a: Arm, b: Arm)
    requires Faithful(log, a) && SameReadings(a, b) && b.generationNs == a.generationNs
    requires b.queue == a.queue && b.feedbackSeq == a.feedbackSeq
    ensures Faithful(log, b)
  {
    hide Visible;
    VisibleKept(log, Shown(log.left), a, b);
  }

  lemma QuietOps(a: Arm, op: ArmOp)
    requires op.Enable? || op.Block? || op.Inject?
    ensures var b := Apply(a, op);
            SameReadings(a, b) && b.generationNs == a.generationNs && b.queue == a.queue && b.feedbackSeq == a.feedbackSeq
  {
    hide WellFormed;
  }

  lemma StepStaysFaithful(log: Log, a: Arm, clock: nat, op: ArmOp)
    requires Coherent(a, clock) && clock <= ClockAfter(clock, op) && Faithful(log, a)
    ensures Faithful(Record(log, a, op), Apply(a, op))
  {
    hide CommandAndStep, Captured, WellFormed, Coherent, Faithful, Force, NewLog, SameReadings;
    match op
    case Cycle(q, dq, nowNs, dt) =>
      if Captures(a, nowNs) {
        CycleStaysFaithful(log, a, clock, q, dq, nowNs, dt);
      } else {
        FailedCycle(a, q, dq, nowNs, dt);
        QuietStaysFaithful(log, a, Apply(a, op));
      }
    case ForceAt(_, _, _) => NewIsFaithful(Apply(a, op));
    case StopAt(_, _) => NewIsFaithful(Apply(a, op));
    case DropPending => NewIsFaithful(Apply(a, op));
    case _ =>
      QuietOps(a, op);
      QuietStaysFaithful(log, a, Apply(a, op));
  }

  function RunLog(log: Log, a: Arm, ops: seq<ArmOp>): Log
    decreases |ops|
  {
    if ops == [] then log else RunLog(Record(log, a, ops[0]), Apply(a, ops[0]), ops[1..])
  }

  /** Over every run the ring is a FIFO queue that never delivers early, and the motors show
      the newest complete generation delivered. */
  lemma {:induction false} RunStaysFaithful(log: Log, a: Arm, clock: nat, ops: seq<ArmOp>)
    requires Coherent(a, clock) && Timed(clock, ops) && Faithful(log, a)
    ensures Faithful(RunLog(log, a, ops), RunArm(a, ops))
    decreases |ops|
  {
    hide Coherent, Faithful, Record, Apply;
    if ops != [] {
      StepStaysFaithful(log, a, clock, ops[0]);
      StepKeepsCoherent(a, clock, ops[0]);
      RunStaysFaithful(Record(log, a, ops[0]), Apply(a, ops[0]), ClockAfter(clock, ops[0]), ops[1..]);
    }
  }

  // ---------------------------------------------------------------------------
  // Stops do not drift.

  ghost predicate AllOnGrid(a: Arm) {
    forall j :: 0 <= j < JOINTS ==> OnGrid(a.motors[j])
  }

  /** Once anything has been delivered or forced, every measured position came out of a frame. */
  ghost predicate Gridded(a: Arm) {
    a.feedbackSeq > 0 ==> AllOnGrid(a)
  }

  lemma ReadingIsOnGrid(m: Motor, f: Frame)
    requires |f.data| == 8 && m.measured == Reading(m.config, f)
    ensures OnGrid(m)
  {
    hide Reading;
    PublishIsOnGrid(m, f);
    assert Publish(m, f) == m;
  }

  lemma ShownIsOnGrid(a: Arm, g: Generation)
    requires Sound(g) && Shows(a, g)
    ensures AllOnGrid(a)
  {
    hide Reading, OnGrid;
    forall j | 0 <= j < JOINTS
      ensures OnGrid(a.motors[j])
    {
      ReadingIsOnGrid(a.motors[j], g.frames[j]);
    }
  }

  lemma ForcedIsOnGrid(a: Arm, q: Joints, dq: Joints, nowNs: nat)
    ensures AllOnGrid(Force(a, q, dq, nowNs))
  {
    hide OnGrid, ForceState;
    forall j | 0 <= j < JOINTS
      ensures OnGrid(ForceState(a.motors[j], q[j], dq[j], nowNs))
    {
      ForceStateIsOnGrid(a.motors[j], q[j], dq[j], nowNs);
    }
  }

  lemma SameReadingsOnGrid(a: Arm, b: Arm)
    requires SameReadings(a, b) && AllOnGrid(a)
    ensures AllOnGrid(b)
  {
    forall j | 0 <= j < JOINTS
      ensures OnGrid(b.motors[j])
    {
      assert OnGrid(a.motors[j]);
    }
  }

  lemma RoundKeepsGridded(c: Arm, end: Outcome, r: Round)
    requires RoundApplied(c, end, r) && Gridded(c)
    ensures Gridded(end.arm)
  {
    hide Reading, OnGrid, Sound, WellFormed;
    if r.complete > 0 {
      QueueIsSound(c, r.complete - 1);
      ShownIsOnGrid(end.arm, c.queue[r.complete - 1]);
    }
  }

  lemma SameReadingsGridded(a: Arm, b: Arm)
    requires SameReadings(a, b) && b.feedbackSeq == a.feedbackSeq && Gridded(a)
    ensures Gridded(b)
  {
    hide OnGrid, SameReadings;
    if a.feedbackSeq > 0 {
      SameReadingsOnGrid(a, b);
    }
  }

  lemma CapturedSameReadings(a: Arm, q: Joints, dq: Joints, nowNs: nat, dt: real)
    requires Captures(a, nowNs)
    ensures SameReadings(a, Captured(a, q, dq, nowNs, dt)) && Captured(a, q, dq, nowNs, dt).feedbackSeq == a.feedbackSeq
  {
    hide StepMotors, Snap, WellFormed;
  }

  lemma RetireSameReadings(a: Arm)
    ensures SameReadings(a, Retire(a)) && Retire(a).feedbackSeq == a.feedbackSeq
  {
  }

  lemma StepKeepsGridded(a: Arm, op: ArmOp)
    requires Gridded(a)
    ensures Gridded(Apply(a, op))
  {
    hide CommandAndStep, Captured, WellFormed, Force, SameReadings, PublishDue, TakeRound, Gridded, RoundApplied, AllOnGrid;
    match op
    case Cycle(q, dq, nowNs, dt) =>
      if Captures(a, nowNs) {
        var c := Captured(a, q, dq, nowNs, dt);
        CycleIsCaptureThenPublish(a, q, dq, nowNs, dt);
        CapturedSameReadings(a, q, dq, nowNs, dt);
        SameReadingsGridded(a, c);
        PublishDueIsFifo(c, nowNs);
        RoundKeepsGridded(c, PublishDue(c, nowNs), TakeRound(c.queue, c.feedbackSeq, nowNs));
      } else {
        FailedCycle(a, q, dq, nowNs, dt);
        SameReadingsGridded(a, Apply(a, op));
      }
    case ForceAt(q, dq, nowNs) => ForcedIsGridded(a, q, dq, nowNs);
    case StopAt(hold, nowNs) => ForcedIsGridded(SetEnabled(a, hold), MeasuredQ(a), ZERO, nowNs);
    case DropPending =>
      RetireSameReadings(a);
      SameReadingsGridded(a, Apply(a, op));
    case _ =>
      QuietOps(a, op);
      SameReadingsGridded(a, Apply(a, op));
  }

  lemma ForcedIsGridded(a: Arm, q: Joints, dq: Joints, nowNs: nat)
    ensures Gridded(Force(a, q, dq, nowNs))
  {
    hide Force, AllOnGrid;
    ForcedIsOnGrid(a, q, dq, nowNs);
  }

  lemma {:induction false} RunKeepsGridded(a: Arm, ops: seq<ArmOp>)
    requires Gridded(a)
    ensures Gridded(RunArm(a, ops))
    decreases |ops|
  {
    hide Gridded, Apply;
    if ops != [] {
      StepKeepsGridded(a, ops[0]);
      RunKeepsGridded(Apply(a, ops[0]), ops[1..]);
    }
  }

  /** A stop in place of a gridded arm leaves every measured position as it is. */
  lemma StopStays(a: Arm, hold: bool, nowNs: nat)
    requires Gridded(a) && a.feedbackSeq > 0
    ensures MeasuredQ(MaterializeStop(a, hold, nowNs)) == MeasuredQ(a)
  {
    hide OnGrid, ForceState, MappedQ;
    var stopped := MaterializeStop(a, hold, nowNs);
    forall j | 0 <= j < JOINTS
      ensures MappedQ(stopped.motors[j]) == MappedQ(a.motors[j])
    {
      OnGridKept(a.motors[j], hold);
      HoldDoesNotDrift(a.motors[j].(enabled := hold), 0.0, nowNs);
    }
  }

  lemma OnGridKept(m: Motor, on: bool)
    requires OnGrid(m)
    ensures OnGrid(m.(enabled := on)) && MappedQ(m.(enabled := on)) == MappedQ(m)
  {
  }

  lemma NewIsGridded(a: Arm)
    requires IsNew(a)
    ensures Gridded(a)
  {
  }

  // ---------------------------------------------------------------------------
  // From a new arm on.

  /** Over every timed run of a new arm: the seven measurements share one capture time; what was
      captured since the queue was last cleared has left it or waits in it, in order; the motors
      show the newest complete generation that left; and once the arm has been heard from, no
      stop in place changes a measured position, however often it is repeated. */
  lemma NewArmRun(a: Arm, ops: seq<ArmOp>)
    requires IsNew(a) && Timed(0, ops)
    ensures var b := RunArm(a, ops);
            && Coherent(b, ClockAtEnd(0, ops)) && Faithful(RunLog(NewLog(a), a, ops), b)
            && forall hold, nowNs :: b.feedbackSeq > 0 ==> MeasuredQ(MaterializeStop(b, hold, nowNs)) == MeasuredQ(b)
  {
    hide IsNew, Coherent, Faithful, Gridded, MeasuredQ, MaterializeStop, NewLog, RunLog, RunArm;
    NewIsCoherent(a);
    NewQueue(a);
    NewIsFaithful(a);
    NewIsGridded(a);
    RunKeepsCoherent(a, 0, ops);
    RunStaysFaithful(NewLog(a), a, 0, ops);
    RunKeepsGridded(a, ops);
    var b := RunArm(a, ops);
    forall hold, nowNs | b.feedbackSeq > 0
      ensures MeasuredQ(MaterializeStop(b, hold, nowNs)) == MeasuredQ(b)
    {
      StopStays(b, hold, nowNs);
    }
  }

  lemma NewQueue(a: Arm)
    requires IsNew(a)
    ensures a.queue == []
  {
  }

  // ---------------------------------------------------------------------------
  // Facts the controller relies on.

  lemma {:induction false} PublishKeepsEnabled(a: Arm, nowNs: nat, on: bool)
    requires AllEnabled(a, on)
    ensures AllEnabled(PublishDue(a, nowNs).arm, on)
    decreases |a.queue|
  {
    if a.queue != [] && a.queue[0].readyNs <= nowNs && Complete(a.queue[0]) && a.feedbackSeq != U64_MAXIMUM {
      PublishKeepsEnabled(Pop(Deliver(a, a.queue[0])), nowNs, on);
    }
  }

  /** A cycle neither switches a motor nor takes the sequence back. */
  lemma CycleKeepsEnabled(a: Arm, q: Joints, dq: Joints, nowNs: nat, dt: real, on: bool)
    ensures AllEnabled(a, on) ==> AllEnabled(CommandAndStep(a, q, dq, nowNs, dt).arm, on)
    ensures CommandAndStep(a, q, dq, nowNs, dt).arm.feedbackSeq >= a.feedbackSeq
  {
    SequenceCountsGenerations(a, Cycle(q, dq, nowNs, dt));
    if AllEnabled(a, on) && Captures(a, nowNs) {
      CycleIsCaptureThenPublish(a, q, dq, nowNs, dt);
      PublishKeepsEnabled(Captured(a, q, dq, nowNs, dt), nowNs, on);
    }
    hide PublishDue, Captured, Gained;
  }
}
