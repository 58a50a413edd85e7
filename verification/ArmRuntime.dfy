/** The arm runtime as it is built: motors and a 64-slot ring updated in place.  Every
    method is the operation of the same name on `View()`. */
module ArmRuntimes {
  import opened Common
  import opened Motors
  import Drive = Motors
  import Spec = ArmFeedback
  import opened ArmFeedback

  /** The waiting generations, oldest first, of a ring's slots. */
  function Unroll(slots: seq<Generation>, head: nat, count: nat): (q: seq<Generation>)
    requires |slots| == CAPACITY && head < CAPACITY && count <= CAPACITY
    ensures |q| == count
  {
    seq(count, i requires 0 <= i => slots[(head + i) % CAPACITY])
  }

  ghost predicate AllSound(q: seq<Generation>) {
    forall i :: 0 <= i < |q| ==> Sound(q[i])
  }

  lemma UnrollAppend(slots: seq<Generation>, head: nat, count: nat, g: Generation)
    requires |slots| == CAPACITY && head < CAPACITY && count < CAPACITY
    ensures Unroll(slots[(head + count) % CAPACITY := g], head, count + 1) == Unroll(slots, head, count) + [g]
  {
  }

  lemma UnrollPop(slots: seq<Generation>, head: nat, count: nat)
    requires |slots| == CAPACITY && head < CAPACITY && 0 < count <= CAPACITY
    ensures Unroll(slots, head, count)[0] == slots[head]
    ensures Unroll(slots, (head + 1) % CAPACITY, count - 1) == Unroll(slots, head, count)[1..]
  {
  }

  class ArmRuntime {
    const motors: array<Motor>
    const ring: array<Generation>
    var head: nat
    var count: nat
    var feedbackSeq: nat
    var generationMask: set<nat>
    var generationNs: nat
    var freeze: set<nat>
    var drop: set<nat>
    var commandFail: set<nat>
    var delayNs: nat

    ghost predicate Valid()
      reads this`head, this`count, ring
    {
      && motors.Length == JOINTS && ring.Length == CAPACITY && head < CAPACITY && count <= CAPACITY
      && AllSound(Unroll(ring[..], head, count))
    }

    function View(): (a: Arm)
      requires Valid()
      reads this, ring, motors
    {
      ArmRecord(motors[..], Unroll(ring[..], head, count), feedbackSeq, generationMask, generationNs, freeze, drop, commandFail, delayNs)
    }

    constructor (configs: seq<MotorConfig>)
      requires |configs| == JOINTS
      ensures Valid() && fresh(motors) && fresh(ring) && IsNew(View())
      ensures forall j :: 0 <= j < JOINTS ==> View().motors[j].config == configs[j]
    {
      motors := new Motor[JOINTS](j requires 0 <= j < JOINTS => NewMotor(configs[j]));
      ring := new Generation[CAPACITY](_ => Generation([], 0, 0, {}));
      head, count, feedbackSeq, generationMask, generationNs := 0, 0, 0, {}, 0;
      freeze, drop, commandFail, delayNs := {}, {}, {}, 0;
    }

    method SetEnabled(on: bool)
      requires Valid()
      modifies motors
      ensures Valid() && View() == Spec.SetEnabled(old(View()), on)
    {
      for joint := 0 to JOINTS
        modifies motors
        invariant forall j :: 0 <= j < joint ==> motors[j] == old(motors[j]).(enabled := on)
        invariant forall j :: joint <= j < JOINTS ==> motors[j] == old(motors[j])
      {
        motors[joint] := motors[joint].(enabled := on);
      }
      assert View().motors == Spec.SetEnabled(old(View()), on).motors;
    }

    method SetBlocked(blocked: bool, gain: real)
      requires Valid()
      modifies motors
      ensures Valid() && View() == SetBlockedAll(old(View()), blocked, gain)
    {
      for joint := 0 to JOINTS
        modifies motors
        invariant forall j :: 0 <= j < joint ==> motors[j] == Drive.SetBlocked(old(motors[j]), blocked, gain)
        invariant forall j :: joint <= j < JOINTS ==> motors[j] == old(motors[j])
      {
        motors[joint] := Drive.SetBlocked(motors[joint], blocked, gain);
      }
      assert View().motors == SetBlockedAll(old(View()), blocked, gain).motors;
    }

    method SetFaultMask(mask: set<nat>, status: nat)
      requires Valid()
      modifies motors
      ensures motors[..] == MarkFaults(old(motors[..]), mask, status)
    {
      for joint := 0 to JOINTS
        modifies motors
        invariant forall j :: 0 <= j < joint ==>
                    motors[j] == old(motors[j]).(faultStatus := if j in mask then status else 0)
        invariant forall j :: joint <= j < JOINTS ==> motors[j] == old(motors[j])
      {
        motors[joint] := motors[joint].(faultStatus := if joint in mask then status else 0);
      }
    }

    method SetInjection(i: Injection)
      requires Valid()
      modifies this`freeze, this`drop, this`commandFail, this`delayNs, motors
      ensures Valid() && View() == Spec.SetInjection(old(View()), i)
    {
      hide Unroll, Sound, MarkFaults;
      freeze, drop, commandFail := i.freeze * ALL_JOINTS, i.drop * ALL_JOINTS, i.commandFail * ALL_JOINTS;
      delayNs := i.delayNs;
      SetFaultMask(i.fault, i.status);
    }

    method Enqueue(g: Generation) returns (ok: bool)
      requires Valid() && Sound(g)
      modifies this`count, ring
      ensures Valid() && View() == Spec.Enqueue(old(View()), g).arm && ok == Spec.Enqueue(old(View()), g).ok
    {
      hide Unroll, Sound;
      if count == CAPACITY {
        return false;
      }
      UnrollAppend(ring[..], head, count, g);
      ring[(head + count) % CAPACITY] := g;
      count := count + 1;
      return true;
    }

    method Pop()
      requires Valid() && count > 0
      modifies this`head, this`count
      ensures Valid() && View() == Spec.Pop(old(View()))
    {
      hide Unroll, Sound;
      UnrollPop(ring[..], head, count);
      head := (head + 1) % CAPACITY;
      count := count - 1;
    }

    /** Makes a complete generation the visible one. */
    method Deliver(g: Generation)
      requires Valid() && Sound(g)
      modifies this`generationMask, this`generationNs, this`feedbackSeq, motors
      ensures Valid() && View() == Spec.Deliver(old(View()), g)
    {
      for joint := 0 to JOINTS
        modifies motors
        invariant forall j :: 0 <= j < joint ==> motors[j] == Publish(old(motors[j]), g.frames[j])
        invariant forall j :: joint <= j < JOINTS ==> motors[j] == old(motors[j])
      {
        motors[joint] := Publish(motors[joint], g.frames[joint]);
      }
      generationMask, generationNs, feedbackSeq := ALL_JOINTS, g.captureNs, feedbackSeq + 1;
      assert View().motors == Spec.Deliver(old(View()), g).motors;
    }

    method PublishDue(nowNs: nat) returns (ok: bool)
      requires Valid()
      modifies this, motors
      ensures Valid() && View() == Spec.PublishDue(old(View()), nowNs).arm && ok == Spec.PublishDue(old(View()), nowNs).ok
    {
      while count != 0
        invariant Valid()
        invariant Spec.PublishDue(View(), nowNs) == Spec.PublishDue(old(View()), nowNs)
        decreases count
      {
        var g := ring[head];
        UnrollPop(ring[..], head, count);
        if g.readyNs > nowNs {
          return true;
        }
        if Complete(g) {
          if feedbackSeq == U64_MAXIMUM {
            return false;
          }
          Deliver(g);
          Pop();
        } else {
          Pop();
          generationMask := g.members;
          return true;
        }
      }
      return true;
    }

    method ClearQueue()
      requires Valid()
      modifies this`head, this`count
      ensures Valid() && View() == Retire(old(View()))
    {
      head, count := 0, 0;
    }

    method ForceMotors(q: Joints, dq: Joints, nowNs: nat)
      requires Valid()
      modifies motors
      ensures forall j :: 0 <= j < JOINTS ==> motors[j] == Drive.ForceState(old(motors[j]), q[j], dq[j], nowNs)
    {
      hide Drive.ForceState;
      for joint := 0 to JOINTS
        modifies motors
        invariant forall j :: 0 <= j < joint ==> motors[j] == Drive.ForceState(old(motors[j]), q[j], dq[j], nowNs)
        invariant forall j :: joint <= j < JOINTS ==> motors[j] == old(motors[j])
      {
        motors[joint] := Drive.ForceState(motors[joint], q[joint], dq[joint], nowNs);
      }
    }

    method ForceState(q: Joints, dq: Joints, nowNs: nat)
      requires Valid()
      modifies this`head, this`count, this`generationMask, this`generationNs, this`feedbackSeq, motors
      ensures Valid() && View() == Force(old(View()), q, dq, nowNs)
    {
      hide Drive.ForceState, Unroll, Sound;
      ClearQueue();
      ForceMotors(q, dq, nowNs);
      generationMask, generationNs := ALL_JOINTS, nowNs;
      feedbackSeq := feedbackSeq + 1;
      assert motors[..] == Force(old(View()), q, dq, nowNs).motors;
    }

    method ReadQ() returns (q: Joints)
      requires Valid()
      ensures q == MeasuredQ(View())
    {
      q := seq(JOINTS, j requires 0 <= j < JOINTS && motors.Length == JOINTS reads motors => MappedQ(motors[j]));
    }

    method MaterializeStop(hold: bool, nowNs: nat)
      requires Valid()
      modifies this, motors
      ensures Valid() && View() == Spec.MaterializeStop(old(View()), hold, nowNs)
    {
      var held := ReadQ();
      SetEnabled(hold);
      ForceState(held, ZERO, nowNs);
    }

    method CommandAndStep(q: Joints, dq: Joints, nowNs: nat, dt: real) returns (ok: bool)
      requires Valid()
      modifies this, motors, ring
      ensures Valid() && View() == Spec.CommandAndStep(old(View()), q, dq, nowNs, dt).arm
      ensures ok == Spec.CommandAndStep(old(View()), q, dq, nowNs, dt).ok
    {
      hide Unroll, Sound, WellFormed, Spec.PublishDue, Spec.StepMotors, Capture, Spec.Enqueue;
      if commandFail != {} {
        generationMask := {};
        return false;
      }
      if delayNs > U64_MAXIMUM - nowNs {
        return false;
      }
      var frames := StepMotors(q, dq, nowNs, dt);
      var g := Generation(frames, nowNs, nowNs + delayNs, ALL_JOINTS - drop);
      ok := Enqueue(g);
      if !ok {
        return false;
      }
      ok := PublishDue(nowNs);
    }

    method StepMotors(q: Joints, dq: Joints, nowNs: nat, dt: real) returns (frames: seq<Frame>)
      requires Valid()
      modifies motors
      ensures Valid() && View() == Spec.StepMotors(old(View()), q, dq, dt)
      ensures frames == Snap(View(), nowNs).frames
    {
      hide AfterStep, Command, Capture, Unroll, Sound;
      frames := [];
      for joint := 0 to JOINTS
        modifies motors
        invariant |frames| == joint
        invariant forall j :: 0 <= j < joint ==>
                    motors[j] == AfterStep(Command(old(motors[j]), q[j], dq[j]), dt, j in freeze)
                    && frames[j] == Capture(motors[j], nowNs)
        invariant forall j :: joint <= j < JOINTS ==> motors[j] == old(motors[j])
      {
        motors[joint] := AfterStep(Command(motors[joint], q[joint], dq[joint]), dt, joint in freeze);
        frames := frames + [Capture(motors[joint], nowNs)];
      }
      assert View().motors == Spec.StepMotors(old(View()), q, dq, dt).motors;
    }
  }
}
