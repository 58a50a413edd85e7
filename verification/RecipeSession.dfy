/** The recipe session as it is built: fields that each step changes in place.  Every method
    is the function of the same name on `View()`. */
module RecipeSessions {
  import opened Common
  import opened RealFacts
  import M = RecipeModel
  import H = RecipeHistory
  import opened RecipeModel

  class RecipeSession {
    const recipe: Recipe
    var phase: Phase
    var reason: Reason
    var lastFeedbackSeq: nat
    var lastSampleNs: nat
    var phaseStartNs: nat
    var phaseDeadlineNs: nat
    var dwellStartNs: nat
    var lastEnergyNs: nat
    var contactSamples: nat
    var phaseStartQ: real
    var envelopeStartQ: real
    var envelopeEndQ: real
    var contactSum: real
    var firstStop: real
    var secondStop: real
    var candidateA: real
    var candidateB: real
    var energy: real
    var secondContact: bool
    /** The accepted steps, and where the phases changed hands among them. */
    ghost var trace: H.Trace
    ghost var marks: H.Marks

    /** The fields are true to the accepted steps, each of which passed validation. */
    ghost predicate Valid()
      reads this
    {
      H.Inv(recipe, View(), trace, marks) && H.AllVetted(recipe, trace)
    }

    ghost function Whole(): H.Session
      reads this
    {
      H.Session(View(), trace, marks)
    }

    function View(): State
      reads this
    {
      State(phase, reason, lastFeedbackSeq, lastSampleNs, phaseStartNs, phaseDeadlineNs, dwellStartNs, lastEnergyNs,
            contactSamples, phaseStartQ, envelopeStartQ, envelopeEndQ, contactSum, firstStop, secondStop, candidateA,
            candidateB, energy, secondContact)
    }

    constructor (recipe: Recipe)
      ensures View() == START && this.recipe == recipe && Valid() && trace == []
    {
      this.recipe := recipe;
      phase, reason := Precheck, NoReason;
      lastFeedbackSeq, lastSampleNs, phaseStartNs, phaseDeadlineNs := 0, 0, 0, 0;
      dwellStartNs, lastEnergyNs, contactSamples := 0, 0, 0;
      phaseStartQ, envelopeStartQ, envelopeEndQ, contactSum := 0.0, 0.0, 0.0, 0.0;
      firstStop, secondStop, candidateA, candidateB, energy, secondContact := 0.0, 0.0, 0.0, 0.0, 0.0, false;
      trace, marks := [], H.NO_MARKS;
    }

    method Fail(status: Status, why: Reason) returns (r: Status)
      modifies this
      ensures trace == old(trace) && marks == old(marks)
      ensures Result(View(), r) == M.Fail(old(View()), status, why)
    {
      phase, reason := Aborted, why;
      candidateA, candidateB := 0.0, 0.0;
      return status;
    }

    method ValidateInput(i: Input) returns (r: Status)
      modifies this
      ensures trace == old(trace) && marks == old(marks)
      ensures Result(View(), r) == M.ValidateInput(recipe, old(View()), i)
    {
      if i.sample.feedbackSeq == 0 || i.sample.feedbackSeq <= lastFeedbackSeq || i.sample.tNs <= lastSampleNs
         || i.sample.tNs > i.nowNs || i.nowNs - i.sample.tNs > recipe.maxSampleAgeNs {
        r := Fail(EStale, StaleReason);
        return;
      }
      lastFeedbackSeq, lastSampleNs := i.sample.feedbackSeq, i.sample.tNs;
      if i.sample.fault {
        r := Fail(EFault, InterlockReason);
      } else if TooHot(recipe, i) {
        r := Fail(ELimit, LimitReason);
      } else {
        var bound := ValidateBinding(i);
        if bound {
          r := OK;
        } else {
          r := Fail(EFault, UnqualifiedReason);
        }
      }
    }

    /** Checks the required posture joint by joint. */
    method ValidateBinding(i: Input) returns (bound: bool)
      ensures bound == Bound(recipe, i)
    {
      var expected := if recipe.simulationOnly then recipe.simulationRevision else recipe.qualificationRevision;
      if i.evidenceRevision != expected || i.fixtureRevision != recipe.fixtureRevision {
        return false;
      }
      if !recipe.armJoint {
        return true;
      }
      if i.postureMask != recipe.postureMask || |i.posture| != ARM_JOINTS {
        return false;
      }
      for joint := 0 to ARM_JOINTS
        invariant forall j :: 0 <= j < joint && j in recipe.postureMask ==>
                    Abs(i.posture[j] - recipe.posture[j]) <= recipe.postureTolerance
      {
        if joint in recipe.postureMask && Abs(i.posture[joint] - recipe.posture[joint]) > recipe.postureTolerance {
          return false;
        }
      }
      return true;
    }

    method UpdateEnergy(i: Input) returns (r: Status)
      modifies this
      ensures trace == old(trace) && marks == old(marks)
      ensures Result(View(), r) == M.UpdateEnergy(recipe, old(View()), i)
    {
      hide Times;
      if lastEnergyNs == 0 {
        lastEnergyNs := i.sample.tNs;
        return OK;
      }
      energy := energy + Work(i.sample, lastEnergyNs);
      lastEnergyNs := i.sample.tNs;
      if energy > recipe.maxContactEnergy {
        r := Fail(ELimit, LimitReason);
        return;
      }
      return OK;
    }

    method EnforceMotionLimits(i: Input) returns (r: Status)
      modifies this
      ensures trace == old(trace) && marks == old(marks)
      ensures Result(View(), r) == M.EnforceMotionLimits(recipe, old(View()), i)
    {
      hide Times, M.UpdateEnergy;
      if !i.estopClear || !i.deadman || !i.sample.enabled {
        r := Fail(EInterlock, InterlockReason);
      } else if Abs(i.sample.dq) > recipe.maxSpeed || Abs(i.sample.torque) > recipe.maxTorque || TooHot(recipe, i) {
        r := Fail(ELimit, LimitReason);
      } else {
        r := UpdateEnergy(i);
      }
    }

    /** A new motion phase starts here and now. */
    method EnterPhase(next: Phase, i: Input, allowanceNs: nat)
      modifies this`phase, this`phaseStartNs, this`phaseStartQ, this`phaseDeadlineNs
      ensures View() == old(View()).(phase := next, phaseStartNs := i.nowNs, phaseStartQ := i.sample.q,
                                     phaseDeadlineNs := SaturatingAdd(i.nowNs, allowanceNs))
    {
      phase, phaseStartNs, phaseStartQ := next, i.nowNs, i.sample.q;
      phaseDeadlineNs := SaturatingAdd(phaseStartNs, allowanceNs);
    }

    method CountSample(i: Input)
      modifies this`contactSamples, this`contactSum
      ensures View() == CountContact(old(View()), i)
    {
      contactSamples, contactSum := contactSamples + 1, contactSum + i.sample.q;
    }

    method StepPrecheck(i: Input) returns (r: Status)
      modifies this
      ensures trace == old(trace) && marks == old(marks)
      ensures Result(View(), r) == M.StepPrecheck(recipe, old(View()), i)
    {
      if !i.estopClear || i.sample.enabled || i.sample.q < recipe.startMin || i.sample.q > recipe.startMax
         || TooHot(recipe, i) {
        r := Fail(EInterlock, InterlockReason);
        return;
      }
      phase := Wait;
      return OK;
    }

    method StepWait(i: Input) returns (r: Status)
      modifies this
      ensures trace == old(trace) && marks == old(marks)
      ensures Result(View(), r) == M.StepWait(recipe, old(View()), i)
    {
      if !i.estopClear || i.sample.enabled {
        r := Fail(EInterlock, InterlockReason);
        return;
      }
      if !i.deadman || !i.operatorReady {
        return OK;
      }
      EnterPhase(Approach, i, recipe.maxApproachTimeNs);
      envelopeStartQ := phaseStartQ;
      envelopeEndQ := envelopeStartQ + recipe.approachDirection * recipe.maxApproachTravel;
      lastEnergyNs := i.sample.tNs;
      return OK;
    }

    method StepApproach(i: Input) returns (r: Status)
      modifies this
      ensures trace == old(trace) && marks == old(marks)
      ensures Result(View(), r) == M.StepApproach(recipe, old(View()), i)
    {
      hide Travel, Evidence;
      var travel := Travel(envelopeStartQ, i.sample.q, recipe.approachDirection);
      if travel < -DIRECTION_TOLERANCE || travel > recipe.maxApproachTravel {
        r := Fail(ELimit, LimitReason);
      } else if i.nowNs > phaseDeadlineNs {
        r := Fail(ELimit, TimeoutReason);
      } else {
        if Evidence(recipe, i.sample, travel) {
          phase, dwellStartNs, contactSamples, contactSum := ContactDwell, i.sample.tNs, 1, i.sample.q;
        }
        r := OK;
      }
    }

    method StepContactDwell(i: Input) returns (r: Status)
      modifies this
      ensures trace == old(trace) && marks == old(marks)
      ensures Result(View(), r) == M.StepContactDwell(recipe, old(View()), i)
    {
      hide Travel, Evidence, Mean;
      var travel := Travel(envelopeStartQ, i.sample.q, recipe.approachDirection);
      if i.nowNs > phaseDeadlineNs {
        r := Fail(ELimit, TimeoutReason);
        return;
      }
      if travel > recipe.maxApproachTravel || !Evidence(recipe, i.sample, travel) {
        r := Fail(EFault, ContactReason);
        return;
      }
      CountSample(i);
      if i.sample.tNs < dwellStartNs + recipe.contactDwellNs || contactSamples < recipe.minContactSamples {
        return OK;
      }
      firstStop := Mean(contactSum, contactSamples);
      EnterPhase(Retreat, i, recipe.maxRetreatTimeNs);
      return OK;
    }

    method StepRetreat(i: Input) returns (r: Status)
      modifies this
      ensures trace == old(trace) && marks == old(marks)
      ensures Result(View(), r) == M.StepRetreat(recipe, old(View()), i)
    {
      hide Travel;
      var travel := Travel(phaseStartQ, i.sample.q, -recipe.approachDirection);
      var global := Travel(envelopeStartQ, i.sample.q, recipe.approachDirection);
      if travel < -DIRECTION_TOLERANCE || travel > recipe.retreatDistance + recipe.repeatabilityTolerance
         || global < -DIRECTION_TOLERANCE || global > recipe.maxApproachTravel {
        r := Fail(ELimit, LimitReason);
        return;
      }
      if i.nowNs > phaseDeadlineNs {
        r := Fail(ELimit, TimeoutReason);
        return;
      }
      if travel >= recipe.retreatDistance && Abs(i.sample.dq) <= recipe.contactVelocity {
        EnterPhase(Reapproach, i, recipe.maxApproachTimeNs);
        lastEnergyNs, secondContact, contactSamples, contactSum := i.sample.tNs, false, 0, 0.0;
      }
      return OK;
    }

    method StepReapproach(i: Input) returns (r: Status)
      modifies this
      ensures trace == old(trace) && marks == old(marks)
      ensures Result(View(), r) == M.StepReapproach(recipe, old(View()), i)
    {
      hide Travel, Evidence, Mean;
      var travel := Travel(phaseStartQ, i.sample.q, recipe.approachDirection);
      var global := Travel(envelopeStartQ, i.sample.q, recipe.approachDirection);
      if travel < -DIRECTION_TOLERANCE || global < -DIRECTION_TOLERANCE || global > recipe.maxApproachTravel {
        r := Fail(ELimit, LimitReason);
        return;
      }
      if i.nowNs > phaseDeadlineNs {
        r := Fail(ELimit, TimeoutReason);
        return;
      }
      if secondContact {
        if !Evidence(recipe, i.sample, travel) {
          r := Fail(EFault, ContactReason);
          return;
        }
        CountSample(i);
        if i.sample.tNs < dwellStartNs + recipe.contactDwellNs || contactSamples < recipe.minContactSamples {
          return OK;
        }
        secondStop := Mean(contactSum, contactSamples);
        phase := Repeatability;
      } else if Evidence(recipe, i.sample, travel) {
        secondContact, dwellStartNs, contactSamples, contactSum := true, i.sample.tNs, 1, i.sample.q;
      }
      return OK;
    }

    method StepRepeatability(i: Input) returns (r: Status)
      modifies this
      ensures trace == old(trace) && marks == old(marks)
      ensures Result(View(), r) == M.StepRepeatability(recipe, old(View()), i)
    {
      if !i.estopClear || !i.deadman || i.sample.enabled {
        r := Fail(EInterlock, InterlockReason);
        return;
      }
      if Abs(secondStop - firstStop) > recipe.repeatabilityTolerance {
        r := Fail(ERepeatability, RepeatabilityReason);
        return;
      }
      candidateA := recipe.knownSign;
      candidateB := recipe.stopModel - candidateA * 0.5 * (firstStop + secondStop);
      phase := Candidate;
      return OK;
    }

    method StepReviewing(i: Input) returns (r: Status)
      requires phase == Candidate || phase == Review
      modifies this
      ensures trace == old(trace) && marks == old(marks)
      ensures Result(View(), r) ==
              if old(phase) == Candidate then M.StepCandidate(recipe, old(View()), i)
              else M.StepReview(recipe, old(View()), i)
    {
      if !i.estopClear || i.sample.enabled {
        if phase == Candidate {
          r := Fail(EInterlock, InterlockReason);
        } else {
          r := Fail(EState, RejectedReason);
        }
        return;
      }
      if i.review == Reject {
        r := Fail(EState, RejectedReason);
        return;
      }
      if i.review == Accept {
        phase := Review;
      }
      return OK;
    }

    method Dispatch(i: Input) returns (r: Status)
      modifies this
      ensures trace == old(trace) && marks == old(marks)
      ensures Result(View(), r) == M.Step(recipe, old(View()), i)
    {
      hide M.ValidateInput, M.StepPrecheck, M.StepWait, M.StepMotion, M.StepRepeatability, M.StepCandidate, M.StepReview;
      if phase == Aborted || phase == Committed {
        return EState;
      }
      ValidKeepsPhase(recipe, View(), i);
      r := ValidateInput(i);
      if r != OK {
        return;
      }
      if phase == Precheck {
        r := StepPrecheck(i);
      } else if phase == Wait {
        r := StepWait(i);
      } else if Motion(phase) {
        r := StepMotion(i);
      } else if phase == Repeatability {
        r := StepRepeatability(i);
      } else {
        r := StepReviewing(i);
      }
    }

    method StepMotion(i: Input) returns (r: Status)
      requires Motion(phase)
      modifies this
      ensures trace == old(trace) && marks == old(marks)
      ensures Result(View(), r) == M.StepMotion(recipe, old(View()), i)
    {
      hide M.EnforceMotionLimits, M.StepApproach, M.StepContactDwell, M.StepRetreat, M.StepReapproach;
      LimitsKeepPhase(recipe, View(), i);
      r := EnforceMotionLimits(i);
      if r != OK {
        return;
      }
      match phase
      case Approach => r := StepApproach(i);
      case ContactDwell => r := StepContactDwell(i);
      case Retreat => r := StepRetreat(i);
      case Reapproach => r := StepReapproach(i);
    }

    /** One step of the session; its trace grows by the step exactly if it is accepted. */
    method Step(i: Input) returns (r: Status)
      requires Valid()
      modifies this
      ensures Valid() && Result(View(), r) == M.Step(recipe, old(View()), i)
      ensures Whole() == H.Apply(recipe, old(Whole()), H.OpStep(i))
      ensures trace == if r == OK then old(trace) + [H.Entry(old(phase), i)] else old(trace)
    {
      hide H.Inv, H.AllVetted, M.Step, H.NextMarks;
      ghost var next := H.Apply(recipe, Whole(), H.OpStep(i));
      H.ApplyKeepsInv(recipe, Whole(), H.OpStep(i));
      H.ApplyKeepsVetted(recipe, Whole(), H.OpStep(i));
      r := Dispatch(i);
      trace, marks := next.t, next.m;
    }

    /** Hands out the mapping.  A mapping is handed out only after a full pass. */
    method Commit(replacementRevision: nat) returns (r: CommitResult)
      requires Valid()
      modifies this
      ensures Valid() && r == M.Commit(recipe, old(View()), replacementRevision)
      ensures Whole() == H.Apply(recipe, old(Whole()), H.OpCommit(replacementRevision))
      ensures r.Done? ==>
                H.AllVetted(recipe, trace) && H.Fresh(trace) && H.InOrder(trace, marks) && H.TwoDwells(recipe, trace, marks)
                && H.WithinBudget(recipe, trace, marks) && H.MapsBothStops(recipe, trace, marks, r.patch)
    {
      hide H.Inv, H.AllVetted, H.Fresh, H.InOrder, H.TwoDwells, H.WithinBudget, H.MapsBothStops;
      H.ApplyKeepsInv(recipe, Whole(), H.OpCommit(replacementRevision));
      H.GrantMeansFullPass(recipe, View(), trace, marks, replacementRevision);
      if phase != Review {
        return Rejected(EState);
      }
      if replacementRevision <= recipe.expectedRevision {
        return Rejected(EInval);
      }
      var evidence := if recipe.simulationOnly then recipe.simulationRevision else recipe.qualificationRevision;
      var patch := Patch(recipe.expectedRevision, replacementRevision, recipe.simulationOnly, evidence,
                         recipe.fixtureRevision, candidateA, candidateB);
      phase := Committed;
      return Done(View(), patch);
    }

    method Abort() returns (r: Status)
      requires Valid()
      modifies this
      ensures Valid() && Result(View(), r) == M.Abort(old(View()))
      ensures Whole() == H.Apply(recipe, old(Whole()), H.OpAbort)
    {
      hide H.Inv, H.AllVetted;
      H.ApplyKeepsInv(recipe, Whole(), H.OpAbort);
      if phase == Aborted || phase == Committed {
        return EState;
      }
      r := Fail(OK, CallerReason);
    }
  }

  lemma ValidKeepsPhase(r: Recipe, s: State, i: Input)
    ensures M.ValidateInput(r, s, i).status == OK ==> M.ValidateInput(r, s, i).s.phase == s.phase
  {
  }

  lemma LimitsKeepPhase(r: Recipe, s: State, i: Input)
    ensures M.EnforceMotionLimits(r, s, i).status == OK ==> M.EnforceMotionLimits(r, s, i).s.phase == s.phase
  {
  }
}
