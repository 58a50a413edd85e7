/** The calibration recipe on values: one function per phase, each either going on or
    aborting for good. */
module RecipeModel {
  import opened Common
  import opened RealFacts

  const DIRECTION_TOLERANCE: real := 0.000001
  const ARM_JOINTS: nat := 7

  datatype RecipeRecord = RecipeRecord(
    armJoint: bool, simulationOnly: bool, simulationRevision: nat, qualificationRevision: nat,
    fixtureRevision: nat, expectedRevision: nat,
    knownSign: real, stopModel: real, startMin: real, startMax: real, approachDirection: real,
    maxApproachTravel: real, minContactTravel: real, retreatDistance: real, repeatabilityTolerance: real,
    maxSpeed: real, maxTorque: real, minContactTorque: real, contactVelocity: real, maxTemperature: real,
    maxContactEnergy: real,
    contactDwellNs: nat, maxApproachTimeNs: nat, maxRetreatTimeNs: nat, maxSampleAgeNs: nat, minContactSamples: nat,
    postureMask: set<nat>, posture: seq<real>, postureTolerance: real)

  /** What the session's creator has checked of a recipe. */
  type Recipe = r: RecipeRecord
    | (r.knownSign == 1.0 || r.knownSign == -1.0) && r.repeatabilityTolerance > 0.0 && |r.posture| == ARM_JOINTS
      && r.minContactSamples >= 2 && 0.0 < r.minContactTravel < r.maxApproachTravel
    witness RecipeRecord(false, true, 0, 0, 0, 0, 1.0, 0.0, 0.0, 0.0, 1.0, 2.0, 1.0, 0.0, 1.0, 0.0, 0.0, 0.0, 0.0, 0.0,
                         0.0, 0, 0, 0, 0, 2, {}, [0.0, 0.0, 0.0, 0.0, 0.0, 0.0, 0.0], 0.0)

  datatype Sample = Sample(feedbackSeq: nat, tNs: nat, q: real, dq: real, torque: real, mosC: real, coilC: real,
                           enabled: bool, fault: bool)

  datatype Decision = Undecided | Accept | Reject

  datatype Input = Input(
    nowNs: nat, sample: Sample, estopClear: bool, deadman: bool, operatorReady: bool, review: Decision,
    evidenceRevision: nat, fixtureRevision: nat, postureMask: set<nat>, posture: seq<real>)

  datatype Phase = Precheck | Wait | Approach | ContactDwell | Retreat | Reapproach | Repeatability | Candidate
                 | Review | Committed | Aborted

  datatype Status = OK | EState | EStale | EFault | ELimit | EInterlock | ERepeatability | EInval

  datatype Reason = NoReason | StaleReason | InterlockReason | LimitReason | UnqualifiedReason | TimeoutReason
                  | ContactReason | RepeatabilityReason | RejectedReason | CallerReason

  datatype State = State(
    phase: Phase, reason: Reason,
    lastFeedbackSeq: nat, lastSampleNs: nat, phaseStartNs: nat, phaseDeadlineNs: nat, dwellStartNs: nat,
    lastEnergyNs: nat, contactSamples: nat,
    phaseStartQ: real, envelopeStartQ: real, envelopeEndQ: real, contactSum: real, firstStop: real, secondStop: real,
    candidateA: real, candidateB: real, energy: real, secondContact: bool)

  const START: State :=
    State(Precheck, NoReason, 0, 0, 0, 0, 0, 0, 0, 0.0, 0.0, 0.0, 0.0, 0.0, 0.0, 0.0, 0.0, 0.0, false)

  datatype Result = Result(s: State, status: Status)

  function Fail(s: State, status: Status, reason: Reason): Result {
    Result(s.(phase := Aborted, reason := reason, candidateA := 0.0, candidateB := 0.0), status)
  }

  function SaturatingAdd(a: nat, b: nat): (r: nat)
    ensures r <= a + b
  {
    if a + b > U64_MAXIMUM && a <= U64_MAXIMUM then U64_MAXIMUM else a + b
  }

  // ---------------------------------------------------------------------------
  // Checks.

  predicate Stale(r: Recipe, s: State, i: Input) {
    || i.sample.feedbackSeq == 0 || i.sample.feedbackSeq <= s.lastFeedbackSeq || i.sample.tNs <= s.lastSampleNs
    || i.sample.tNs > i.nowNs || i.nowNs - i.sample.tNs > r.maxSampleAgeNs
  }

  predicate TooHot(r: Recipe, i: Input) {
    i.sample.mosC > r.maxTemperature || i.sample.coilC > r.maxTemperature
  }

  predicate Bound(r: Recipe, i: Input) {
    && i.evidenceRevision == (if r.simulationOnly then r.simulationRevision else r.qualificationRevision)
    && i.fixtureRevision == r.fixtureRevision
    && (r.armJoint ==>
          && i.postureMask == r.postureMask && |i.posture| == ARM_JOINTS
          && forall j :: 0 <= j < ARM_JOINTS && j in r.postureMask ==>
               Abs(i.posture[j] - r.posture[j]) <= r.postureTolerance)
  }

  /** Freshness is noted before the other checks can fail. */
  function ValidateInput(r: Recipe, s: State, i: Input): Result {
    if Stale(r, s, i) then Fail(s, EStale, StaleReason)
    else
      var t := s.(lastFeedbackSeq := i.sample.feedbackSeq, lastSampleNs := i.sample.tNs);
      if i.sample.fault then Fail(t, EFault, InterlockReason)
      else if TooHot(r, i) then Fail(t, ELimit, LimitReason)
      else if !Bound(r, i) then Fail(t, EFault, UnqualifiedReason)
      else Result(t, OK)
  }

  /** Energy of one interval between samples. */
  function Work(sample: Sample, fromNs: nat): real {
    Times(Abs(sample.torque * sample.dq), (sample.tNs as real - fromNs as real) * 0.000000001)
  }

  function UpdateEnergy(r: Recipe, s: State, i: Input): Result {
    if s.lastEnergyNs == 0 then Result(s.(lastEnergyNs := i.sample.tNs), OK)
    else
      var t := s.(lastEnergyNs := i.sample.tNs, energy := s.energy + Work(i.sample, s.lastEnergyNs));
      if t.energy > r.maxContactEnergy then Fail(t, ELimit, LimitReason) else Result(t, OK)
  }

  function EnforceMotionLimits(r: Recipe, s: State, i: Input): Result {
    if !i.estopClear || !i.deadman || !i.sample.enabled then Fail(s, EInterlock, InterlockReason)
    else if Abs(i.sample.dq) > r.maxSpeed || Abs(i.sample.torque) > r.maxTorque || TooHot(r, i) then
      Fail(s, ELimit, LimitReason)
    else UpdateEnergy(r, s, i)
  }

  function Travel(from: real, to: real, direction: real): real {
    direction * (to - from)
  }

  predicate Evidence(r: Recipe, sample: Sample, travel: real) {
    && sample.enabled && travel >= r.minContactTravel && Abs(sample.dq) <= r.contactVelocity
    && Abs(sample.torque) >= r.minContactTorque
  }

  // ---------------------------------------------------------------------------
  // Phases.

  function StepPrecheck(r: Recipe, s: State, i: Input): Result {
    if !i.estopClear || i.sample.enabled || i.sample.q < r.startMin || i.sample.q > r.startMax || TooHot(r, i) then
      Fail(s, EInterlock, InterlockReason)
    else Result(s.(phase := Wait), OK)
  }

  function StepWait(r: Recipe, s: State, i: Input): Result {
    if !i.estopClear || i.sample.enabled then Fail(s, EInterlock, InterlockReason)
    else if !i.deadman || !i.operatorReady then Result(s, OK)
    else
      Result(s.(phase := Approach, phaseStartNs := i.nowNs, phaseStartQ := i.sample.q, envelopeStartQ := i.sample.q,
                envelopeEndQ := i.sample.q + r.approachDirection * r.maxApproachTravel,
                phaseDeadlineNs := SaturatingAdd(i.nowNs, r.maxApproachTimeNs), lastEnergyNs := i.sample.tNs), OK)
  }

  function StepApproach(r: Recipe, s: State, i: Input): Result {
    var travel := Travel(s.envelopeStartQ, i.sample.q, r.approachDirection);
    if travel < -DIRECTION_TOLERANCE || travel > r.maxApproachTravel then Fail(s, ELimit, LimitReason)
    else if i.nowNs > s.phaseDeadlineNs then Fail(s, ELimit, TimeoutReason)
    else if Evidence(r, i.sample, travel) then
      Result(s.(phase := ContactDwell, dwellStartNs := i.sample.tNs, contactSamples := 1, contactSum := i.sample.q), OK)
    else Result(s, OK)
  }

  predicate DwellDone(r: Recipe, s: State, i: Input) {
    i.sample.tNs >= s.dwellStartNs + r.contactDwellNs && s.contactSamples >= r.minContactSamples
  }

  function CountContact(s: State, i: Input): State {
    s.(contactSamples := s.contactSamples + 1, contactSum := s.contactSum + i.sample.q)
  }

  function Mean(sum: real, count: nat): real {
    if count == 0 then 0.0 else sum / count as real
  }

  function StepContactDwell(r: Recipe, s: State, i: Input): Result {
    var travel := Travel(s.envelopeStartQ, i.sample.q, r.approachDirection);
    if i.nowNs > s.phaseDeadlineNs then Fail(s, ELimit, TimeoutReason)
    else if travel > r.maxApproachTravel || !Evidence(r, i.sample, travel) then Fail(s, EFault, ContactReason)
    else
      var t := CountContact(s, i);
      if !DwellDone(r, t, i) then Result(t, OK)
      else
        Result(t.(firstStop := Mean(t.contactSum, t.contactSamples), phase := Retreat, phaseStartNs := i.nowNs,
                  phaseStartQ := i.sample.q, phaseDeadlineNs := SaturatingAdd(i.nowNs, r.maxRetreatTimeNs)), OK)
  }

  function StepRetreat(r: Recipe, s: State, i: Input): Result {
    var travel := Travel(s.phaseStartQ, i.sample.q, -r.approachDirection);
    var global := Travel(s.envelopeStartQ, i.sample.q, r.approachDirection);
    if travel < -DIRECTION_TOLERANCE || travel > r.retreatDistance + r.repeatabilityTolerance
       || global < -DIRECTION_TOLERANCE || global > r.maxApproachTravel then Fail(s, ELimit, LimitReason)
    else if i.nowNs > s.phaseDeadlineNs then Fail(s, ELimit, TimeoutReason)
    else if travel >= r.retreatDistance && Abs(i.sample.dq) <= r.contactVelocity then
      Result(s.(phase := Reapproach, phaseStartNs := i.nowNs, phaseStartQ := i.sample.q,
                phaseDeadlineNs := SaturatingAdd(i.nowNs, r.maxApproachTimeNs), lastEnergyNs := i.sample.tNs,
                secondContact := false, contactSamples := 0, contactSum := 0.0), OK)
    else Result(s, OK)
  }

  function StepReapproach(r: Recipe, s: State, i: Input): Result {
    var travel := Travel(s.phaseStartQ, i.sample.q, r.approachDirection);
    var global := Travel(s.envelopeStartQ, i.sample.q, r.approachDirection);
    if travel < -DIRECTION_TOLERANCE || global < -DIRECTION_TOLERANCE || global > r.maxApproachTravel then
      Fail(s, ELimit, LimitReason)
    else if i.nowNs > s.phaseDeadlineNs then Fail(s, ELimit, TimeoutReason)
    else if s.secondContact then
      if !Evidence(r, i.sample, travel) then Fail(s, EFault, ContactReason)
      else
        var t := CountContact(s, i);
        if !DwellDone(r, t, i) then Result(t, OK)
        else Result(t.(secondStop := Mean(t.contactSum, t.contactSamples), phase := Repeatability), OK)
    else if Evidence(r, i.sample, travel) then
      Result(s.(secondContact := true, dwellStartNs := i.sample.tNs, contactSamples := 1, contactSum := i.sample.q), OK)
    else Result(s, OK)
  }

  function StepRepeatability(r: Recipe, s: State, i: Input): Result {
    if !i.estopClear || !i.deadman || i.sample.enabled then Fail(s, EInterlock, InterlockReason)
    else if Abs(s.secondStop - s.firstStop) > r.repeatabilityTolerance then Fail(s, ERepeatability, RepeatabilityReason)
    else
      Result(s.(phase := Candidate, candidateA := r.knownSign,
                candidateB := r.stopModel - r.knownSign * 0.5 * (s.firstStop + s.secondStop)), OK)
  }

  function StepCandidate(r: Recipe, s: State, i: Input): Result {
    if !i.estopClear || i.sample.enabled then Fail(s, EInterlock, InterlockReason)
    else if i.review == Reject then Fail(s, EState, RejectedReason)
    else if i.review == Accept then Result(s.(phase := Review), OK)
    else Result(s, OK)
  }

  function StepReview(r: Recipe, s: State, i: Input): Result {
    if !i.estopClear || i.sample.enabled || i.review == Reject then Fail(s, EState, RejectedReason) else Result(s, OK)
  }

  predicate Motion(p: Phase) {
    p == Approach || p == ContactDwell || p == Retreat || p == Reapproach
  }

  function StepMotion(r: Recipe, s: State, i: Input): Result
    requires Motion(s.phase)
  {
    var limited := EnforceMotionLimits(r, s, i);
    if limited.status != OK then limited
    else
      match s.phase
      case Approach => StepApproach(r, limited.s, i)
      case ContactDwell => StepContactDwell(r, limited.s, i)
      case Retreat => StepRetreat(r, limited.s, i)
      case Reapproach => StepReapproach(r, limited.s, i)
  }

  function Step(r: Recipe, s: State, i: Input): Result {
    if s.phase == Aborted || s.phase == Committed then Result(s, EState)
    else
      var valid := ValidateInput(r, s, i);
      if valid.status != OK then valid
      else if Motion(s.phase) then StepMotion(r, valid.s, i)
      else
        match s.phase
        case Precheck => StepPrecheck(r, valid.s, i)
        case Wait => StepWait(r, valid.s, i)
        case Repeatability => StepRepeatability(r, valid.s, i)
        case Candidate => StepCandidate(r, valid.s, i)
        case Review => StepReview(r, valid.s, i)
  }

  /** The mapping a commit hands out. */
  datatype Patch = Patch(expectedRevision: nat, replacementRevision: nat, simulationOnly: bool, evidenceRevision: nat,
                         fixtureRevision: nat, a: real, b: real)

  datatype CommitResult = Rejected(status: Status) | Done(s: State, patch: Patch)

  function Commit(r: Recipe, s: State, replacementRevision: nat): CommitResult {
    if s.phase != Review then Rejected(EState)
    else if replacementRevision <= r.expectedRevision then Rejected(EInval)
    else
      Done(s.(phase := Committed),
           Patch(r.expectedRevision, replacementRevision, r.simulationOnly,
                 if r.simulationOnly then r.simulationRevision else r.qualificationRevision,
                 r.fixtureRevision, s.candidateA, s.candidateB))
  }

  function Abort(s: State): Result {
    if s.phase == Aborted || s.phase == Committed then Result(s, EState) else Fail(s, OK, CallerReason)
  }
}
