/** What a committed recipe proves about the whole session behind it. */
module RecipeHistory {
  import opened Common
  import opened RealFacts
  import opened RecipeModel

  /** An accepted step: the phase it was taken in and what it was given. */
  datatype Entry = Entry(phase: Phase, input: Input)

  type Trace = seq<Entry>

  function Sampled(t: Trace, i: nat): Sample
    requires i < |t|
  {
    t[i].input.sample
  }

  /** Where the phases change hands. */
  datatype Marks = Marks(ready: nat, contact: nat, leave: nat, away: nat, again: nat, done: nat, accept: nat)

  const NO_MARKS: Marks := Marks(0, 0, 0, 0, 0, 0, 0)

  ghost predicate Segment(t: Trace, from: nat, to: nat, phase: Phase)
    requires to <= |t|
  {
    forall i :: from <= i < to ==> t[i].phase == phase
  }

  /** Each accepted sample is newer than the one before. */
  ghost predicate Fresh(t: Trace) {
    forall i, j :: 0 <= i < j < |t| ==>
      Sampled(t, i).tNs < Sampled(t, j).tNs && Sampled(t, i).feedbackSeq < Sampled(t, j).feedbackSeq
  }

  // ---------------------------------------------------------------------------
  // The pass, piece by piece.  Every piece names fixed entries, so it stays true as the
  // trace grows.

  ghost predicate Readied(t: Trace, m: Marks) {
    && 0 < m.ready < |t| && t[0].phase == Precheck && Segment(t, 1, m.ready + 1, Wait)
    && t[m.ready].input.deadman && t[m.ready].input.operatorReady && t[m.ready].input.estopClear
  }

  /** Contact evidence on every sample of a stretch, travel measured from `q`. */
  ghost predicate Dwelling(r: Recipe, t: Trace, from: nat, to: nat, q: real)
    requires to <= |t|
  {
    forall i :: from <= i < to ==> Evidence(r, Sampled(t, i), Travel(q, Sampled(t, i).q, r.approachDirection))
  }

  /** A full dwell: evidence throughout, enough samples and enough time. */
  ghost predicate FullDwell(r: Recipe, t: Trace, from: nat, last: nat, q: real) {
    && from < last < |t| && Dwelling(r, t, from, last + 1, q)
    && last + 1 - from >= r.minContactSamples
    && Sampled(t, last).tNs >= Sampled(t, from).tNs + r.contactDwellNs
  }

  ghost predicate FirstStop(r: Recipe, t: Trace, m: Marks) {
    && Readied(t, m) && m.ready < m.contact < m.leave < |t|
    && Segment(t, m.ready + 1, m.contact + 1, Approach) && Segment(t, m.contact + 1, m.leave + 1, ContactDwell)
    && FullDwell(r, t, m.contact, m.leave, Sampled(t, m.ready).q)
  }

  /** Back from the stop by the retreat distance, no more than the tolerance further, and slow. */
  predicate RetreatDone(r: Recipe, stop: real, sample: Sample) {
    && r.retreatDistance <= Times(r.approachDirection, stop - sample.q) <= r.retreatDistance + r.repeatabilityTolerance
    && -r.contactVelocity <= sample.dq <= r.contactVelocity
  }

  ghost predicate BackedOff(r: Recipe, t: Trace, m: Marks) {
    && FirstStop(r, t, m) && m.leave < m.away < |t| && Segment(t, m.leave + 1, m.away + 1, Retreat)
    && RetreatDone(r, Sampled(t, m.leave).q, Sampled(t, m.away))
  }

  ghost predicate SecondStop(r: Recipe, t: Trace, m: Marks) {
    && BackedOff(r, t, m) && m.away < m.again < m.done < |t| && Segment(t, m.away + 1, m.done + 1, Reapproach)
    && FullDwell(r, t, m.again, m.done, Sampled(t, m.away).q)
  }

  /** Sum of the positions from entry `from` on. */
  function SumQ(t: Trace, from: nat): real {
    if |t| <= from then 0.0 else SumQ(t[..|t| - 1], from) + Sampled(t, |t| - 1).q
  }

  /** Mean position over entries `from` to `last`. */
  function MeanQ(t: Trace, from: nat, last: nat): real
    requires from <= last < |t|
  {
    SumQ(t[..last + 1], from) / (last + 1 - from) as real
  }

  lemma MeanIsQuotient(sum: real, count: nat)
    requires count > 0
    ensures Mean(sum, count) == sum / count as real
  {
  }

  /** Mechanical power over the time since the sample before. */
  function Joules(sample: Sample, fromNs: nat): real {
    Times(Abs(sample.torque * sample.dq), (sample.tNs as real - fromNs as real) * 0.000000001)
  }

  /** Contact energy of the entries after `ready`. */
  function EnergyJ(t: Trace, ready: nat): real {
    if |t| <= ready + 1 then 0.0
    else
      EnergyJ(t[..|t| - 1], ready) + Joules(Sampled(t, |t| - 1), Sampled(t, |t| - 2).tNs)
  }

  /** The latest moment a motion-phase step may be accepted at. */
  function LatestNs(r: Recipe, t: Trace, m: Marks): nat
    requires m.ready < |t|
  {
    t[m.ready].input.nowNs + 2 * r.maxApproachTimeNs + r.maxRetreatTimeNs
  }

  /** The interlocks held and the drive was within its limits. */
  predicate Guarded(r: Recipe, i: Input) {
    && i.estopClear && i.deadman && i.sample.enabled
    && Abs(i.sample.dq) <= r.maxSpeed && Abs(i.sample.torque) <= r.maxTorque && !TooHot(r, i)
  }

  /** The joint is no further than the allowed travel from where the approach began. */
  predicate InEnvelope(r: Recipe, start: real, q: real) {
    -DIRECTION_TOLERANCE <= Travel(start, q, r.approachDirection) <= r.maxApproachTravel
  }

  /** Every motion step so far was guarded, inside the envelope, and taken in time. */
  ghost predicate Supervised(r: Recipe, t: Trace, m: Marks, to: nat)
    requires m.ready < |t| && to <= |t|
  {
    forall i :: m.ready < i < to ==>
      t[i].input.nowNs <= LatestNs(r, t, m) && Guarded(r, t[i].input)
      && InEnvelope(r, Sampled(t, m.ready).q, Sampled(t, i).q)
  }

  // ---------------------------------------------------------------------------
  // What the session's fields say about its trace.

  /** Deadline of a motion phase, counted from the ready signal. */
  function BudgetNs(r: Recipe, phase: Phase): nat {
    if phase == Approach || phase == ContactDwell then r.maxApproachTimeNs
    else if phase == Retreat then r.maxApproachTimeNs + r.maxRetreatTimeNs
    else 2 * r.maxApproachTimeNs + r.maxRetreatTimeNs
  }

  ghost predicate Moving(r: Recipe, s: State, t: Trace, m: Marks)
    requires Readied(t, m)
  {
    && s.envelopeStartQ == Sampled(t, m.ready).q
    && s.phaseDeadlineNs <= t[m.ready].input.nowNs + BudgetNs(r, s.phase)
    && Supervised(r, t, m, |t|)
    && s.lastEnergyNs == s.lastSampleNs
    && s.energy == EnergyJ(t, m.ready)
    && (|t| > m.ready + 1 ==> s.energy <= r.maxContactEnergy)
  }

  /** The running contact count covers the entries from `from` on. */
  ghost predicate Counting(r: Recipe, s: State, t: Trace, from: nat, q: real) {
    && from < |t| && Dwelling(r, t, from, |t|, q)
    && s.contactSamples == |t| - from && s.contactSum == SumQ(t, from) && s.dwellStartNs == Sampled(t, from).tNs
  }

  ghost predicate FirstKnown(r: Recipe, s: State, t: Trace, m: Marks) {
    FirstStop(r, t, m) && s.firstStop == MeanQ(t, m.contact, m.leave)
  }

  /** Both stops measured, all motion over. */
  ghost predicate BothKnown(r: Recipe, s: State, t: Trace, m: Marks) {
    && Fresh(t) && SecondStop(r, t, m) && FirstKnown(r, s, t, m)
    && s.secondStop == MeanQ(t, m.again, m.done)
    && Supervised(r, t, m, m.done + 1)
    && EnergyJ(t[..m.done + 1], m.ready) <= r.maxContactEnergy
  }

  /** The candidate maps both stops onto the model stop to within half the tolerance. */
  predicate Fits(r: Recipe, s: State) {
    && s.candidateA == r.knownSign
    && Abs(Times(s.candidateA, s.firstStop) + s.candidateB - r.stopModel) <= r.repeatabilityTolerance / 2.0
    && Abs(Times(s.candidateA, s.secondStop) + s.candidateB - r.stopModel) <= r.repeatabilityTolerance / 2.0
  }

  ghost predicate InPhase(r: Recipe, s: State, t: Trace, m: Marks) {
    match s.phase
    case Precheck => t == []
    case Wait => |t| > 0 && t[0].phase == Precheck && Segment(t, 1, |t|, Wait) && s.energy == 0.0
    case Approach => Readied(t, m) && Moving(r, s, t, m) && Segment(t, m.ready + 1, |t|, Approach)
    case ContactDwell =>
      && Readied(t, m) && Moving(r, s, t, m) && m.ready < m.contact < |t|
      && Segment(t, m.ready + 1, m.contact + 1, Approach) && Segment(t, m.contact + 1, |t|, ContactDwell)
      && Counting(r, s, t, m.contact, Sampled(t, m.ready).q)
    case Retreat =>
      && FirstKnown(r, s, t, m) && Moving(r, s, t, m) && Segment(t, m.leave + 1, |t|, Retreat)
      && s.phaseStartQ == Sampled(t, m.leave).q
    case Reapproach =>
      && FirstKnown(r, s, t, m) && Moving(r, s, t, m) && BackedOff(r, t, m) && Segment(t, m.away + 1, |t|, Reapproach)
      && s.phaseStartQ == Sampled(t, m.away).q
      && (s.secondContact ==> m.away < m.again && Counting(r, s, t, m.again, Sampled(t, m.away).q))
    case Repeatability => BothKnown(r, s, t, m) && |t| == m.done + 1
    case Candidate =>
      && BothKnown(r, s, t, m) && Fits(r, s) && |t| > m.done + 1
      && t[m.done + 1].phase == Repeatability && Segment(t, m.done + 2, |t|, Candidate)
    case Review =>
      && BothKnown(r, s, t, m) && Fits(r, s) && m.done + 1 < m.accept < |t|
      && t[m.done + 1].phase == Repeatability && Segment(t, m.done + 2, m.accept + 1, Candidate)
      && t[m.accept].input.review == Accept && Segment(t, m.accept + 1, |t|, Review)
    case Committed => true
    case Aborted => true
  }

  predicate Live(s: State) {
    s.phase != Aborted && s.phase != Committed
  }

  ghost predicate Inv(r: Recipe, s: State, t: Trace, m: Marks) {
    && Fresh(t)
    && (Live(s) && t == [] ==> s.lastSampleNs == 0 && s.lastFeedbackSeq == 0 && s.energy == 0.0)
    && (Live(s) && t != [] ==>
          s.lastSampleNs == Sampled(t, |t| - 1).tNs && s.lastFeedbackSeq == Sampled(t, |t| - 1).feedbackSeq)
    && InPhase(r, s, t, m)
  }

  /** Marks after one more accepted step, which moved the session from `from` to `to`. */
  function NextMarks(m: Marks, from: State, to: State, n: nat): Marks {
    match from.phase
    case Wait => if to.phase == Approach then m.(ready := n) else m
    case Approach => if to.phase == ContactDwell then m.(contact := n) else m
    case ContactDwell => if to.phase == Retreat then m.(leave := n) else m
    case Retreat => if to.phase == Reapproach then m.(away := n) else m
    case Reapproach =>
      if to.phase == Repeatability then m.(done := n)
      else if !from.secondContact && to.secondContact then m.(again := n)
      else m
    case Candidate => if to.phase == Review then m.(accept := n) else m
    case _ => m
  }

  lemma FreshAppend(t: Trace, e: Entry)
    requires Fresh(t)
    requires t != [] ==> Sampled(t, |t| - 1).tNs < e.input.sample.tNs
                         && Sampled(t, |t| - 1).feedbackSeq < e.input.sample.feedbackSeq
    ensures Fresh(t + [e])
  {
    var u := t + [e];
    forall i, j | 0 <= i < j < |u|
      ensures Sampled(u, i).tNs < Sampled(u, j).tNs && Sampled(u, i).feedbackSeq < Sampled(u, j).feedbackSeq
    {
      assert Sampled(u, i) == Sampled(t, i);
      if j < |t| {
        assert Sampled(u, j) == Sampled(t, j);
      } else if i < |t| - 1 {
        assert Sampled(t, i).tNs < Sampled(t, |t| - 1).tNs;
      }
    }
  }

  lemma SumAppend(t: Trace, e: Entry, from: nat)
    ensures SumQ(t + [e], from) == if from <= |t| then SumQ(t, from) + e.input.sample.q else 0.0
  {
    assert (t + [e])[..|t|] == t;
  }

  lemma EnergyAppend(t: Trace, e: Entry, ready: nat)
    requires ready < |t|
    ensures EnergyJ(t + [e], ready) == EnergyJ(t, ready) + Work(e.input.sample, Sampled(t, |t| - 1).tNs)
  {
    assert (t + [e])[..|t|] == t;
  }

  lemma DwellStays(r: Recipe, t: Trace, from: nat, last: nat, q: real, e: Entry)
    requires FullDwell(r, t, from, last, q)
    ensures FullDwell(r, t + [e], from, last, q) && MeanQ(t + [e], from, last) == MeanQ(t, from, last)
  {
    hide Evidence, Mean, SumQ;
    assert forall i :: 0 <= i < |t| ==> Sampled(t + [e], i) == Sampled(t, i);
    assert (t + [e])[..last + 1] == t[..last + 1];
  }

  lemma ReadiedStays(t: Trace, m: Marks, e: Entry)
    requires Readied(t, m)
    ensures Readied(t + [e], m)
  {
  }

  lemma FirstStopStays(r: Recipe, t: Trace, m: Marks, e: Entry)
    requires FirstStop(r, t, m)
    ensures FirstStop(r, t + [e], m) && MeanQ(t + [e], m.contact, m.leave) == MeanQ(t, m.contact, m.leave)
  {
    hide FullDwell, MeanQ, Readied;
    ReadiedStays(t, m, e);
    DwellStays(r, t, m.contact, m.leave, Sampled(t, m.ready).q, e);
    assert Sampled(t + [e], m.ready) == Sampled(t, m.ready);
  }

  lemma BackedOffStays(r: Recipe, t: Trace, m: Marks, e: Entry)
    requires BackedOff(r, t, m)
    ensures BackedOff(r, t + [e], m)
  {
    hide FirstStop;
    FirstStopStays(r, t, m, e);
  }

  lemma SecondStopStays(r: Recipe, t: Trace, m: Marks, e: Entry)
    requires SecondStop(r, t, m)
    ensures SecondStop(r, t + [e], m) && MeanQ(t + [e], m.again, m.done) == MeanQ(t, m.again, m.done)
  {
    hide FullDwell, MeanQ, BackedOff;
    BackedOffStays(r, t, m, e);
    DwellStays(r, t, m.again, m.done, Sampled(t, m.away).q, e);
    assert Sampled(t + [e], m.away) == Sampled(t, m.away);
  }

  /** Finished pieces stay true. */
  lemma PiecesStay(r: Recipe, t: Trace, m: Marks, e: Entry)
    ensures Readied(t, m) ==> Readied(t + [e], m)
    ensures FirstStop(r, t, m) ==> FirstStop(r, t + [e], m) && MeanQ(t + [e], m.contact, m.leave) == MeanQ(t, m.contact, m.leave)
    ensures BackedOff(r, t, m) ==> BackedOff(r, t + [e], m)
    ensures SecondStop(r, t, m) ==> SecondStop(r, t + [e], m) && MeanQ(t + [e], m.again, m.done) == MeanQ(t, m.again, m.done)
  {
    hide Readied, FirstStop, BackedOff, SecondStop, MeanQ;
    if Readied(t, m) {
      ReadiedStays(t, m, e);
    }
    if FirstStop(r, t, m) {
      FirstStopStays(r, t, m, e);
    }
    if BackedOff(r, t, m) {
      BackedOffStays(r, t, m, e);
    }
    if SecondStop(r, t, m) {
      SecondStopStays(r, t, m, e);
    }
  }

  // ---------------------------------------------------------------------------
  // Every accepted step keeps the invariant.

  /** What validation adds: the step is fresh, and only the freshness marks change. */
  lemma ValidatedStep(r: Recipe, s: State, i: Input)
    requires ValidateInput(r, s, i).status == OK
    ensures !Stale(r, s, i)
    ensures ValidateInput(r, s, i).s == s.(lastFeedbackSeq := i.sample.feedbackSeq, lastSampleNs := i.sample.tNs)
  {
    hide Bound;
  }

  lemma QuietPhases(r: Recipe, s: State, t: Trace, m: Marks, i: Input)
    requires Inv(r, s, t, m) && (s.phase == Precheck || s.phase == Wait) && Step(r, s, i).status == OK
    ensures var u := t + [Entry(s.phase, i)];
            Inv(r, Step(r, s, i).s, u, NextMarks(m, s, Step(r, s, i).s, |t|))
  {
    hide Bound;
    ValidatedStep(r, s, i);
    FreshAppend(t, Entry(s.phase, i));
  }

  /** A motion step within its limits: energy counted, deadline and start kept. */
  lemma MotionLimits(r: Recipe, s: State, t: Trace, m: Marks, i: Input)
    requires Readied(t, m) && Moving(r, s, t, m) && Motion(s.phase)
    requires s.lastSampleNs == Sampled(t, |t| - 1).tNs && s.lastSampleNs > 0
    requires EnforceMotionLimits(r, s.(lastFeedbackSeq := i.sample.feedbackSeq, lastSampleNs := i.sample.tNs), i).status == OK
    requires i.nowNs <= s.phaseDeadlineNs && InEnvelope(r, s.envelopeStartQ, i.sample.q)
    ensures var x := EnforceMotionLimits(r, s.(lastFeedbackSeq := i.sample.feedbackSeq, lastSampleNs := i.sample.tNs), i).s;
            var u := t + [Entry(s.phase, i)];
            && x == s.(lastFeedbackSeq := i.sample.feedbackSeq, lastSampleNs := i.sample.tNs,
                       lastEnergyNs := i.sample.tNs, energy := x.energy)
            && Readied(u, m) && Moving(r, x, u, m)
  {
    hide Work, TooHot, EnergyJ, InEnvelope;
    var e := Entry(s.phase, i);
    PiecesStay(r, t, m, e);
    EnergyAppend(t, e, m.ready);
  }

  /** The state a motion phase works on once validation and limits have passed. */
  function Limited(r: Recipe, s: State, i: Input): State {
    EnforceMotionLimits(r, s.(lastFeedbackSeq := i.sample.feedbackSeq, lastSampleNs := i.sample.tNs), i).s
  }

  function PhaseStep(r: Recipe, x: State, i: Input): Result {
    match x.phase
    case Approach => StepApproach(r, x, i)
    case ContactDwell => StepContactDwell(r, x, i)
    case Retreat => StepRetreat(r, x, i)
    case Reapproach => StepReapproach(r, x, i)
    case _ => Result(x, EState)
  }

  /** An accepted motion step, taken apart. */
  lemma MotionStep(r: Recipe, s: State, t: Trace, m: Marks, i: Input)
    requires Inv(r, s, t, m) && Motion(s.phase) && Step(r, s, i).status == OK
    ensures var x := Limited(r, s, i);
            var u := t + [Entry(s.phase, i)];
            && Step(r, s, i) == PhaseStep(r, x, i)
            && x == s.(lastFeedbackSeq := i.sample.feedbackSeq, lastSampleNs := i.sample.tNs,
                       lastEnergyNs := i.sample.tNs, energy := x.energy)
            && Fresh(u) && Readied(u, m) && Moving(r, x, u, m)
  {
    hide Bound, TooHot, Work, EnergyJ, Fresh, Dwelling, Evidence, InEnvelope;
    ValidatedStep(r, s, i);
    FreshAppend(t, Entry(s.phase, i));
    var v := s.(lastFeedbackSeq := i.sample.feedbackSeq, lastSampleNs := i.sample.tNs);
    LimitsKeepDeadline(r, v, i);
    assert Step(r, s, i) == PhaseStep(r, Limited(r, s, i), i);
    DeadlineKept(r, Limited(r, s, i), i);
    EnvelopeKept(r, Limited(r, s, i), i);
    SamplesArePositive(r, s, t, m);
    MotionLimits(r, s, t, m, i);
  }

  lemma SamplesArePositive(r: Recipe, s: State, t: Trace, m: Marks)
    requires Inv(r, s, t, m) && Live(s) && |t| > 1
    ensures s.lastSampleNs > 0
  {
    assert Sampled(t, 0).tNs < Sampled(t, |t| - 1).tNs;
  }

  lemma LimitsKeepDeadline(r: Recipe, v: State, i: Input)
    ensures EnforceMotionLimits(r, v, i).status == OK ==>
              EnforceMotionLimits(r, v, i).s.phaseDeadlineNs == v.phaseDeadlineNs
              && EnforceMotionLimits(r, v, i).s.phase == v.phase
              && EnforceMotionLimits(r, v, i).s.envelopeStartQ == v.envelopeStartQ
  {
    hide Work, TooHot;
  }

  lemma DeadlineKept(r: Recipe, x: State, i: Input)
    requires PhaseStep(r, x, i).status == OK
    ensures i.nowNs <= x.phaseDeadlineNs
  {
    hide Evidence, DwellDone, Mean;
  }

  /** Whatever phase it is accepted in, a motion sample lies in the travel envelope. */
  lemma EnvelopeKept(r: Recipe, x: State, i: Input)
    requires PhaseStep(r, x, i).status == OK
    ensures InEnvelope(r, x.envelopeStartQ, i.sample.q)
  {
    hide DwellDone, Mean, Travel;
  }

  lemma ApproachPhase(r: Recipe, s: State, t: Trace, m: Marks, i: Input)
    requires Inv(r, s, t, m) && s.phase == Approach && Step(r, s, i).status == OK
    ensures Inv(r, Step(r, s, i).s, t + [Entry(s.phase, i)], NextMarks(m, s, Step(r, s, i).s, |t|))
  {
    hide Step, Limited, EnergyJ, Fresh, Evidence, BothKnown, Fits;
    MotionStep(r, s, t, m, i);
    var x, e := Limited(r, s, i), Entry(s.phase, i);
    SumAppend(t, e, |t|);
    assert SumQ(t, |t|) == 0.0;
    assert Sampled(t + [e], m.ready) == Sampled(t, m.ready);
    assert Sampled(t + [e], |t|) == i.sample;
  }

  /** One more sample with evidence. */
  lemma CountingAppend(r: Recipe, s: State, t: Trace, from: nat, q: real, e: Entry)
    requires Counting(r, s, t, from, q)
    requires Evidence(r, e.input.sample, Travel(q, e.input.sample.q, r.approachDirection))
    ensures Counting(r, CountContact(s, e.input), t + [e], from, q)
  {
    hide Evidence;
    SumAppend(t, e, from);
    var u := t + [e];
    assert forall i :: 0 <= i < |t| ==> Sampled(u, i) == Sampled(t, i);
    assert Sampled(u, |t|) == e.input.sample;
  }

  /** A finished count is a full dwell with that mean. */
  lemma CountingDone(r: Recipe, s: State, u: Trace, from: nat, q: real)
    requires Counting(r, s, u, from, q) && |u| > 0 && s.contactSamples >= r.minContactSamples
    requires Sampled(u, |u| - 1).tNs >= s.dwellStartNs + r.contactDwellNs
    ensures FullDwell(r, u, from, |u| - 1, q)
    ensures MeanQ(u, from, |u| - 1) == Mean(s.contactSum, s.contactSamples)
  {
    hide Evidence, Mean;
    MeanIsQuotient(s.contactSum, s.contactSamples);
    assert u[..|u|] == u;
  }

  /** A step that only changes phase keeps the motion record. */
  lemma MovingKept(r: Recipe, x: State, y: State, u: Trace, m: Marks, n: Marks)
    requires Readied(u, m) && Moving(r, x, u, m) && n.ready == m.ready
    requires y.envelopeStartQ == x.envelopeStartQ && y.energy == x.energy && y.lastEnergyNs == x.lastEnergyNs
    requires y.lastSampleNs == x.lastSampleNs
    requires y.phaseDeadlineNs <= u[m.ready].input.nowNs + BudgetNs(r, y.phase)
    ensures Readied(u, n) && Moving(r, y, u, n)
  {
    hide EnergyJ;
  }

  lemma FirstStopKnown(r: Recipe, y: State, u: Trace, m: Marks, q: real)
    requires Readied(u, m) && m.ready < m.contact && q == Sampled(u, m.ready).q
    requires FullDwell(r, u, m.contact, |u| - 1, q) && y.firstStop == MeanQ(u, m.contact, |u| - 1)
    requires Segment(u, m.ready + 1, m.contact + 1, Approach) && Segment(u, m.contact + 1, |u|, ContactDwell)
    ensures FirstKnown(r, y, u, m.(leave := |u| - 1))
  {
    hide Evidence, MeanQ;
    var n := m.(leave := |u| - 1);
    assert n.contact == m.contact && n.ready == m.ready && m.contact < n.leave;
  }

  lemma ContactDwellStep(r: Recipe, s: State, t: Trace, m: Marks, i: Input)
    requires Inv(r, s, t, m) && s.phase == ContactDwell && Step(r, s, i).status == OK
    ensures var x, u := Limited(r, s, i), t + [Entry(s.phase, i)];
            && Step(r, s, i) == StepContactDwell(r, x, i) && Fresh(u) && x.phase == ContactDwell
            && m.ready < m.contact < |t| && Readied(u, m) && Moving(r, x, u, m)
            && x.lastSampleNs == i.sample.tNs && x.lastFeedbackSeq == i.sample.feedbackSeq
            && Segment(u, m.ready + 1, m.contact + 1, Approach) && Segment(u, m.contact + 1, |u|, ContactDwell)
            && Counting(r, CountContact(x, i), u, m.contact, Sampled(u, m.ready).q)
  {
    MotionStep(r, s, t, m, i);
    var x, e := Limited(r, s, i), Entry(s.phase, i);
    var u := t + [e];
    assert Sampled(u, m.ready) == Sampled(t, m.ready);
    hide Step, Limited, EnergyJ, Fresh, Evidence, Mean, SumQ, Supervised, Moving, Readied;
    CountingAppend(r, x, t, m.contact, Sampled(t, m.ready).q, e);
    hide Counting, Dwelling;
  }

  lemma ContactDwellPhase(r: Recipe, s: State, t: Trace, m: Marks, i: Input)
    requires Inv(r, s, t, m) && s.phase == ContactDwell && Step(r, s, i).status == OK
    ensures Inv(r, Step(r, s, i).s, t + [Entry(s.phase, i)], NextMarks(m, s, Step(r, s, i).s, |t|))
  {
    hide Step, Limited, EnergyJ, Fresh, Evidence, Mean, MeanQ, SumQ, FullDwell, Supervised, Readied, Counting, FirstKnown, BothKnown, Fits;
    ContactDwellStep(r, s, t, m, i);
    var x := Limited(r, s, i);
    var u, y := t + [Entry(s.phase, i)], Step(r, s, i).s;
    var q := Sampled(u, m.ready).q;
    assert Sampled(u, |t|) == i.sample;
    MovingKept(r, x, y, u, m, NextMarks(m, s, y, |t|));
    if DwellDone(r, CountContact(x, i), i) {
      DwellStartKept(r, CountContact(x, i), u, m.contact, q);
      CountingDone(r, CountContact(x, i), u, m.contact, q);
      FirstStopKnown(r, y, u, m, q);
    }
  }

  lemma DwellStartKept(r: Recipe, s: State, u: Trace, from: nat, q: real)
    requires Counting(r, s, u, from, q)
    ensures from < |u|
  {
  }

  lemma RetreatStep(r: Recipe, s: State, t: Trace, m: Marks, i: Input)
    requires Inv(r, s, t, m) && s.phase == Retreat && Step(r, s, i).status == OK
    ensures var x, u := Limited(r, s, i), t + [Entry(s.phase, i)];
            && Step(r, s, i) == StepRetreat(r, x, i) && Fresh(u) && x.phase == Retreat
            && m.leave < |t| && Readied(u, m) && Moving(r, x, u, m)
            && x.lastSampleNs == i.sample.tNs == x.lastEnergyNs && x.lastFeedbackSeq == i.sample.feedbackSeq
            && FirstKnown(r, x, u, m) && Segment(u, m.leave + 1, |u|, Retreat)
            && x.phaseStartQ == Sampled(t, m.leave).q
  {
    hide Step, Limited, EnergyJ, Fresh, Evidence, MeanQ, Supervised, Moving, Readied, StepRetreat, FullDwell;
    MotionStep(r, s, t, m, i);
    PiecesStay(r, t, m, Entry(s.phase, i));
  }

  /** The retreat is left only where it is done. */
  lemma RetreatEnds(r: Recipe, x: State, i: Input)
    ensures var next := StepRetreat(r, x, i);
            next.status == OK && next.s.phase != x.phase ==> RetreatDone(r, x.phaseStartQ, i.sample)
  {
    hide Travel, Times;
    BackIsTravel(r.approachDirection, x.phaseStartQ, i.sample.q);
  }

  lemma BackIsTravel(direction: real, from: real, to: real)
    ensures Travel(from, to, -direction) == Times(direction, from - to)
  {
  }

  lemma RetreatPhase(r: Recipe, s: State, t: Trace, m: Marks, i: Input)
    requires Inv(r, s, t, m) && s.phase == Retreat && Step(r, s, i).status == OK
    ensures Inv(r, Step(r, s, i).s, t + [Entry(s.phase, i)], NextMarks(m, s, Step(r, s, i).s, |t|))
  {
    hide Step, Limited, EnergyJ, Fresh, Evidence, MeanQ, FullDwell, Supervised, Travel, FirstStop, Readied, BothKnown, Fits,
         RetreatDone;
    RetreatStep(r, s, t, m, i);
    var x := Limited(r, s, i);
    var u, y := t + [Entry(s.phase, i)], Step(r, s, i).s;
    var n := NextMarks(m, s, y, |t|);
    assert Sampled(u, |t|) == i.sample;
    assert Sampled(u, m.leave) == Sampled(t, m.leave);
    RetreatEnds(r, x, i);
    MovingKept(r, x, y, u, m, n);
    AwayMarks(r, x, u, m, n);
    assert FirstKnown(r, y, u, n) && n.leave == m.leave;
    if y.phase == Reapproach {
      assert n.away == |t| && Segment(u, n.leave + 1, n.away + 1, Retreat);
      assert BackedOff(r, u, n);
    }
  }

  lemma AwayMarks(r: Recipe, s: State, t: Trace, m: Marks, n: Marks)
    requires n == m.(away := n.away)
    ensures FirstStop(r, t, n) == FirstStop(r, t, m) && FirstKnown(r, s, t, n) == FirstKnown(r, s, t, m)
  {
    hide Evidence, MeanQ;
  }

  /** The pieces up to the retreat do not look at the later marks. */
  lemma LaterMarks(r: Recipe, s: State, t: Trace, m: Marks, n: Marks)
    requires n == m.(again := n.again, done := n.done, accept := n.accept)
    ensures BackedOff(r, t, n) == BackedOff(r, t, m) && FirstKnown(r, s, t, n) == FirstKnown(r, s, t, m)
    ensures Readied(t, n) == Readied(t, m) && (Readied(t, m) ==> Moving(r, s, t, n) == Moving(r, s, t, m))
  {
    hide Evidence, EnergyJ;
  }

  /** What every accepted step of the second approach keeps. */
  ghost predicate SecondApproach(r: Recipe, s: State, t: Trace, m: Marks) {
    && FirstKnown(r, s, t, m) && Readied(t, m) && Moving(r, s, t, m) && BackedOff(r, t, m)
    && Segment(t, m.away + 1, |t|, Reapproach)
  }

  lemma ReapproachStep(r: Recipe, s: State, t: Trace, m: Marks, i: Input)
    requires Inv(r, s, t, m) && s.phase == Reapproach && Step(r, s, i).status == OK
    ensures Fresh(t + [Entry(s.phase, i)]) && m.away < |t|
    ensures SecondApproach(r, Limited(r, s, i), t + [Entry(s.phase, i)], m)
    ensures Sampled(t + [Entry(s.phase, i)], m.away) == Sampled(t, m.away)
    ensures Step(r, s, i) == StepReapproach(r, Limited(r, s, i), i)
    ensures Limited(r, s, i) == s.(lastFeedbackSeq := i.sample.feedbackSeq, lastSampleNs := i.sample.tNs,
                                   lastEnergyNs := i.sample.tNs, energy := Limited(r, s, i).energy)
  {
    hide Step, Limited, EnergyJ, Fresh, Evidence, Mean, MeanQ, SumQ, FullDwell, Readied, Moving, StepReapproach;
    MotionStep(r, s, t, m, i);
    PiecesStay(r, t, m, Entry(s.phase, i));
  }

  lemma SecondApproachEnds(r: Recipe, s: State, y: State, t: Trace, m: Marks, n: Marks)
    requires SecondApproach(r, s, t, m) && n == m.(again := n.again, done := n.done)
    requires y.firstStop == s.firstStop && y.envelopeStartQ == s.envelopeStartQ && y.energy == s.energy
    requires y.phaseDeadlineNs == s.phaseDeadlineNs && y.lastEnergyNs == s.lastEnergyNs
    requires y.lastSampleNs == s.lastSampleNs && (y.phase == s.phase == Reapproach)
    ensures SecondApproach(r, y, t, n)
  {
    hide Evidence, EnergyJ, FullDwell, Readied, FirstStop;
    LaterMarks(r, y, t, m, n);
  }

  lemma ReapproachPhase(r: Recipe, s: State, t: Trace, m: Marks, i: Input)
    requires Inv(r, s, t, m) && s.phase == Reapproach && Step(r, s, i).status == OK
    ensures Inv(r, Step(r, s, i).s, t + [Entry(s.phase, i)], NextMarks(m, s, Step(r, s, i).s, |t|))
  {
    hide Step, Limited, EnergyJ, Fresh, Evidence, Mean, MeanQ, SumQ, FullDwell, Readied, Moving, FirstKnown, BackedOff,
         Segment, DwellDone, CountContact;
    ReapproachStep(r, s, t, m, i);
    var x, e := Limited(r, s, i), Entry(s.phase, i);
    var u := t + [e];
    var q := Sampled(t, m.away).q;
    var y := Step(r, s, i).s;
    var n := NextMarks(m, s, y, |t|);
    assert Sampled(u, |t|) == i.sample;
    if s.secondContact {
      CountContactFrame(x, i);
      CountingAppend(r, x, t, m.again, q, e);
      if DwellDone(r, CountContact(x, i), i) {
        SecondDwellDone(r, x, CountContact(x, i), y, t, u, m, i);
      } else {
        SecondApproachEnds(r, x, y, u, m, n);
      }
    } else {
      SecondApproachEnds(r, x, y, u, m, n);
      if Evidence(r, i.sample, Travel(q, i.sample.q, r.approachDirection)) {
        CountingStarts(r, y, t, q, e);
      }
    }
  }

  lemma CountContactFrame(s: State, i: Input)
    ensures CountContact(s, i) == s.(contactSamples := CountContact(s, i).contactSamples,
                                     contactSum := CountContact(s, i).contactSum)
  {
  }

  lemma CountingStarts(r: Recipe, y: State, t: Trace, q: real, e: Entry)
    requires Evidence(r, e.input.sample, Travel(q, e.input.sample.q, r.approachDirection))
    requires y.contactSamples == 1 && y.contactSum == e.input.sample.q && y.dwellStartNs == e.input.sample.tNs
    ensures Counting(r, y, t + [e], |t|, q)
  {
    hide Evidence;
    FirstCount(t, e);
    assert Sampled(t + [e], |t|) == e.input.sample;
  }

  /** The second dwell is complete: both stops are known. */
  lemma SecondDwellDone(r: Recipe, x: State, c: State, y: State, t: Trace, u: Trace, m: Marks, i: Input)
    requires u == t + [Entry(Reapproach, i)] && Fresh(u) && SecondApproach(r, x, u, m) && |t| > m.away
    requires m.away < m.again < |t| && Counting(r, c, u, m.again, Sampled(u, m.away).q) && DwellDone(r, c, i)
    requires y.firstStop == x.firstStop && y.secondStop == Mean(c.contactSum, c.contactSamples)
    ensures BothKnown(r, y, u, m.(done := |t|))
  {
    hide EnergyJ, Evidence, Mean, MeanQ, SumQ, FullDwell, Fresh;
    CountingDone(r, c, u, m.again, Sampled(u, m.away).q);
    LaterMarks(r, x, u, m, m.(done := |t|));
    assert u[..|u|] == u;
    assert MeanQ(u, m.again, |t|) == Mean(c.contactSum, c.contactSamples);
    assert m.(done := |t|).again == m.again;
  }

  lemma FirstCount(t: Trace, e: Entry)
    ensures SumQ(t + [e], |t|) == e.input.sample.q
  {
    SumAppend(t, e, |t|);
  }

  /** Half the distance between the stops is what the shared offset leaves of each. */
  lemma StopsFit(r: Recipe, f: real, g: real, b: real)
    requires Abs(g - f) <= r.repeatabilityTolerance && b == r.stopModel - r.knownSign * 0.5 * (f + g)
    ensures Abs(Times(r.knownSign, f) + b - r.stopModel) <= r.repeatabilityTolerance / 2.0
    ensures Abs(Times(r.knownSign, g) + b - r.stopModel) <= r.repeatabilityTolerance / 2.0
  {
    if r.knownSign == 1.0 {
      assert r.knownSign * f == f && r.knownSign * g == g;
    } else {
      assert r.knownSign * f == -f && r.knownSign * g == -g;
    }
  }

  lemma BothKnownStays(r: Recipe, s: State, y: State, t: Trace, m: Marks, n: Marks, e: Entry)
    requires BothKnown(r, s, t, m) && n == m.(accept := n.accept) && Fresh(t + [e])
    requires y.firstStop == s.firstStop && y.secondStop == s.secondStop
    ensures BothKnown(r, y, t + [e], n)
  {
    hide EnergyJ, Evidence, Mean, MeanQ, SumQ, Fresh;
    PiecesStay(r, t, m, e);
    var u := t + [e];
    assert u[..m.done + 1] == t[..m.done + 1];
    assert forall i :: 0 <= i < |t| ==> u[i] == t[i];
    AcceptIrrelevant(r, u, m, n);
    assert n.done == m.done && n.ready == m.ready && n.contact == m.contact && n.leave == m.leave && n.again == m.again;
  }

  lemma AcceptIrrelevant(r: Recipe, t: Trace, m: Marks, n: Marks)
    requires n == m.(accept := n.accept)
    ensures SecondStop(r, t, n) == SecondStop(r, t, m) && FirstStop(r, t, n) == FirstStop(r, t, m)
  {
    hide Evidence;
  }

  /** What every accepted step after the motion adds. */
  lemma LateStep(r: Recipe, s: State, t: Trace, m: Marks, i: Input)
    requires Inv(r, s, t, m) && (s.phase == Repeatability || s.phase == Candidate || s.phase == Review)
    requires Step(r, s, i).status == OK
    ensures var e, y := Entry(s.phase, i), Step(r, s, i).s;
            && Fresh(t + [e]) && m.done < |t| && BothKnown(r, y, t + [e], NextMarks(m, s, y, |t|))
            && y.lastSampleNs == i.sample.tNs && y.lastFeedbackSeq == i.sample.feedbackSeq
  {
    hide EnergyJ, Evidence, Mean, MeanQ, SumQ, Fresh, BothKnown, Bound, TooHot, Times;
    var e, y := Entry(s.phase, i), Step(r, s, i).s;
    ValidatedStep(r, s, i);
    FreshAppend(t, e);
    BothKnownStays(r, s, y, t, m, NextMarks(m, s, y, |t|), e);
    DoneInside(r, s, t, m);
  }

  /** The phase functions after the motion, on a validated step. */
  function LateResult(r: Recipe, x: State, i: Input): Result {
    match x.phase
    case Repeatability => StepRepeatability(r, x, i)
    case Candidate => StepCandidate(r, x, i)
    case Review => StepReview(r, x, i)
    case _ => Result(x, EState)
  }

  lemma LateIs(r: Recipe, s: State, i: Input)
    requires (s.phase == Repeatability || s.phase == Candidate || s.phase == Review) && Step(r, s, i).status == OK
    ensures Step(r, s, i) == LateResult(r, s.(lastFeedbackSeq := i.sample.feedbackSeq, lastSampleNs := i.sample.tNs), i)
  {
    hide ValidateInput, StepRepeatability, StepCandidate, StepReview;
    ValidatedStep(r, s, i);
  }

  lemma RepeatabilityPhase(r: Recipe, s: State, t: Trace, m: Marks, i: Input)
    requires Inv(r, s, t, m) && s.phase == Repeatability && Step(r, s, i).status == OK
    ensures Inv(r, Step(r, s, i).s, t + [Entry(s.phase, i)], NextMarks(m, s, Step(r, s, i).s, |t|))
  {
    hide Step, Fresh, BothKnown, Times, Moving, Counting, FirstKnown, BackedOff, Readied, TooHot, Bound;
    LateStep(r, s, t, m, i);
    LateIs(r, s, i);
    StopsFit(r, s.firstStop, s.secondStop, Step(r, s, i).s.candidateB);
    assert Sampled(t + [Entry(s.phase, i)], |t|) == i.sample;
  }

  lemma CandidatePhase(r: Recipe, s: State, t: Trace, m: Marks, i: Input)
    requires Inv(r, s, t, m) && s.phase == Candidate && Step(r, s, i).status == OK
    ensures Inv(r, Step(r, s, i).s, t + [Entry(s.phase, i)], NextMarks(m, s, Step(r, s, i).s, |t|))
  {
    hide Step, Fresh, BothKnown, Times, Moving, Counting, FirstKnown, BackedOff, Readied, TooHot, Bound;
    LateStep(r, s, t, m, i);
    LateIs(r, s, i);
    assert Sampled(t + [Entry(s.phase, i)], |t|) == i.sample;
  }

  lemma ReviewPhase(r: Recipe, s: State, t: Trace, m: Marks, i: Input)
    requires Inv(r, s, t, m) && s.phase == Review && Step(r, s, i).status == OK
    ensures Inv(r, Step(r, s, i).s, t + [Entry(s.phase, i)], NextMarks(m, s, Step(r, s, i).s, |t|))
  {
    hide Step, Fresh, BothKnown, Times, Moving, Counting, FirstKnown, BackedOff, Readied, TooHot, Bound;
    LateStep(r, s, t, m, i);
    LateIs(r, s, i);
    assert Sampled(t + [Entry(s.phase, i)], |t|) == i.sample;
  }

  lemma DoneInside(r: Recipe, s: State, t: Trace, m: Marks)
    requires BothKnown(r, s, t, m)
    ensures m.done < |t|
  {
    hide EnergyJ, Evidence, MeanQ;
  }

  /** Every accepted step keeps the invariant, with the step added to the trace; a refused
      one ends the session or changes nothing. */
  lemma StepKeepsInv(r: Recipe, s: State, t: Trace, m: Marks, i: Input)
    requires Inv(r, s, t, m)
    ensures Step(r, s, i).status == OK ==>
              Inv(r, Step(r, s, i).s, t + [Entry(s.phase, i)], NextMarks(m, s, Step(r, s, i).s, |t|))
    ensures Step(r, s, i).status != OK ==> Step(r, s, i).s.phase == Aborted || Step(r, s, i).s == s
  {
    hide Inv, Step, NextMarks;
    RefusedStep(r, s, i);
    if Step(r, s, i).status == OK {
      match s.phase
      case Precheck => QuietPhases(r, s, t, m, i);
      case Wait => QuietPhases(r, s, t, m, i);
      case Approach => ApproachPhase(r, s, t, m, i);
      case ContactDwell => ContactDwellPhase(r, s, t, m, i);
      case Retreat => RetreatPhase(r, s, t, m, i);
      case Reapproach => ReapproachPhase(r, s, t, m, i);
      case Repeatability => RepeatabilityPhase(r, s, t, m, i);
      case Candidate => CandidatePhase(r, s, t, m, i);
      case Review => ReviewPhase(r, s, t, m, i);
    }
  }

  lemma RefusedStep(r: Recipe, s: State, i: Input)
    ensures Step(r, s, i).status != OK ==> Step(r, s, i).s.phase == Aborted || Step(r, s, i).s == s
    ensures Step(r, s, i).status == OK ==> Live(s)
  {
    hide Bound, TooHot, Work, Evidence, Mean;
  }

  // ---------------------------------------------------------------------------
  // What validation asks of every accepted step.

  /** Each joint of the posture the recipe asks for is within its tolerance. */
  predicate PostureHeld(r: Recipe, i: Input) {
    && i.postureMask == r.postureMask && |i.posture| == ARM_JOINTS
    && forall j :: 0 <= j < ARM_JOINTS && j in r.postureMask ==>
         r.posture[j] - r.postureTolerance <= i.posture[j] <= r.posture[j] + r.postureTolerance
  }

  /** The sample is recent, without fault and cool, and the step names the recipe's own evidence,
      fixture and posture. */
  predicate Admissible(r: Recipe, i: Input) {
    && 0 < i.sample.feedbackSeq && i.sample.tNs <= i.nowNs <= i.sample.tNs + r.maxSampleAgeNs
    && !i.sample.fault && i.sample.mosC <= r.maxTemperature && i.sample.coilC <= r.maxTemperature
    && i.evidenceRevision == (if r.simulationOnly then r.simulationRevision else r.qualificationRevision)
    && i.fixtureRevision == r.fixtureRevision && (r.armJoint ==> PostureHeld(r, i))
  }

  /** With the drive off: before the motion in the start window, after it under the operator's
      eye, never with the stop asserted. */
  predicate AtRest(r: Recipe, phase: Phase, i: Input) {
    && (phase == Precheck ==> r.startMin <= i.sample.q <= r.startMax)
    && (phase !in {Approach, ContactDwell, Retreat, Reapproach} ==> i.estopClear && !i.sample.enabled)
    && (phase == Repeatability ==> i.deadman)
    && (phase == Candidate || phase == Review ==> i.review != Reject)
  }

  /** What is true of every accepted step. */
  predicate Vetted(r: Recipe, e: Entry) {
    Admissible(r, e.input) && AtRest(r, e.phase, e.input)
  }

  ghost predicate AllVetted(r: Recipe, t: Trace) {
    forall k :: 0 <= k < |t| ==> Vetted(r, t[k])
  }

  lemma ValidIsAdmissible(r: Recipe, s: State, i: Input)
    ensures ValidateInput(r, s, i).status == OK ==> Admissible(r, i)
  {
  }

  lemma AcceptedIsVetted(r: Recipe, s: State, i: Input)
    requires Step(r, s, i).status == OK
    ensures Vetted(r, Entry(s.phase, i))
  {
    hide Admissible, Bound, TooHot, StepMotion;
    ValidIsAdmissible(r, s, i);
  }

  lemma ApplyKeepsVetted(r: Recipe, x: Session, op: Op)
    requires AllVetted(r, x.t)
    ensures AllVetted(r, Apply(r, x, op).t)
  {
    hide Step, Vetted, NextMarks, Commit, Abort;
    if op.OpStep? && Step(r, x.s, op.input).status == OK {
      AcceptedIsVetted(r, x.s, op.input);
    }
  }

  lemma {:induction false} RunKeepsVetted(r: Recipe, x: Session, ops: seq<Op>)
    requires AllVetted(r, x.t)
    ensures AllVetted(r, Run(r, x, ops).t)
    decreases |ops|
  {
    hide AllVetted, Apply;
    if ops != [] {
      ApplyKeepsVetted(r, x, ops[0]);
      RunKeepsVetted(r, Apply(r, x, ops[0]), ops[1..]);
    }
  }

  // ---------------------------------------------------------------------------
  // Whole sessions.

  datatype Op = OpStep(input: Input) | OpCommit(revision: nat) | OpAbort

  datatype Session = Session(s: State, t: Trace, m: Marks)

  const NEW_SESSION: Session := Session(START, [], NO_MARKS)

  function Apply(r: Recipe, x: Session, op: Op): Session {
    match op
    case OpStep(i) =>
      var next := Step(r, x.s, i);
      if next.status == OK then
        Session(next.s, x.t + [Entry(x.s.phase, i)], NextMarks(x.m, x.s, next.s, |x.t|))
      else x.(s := next.s)
    case OpCommit(revision) =>
      var done := Commit(r, x.s, revision);
      if done.Done? then x.(s := done.s) else x
    case OpAbort => x.(s := Abort(x.s).s)
  }

  function Run(r: Recipe, x: Session, ops: seq<Op>): Session
    decreases |ops|
  {
    if ops == [] then x else Run(r, Apply(r, x, ops[0]), ops[1..])
  }

  lemma ApplyKeepsInv(r: Recipe, x: Session, op: Op)
    requires Inv(r, x.s, x.t, x.m)
    ensures var y := Apply(r, x, op); Inv(r, y.s, y.t, y.m)
  {
    hide Step, NextMarks, InPhase, Fresh;
    match op
    case OpStep(i) =>
      StepKeepsInv(r, x.s, x.t, x.m, i);
      AbortedIsFine(r, Step(r, x.s, i).s, x.t, x.m);
    case OpCommit(revision) => AbortedIsFine(r, x.s.(phase := Committed), x.t, x.m);
    case OpAbort => AbortedIsFine(r, Abort(x.s).s, x.t, x.m);
  }

  lemma AbortedIsFine(r: Recipe, s: State, t: Trace, m: Marks)
    ensures s.phase == Aborted || s.phase == Committed ==> InPhase(r, s, t, m)
  {
  }

  lemma {:induction false} RunKeepsInv(r: Recipe, x: Session, ops: seq<Op>)
    requires Inv(r, x.s, x.t, x.m)
    ensures var y := Run(r, x, ops); Inv(r, y.s, y.t, y.m)
    decreases |ops|
  {
    hide Inv, Apply;
    if ops != [] {
      ApplyKeepsInv(r, x, ops[0]);
      RunKeepsInv(r, Apply(r, x, ops[0]), ops[1..]);
    }
  }

  lemma WorkNonNegative(sample: Sample, fromNs: nat)
    requires fromNs <= sample.tNs
    ensures Work(sample, fromNs) >= 0.0
  {
    MulNonNegative(Abs(sample.torque * sample.dq), (sample.tNs as real - fromNs as real) * 0.000000001);
  }

  /** Energy only accumulates, so a bound at the end is a bound all along. */
  lemma {:induction false} EnergyGrows(t: Trace, ready: nat, k: nat)
    requires Fresh(t) && k <= |t|
    ensures EnergyJ(t[..k], ready) <= EnergyJ(t, ready)
    decreases |t|
  {
    if k == |t| {
      assert t[..k] == t;
    } else {
      var shorter := t[..|t| - 1];
      assert forall i :: 0 <= i < |shorter| ==> Sampled(shorter, i) == Sampled(t, i);
      EnergyGrows(shorter, ready, k);
      assert shorter[..k] == t[..k];
      if |t| > ready + 1 {
        assert Sampled(t, |t| - 2).tNs < Sampled(t, |t| - 1).tNs;
        WorkNonNegative(Sampled(t, |t| - 1), Sampled(t, |t| - 2).tNs);
      }
    }
  }

  /** The accepted trace is one pass through all phases in order. */
  ghost predicate InOrder(t: Trace, m: Marks) {
    && 0 < m.ready < m.contact < m.leave < m.away < m.again < m.done && m.done + 1 < m.accept < |t|
    && t[0].phase == Precheck && Segment(t, 1, m.ready + 1, Wait)
    && Segment(t, m.ready + 1, m.contact + 1, Approach) && Segment(t, m.contact + 1, m.leave + 1, ContactDwell)
    && Segment(t, m.leave + 1, m.away + 1, Retreat) && Segment(t, m.away + 1, m.done + 1, Reapproach)
    && t[m.done + 1].phase == Repeatability && Segment(t, m.done + 2, m.accept + 1, Candidate)
    && Segment(t, m.accept + 1, |t|, Review) && t[m.accept].input.review == Accept
  }

  /** The joint presses on the stop: travelled far enough, nearly still, against torque. */
  predicate InContact(r: Recipe, sample: Sample, from: real) {
    && sample.enabled && r.approachDirection * (sample.q - from) >= r.minContactTravel
    && -r.contactVelocity <= sample.dq <= r.contactVelocity
    && (sample.torque >= r.minContactTorque || sample.torque <= -r.minContactTorque)
  }

  /** In contact on every sample of a stretch, which has enough of them and lasts long enough. */
  ghost predicate Held(r: Recipe, t: Trace, from: nat, last: nat, q: real) {
    && from < last < |t| && (forall i :: from <= i <= last ==> InContact(r, Sampled(t, i), q))
    && last + 1 - from >= r.minContactSamples
    && Sampled(t, last).tNs >= Sampled(t, from).tNs + r.contactDwellNs
  }

  /** Two full dwells, each measured from where its approach began, with a full retreat between
      them. */
  ghost predicate TwoDwells(r: Recipe, t: Trace, m: Marks) {
    && m.ready < |t| && m.away < |t| && m.leave < m.away < m.again
    && t[m.ready].input.deadman && t[m.ready].input.operatorReady
    && Held(r, t, m.contact, m.leave, Sampled(t, m.ready).q)
    && RetreatDone(r, Sampled(t, m.leave).q, Sampled(t, m.away))
    && Held(r, t, m.again, m.done, Sampled(t, m.away).q)
  }

  lemma FullDwellIsHeld(r: Recipe, t: Trace, from: nat, last: nat, q: real)
    requires FullDwell(r, t, from, last, q)
    ensures Held(r, t, from, last, q)
  {
    forall i | from <= i <= last
      ensures InContact(r, Sampled(t, i), q)
    {
      EvidenceIsContact(r, Sampled(t, i), q);
    }
    hide Evidence, InContact;
  }

  lemma EvidenceIsContact(r: Recipe, sample: Sample, from: real)
    ensures Evidence(r, sample, Travel(from, sample.q, r.approachDirection)) ==> InContact(r, sample, from)
  {
  }

  /** The interlocks hold, the drive is within its limits and the joint in its envelope. */
  predicate SafeMotion(r: Recipe, start: real, i: Input) {
    && i.estopClear && i.deadman && i.sample.enabled
    && -r.maxSpeed <= i.sample.dq <= r.maxSpeed && -r.maxTorque <= i.sample.torque <= r.maxTorque
    && -0.000001 <= r.approachDirection * (i.sample.q - start) <= r.maxApproachTravel
  }

  lemma GuardedIsSafe(r: Recipe, start: real, i: Input)
    requires Guarded(r, i) && InEnvelope(r, start, i.sample.q)
    ensures SafeMotion(r, start, i)
  {
  }

  /** Every accepted motion step is on time, safe and inside the travel envelope; and the contact
      energy is never over its ceiling. */
  ghost predicate WithinBudget(r: Recipe, t: Trace, m: Marks) {
    && m.ready < |t| && m.done < |t|
    && (forall k :: 0 <= k <= m.done + 1 ==> EnergyJ(t[..k], m.ready) <= r.maxContactEnergy)
    && (forall i :: m.ready < i <= m.done ==>
          t[i].input.nowNs <= t[m.ready].input.nowNs + 2 * r.maxApproachTimeNs + r.maxRetreatTimeNs
          && SafeMotion(r, Sampled(t, m.ready).q, t[i].input))
  }

  /** The mapping puts both measured stops within half the tolerance of the model stop. */
  ghost predicate MapsBothStops(r: Recipe, t: Trace, m: Marks, patch: Patch) {
    && m.contact <= m.leave < |t| && m.again <= m.done < |t|
    && Abs(Times(patch.a, MeanQ(t, m.contact, m.leave)) + patch.b - r.stopModel) <= r.repeatabilityTolerance / 2.0
    && Abs(Times(patch.a, MeanQ(t, m.again, m.done)) + patch.b - r.stopModel) <= r.repeatabilityTolerance / 2.0
    && patch.a == r.knownSign && patch.expectedRevision == r.expectedRevision < patch.replacementRevision
    && patch.simulationOnly == r.simulationOnly && patch.fixtureRevision == r.fixtureRevision
    && patch.evidenceRevision == (if r.simulationOnly then r.simulationRevision else r.qualificationRevision)
  }

  lemma ReviewedPass(r: Recipe, s: State, t: Trace, m: Marks)
    requires Inv(r, s, t, m) && s.phase == Review
    ensures InOrder(t, m) && TwoDwells(r, t, m) && BothKnown(r, s, t, m) && Fits(r, s)
  {
    hide EnergyJ, FullDwell, Held, MeanQ, Fresh, Times, RetreatDone;
    FullDwellIsHeld(r, t, m.contact, m.leave, Sampled(t, m.ready).q);
    FullDwellIsHeld(r, t, m.again, m.done, Sampled(t, m.away).q);
  }

  lemma BudgetKept(r: Recipe, s: State, t: Trace, m: Marks)
    requires BothKnown(r, s, t, m)
    ensures WithinBudget(r, t, m)
  {
    hide EnergyJ, FullDwell, MeanQ, Fresh, Guarded, InEnvelope, SafeMotion;
    forall k | 0 <= k <= m.done + 1
      ensures EnergyJ(t[..k], m.ready) <= r.maxContactEnergy
    {
      EnergyBound(t, m.ready, m.done + 1, k);
    }
    forall i | m.ready < i <= m.done
      ensures SafeMotion(r, Sampled(t, m.ready).q, t[i].input)
    {
      GuardedIsSafe(r, Sampled(t, m.ready).q, t[i].input);
    }
  }

  /** A granted commit, seen from the trace its session is true to. */
  lemma GrantMeansFullPass(r: Recipe, s: State, t: Trace, m: Marks, revision: nat)
    requires Inv(r, s, t, m)
    ensures Commit(r, s, revision).Done? ==>
              && Fresh(t) && InOrder(t, m) && TwoDwells(r, t, m) && WithinBudget(r, t, m)
              && MapsBothStops(r, t, m, Commit(r, s, revision).patch)
  {
    hide EnergyJ, MeanQ, InOrder, TwoDwells, Fresh, WithinBudget, Times, FullDwell, Segment;
    if Commit(r, s, revision).Done? {
      ReviewedPass(r, s, t, m);
      BudgetKept(r, s, t, m);
    }
  }

  /** Over every session: a commit is granted only after one in-order pass with two separate
      full dwells and a full retreat between them, on samples each newer than the last, with the contact energy never over its
      ceiling, every motion step guarded, inside the travel envelope and within the overall
      deadline, every step bound to the recipe's evidence, fixture and posture, and a mapping that
      puts both measured stops within half the repeatability tolerance of the model stop. */
  lemma CommitMeansFullPass(r: Recipe, ops: seq<Op>, revision: nat)
    requires Commit(r, Run(r, NEW_SESSION, ops).s, revision).Done?
    ensures var x := Run(r, NEW_SESSION, ops);
            && AllVetted(r, x.t)
            && Fresh(x.t) && InOrder(x.t, x.m) && TwoDwells(r, x.t, x.m) && WithinBudget(r, x.t, x.m)
            && MapsBothStops(r, x.t, x.m, Commit(r, x.s, revision).patch)
  {
    hide Run, Inv, Commit, InOrder, TwoDwells, Fresh, WithinBudget, MapsBothStops, Vetted;
    var x := Run(r, NEW_SESSION, ops);
    StartHolds(r);
    RunKeepsInv(r, NEW_SESSION, ops);
    RunKeepsVetted(r, NEW_SESSION, ops);
    GrantMeansFullPass(r, x.s, x.t, x.m, revision);
  }

  lemma StartHolds(r: Recipe)
    ensures Inv(r, START, [], NO_MARKS)
  {
  }

  lemma EnergyBound(t: Trace, ready: nat, n: nat, k: nat)
    requires Fresh(t) && k <= n <= |t|
    ensures EnergyJ(t[..k], ready) <= EnergyJ(t[..n], ready)
  {
    hide EnergyJ;
    assert forall i :: 0 <= i < n ==> Sampled(t[..n], i) == Sampled(t, i);
    EnergyGrows(t[..n], ready, k);
    assert t[..n][..k] == t[..k];
  }
}
