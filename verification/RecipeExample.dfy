/** A session that reaches its commit, step by step. */
module RecipeExample {
  import opened Common
  import opened RealFacts
  import opened RecipeModel
  import opened RecipeHistory

  const EASY: Recipe :=
    RecipeRecord(false, true, 0, 0, 0, 1, 1.0, 0.0, -1.0, 1.0, 1.0, 2.0, 0.5, 0.5, 0.1, 10.0, 10.0, 1.0, 0.1, 100.0, 100.0,
                 1, 1000, 1000, 10, 2, {}, [0.0, 0.0, 0.0, 0.0, 0.0, 0.0, 0.0], 0.0)

  /** A sample at time n: at rest at q with this torque. */
  function Rest(n: nat, q: real, torque: real, enabled: bool, review: Decision): Input {
    Input(n, Sample(n, n, q, 0.0, torque, 20.0, 20.0, enabled, false), true, true, true, review, 0, 0, {}, [])
  }

  function Seen(s: State, n: nat): State {
    s.(lastFeedbackSeq := n, lastSampleNs := n)
  }

  const S1: State := State(Wait, NoReason, 1, 1, 0, 0, 0, 0, 0, 0.0, 0.0, 0.0, 0.0, 0.0, 0.0, 0.0, 0.0, 0.0, false)
  const S2: State := State(Approach, NoReason, 2, 2, 2, 1002, 0, 2, 0, 0.0, 0.0, 2.0, 0.0, 0.0, 0.0, 0.0, 0.0, 0.0, false)
  const S3: State := State(ContactDwell, NoReason, 3, 3, 2, 1002, 3, 3, 1, 0.0, 0.0, 2.0, 1.0, 0.0, 0.0, 0.0, 0.0, 0.0, false)
  const S4: State := State(Retreat, NoReason, 4, 4, 4, 1004, 3, 4, 2, 1.0, 0.0, 2.0, 2.0, 1.0, 0.0, 0.0, 0.0, 0.0, false)
  const S5: State := State(Reapproach, NoReason, 5, 5, 5, 1005, 3, 5, 0, 0.5, 0.0, 2.0, 0.0, 1.0, 0.0, 0.0, 0.0, 0.0, false)
  const S6: State := State(Reapproach, NoReason, 6, 6, 5, 1005, 6, 6, 1, 0.5, 0.0, 2.0, 1.0, 1.0, 0.0, 0.0, 0.0, 0.0, true)
  const S7: State := State(Repeatability, NoReason, 7, 7, 5, 1005, 6, 7, 2, 0.5, 0.0, 2.0, 2.0, 1.0, 1.0, 0.0, 0.0, 0.0, true)
  const S8: State := State(Candidate, NoReason, 8, 8, 5, 1005, 6, 7, 2, 0.5, 0.0, 2.0, 2.0, 1.0, 1.0, 1.0, -1.0, 0.0, true)
  const S9: State := State(Review, NoReason, 9, 9, 5, 1005, 6, 7, 2, 0.5, 0.0, 2.0, 2.0, 1.0, 1.0, 1.0, -1.0, 0.0, true)

  lemma NoWork(sample: Sample, from: nat)
    requires sample.dq == 0.0
    ensures Work(sample, from) == 0.0
  {
    assert sample.torque * sample.dq == 0.0;
  }

  /** Validation of a resting sample. */
  lemma RestIsValid(s: State, i: Input, n: nat)
    requires i == Rest(n, i.sample.q, i.sample.torque, i.sample.enabled, i.review) && n > s.lastSampleNs && n > s.lastFeedbackSeq
    ensures ValidateInput(EASY, s, i) == Result(Seen(s, n), OK)
  {
  }

  /** And the limits of a moving phase. */
  lemma RestIsLimited(s: State, i: Input, n: nat)
    requires i == Rest(n, i.sample.q, i.sample.torque, true, i.review) && Abs(i.sample.torque) <= 10.0
    requires s.lastEnergyNs > 0 && s.energy == 0.0
    ensures EnforceMotionLimits(EASY, s, i) == Result(s.(lastEnergyNs := n), OK)
  {
    hide Work;
    NoWork(i.sample, s.lastEnergyNs);
  }

  lemma MoveBy(s: State, i: Input, n: nat)
    requires i == Rest(n, i.sample.q, i.sample.torque, true, i.review) && n > s.lastSampleNs && n > s.lastFeedbackSeq
    requires Abs(i.sample.torque) <= 10.0 && s.lastEnergyNs > 0 && s.energy == 0.0 && Motion(s.phase)
    ensures Step(EASY, s, i) == PhaseStep(EASY, Seen(s, n).(lastEnergyNs := n), i)
  {
    hide ValidateInput, EnforceMotionLimits, StepApproach, StepContactDwell, StepRetreat, StepReapproach;
    RestIsValid(s, i, n);
    RestIsLimited(Seen(s, n), i, n);
  }

  lemma UnitTravel(a: real, b: real)
    ensures Travel(a, b, 1.0) == b - a && Travel(a, b, -1.0) == a - b
  {
  }

  lemma MeanOfTwo()
    ensures Mean(2.0, 2) == 1.0
  {
  }

  lemma Step1()
    ensures Step(EASY, START, Rest(1, 0.0, 0.0, false, Undecided)) == Result(S1, OK)
  {
    hide ValidateInput;
    RestIsValid(START, Rest(1, 0.0, 0.0, false, Undecided), 1);
  }

  lemma Step2()
    ensures Step(EASY, S1, Rest(2, 0.0, 0.0, false, Undecided)) == Result(S2, OK)
  {
    hide ValidateInput;
    RestIsValid(S1, Rest(2, 0.0, 0.0, false, Undecided), 2);
  }

  lemma Step3()
    ensures Step(EASY, S2, Rest(3, 1.0, 2.0, true, Undecided)) == Result(S3, OK)
  {
    hide Step, Travel, Mean;
    MoveBy(S2, Rest(3, 1.0, 2.0, true, Undecided), 3);
    UnitTravel(0.0, 1.0);
  }

  lemma Step4()
    ensures Step(EASY, S3, Rest(4, 1.0, 2.0, true, Undecided)) == Result(S4, OK)
  {
    hide Step, Travel, Mean;
    MoveBy(S3, Rest(4, 1.0, 2.0, true, Undecided), 4);
    UnitTravel(0.0, 1.0);
    MeanOfTwo();
  }

  lemma Step5()
    ensures Step(EASY, S4, Rest(5, 0.5, 0.0, true, Undecided)) == Result(S5, OK)
  {
    hide Step, Travel, Mean;
    MoveBy(S4, Rest(5, 0.5, 0.0, true, Undecided), 5);
    UnitTravel(1.0, 0.5);
    UnitTravel(0.0, 0.5);
  }

  lemma Step6()
    ensures Step(EASY, S5, Rest(6, 1.0, 2.0, true, Undecided)) == Result(S6, OK)
  {
    hide Step, Travel, Mean;
    MoveBy(S5, Rest(6, 1.0, 2.0, true, Undecided), 6);
    UnitTravel(0.5, 1.0);
    UnitTravel(0.0, 1.0);
  }

  lemma Step7()
    ensures Step(EASY, S6, Rest(7, 1.0, 2.0, true, Undecided)) == Result(S7, OK)
  {
    hide Step, Travel, Mean;
    MoveBy(S6, Rest(7, 1.0, 2.0, true, Undecided), 7);
    UnitTravel(0.5, 1.0);
    UnitTravel(0.0, 1.0);
    MeanOfTwo();
  }

  lemma Step8()
    ensures Step(EASY, S7, Rest(8, 1.0, 0.0, false, Undecided)) == Result(S8, OK)
  {
    hide ValidateInput;
    RestIsValid(S7, Rest(8, 1.0, 0.0, false, Undecided), 8);
  }

  lemma Step9()
    ensures Step(EASY, S8, Rest(9, 1.0, 0.0, false, Accept)) == Result(S9, OK)
  {
    hide ValidateInput;
    RestIsValid(S8, Rest(9, 1.0, 0.0, false, Accept), 9);
  }

  lemma RunOne(r: Recipe, x: Session, op: Op, rest: seq<Op>)
    ensures Run(r, x, [op] + rest) == Run(r, Apply(r, x, op), rest)
  {
    hide Apply;
    assert ([op] + rest)[1..] == rest;
  }

  lemma Accepted(x: Session, i: Input, next: State, rest: seq<Op>) returns (y: Session)
    requires Step(EASY, x.s, i) == Result(next, OK)
    ensures y.s == next && Run(EASY, x, [OpStep(i)] + rest) == Run(EASY, y, rest)
  {
    hide Step, Run;
    RunOne(EASY, x, OpStep(i), rest);
    y := Apply(EASY, x, OpStep(i));
  }

  /** The nine steps of a session that ends ready to commit. */
  lemma CommitIsReachable() returns (ops: seq<Op>)
    ensures Commit(EASY, Run(EASY, NEW_SESSION, ops).s, 2).Done?
  {
    hide Step, Run, Apply;
    var r9 := [OpStep(Rest(9, 1.0, 0.0, false, Accept))] + [];
    var r8 := [OpStep(Rest(8, 1.0, 0.0, false, Undecided))] + r9;
    var r7 := [OpStep(Rest(7, 1.0, 2.0, true, Undecided))] + r8;
    var r6 := [OpStep(Rest(6, 1.0, 2.0, true, Undecided))] + r7;
    var r5 := [OpStep(Rest(5, 0.5, 0.0, true, Undecided))] + r6;
    var r4 := [OpStep(Rest(4, 1.0, 2.0, true, Undecided))] + r5;
    var r3 := [OpStep(Rest(3, 1.0, 2.0, true, Undecided))] + r4;
    var r2 := [OpStep(Rest(2, 0.0, 0.0, false, Undecided))] + r3;
    ops := [OpStep(Rest(1, 0.0, 0.0, false, Undecided))] + r2;
    Step1();
    var x := Accepted(NEW_SESSION, Rest(1, 0.0, 0.0, false, Undecided), S1, r2);
    Step2();
    x := Accepted(x, Rest(2, 0.0, 0.0, false, Undecided), S2, r3);
    Step3();
    x := Accepted(x, Rest(3, 1.0, 2.0, true, Undecided), S3, r4);
    Step4();
    x := Accepted(x, Rest(4, 1.0, 2.0, true, Undecided), S4, r5);
    Step5();
    x := Accepted(x, Rest(5, 0.5, 0.0, true, Undecided), S5, r6);
    Step6();
    x := Accepted(x, Rest(6, 1.0, 2.0, true, Undecided), S6, r7);
    Step7();
    x := Accepted(x, Rest(7, 1.0, 2.0, true, Undecided), S7, r8);
    Step8();
    x := Accepted(x, Rest(8, 1.0, 0.0, false, Undecided), S8, r9);
    Step9();
    x := Accepted(x, Rest(9, 1.0, 0.0, false, Accept), S9, []);
    RunNone(x);
  }

  lemma RunNone(x: Session)
    ensures Run(EASY, x, []) == x
  {
  }
}
