/** Position inverse kinematics: active-set descent inside the margin box with a halving line
    search along damped least-squares steps. */
module PositionIk {
  import opened Common
  import opened RealFacts
  import opened Geometry
  import opened DampedStep

  const ALPHA_MIN: real := 0.000000000001
  const NO_STEP: real := 0.000000000000001
  const POSITION_MAX: real := 100.0

  /** Limits, forward kinematics, the translational Jacobian, its least singular value over the
      joints that may move, and the length of a vector. */
  datatype Model = Model(
    lower: Joints, upper: Joints,
    fk: Joints -> Option<Vec3>,
    jacobian: Joints -> Option<Columns>,
    sigma: (Columns, Joints, set<nat>) -> real,
    length: Vec3 -> real)

  datatype Diagnostics = Diagnostics(q: Joints, iterations: nat, active: set<nat>, status: Status)

  datatype Problem = Problem(m: Model, target: Vec3, o: Options)

  function Low(p: Problem, i: nat): real
    requires i < DOF
  {
    p.m.lower[i] + p.o.margin
  }

  function High(p: Problem, i: nat): real
    requires i < DOF
  {
    p.m.upper[i] - p.o.margin
  }

  /** The limits, narrowed by the margin. */
  predicate InBox(p: Problem, q: Joints) {
    forall i :: 0 <= i < DOF ==> Low(p, i) <= q[i] <= High(p, i)
  }

  predicate ValidTarget(t: Vec3) {
    Abs(t.x) <= POSITION_MAX && Abs(t.y) <= POSITION_MAX && Abs(t.z) <= POSITION_MAX
  }

  function Clamp(p: Problem, i: nat, x: real): real
    requires i < DOF
  {
    Min(High(p, i), Max(Low(p, i), x))
  }

  function ClampedSeed(p: Problem): Joints {
    seq(DOF, i requires 0 <= i < DOF => Clamp(p, i, p.o.seed[i]))
  }

  predicate BoxExists(p: Problem) {
    forall i :: 0 <= i < DOF ==> Low(p, i) <= High(p, i)
  }

  function ErrorAt(p: Problem, q: Joints): Option<Vec3> {
    if p.m.fk(q) == None then None else Some(Subtract(p.target, p.m.fk(q).value))
  }

  /** Squared distance of the tool from the target; nothing where kinematics fail. */
  function SquaredError(p: Problem, q: Joints): real {
    if ErrorAt(p, q) == None then 0.0 else Dot(ErrorAt(p, q).value, ErrorAt(p, q).value)
  }

  predicate Converged(p: Problem, q: Joints) {
    SquaredError(p, q) <= p.o.tolerance * p.o.tolerance
  }

  /** Forward kinematics succeeds wherever the iteration can go. */
  ghost predicate FkTotal(p: Problem) {
    forall q :: InBox(p, q) ==> p.m.fk(q).Some?
  }

  /** A joint at a bound that the step pushes further out. */
  predicate Pushes(p: Problem, q: Joints, step: Joints, i: nat)
    requires i < DOF
  {
    (q[i] <= Low(p, i) && step[i] < 0.0) || (q[i] >= High(p, i) && step[i] > 0.0)
  }

  // ---------------------------------------------------------------------------
  // The arguments, joint by joint.

  function JointStatus(p: Problem, i: nat): Status
    requires i < DOF
  {
    if !ValidJoint(p.o, i) then EInval else if Low(p, i) > High(p, i) then EBounds else OK
  }

  /** What the first n joints answer: the first complaint counts. */
  function Checked(p: Problem, n: nat): Status
    requires n <= DOF
  {
    if n == 0 then OK else if Checked(p, n - 1) != OK then Checked(p, n - 1) else JointStatus(p, n - 1)
  }

  lemma {:induction false} CheckedOk(p: Problem, n: nat)
    requires n <= DOF
    ensures Checked(p, n) == OK <==> forall i :: 0 <= i < n ==> ValidJoint(p.o, i) && Low(p, i) <= High(p, i)
  {
    hide ValidJoint, Low, High;
    if n > 0 {
      CheckedOk(p, n - 1);
    }
  }

  lemma {:induction false} CheckedStays(p: Problem, n: nat, m: nat)
    requires n <= m <= DOF && Checked(p, n) != OK
    ensures Checked(p, m) == Checked(p, n)
  {
    if n < m {
      CheckedStays(p, n, m - 1);
    }
  }

  method ClampSeed(p: Problem) returns (status: Status, q: Joints)
    ensures status == Checked(p, DOF) && (status == OK ==> q == ClampedSeed(p))
  {
    hide ValidJoint, Clamp;
    q := p.o.seed;
    var values: seq<real> := [];
    for i := 0 to DOF
      invariant |values| == i && Checked(p, i) == OK && forall j :: 0 <= j < i ==> values[j] == Clamp(p, j, p.o.seed[j])
    {
      if !ValidJoint(p.o, i) {
        CheckedStays(p, i + 1, DOF);
        return EInval, q;
      }
      if Low(p, i) > High(p, i) {
        CheckedStays(p, i + 1, DOF);
        return EBounds, q;
      }
      values := values + [Clamp(p, i, p.o.seed[i])];
    }
    return OK, values;
  }

  // ---------------------------------------------------------------------------
  // The active set.

  const ALL: set<nat> := {0, 1, 2, 3, 4, 5, 6}

  lemma ActiveBound(active: set<nat>)
    requires active <= ALL
    ensures |active| <= DOF
    ensures |active| == DOF ==> active == ALL
  {
    assert |ALL| == DOF;
    SubsetSize(active, ALL);
  }

  lemma SubsetSize(a: set<nat>, b: set<nat>)
    requires a <= b
    ensures |a| <= |b| && (|a| == |b| ==> a == b)
  {
    assert b == a + (b - a);
  }

  /** The least-squares task at an iterate. */
  function TaskAt(p: Problem, q: Joints, active: set<nat>): (t: Task)
    requires p.m.fk(q).Some? && p.m.jacobian(q).Some?
    ensures ValidOptions(p.o) ==> Weighted(t)
    ensures t.active == active
  {
    var c, error := p.m.jacobian(q).value, ErrorAt(p, q).value;
    TaskOf(c, p.o, q, error, p.m.sigma(c, p.o.weight, active), p.m.length(error), active)
  }

  /** Grows the active set until no inactive joint is pushed out of the box.  Each pass that
      continues adds a joint, so the eighth always settles. */
  method SettleActiveSet(p: Problem, q: Joints) returns (active: set<nat>, result: StepResult)
    requires ValidOptions(p.o) && p.m.fk(q).Some? && p.m.jacobian(q).Some?
    ensures active <= ALL && Answers(TaskAt(p, q, active), result)
    ensures result.Stepped? ==> forall i :: 0 <= i < DOF ==> !Pushes(p, q, result.step, i)
    ensures result.Stepped? ==> forall i :: 0 <= i < DOF ==>
              && (q[i] <= p.m.lower[i] + p.o.margin ==> result.step[i] >= 0.0)
              && (q[i] >= p.m.upper[i] - p.o.margin ==> result.step[i] <= 0.0)
  {
    hide Answers, ValidOptions;
    var c, error := p.m.jacobian(q).value, ErrorAt(p, q).value;
    active := {};
    for pass := 0 to DOF + 1
      invariant active <= ALL && |active| >= pass
    {
      result := ComputeStep(c, p.o, q, error, p.m.sigma(c, p.o.weight, active), p.m.length(error), active);
      ActiveBound(active);
      if result.StepFailed? {
        return;
      }
      var next := GrowActive(p, q, result.step, active);
      SubsetSize(active, next);
      if next == active {
        SettledSet(p, q, TaskAt(p, q, active), result);
        return;
      }
      active := next;
    }
    ActiveBound(active);
    assert false;
  }

  method GrowActive(p: Problem, q: Joints, step: Joints, active: set<nat>) returns (next: set<nat>)
    requires active <= ALL
    ensures active <= next <= ALL
    ensures forall i :: 0 <= i < DOF ==> (i in next <==> i in active || Pushes(p, q, step, i))
  {
    next := active;
    for i := 0 to DOF
      invariant active <= next <= ALL
      invariant forall j :: 0 <= j < i ==> (j in next <==> j in active || Pushes(p, q, step, j))
      invariant forall j :: i <= j < DOF ==> (j in next <==> j in active)
    {
      if Pushes(p, q, step, i) {
        next := next + {i};
      }
    }
  }

  lemma SettledSet(p: Problem, q: Joints, t: Task, r: StepResult)
    requires Weighted(t) && Answers(t, r) && r.Stepped?
    requires forall i :: 0 <= i < DOF && Pushes(p, q, r.step, i) ==> i in t.active
    ensures forall i :: 0 <= i < DOF ==>
              && !Pushes(p, q, r.step, i)
              && (q[i] <= p.m.lower[i] + p.o.margin ==> r.step[i] >= 0.0)
              && (q[i] >= p.m.upper[i] - p.o.margin ==> r.step[i] <= 0.0)
  {
    assert Pinned(t, r.step);
    hide Answers;
  }

  // ---------------------------------------------------------------------------
  // One iteration's line search.

  function MaxAbs(step: Joints, n: nat): real
    requires n <= DOF
  {
    if n == 0 then 0.0 else Max(MaxAbs(step, n - 1), Abs(step[n - 1]))
  }

  lemma {:induction false} MaxAbsBounds(step: Joints, n: nat, i: nat)
    requires i < n <= DOF
    ensures Abs(step[i]) <= MaxAbs(step, n)
  {
    if i < n - 1 {
      MaxAbsBounds(step, n - 1, i);
    }
  }

  /** Room left in the direction of the step. */
  function Available(p: Problem, q: Joints, step: Joints, i: nat): real
    requires i < DOF
  {
    if step[i] > 0.0 then High(p, i) - q[i] else q[i] - Low(p, i)
  }

  /** This much of the step moves no joint further than allowed, nor out of the box. */
  predicate Fits(p: Problem, q: Joints, step: Joints, alpha: real, i: nat)
    requires i < DOF
  {
    && Times(alpha, Abs(step[i])) <= p.o.maxStep
    && (step[i] != 0.0 ==> Times(alpha, Abs(step[i])) <= Available(p, q, step, i))
  }

  predicate Roomy(p: Problem, q: Joints, step: Joints, alpha: real) {
    alpha >= 0.0 && forall i :: 0 <= i < DOF ==> Fits(p, q, step, alpha, i)
  }

  lemma WithinQuotient(alpha: real, x: real, y: real, d: real)
    requires 0.0 <= alpha && 0.0 <= x <= d && d > 0.0 && alpha <= y / d
    ensures Times(alpha, x) <= y
  {
    var gap := MulMonotone(alpha, x, d);
    var more := MulMonotone(d, alpha, y / d);
    Quotient(y, d);
    assert d * (y / d) == y;
  }

  lemma QuotientsFit(p: Problem, q: Joints, step: Joints, largest: real, alpha: real)
    requires largest > 0.0 && largest == MaxAbs(step, DOF) && 0.0 <= alpha <= p.o.maxStep / largest
    requires forall i :: 0 <= i < DOF && step[i] != 0.0 ==> alpha <= Available(p, q, step, i) / Abs(step[i])
    ensures Roomy(p, q, step, alpha)
  {
    hide Times, Available, MaxAbs;
    forall i | 0 <= i < DOF
      ensures Fits(p, q, step, alpha, i)
    {
      MaxAbsBounds(step, DOF, i);
      WithinQuotient(alpha, Abs(step[i]), p.o.maxStep, largest);
      if step[i] != 0.0 {
        WithinQuotient(alpha, Abs(step[i]), Available(p, q, step, i), Abs(step[i]));
      }
    }
  }

  /** The longest fraction of the step that stays in the box, capped by the joint step limit;
      from inside the box there is always room. */
  method InitialAlpha(p: Problem, q: Joints, step: Joints, largest: real) returns (alpha: real, blocked: bool)
    requires InBox(p, q) && largest == MaxAbs(step, DOF) && largest > 0.0 && p.o.maxStep > 0.0
    ensures !blocked && alpha <= 1.0 && Roomy(p, q, step, alpha)
  {
    hide MaxAbs;
    QuotientNonNegative(p.o.maxStep, largest);
    alpha, blocked := Min(1.0, p.o.maxStep / largest), false;
    for i := 0 to DOF
      invariant 0.0 <= alpha <= 1.0 && alpha <= p.o.maxStep / largest && !blocked
      invariant forall j :: 0 <= j < i && step[j] != 0.0 ==> alpha <= Available(p, q, step, j) / Abs(step[j])
    {
      if step[i] != 0.0 {
        var available := Available(p, q, step, i);
        if available < 0.0 {
          blocked := true;
          break;
        }
        QuotientNonNegative(available, Abs(step[i]));
        alpha := Min(alpha, available / Abs(step[i]));
      }
    }
    QuotientsFit(p, q, step, largest, alpha);
  }

  /** One joint of a candidate, clamped into its range. */
  function Advanced(p: Problem, q: Joints, step: Joints, alpha: real, i: nat): real
    requires i < DOF
  {
    Clamp(p, i, q[i] + Times(alpha, step[i]))
  }

  function Candidate(p: Problem, q: Joints, step: Joints, alpha: real): Joints {
    seq(DOF, i requires 0 <= i < DOF => Advanced(p, q, step, alpha, i))
  }

  lemma CandidateInBox(p: Problem, q: Joints, step: Joints, alpha: real)
    requires BoxExists(p)
    ensures InBox(p, Candidate(p, q, step, alpha))
  {
    var c := Candidate(p, q, step, alpha);
    forall i | 0 <= i < DOF
      ensures Low(p, i) <= c[i] <= High(p, i)
    {
      assert c[i] == Advanced(p, q, step, alpha, i);
    }
  }

  /** `next` lies on the step from `q`, this far along, and no joint moves further than allowed. */
  predicate Along(p: Problem, q: Joints, step: Joints, alpha: real, next: Joints) {
    forall i :: 0 <= i < DOF ==> JointAlong(p, q, step, alpha, next, i)
  }

  predicate JointAlong(p: Problem, q: Joints, step: Joints, alpha: real, next: Joints, i: nat)
    requires i < DOF
  {
    next[i] == q[i] + Times(alpha, step[i]) && Abs(next[i] - q[i]) <= p.o.maxStep
  }

  lemma TimesAbs(alpha: real, x: real)
    requires alpha >= 0.0
    ensures Times(alpha, Abs(x)) == Abs(Times(alpha, x))
    ensures (x > 0.0 ==> Times(alpha, x) == Times(alpha, Abs(x))) && (x < 0.0 ==> Times(alpha, x) == -Times(alpha, Abs(x)))
    ensures x == 0.0 ==> Times(alpha, x) == 0.0
    ensures Times(alpha, Abs(x)) >= 0.0
  {
    MulNonNegative(alpha, Abs(x));
    assert x < 0.0 ==> alpha * (-x) == -(alpha * x);
  }

  /** Where there is room the clamp changes nothing. */
  lemma RoomyIsAlong(p: Problem, q: Joints, step: Joints, alpha: real)
    requires BoxExists(p) && InBox(p, q) && Roomy(p, q, step, alpha)
    ensures Along(p, q, step, alpha, Candidate(p, q, step, alpha))
  {
    hide Times;
    var c := Candidate(p, q, step, alpha);
    forall i | 0 <= i < DOF
      ensures JointAlong(p, q, step, alpha, c, i)
    {
      assert Fits(p, q, step, alpha, i);
      TimesAbs(alpha, step[i]);
      assert Low(p, i) <= q[i] <= High(p, i);
      assert c[i] == Clamp(p, i, q[i] + Times(alpha, step[i]));
    }
  }

  lemma HalfTimes(alpha: real, x: real)
    requires alpha >= 0.0 && x >= 0.0
    ensures Times(alpha * 0.5, x) <= Times(alpha, x)
  {
    MulNonNegative(alpha, x);
    assert alpha * 0.5 * x == 0.5 * (alpha * x);
  }

  lemma HalfIsRoomy(p: Problem, q: Joints, step: Joints, alpha: real)
    requires Roomy(p, q, step, alpha)
    ensures Roomy(p, q, step, alpha * 0.5)
  {
    hide Times, Available;
    var half := alpha * 0.5;
    forall i | 0 <= i < DOF
      ensures Fits(p, q, step, half, i)
    {
      assert Fits(p, q, step, alpha, i);
      HalfTimes(alpha, Abs(step[i]));
    }
  }

  lemma HalvingDescends(alpha: real)
    requires alpha >= ALPHA_MIN
    ensures 0 <= (alpha * 0.5 / ALPHA_MIN).Floor < (alpha / ALPHA_MIN).Floor
  {
    var x := alpha / ALPHA_MIN;
    assert x >= 1.0;
    assert alpha * 0.5 / ALPHA_MIN == x * 0.5;
  }

  /** Some part of the step leads from q to next. */
  ghost predicate PartWay(p: Problem, q: Joints, step: Joints, next: Joints) {
    exists alpha :: ALPHA_MIN <= alpha <= 1.0 && Along(p, q, step, alpha, next)
  }

  /** Halves the step until the error falls; gives up below the smallest fraction. */
  method LineSearch(p: Problem, q: Joints, step: Joints, start: real) returns (accepted: bool, next: Joints, ok: bool)
    requires BoxExists(p) && InBox(p, q) && start <= 1.0 && Roomy(p, q, step, start)
    ensures accepted ==> ok && InBox(p, next) && p.m.fk(next).Some? && SquaredError(p, next) < SquaredError(p, q)
    ensures accepted ==> PartWay(p, q, step, next)
    ensures !accepted ==> next == q
    ensures FkTotal(p) ==> ok
  {
    hide InBox, SquaredError, Roomy, Along;
    accepted, next, ok := false, q, true;
    var alpha := start;
    while alpha >= ALPHA_MIN
      invariant !accepted && next == q && ok && alpha <= 1.0 && Roomy(p, q, step, alpha)
      decreases if alpha >= ALPHA_MIN then (alpha / ALPHA_MIN).Floor + 1 else 0
    {
      var candidate := Candidate(p, q, step, alpha);
      CandidateInBox(p, q, step, alpha);
      if p.m.fk(candidate) == None {
        ok := false;
        return;
      }
      if SquaredError(p, candidate) < SquaredError(p, q) {
        RoomyIsAlong(p, q, step, alpha);
        accepted, next := true, candidate;
        return;
      }
      HalvingDescends(alpha);
      HalfIsRoomy(p, q, step, alpha);
      alpha := alpha * 0.5;
    }
  }

  // ---------------------------------------------------------------------------
  // The solver.

  /** One accepted step: part of a least-squares step that pushes no joint out of the box, to a
      pose that is strictly closer. */
  ghost predicate Accepted(p: Problem, q: Joints, next: Joints) {
    && p.m.fk(q).Some? && p.m.fk(next).Some? && p.m.jacobian(q).Some?
    && SquaredError(p, next) < SquaredError(p, q)
    && exists active, step :: StepsTo(p, q, active, step, next)
  }

  ghost predicate StepsTo(p: Problem, q: Joints, active: set<nat>, step: Joints, next: Joints)
    requires p.m.fk(q).Some? && p.m.jacobian(q).Some?
  {
    && Least(TaskAt(p, q, active), step) && PartWay(p, q, step, next)
    && forall i :: 0 <= i < DOF ==> !Pushes(p, q, step, i)
  }

  /** Every accepted iterate, oldest first: all in the box, each strictly closer than the ones
      before, each reached from the last by part of a least-squares step. */
  ghost predicate Descends(p: Problem, path: seq<Joints>) {
    && path != [] && path[0] == ClampedSeed(p)
    && (forall i :: 0 <= i < |path| ==> InBox(p, path[i]))
    && (forall i, j :: 0 <= i < j < |path| ==> SquaredError(p, path[j]) < SquaredError(p, path[i]))
    && (forall i :: 0 <= i < |path| - 1 ==> Accepted(p, path[i], path[i + 1]))
  }

  /** Reached from the clamped seed by at most so many accepted steps. */
  ghost predicate DescendedTo(p: Problem, q: Joints, steps: nat) {
    exists path :: Descends(p, path) && path[|path| - 1] == q && |path| <= steps + 1
  }

  lemma DescentExtends(p: Problem, path: seq<Joints>, q: Joints)
    requires Descends(p, path) && InBox(p, q) && Accepted(p, path[|path| - 1], q)
    ensures Descends(p, path + [q])
  {
    assert SquaredError(p, q) < SquaredError(p, path[|path| - 1]);
    hide SquaredError, InBox, Accepted;
  }

  lemma SeedDescends(p: Problem)
    requires BoxExists(p)
    ensures Descends(p, [ClampedSeed(p)])
  {
  }

  /** How one iteration ends: with the next iterate, or with the status that ends the loop. */
  datatype Iteration = Moved(q: Joints) | Ended(status: Status)

  /** One pass of the loop body from an iterate in the box. */
  method Iterate(p: Problem, q: Joints, before: set<nat>) returns (r: Iteration, active: set<nat>)
    requires BoxExists(p) && InBox(p, q) && ValidOptions(p.o) && before <= ALL
    ensures r.Moved? ==> InBox(p, r.q) && Accepted(p, q, r.q)
    ensures r.Ended? && r.status == OK ==> p.m.fk(q).Some? && Converged(p, q)
    ensures r.Ended? ==> r.status != EBounds && r.status != EBudget && r.status != EInval
    ensures FkTotal(p) && p.m.jacobian(q).Some? && Converged(p, q) ==> r == Ended(OK)
    ensures active <= ALL
  {
    hide InBox, SquaredError, Pushes, Candidate, Roomy, Least, PartWay, TaskAt, MaxAbs;
    active := before;
    if p.m.fk(q) == None || p.m.jacobian(q) == None {
      return Ended(EKinematics), active;
    }
    if Converged(p, q) {
      return Ended(OK), active;
    }
    var result;
    active, result := SettleActiveSet(p, q);
    if result.StepFailed? {
      return Ended(result.status), active;
    }
    var stuck := if active != {} then EStagnatedAtBounds else ENoConvergence;
    if active == ALL {
      return Ended(EStagnatedAtBounds), active;
    }
    var largest := MaxAbs(result.step, DOF);
    if largest < NO_STEP {
      return Ended(stuck), active;
    }
    var alpha, blocked := InitialAlpha(p, q, result.step, largest);
    if blocked {
      r := Ended(EBounds);
    } else if alpha < ALPHA_MIN {
      r := Ended(stuck);
    } else {
      var accepted, next, ok := LineSearch(p, q, result.step, alpha);
      assert accepted ==> StepsTo(p, q, active, result.step, next);
      r := if !ok then Ended(EKinematics) else if accepted then Moved(next) else Ended(stuck);
    }
  }

  /** The final word: within tolerance and feasible is success, whatever ended the loop. */
  function FinalStatus(p: Problem, q: Joints, status: Status): Status {
    if Converged(p, q) && InBox(p, q) then OK
    else if p.m.fk(q) == None then ENonFinite
    else if status == OK then EBounds
    else status
  }

  /** A failed evaluation leaves the error at zero, which is within tolerance. */
  lemma FailureConverges(p: Problem, q: Joints)
    ensures p.m.fk(q) == None ==> Converged(p, q)
  {
    SquareSign(p.o.tolerance);
  }

  /** Joint i of the arguments is usable: seed and posture within a hundred radians, a weight that
      is neither negligible nor huge, and limits that leave room between their margins. */
  predicate Usable(p: Problem, i: nat)
    requires i < DOF
  {
    && -100.0 <= p.o.seed[i] <= 100.0 && -100.0 <= p.o.posture[i] <= 100.0
    && 0.000000001 <= p.o.weight[i] <= 1000000000.0
    && p.m.lower[i] + p.o.margin <= p.m.upper[i] - p.o.margin
  }

  /** The arguments pass exactly if every joint is usable; otherwise the first that is not decides,
      by its values before its limits. */
  lemma ArgumentsExactly(p: Problem)
    ensures Checked(p, DOF) == OK <==> forall i :: 0 <= i < DOF ==> Usable(p, i)
    ensures Checked(p, DOF) != OK ==>
              exists i :: 0 <= i < DOF && !Usable(p, i) && (forall j :: 0 <= j < i ==> Usable(p, j))
                          && Checked(p, DOF) == (if p.m.lower[i] + p.o.margin <= p.m.upper[i] - p.o.margin || !ValidJoint(p.o, i)
                                                 then EInval else EBounds)
  {
    CheckedOk(p, DOF);
    UsableIs(p);
    FirstComplaint(p, DOF);
  }

  lemma UsableIs(p: Problem)
    ensures forall i :: 0 <= i < DOF ==> (Usable(p, i) <==> ValidJoint(p.o, i) && Low(p, i) <= High(p, i))
  {
  }

  lemma {:induction false} FirstComplaint(p: Problem, n: nat)
    requires n <= DOF
    ensures Checked(p, n) != OK ==>
              exists i :: 0 <= i < n && !Usable(p, i) && (forall j :: 0 <= j < i ==> Usable(p, j))
                          && Checked(p, n) == (if p.m.lower[i] + p.o.margin <= p.m.upper[i] - p.o.margin || !ValidJoint(p.o, i)
                                               then EInval else EBounds)
  {
    hide ValidJoint;
    UsableIs(p);
    if n > 0 {
      if Checked(p, n - 1) != OK {
        FirstComplaint(p, n - 1);
      } else {
        CheckedOk(p, n - 1);
      }
    }
  }

  /** The joints are inside their limits by the margin. */
  predicate Inside(p: Problem, q: Joints) {
    forall i :: 0 <= i < DOF ==> p.m.lower[i] + p.o.margin <= q[i] <= p.m.upper[i] - p.o.margin
  }

  /** The tool is within the tolerance of the target. */
  predicate ToolThere(p: Problem, tool: Vec3) {
    var x, y, z := tool.x - p.target.x, tool.y - p.target.y, tool.z - p.target.z;
    x * x + y * y + z * z <= p.o.tolerance * p.o.tolerance
  }

  lemma ConvergedIs(p: Problem, q: Joints)
    ensures p.m.fk(q).Some? ==> (Converged(p, q) <==> ToolThere(p, p.m.fk(q).value))
    ensures InBox(p, q) <==> Inside(p, q)
  {
  }

  /** The least-squares task of an iterate: the tool is to go from where it is to the target, the
      joints are drawn towards the posture in proportion to the distance left, and the damping
      rises towards singular poses. */
  lemma TaskMeans(p: Problem, q: Joints, active: set<nat>)
    requires p.m.fk(q).Some? && p.m.jacobian(q).Some?
    ensures var t, tool := TaskAt(p, q, active), p.m.fk(q).value;
            var sigma := p.m.sigma(p.m.jacobian(q).value, p.o.weight, active);
            && t.error == Vec3(p.target.x - tool.x, p.target.y - tool.y, p.target.z - tool.z)
            && t.columns == p.m.jacobian(q).value && t.weight == p.o.weight && t.active == active
            && (forall i :: 0 <= i < DOF ==> t.pull[i] == 0.1 * p.m.length(t.error) * (p.o.posture[i] - q[i]))
            && (p.o.dampingMin <= p.o.dampingMax ==> p.o.dampingMin <= t.damping <= p.o.dampingMax)
            && (p.o.dampingMin <= p.o.dampingMax && sigma >= 0.03 ==> t.damping == p.o.dampingMin)
            && (p.o.dampingMin <= p.o.dampingMax && sigma <= 0.0 ==> t.damping == p.o.dampingMax)
  {
    if p.o.dampingMin <= p.o.dampingMax {
      DampingBetween(p.o, p.m.sigma(p.m.jacobian(q).value, p.o.weight, active));
    }
    hide Damping;
  }

  /** Solves for a joint vector.  The result lies in the margin box and is never further from
      the target than the clamped seed; it is reached by strictly improving parts of
      least-squares steps; OK is returned exactly when the final error is within tolerance, and
      an OK is backed by an evaluation exactly when kinematics succeed at the clamped seed. */
  method Solve(m: Model, target: Vec3, o: Options) returns (d: Diagnostics)
    ensures var p := Problem(m, target, o);
            if !ValidTarget(target) || !ValidScalars(o) then d.status == EInval
            else if Checked(p, DOF) != OK then d.status == Checked(p, DOF)
            else
              && DescendedTo(p, d.q, d.iterations)
              && InBox(p, d.q) && SquaredError(p, d.q) <= SquaredError(p, ClampedSeed(p))
              && d.iterations <= o.maxIterations && d.active <= ALL
              && (d.status == OK <==> Converged(p, d.q))
              && (m.fk(d.q).Some? <==> m.fk(ClampedSeed(p)).Some?)
              && ((d.status == OK ==> m.fk(d.q).Some? && Converged(p, d.q)) <==> m.fk(ClampedSeed(p)).Some?)
              && Inside(p, d.q) && (m.fk(d.q).Some? ==> (d.status == OK <==> ToolThere(p, m.fk(d.q).value)))
              && d.status != EBounds && d.status != EInval
              && (d.iterations == o.maxIterations && !Converged(p, d.q) && m.fk(d.q).Some? <==> d.status == EBudget)
  {
    hide InBox, SquaredError, ValidJoint, Accepted, ClampedSeed, Low, High, Converged, Inside, ToolThere;
    var p := Problem(m, target, o);
    d := Diagnostics(o.seed, 0, {}, EInval);
    if !ValidTarget(target) || !ValidScalars(o) {
      return;
    }
    var checked, q := ClampSeed(p);
    CheckedOk(p, DOF);
    if checked != OK {
      d := d.(status := checked);
      return;
    }
    var active, status, iteration := {}, ENoConvergence, 0;
    ghost var path := [q];
    SeedDescends(p);
    var running := true;
    while iteration < o.maxIterations && running
      invariant iteration <= o.maxIterations && |path| <= iteration + 1 && active <= ALL
      invariant Descends(p, path) && path[|path| - 1] == q
      invariant m.fk(q).Some? <==> m.fk(ClampedSeed(p)).Some?
      invariant !running ==> (status == OK ==> Converged(p, q)) && status != EBounds && status != EBudget && status != EInval
      invariant !running ==> iteration < o.maxIterations
      decreases o.maxIterations - iteration, running
    {
      var r;
      r, active := Iterate(p, q, active);
      match r
      case Moved(next) =>
        AcceptedFk(p, q, next);
        DescentExtends(p, path, next);
        q, path, iteration := next, path + [next], iteration + 1;
      case Ended(s) =>
        status, running := s, false;
    }
    if iteration == o.maxIterations {
      status := EBudget;
    }
    FailureConverges(p, q);
    ConvergedIs(p, q);
    d := Diagnostics(q, iteration, active, FinalStatus(p, q, status));
  }

  lemma AcceptedFk(p: Problem, q: Joints, next: Joints)
    requires Accepted(p, q, next)
    ensures p.m.fk(q).Some? && p.m.fk(next).Some?
  {
  }

  /** A solver whose kinematics fail at the clamped seed reports success without one successful
      evaluation. */
  method SolveBlind(m: Model, target: Vec3, o: Options) returns (d: Diagnostics)
    requires ValidTarget(target) && ValidScalars(o) && Checked(Problem(m, target, o), DOF) == OK
    requires m.fk(ClampedSeed(Problem(m, target, o))) == None
    ensures d.status == OK && m.fk(d.q) == None
  {
    d := Solve(m, target, o);
    FailureConverges(Problem(m, target, o), d.q);
  }
}
