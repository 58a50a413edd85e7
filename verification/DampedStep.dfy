/** The step of the position solver: damped least squares over the joints that may move, with
    a pull towards a preferred posture.

    `ComputeStep` is the source's loops over a Gram matrix and one linear solve per joint.
    `OptimalIsLeast` says what comes out: no other step of those joints makes the linearised
    error plus the damped, weighted distance from the pull smaller. */
module DampedStep {
  import opened Common
  import opened RealFacts
  import opened Geometry
  import opened LinearSolve

  const DOF: nat := 7
  const WEIGHT_MIN: real := 0.000000001
  const WEIGHT_MAX: real := 1000000000.0
  const POSTURE_MAX: real := 100.0
  const WEAK: real := 0.03
  const ZERO: Vec3 := Vec3(0.0, 0.0, 0.0)

  type Joints = q: seq<real> | |q| == DOF witness [0.0, 0.0, 0.0, 0.0, 0.0, 0.0, 0.0]

  datatype Status = OK | EInval | EBounds | ENoConvergence | EStagnatedAtBounds | EBudget | ENonFinite | ESingular | EKinematics

  datatype Options = Options(
    seed: Joints, posture: Joints, weight: Joints, tolerance: real, maxStep: real, dampingMin: real, dampingMax: real,
    margin: real, maxIterations: nat)

  datatype StepResult = Stepped(step: Joints) | StepFailed(status: Status)

  predicate ValidScalars(o: Options) {
    && o.maxIterations > 0 && 0.000000000001 <= o.tolerance <= 1.0 && 0.000000000001 <= o.maxStep <= 3.141592653589793
    && 0.0 <= o.dampingMin <= o.dampingMax <= 1.0 && o.margin >= 0.0
  }

  predicate ValidJoint(o: Options, i: nat)
    requires i < DOF
  {
    Abs(o.seed[i]) <= POSTURE_MAX && Abs(o.posture[i]) <= POSTURE_MAX && WEIGHT_MIN <= o.weight[i] <= WEIGHT_MAX
  }

  predicate ValidOptions(o: Options) {
    ValidScalars(o) && forall i :: 0 <= i < DOF ==> ValidJoint(o, i)
  }

  /** The translational Jacobian, one column a joint. */
  type Columns = c: seq<Vec3> | |c| == DOF witness [ZERO, ZERO, ZERO, ZERO, ZERO, ZERO, ZERO]

  /** One step to compute: `pull` is where the posture draws each joint, joints in `active` are
      pinned at a bound. */
  datatype Task = Task(columns: Columns, weight: Joints, error: Vec3, pull: Joints, damping: real, active: set<nat>)

  predicate Weighted(t: Task) {
    forall i :: 0 <= i < DOF ==> t.weight[i] > 0.0
  }

  // ---------------------------------------------------------------------------
  // What a step is for.

  function Plus(a: Vec3, b: Vec3): Vec3 {
    Vec3(a.x + b.x, a.y + b.y, a.z + b.z)
  }

  function Stretch(k: real, v: Vec3): Vec3 {
    Vec3(Times(k, v.x), Times(k, v.y), Times(k, v.z))
  }

  /** How far the first n joints move the tool, to first order. */
  function Move(t: Task, z: Joints, n: nat): Vec3
    requires n <= DOF
  {
    if n == 0 then ZERO
    else if n - 1 in t.active then Move(t, z, n - 1)
    else Plus(Move(t, z, n - 1), Stretch(z[n - 1], t.columns[n - 1]))
  }

  /** What a step leaves of the error, to first order. */
  function Residual(t: Task, z: Joints): Vec3 {
    Subtract(t.error, Move(t, z, DOF))
  }

  /** The weighted squared distance from the pull, over the first n joints. */
  function Effort(t: Task, z: Joints, n: nat): real
    requires n <= DOF
  {
    if n == 0 then 0.0
    else if n - 1 in t.active then Effort(t, z, n - 1)
    else Effort(t, z, n - 1) + Times(t.weight[n - 1], Times(z[n - 1] - t.pull[n - 1], z[n - 1] - t.pull[n - 1]))
  }

  /** The linearised squared error, and the effort as far as the step is damped. */
  function Objective(t: Task, z: Joints): real {
    Dot(Residual(t, z), Residual(t, z)) + Times(Square(t.damping), Effort(t, z, DOF))
  }

  /** A step that leaves the pinned joints alone. */
  predicate Pinned(t: Task, z: Joints) {
    forall i :: 0 <= i < DOF && i in t.active ==> z[i] == 0.0
  }

  /** No step that leaves the pinned joints alone has a smaller objective. */
  ghost predicate Least(t: Task, x: Joints) {
    Pinned(t, x) && forall z: Joints :: Pinned(t, z) ==> Objective(t, x) <= Objective(t, z)
  }

  /** Some joint may move. */
  predicate Free(t: Task) {
    exists i :: 0 <= i < DOF && i !in t.active
  }

  /** The normal equations, with their common multiplier. */
  predicate Optimal(t: Task, x: Joints, y: Vec3) {
    && Pinned(t, x)
    && (forall i :: 0 <= i < DOF && i !in t.active ==> Times(t.weight[i], x[i] - t.pull[i]) == Dot(t.columns[i], y))
    && Residual(t, x) == Stretch(Square(t.damping), y)
  }

  // ---------------------------------------------------------------------------
  // The normal equations characterise the least objective.

  function Difference(z: Joints, x: Joints): Joints {
    seq(DOF, i requires 0 <= i < DOF => z[i] - x[i])
  }

  /** The weighted square of the first n joints of a step. */
  function Length(t: Task, d: Joints, n: nat): (l: real)
    requires n <= DOF
  {
    if n == 0 then 0.0
    else if n - 1 in t.active then Length(t, d, n - 1)
    else Length(t, d, n - 1) + Times(t.weight[n - 1], Times(d[n - 1], d[n - 1]))
  }

  lemma StretchSum(k: real, l: real, v: Vec3)
    ensures Stretch(k + l, v) == Plus(Stretch(k, v), Stretch(l, v))
  {
  }

  lemma {:induction false} MoveDifference(t: Task, z: Joints, x: Joints, n: nat)
    requires n <= DOF
    ensures Move(t, z, n) == Plus(Move(t, x, n), Move(t, Difference(z, x), n))
  {
    hide Stretch;
    if n > 0 {
      MoveDifference(t, z, x, n - 1);
      StretchSum(x[n - 1], z[n - 1] - x[n - 1], t.columns[n - 1]);
    }
  }

  lemma DotPlus(y: Vec3, a: Vec3, b: Vec3)
    ensures Dot(y, Plus(a, b)) == Dot(y, a) + Dot(y, b)
  {
  }

  lemma DotStretch(y: Vec3, k: real, v: Vec3)
    ensures Dot(y, Stretch(k, v)) == Times(k, Dot(v, y))
  {
  }

  lemma DotZero(y: Vec3)
    ensures Dot(y, ZERO) == 0.0
  {
  }

  /** w (b + d)^2, with v in place of w b. */
  lemma SquareOfSum(w: real, b: real, d: real, v: real)
    requires Times(w, b) == v
    ensures Times(w, Times(b + d, b + d)) == Times(w, Times(b, b)) + 2.0 * Times(d, v) + Times(w, Times(d, d))
  {
    assert w * ((b + d) * (b + d)) == w * (b * b) + 2.0 * (d * (w * b)) + w * (d * d);
  }

  lemma {:induction false} EffortDifference(t: Task, x: Joints, y: Vec3, z: Joints, n: nat)
    requires n <= DOF && Optimal(t, x, y)
    ensures Effort(t, z, n) ==
            Effort(t, x, n) + 2.0 * Dot(y, Move(t, Difference(z, x), n)) + Length(t, Difference(z, x), n)
  {
    hide Times, Dot, Stretch, Plus, Residual;
    var d := Difference(z, x);
    DotZero(y);
    if n > 0 {
      EffortDifference(t, x, y, z, n - 1);
      if n - 1 !in t.active {
        var v := Dot(t.columns[n - 1], y);
        SquareOfSum(t.weight[n - 1], x[n - 1] - t.pull[n - 1], d[n - 1], v);
        DotPlus(y, Move(t, d, n - 1), Stretch(d[n - 1], t.columns[n - 1]));
        DotStretch(y, d[n - 1], t.columns[n - 1]);
      }
    }
  }

  lemma TermNonNegative(w: real, x: real)
    requires w > 0.0
    ensures Times(w, Times(x, x)) >= 0.0
    ensures Times(w, Times(x, x)) <= 0.0 ==> x == 0.0
  {
    SquareSign(x);
    MulNonNegative(w, x * x);
    if x != 0.0 {
      MulPositive(w, x * x);
    }
  }

  lemma {:induction false} LengthSign(t: Task, d: Joints, n: nat)
    requires n <= DOF && Weighted(t)
    ensures Length(t, d, n) >= 0.0
    ensures Length(t, d, n) <= 0.0 ==> forall i :: 0 <= i < n && i !in t.active ==> d[i] == 0.0
  {
    hide Times;
    if n > 0 {
      LengthSign(t, d, n - 1);
      TermNonNegative(t.weight[n - 1], d[n - 1]);
    }
  }

  /** |r - m|^2 where the residual r is k times y. */
  lemma ResidualSquare(r: Vec3, m: Vec3, k: real, y: Vec3)
    requires r == Stretch(k, y)
    ensures Dot(Subtract(r, m), Subtract(r, m)) == Dot(r, r) - 2.0 * Times(k, Dot(y, m)) + Dot(m, m)
  {
    assert Dot(r, m) == k * Dot(y, m);
    assert Dot(Subtract(r, m), Subtract(r, m)) == Dot(r, r) - 2.0 * Dot(r, m) + Dot(m, m);
  }

  lemma TimesSum(k: real, a: real, b: real, c: real)
    ensures Times(k, a + 2.0 * b + c) == Times(k, a) + 2.0 * Times(k, b) + Times(k, c)
  {
  }

  lemma SubtractPlus(e: Vec3, a: Vec3, b: Vec3)
    ensures Subtract(e, Plus(a, b)) == Subtract(Subtract(e, a), b)
  {
  }

  /** The objective of any other step exceeds that of an optimal one by a sum of squares of
      their difference. */
  lemma ObjectiveDifference(t: Task, x: Joints, y: Vec3, z: Joints)
    requires Optimal(t, x, y)
    ensures var d := Difference(z, x);
            Objective(t, z) == Objective(t, x) + Dot(Move(t, d, DOF), Move(t, d, DOF))
                               + Times(Square(t.damping), Length(t, d, DOF))
  {
    hide Times, Dot, Stretch, Plus, Subtract, Move, Effort, Length, Square;
    var d, k := Difference(z, x), Square(t.damping);
    var m := Move(t, d, DOF);
    MoveDifference(t, z, x, DOF);
    SubtractPlus(t.error, Move(t, x, DOF), m);
    ResidualSquare(Residual(t, x), m, k, y);
    EffortDifference(t, x, y, z, DOF);
    TimesSum(k, Effort(t, x, DOF), Dot(y, m), Length(t, d, DOF));
  }

  lemma PinnedDifference(t: Task, z: Joints, x: Joints)
    requires Pinned(t, z) && Pinned(t, x)
    requires forall i :: 0 <= i < DOF && i !in t.active ==> Difference(z, x)[i] == 0.0
    ensures z == x
  {
    forall i | 0 <= i < DOF
      ensures z[i] == x[i]
    {
      assert Difference(z, x)[i] == z[i] - x[i];
    }
  }

  /** A positive factor times a term that is not negative. */
  lemma DampedSign(k: real, l: real)
    requires l >= 0.0
    ensures Times(Square(k), l) >= 0.0
    ensures k != 0.0 && Times(Square(k), l) <= 0.0 ==> l <= 0.0
  {
    SquareSign(k);
    MulNonNegative(k * k, l);
    if k != 0.0 && l > 0.0 {
      MulPositive(k * k, l);
    }
  }

  /** No step of the same joints has a smaller objective, and under damping no other has the
      same; without damping the optimal step is the one nearest to the pull among all that
      move the tool alike. */
  lemma OptimalIsLeast(t: Task, x: Joints, y: Vec3, z: Joints)
    requires Weighted(t) && Optimal(t, x, y) && Pinned(t, z)
    ensures Objective(t, x) <= Objective(t, z)
    ensures t.damping != 0.0 && Objective(t, z) == Objective(t, x) ==> z == x
    ensures Move(t, z, DOF) == Move(t, x, DOF) ==>
              Effort(t, x, DOF) <= Effort(t, z, DOF) && (Effort(t, z, DOF) == Effort(t, x, DOF) ==> z == x)
  {
    hide Times, Dot, Stretch, Move, Effort, Length, Square, Objective, Residual;
    var d := Difference(z, x);
    var m := Move(t, d, DOF);
    ObjectiveDifference(t, x, y, z);
    EffortDifference(t, x, y, z, DOF);
    MoveDifference(t, z, x, DOF);
    DotSelfNonNegative(m);
    LengthSign(t, d, DOF);
    DampedSign(t.damping, Length(t, d, DOF));
    DotZero(y);
    if Length(t, d, DOF) <= 0.0 {
      PinnedDifference(t, z, x);
    }
  }

  // ---------------------------------------------------------------------------
  // The linear systems.

  function Component(v: Vec3, r: nat): real
    requires r < 3
  {
    if r == 0 then v.x else if r == 1 then v.y else v.z
  }

  /** An entry of the Gram matrix of the first n columns that may move. */
  function Gram(t: Task, r: nat, c: nat, n: nat): real
    requires r < 3 && c < 3 && n <= DOF && Weighted(t)
  {
    if n == 0 then 0.0
    else if n - 1 in t.active then Gram(t, r, c, n - 1)
    else Gram(t, r, c, n - 1) + Times(Component(t.columns[n - 1], r), Component(t.columns[n - 1], c)) / t.weight[n - 1]
  }

  function Normal(t: Task, r: nat, c: nat): real
    requires r < 3 && c < 3 && Weighted(t)
  {
    if r == c then Gram(t, r, c, DOF) + Square(t.damping) else Gram(t, r, c, DOF)
  }

  function NormalSystem(t: Task, rhs: Vec3): System
    requires Weighted(t)
  {
    [Row(Normal(t, 0, 0), Normal(t, 0, 1), Normal(t, 0, 2), rhs.x),
     Row(Normal(t, 1, 0), Normal(t, 1, 1), Normal(t, 1, 2), rhs.y),
     Row(Normal(t, 2, 0), Normal(t, 2, 1), Normal(t, 2, 2), rhs.z)]
  }

  /** The Gram matrix of the first n columns applied to y. */
  function GramOf(t: Task, y: Vec3, n: nat): Vec3
    requires n <= DOF && Weighted(t)
  {
    Vec3(Dot(Vec3(Gram(t, 0, 0, n), Gram(t, 0, 1, n), Gram(t, 0, 2, n)), y),
         Dot(Vec3(Gram(t, 1, 0, n), Gram(t, 1, 1, n), Gram(t, 1, 2, n)), y),
         Dot(Vec3(Gram(t, 2, 0, n), Gram(t, 2, 1, n), Gram(t, 2, 2, n)), y))
  }

  lemma SystemMeans(t: Task, rhs: Vec3, v: Vec3)
    requires Weighted(t)
    ensures Solves(NormalSystem(t, rhs), v) <==> Plus(GramOf(t, v, DOF), Stretch(Square(t.damping), v)) == rhs
  {
    hide Gram, Square;
    var k := Square(t.damping);
    RowSum(Gram(t, 0, 0, DOF), Gram(t, 0, 1, DOF), Gram(t, 0, 2, DOF), k, v);
    RowSum(Gram(t, 1, 0, DOF), Gram(t, 1, 1, DOF), Gram(t, 1, 2, DOF), k, v);
    RowSum(Gram(t, 2, 0, DOF), Gram(t, 2, 1, DOF), Gram(t, 2, 2, DOF), k, v);
  }

  lemma RowSum(a: real, b: real, c: real, k: real, v: Vec3)
    ensures (a + k) * v.x + b * v.y + c * v.z == Dot(Vec3(a, b, c), v) + Times(k, v.x)
    ensures a * v.x + (b + k) * v.y + c * v.z == Dot(Vec3(a, b, c), v) + Times(k, v.y)
    ensures a * v.x + b * v.y + (c + k) * v.z == Dot(Vec3(a, b, c), v) + Times(k, v.z)
  {
  }

  function Over(v: Vec3, w: real): Vec3
    requires w != 0.0
  {
    Vec3(v.x / w, v.y / w, v.z / w)
  }

  lemma GramRow(a: real, b: real, c: real, j: Vec3, k: real, w: real, y: Vec3)
    requires w > 0.0
    ensures Dot(Vec3(a + Times(k, j.x) / w, b + Times(k, j.y) / w, c + Times(k, j.z) / w), y)
            == Dot(Vec3(a, b, c), y) + Times(Dot(j, y) / w, k)
  {
    var u := 1.0 / w;
    assert k * j.x / w == k * j.x * u && k * j.y / w == k * j.y * u && k * j.z / w == k * j.z * u;
    assert Dot(j, y) / w == Dot(j, y) * u;
  }

  lemma GramStep(t: Task, y: Vec3, n: nat)
    requires 0 < n <= DOF && Weighted(t) && n - 1 !in t.active
    ensures GramOf(t, y, n) == Plus(GramOf(t, y, n - 1), Stretch(Dot(t.columns[n - 1], y) / t.weight[n - 1], t.columns[n - 1]))
  {
    hide Times, Dot;
    var j, w := t.columns[n - 1], t.weight[n - 1];
    GramRow(Gram(t, 0, 0, n - 1), Gram(t, 0, 1, n - 1), Gram(t, 0, 2, n - 1), j, j.x, w, y);
    GramRow(Gram(t, 1, 0, n - 1), Gram(t, 1, 1, n - 1), Gram(t, 1, 2, n - 1), j, j.y, w, y);
    GramRow(Gram(t, 2, 0, n - 1), Gram(t, 2, 1, n - 1), Gram(t, 2, 2, n - 1), j, j.z, w, y);
  }

  lemma TimesOver(w: real, x: real, v: real)
    requires w > 0.0 && Times(w, x) == v
    ensures x == v / w
  {
  }

  lemma PlusShuffle(a: Vec3, b: Vec3, c: Vec3, d: Vec3)
    ensures Plus(Plus(a, b), Plus(c, d)) == Plus(Plus(a, c), Plus(b, d))
  {
  }

  /** Joints that follow a multiplier move the tool by the pull's part and the Gram matrix's. */
  lemma {:induction false} MoveOfMultiplier(t: Task, x: Joints, y: Vec3, n: nat)
    requires n <= DOF && Weighted(t)
    requires forall i :: 0 <= i < DOF && i !in t.active ==> Times(t.weight[i], x[i] - t.pull[i]) == Dot(t.columns[i], y)
    ensures Move(t, x, n) == Plus(Move(t, t.pull, n), GramOf(t, y, n))
  {
    hide Times, Dot, Stretch;
    if n == 0 {
      DotZero(y);
      GramOfNone(t, y);
    } else {
      MoveOfMultiplier(t, x, y, n - 1);
      if n - 1 in t.active {
        assert GramOf(t, y, n) == GramOf(t, y, n - 1);
      } else {
        var j, g := t.columns[n - 1], t.pull[n - 1];
        TimesOver(t.weight[n - 1], x[n - 1] - g, Dot(j, y));
        StretchSum(g, x[n - 1] - g, j);
        GramStep(t, y, n);
        PlusShuffle(Move(t, t.pull, n - 1), GramOf(t, y, n - 1), Stretch(g, j), Stretch(x[n - 1] - g, j));
      }
    }
  }

  lemma GramOfNone(t: Task, y: Vec3)
    requires Weighted(t)
    ensures GramOf(t, y, 0) == ZERO
  {
  }

  lemma {:induction false} GramSymmetric(t: Task, r: nat, c: nat, n: nat)
    requires r < 3 && c < 3 && n <= DOF && Weighted(t)
    ensures Gram(t, r, c, n) == Gram(t, c, r, n)
  {
    hide Component;
    if n > 0 {
      GramSymmetric(t, r, c, n - 1);
      TimesCommute(Component(t.columns[n - 1], r), Component(t.columns[n - 1], c));
      hide Times;
    }
  }

  lemma TimesCommute(a: real, b: real)
    ensures Times(a, b) == Times(b, a)
  {
  }

  lemma SymmetricDot(a: Vec3, b: Vec3, xx: real, xy: real, xz: real, yy: real, yz: real, zz: real)
    ensures Dot(a, Vec3(Dot(Vec3(xx, xy, xz), b), Dot(Vec3(xy, yy, yz), b), Dot(Vec3(xz, yz, zz), b)))
            == Dot(Vec3(Dot(Vec3(xx, xy, xz), a), Dot(Vec3(xy, yy, yz), a), Dot(Vec3(xz, yz, zz), a)), b)
  {
  }

  /** The matrix of the normal system is symmetric. */
  lemma SystemSymmetric(t: Task, a: Vec3, b: Vec3, k: real)
    requires Weighted(t)
    ensures Dot(a, Plus(GramOf(t, b, DOF), Stretch(k, b))) == Dot(Plus(GramOf(t, a, DOF), Stretch(k, a)), b)
  {
    hide Gram, Dot, Times, Stretch, Plus;
    GramSymmetric(t, 0, 1, DOF);
    GramSymmetric(t, 0, 2, DOF);
    GramSymmetric(t, 1, 2, DOF);
    SymmetricDot(a, b, Gram(t, 0, 0, DOF), Gram(t, 0, 1, DOF), Gram(t, 0, 2, DOF), Gram(t, 1, 1, DOF),
                 Gram(t, 1, 2, DOF), Gram(t, 2, 2, DOF));
    DotPlus(a, GramOf(t, b, DOF), Stretch(k, b));
    DotPlus(b, GramOf(t, a, DOF), Stretch(k, a));
    DotStretch(a, k, b);
    DotStretch(b, k, a);
    DotCommutes(a, b);
    DotCommutes(GramOf(t, a, DOF), b);
    DotCommutes(Plus(GramOf(t, a, DOF), Stretch(k, a)), b);
  }

  lemma DotCommutes(a: Vec3, b: Vec3)
    ensures Dot(a, b) == Dot(b, a)
  {
  }

  lemma OverTimes(j: Vec3, w: real, y: Vec3)
    requires w > 0.0
    ensures Times(w, Dot(Over(j, w), y)) == Dot(j, y)
  {
    assert w * (j.x / w) == j.x && w * (j.y / w) == j.y && w * (j.z / w) == j.z;
    var a, b, c := j.x / w, j.y / w, j.z / w;
    assert w * (a * y.x + b * y.y + c * y.z) == (w * a) * y.x + (w * b) * y.y + (w * c) * y.z;
  }

  // ---------------------------------------------------------------------------
  // The step the source computes.

  /** The error the pull leaves. */
  function Remaining(t: Task): Vec3 {
    Subtract(t.error, Move(t, t.pull, DOF))
  }

  /** Joint i of the step, given the solution of its own system. */
  predicate JointStep(t: Task, x: Joints, i: nat, inverse: Vec3)
    requires i < DOF && Weighted(t)
  {
    Solves(NormalSystem(t, Over(t.columns[i], t.weight[i])), inverse) && x[i] == t.pull[i] + Dot(inverse, Remaining(t))
  }

  lemma FollowsMultiplier(t: Task, x: Joints, i: nat, inverse: Vec3, y: Vec3)
    requires i < DOF && Weighted(t) && JointStep(t, x, i, inverse) && Solves(NormalSystem(t, Remaining(t)), y)
    ensures Times(t.weight[i], x[i] - t.pull[i]) == Dot(t.columns[i], y)
  {
    hide Solves, Dot, Times, Remaining, GramOf, NormalSystem, Plus, Stretch, Over, Square;
    var rhs, k := Over(t.columns[i], t.weight[i]), Square(t.damping);
    SystemMeans(t, Remaining(t), y);
    SystemMeans(t, rhs, inverse);
    SystemSymmetric(t, inverse, y, k);
    OverTimes(t.columns[i], t.weight[i], y);
  }

  lemma RemainingResidual(e: Vec3, a: Vec3, b: Vec3, c: Vec3)
    requires Plus(b, c) == Subtract(e, a)
    ensures Subtract(e, Plus(a, b)) == c
  {
  }

  /** A step made joint by joint from the inverse solves the normal equations. */
  lemma StepIsOptimal(t: Task, x: Joints, inverse: seq<Vec3>) returns (y: Vec3)
    requires Weighted(t) && Pinned(t, x) && |inverse| == DOF && Free(t)
    requires forall i :: 0 <= i < DOF && i !in t.active ==>
               Solvable(NormalSystem(t, Over(t.columns[i], t.weight[i])), 0) && JointStep(t, x, i, inverse[i])
    ensures Optimal(t, x, y)
  {
    hide Solves, Dot, Times, GramOf, Plus, Stretch, Square, JointStep, Solvable, Normal, Over, Move, Subtract;
    var j :| 0 <= j < DOF && j !in t.active;
    PivotsIgnoreRhs(NormalSystem(t, Over(t.columns[j], t.weight[j])), NormalSystem(t, Remaining(t)), 0);
    y := SolvableHasOne(NormalSystem(t, Remaining(t)), 0);
    forall i | 0 <= i < DOF && i !in t.active
      ensures Times(t.weight[i], x[i] - t.pull[i]) == Dot(t.columns[i], y)
    {
      FollowsMultiplier(t, x, i, inverse[i], y);
    }
    MoveOfMultiplier(t, x, y, DOF);
    SystemMeans(t, Remaining(t), y);
    RemainingResidual(t.error, Move(t, t.pull, DOF), GramOf(t, y, DOF), Stretch(Square(t.damping), y));
  }

  /** The damping: stronger the closer the arm is to a singular pose. */
  function Damping(o: Options, sigma: real): real {
    var wanted := if sigma < WEAK then o.dampingMin + (o.dampingMax - o.dampingMin) * (WEAK - sigma) / WEAK else o.dampingMin;
    if wanted > o.dampingMax then o.dampingMax else wanted
  }

  lemma DampingBetween(o: Options, sigma: real)
    requires o.dampingMin <= o.dampingMax
    ensures o.dampingMin <= Damping(o, sigma) <= o.dampingMax
    ensures sigma >= WEAK ==> Damping(o, sigma) == o.dampingMin
    ensures sigma <= 0.0 ==> Damping(o, sigma) == o.dampingMax
  {
    if sigma < WEAK {
      var rest := o.dampingMax - o.dampingMin;
      var gap := MulMonotone(rest, 0.0, WEAK - sigma);
      if sigma <= 0.0 {
        var more := MulMonotone(rest, WEAK, WEAK - sigma);
      }
    }
  }

  lemma WeightsArePositive(o: Options)
    ensures ValidOptions(o) ==> forall i :: 0 <= i < DOF ==> o.weight[i] > 0.0
  {
    forall i | 0 <= i < DOF
      ensures ValidOptions(o) ==> o.weight[i] > 0.0
    {
      assert ValidOptions(o) ==> ValidJoint(o, i);
    }
  }

  /** The task of one call; `norm` is the length of the error. */
  function TaskOf(c: Columns, o: Options, q: Joints, error: Vec3, sigma: real, norm: real, active: set<nat>): (t: Task)
    ensures ValidOptions(o) ==> Weighted(t)
  {
    WeightsArePositive(o);
    Task(c, o.weight, error, seq(DOF, i requires 0 <= i < DOF => 0.1 * norm * (o.posture[i] - q[i])), Damping(o, sigma), active)
  }

  /** Joint i's own system has a pivot in every column. */
  predicate JointSolvable(t: Task, i: nat)
    requires i < DOF && Weighted(t)
  {
    Solvable(NormalSystem(t, Over(t.columns[i], t.weight[i])), 0)
  }

  /** What a call answers: the step with the least objective, which solves the normal
      equations if any joint may move, or that the matrix has no usable pivot. */
  ghost predicate Answers(t: Task, r: StepResult)
    requires Weighted(t)
  {
    && (r.Stepped? <==> forall i :: 0 <= i < DOF && i !in t.active ==> JointSolvable(t, i))
    && (r.StepFailed? ==> r.status == ESingular)
    && (r.Stepped? ==> Least(t, r.step))
    && (r.Stepped? && Free(t) ==> exists y :: Optimal(t, r.step, y))
  }

  /** The normal equations give the least objective. */
  lemma OptimalMeansLeast(t: Task, x: Joints, y: Vec3)
    requires Weighted(t) && Optimal(t, x, y)
    ensures Least(t, x)
  {
    hide Objective, Residual;
    forall z: Joints | Pinned(t, z)
      ensures Objective(t, x) <= Objective(t, z)
    {
      OptimalIsLeast(t, x, y, z);
    }
  }

  /** With every joint pinned there is one step to choose from. */
  lemma OnlyStep(t: Task, x: Joints)
    requires !Free(t) && Pinned(t, x)
    ensures Least(t, x)
  {
    hide Objective;
    forall z: Joints | Pinned(t, z)
      ensures z == x
    {
    }
  }

  /** Sums the entries of the normal matrix over the joints that may move. */
  method FillSystem(t: Task) returns (m: array2<real>)
    requires Weighted(t)
    ensures fresh(m) && m.Length0 == 3 && m.Length1 == 3
    ensures forall r, c :: 0 <= r < 3 && 0 <= c < 3 ==> m[r, c] == Normal(t, r, c)
  {
    hide Times, Component;
    m := new real[3, 3];
    for row := 0 to 3
      invariant forall r, c :: 0 <= r < row && 0 <= c < 3 ==> m[r, c] == Gram(t, r, c, DOF)
    {
      for column := 0 to 3
        invariant forall r, c :: 0 <= r < row && 0 <= c < 3 ==> m[r, c] == Gram(t, r, c, DOF)
        invariant forall c :: 0 <= c < column ==> m[row, c] == Gram(t, row, c, DOF)
      {
        var sum := 0.0;
        for i := 0 to DOF
          invariant sum == Gram(t, row, column, i)
        {
          if i !in t.active {
            sum := sum + Times(Component(t.columns[i], row), Component(t.columns[i], column)) / t.weight[i];
          }
        }
        m[row, column] := sum;
      }
    }
    for row := 0 to 3
      invariant forall r, c :: 0 <= r < 3 && 0 <= c < 3 ==> m[r, c] == if r < row then Normal(t, r, c) else Gram(t, r, c, DOF)
    {
      m[row, row] := m[row, row] + Square(t.damping);
    }
  }

  lemma DotStep(v: Vec3, a: Vec3, k: real, j: Vec3)
    ensures Dot(v, Plus(a, Stretch(k, j))) == Dot(v, a) + v.x * j.x * k + v.y * j.y * k + v.z * j.z * k
  {
  }

  /** One joint's share of the step: the task, and the pull less what the pull would move. */
  method JointShare(t: Task, i: nat, inverse: Vec3) returns (share: real)
    requires i < DOF
    ensures share == t.pull[i] + Dot(inverse, Remaining(t))
  {
    var secondary := t.pull[i];
    DotZero(inverse);
    for k := 0 to DOF
      invariant secondary == t.pull[i] - Dot(inverse, Move(t, t.pull, k))
    {
      if k !in t.active {
        DotStep(inverse, Move(t, t.pull, k), t.pull[k], t.columns[k]);
        secondary := secondary - inverse.x * t.columns[k].x * t.pull[k];
        secondary := secondary - inverse.y * t.columns[k].y * t.pull[k];
        secondary := secondary - inverse.z * t.columns[k].z * t.pull[k];
      }
    }
    DotMinus(inverse, t.error, Move(t, t.pull, DOF));
    share := Dot(inverse, t.error) + secondary;
  }

  lemma DotMinus(v: Vec3, a: Vec3, b: Vec3)
    ensures Dot(v, Subtract(a, b)) == Dot(v, a) - Dot(v, b)
  {
  }

  /** One linear solve per joint that may move. */
  method Invert(t: Task, m: array2<real>) returns (ok: bool, inverse: seq<Vec3>)
    requires Weighted(t) && m.Length0 == 3 && m.Length1 == 3
    requires forall r, c :: 0 <= r < 3 && 0 <= c < 3 ==> m[r, c] == Normal(t, r, c)
    ensures ok <==> forall i :: 0 <= i < DOF && i !in t.active ==> JointSolvable(t, i)
    ensures ok ==> |inverse| == DOF && forall i :: 0 <= i < DOF && i !in t.active ==>
              Solves(NormalSystem(t, Over(t.columns[i], t.weight[i])), inverse[i])
  {
    hide Solves, Solvable, Normal, JointSolvable;
    inverse := [];
    for i := 0 to DOF
      invariant |inverse| == i && forall j :: 0 <= j < i && j !in t.active ==>
                  JointSolvable(t, j) && Solves(NormalSystem(t, Over(t.columns[j], t.weight[j])), inverse[j])
    {
      var solution := ZERO;
      if i !in t.active {
        var rhs := Over(t.columns[i], t.weight[i]);
        var solved;
        solved, solution := Solve3([Row(m[0, 0], m[0, 1], m[0, 2], rhs.x), Row(m[1, 0], m[1, 1], m[1, 2], rhs.y),
                                    Row(m[2, 0], m[2, 1], m[2, 2], rhs.z)]);
        JointSystem(t, i);
        if !solved {
          return false, inverse;
        }
      }
      inverse := inverse + [solution];
    }
    return true, inverse;
  }

  lemma JointSystem(t: Task, i: nat)
    requires i < DOF && Weighted(t)
    ensures JointSolvable(t, i) <==> Solvable(NormalSystem(t, Over(t.columns[i], t.weight[i])), 0)
  {
  }

  /** The damped step, or the report that the system is singular. */
  method ComputeStep(c: Columns, o: Options, q: Joints, error: Vec3, sigma: real, norm: real, active: set<nat>)
    returns (r: StepResult)
    requires ValidOptions(o)
    ensures Answers(TaskOf(c, o, q, error, sigma, norm, active), r)
  {
    hide NormalSystem, Solves, Remaining, Optimal, JointSolvable, Least;
    var t := TaskOf(c, o, q, error, sigma, norm, active);
    var system := FillSystem(t);
    var ok, inverse := Invert(t, system);
    if !ok {
      return StepFailed(ESingular);
    }
    var step: seq<real> := [];
    for i := 0 to DOF
      invariant |step| == i
      invariant forall j :: 0 <= j < i ==>
                  step[j] == if j in active then 0.0 else t.pull[j] + Dot(inverse[j], Remaining(t))
    {
      var share := 0.0;
      if i !in active {
        share := JointShare(t, i, inverse[i]);
      }
      step := step + [share];
    }
    r := Stepped(step);
    if Free(t) {
      MadeByJoints(t, r.step, inverse);
    } else {
      OnlyStep(t, r.step);
    }
  }

  lemma MadeByJoints(t: Task, x: Joints, inverse: seq<Vec3>)
    requires Weighted(t) && |inverse| == DOF && Free(t)
    requires forall i :: 0 <= i < DOF ==> x[i] == if i in t.active then 0.0 else t.pull[i] + Dot(inverse[i], Remaining(t))
    requires forall i :: 0 <= i < DOF && i !in t.active ==>
               JointSolvable(t, i) && Solves(NormalSystem(t, Over(t.columns[i], t.weight[i])), inverse[i])
    ensures Least(t, x) && exists y :: Optimal(t, x, y)
  {
    hide NormalSystem, Solves, Remaining, Optimal, Solvable, Least;
    var y := StepIsOptimal(t, x, inverse);
    OptimalMeansLeast(t, x, y);
  }
}
