/** One edge of a route: a straight tool path sampled 17 times, each sample solved from the
    one before, that may recover clearance once and never lose it again. */
module RouteEdge {
  import opened Common
  import opened RealFacts
  import opened Geometry

  const LAST_SAMPLE: nat := 16
  const PLANNING_M: real := 0.025
  const INTERVENTION_M: real := 0.010
  const CLEARANCE_EPSILON: real := 0.000001
  const TCP_TOLERANCE_M: real := 0.00000001

  type Joints = seq<real>

  type Pose = Pair<Joints>

  type Tcp = Pair<Vec3>

  datatype Side = Left | Right

  function On<T>(s: Side, t: Pair<T>): T {
    if s == Left then t.left else t.right
  }

  datatype Request = Request(start: Pose, target: Tcp, maxBranchStep: real, allowRecovery: bool, preserved: Option<Side>)

  /** Kinematics, inverse kinematics and collision evaluation.  `clearance` is the minimum
      clearance of a pose that is clear at a threshold, and nothing otherwise. */
  datatype World = World(
    tcp: Pose -> Option<Tcp>,
    solve: (Side, Vec3, Joints, real) -> Option<Joints>,
    clearance: (Pose, real) -> Option<real>)

  /** A clear verdict means the threshold is kept. */
  ghost predicate Honest(w: World) {
    forall q, threshold :: w.clearance(q, threshold).Some? ==> w.clearance(q, threshold).value >= threshold
  }

  predicate PlanningClear(w: World, q: Pose) {
    w.clearance(q, PLANNING_M).Some?
  }

  predicate SameTcp(a: Vec3, b: Vec3) {
    Abs(a.x - b.x) <= TCP_TOLERANCE_M && Abs(a.y - b.y) <= TCP_TOLERANCE_M && Abs(a.z - b.z) <= TCP_TOLERANCE_M
  }

  /** A preserved arm is not asked to move. */
  predicate KeepsPreserved(r: Request, startTcp: Tcp, target: Tcp) {
    r.preserved.Some? ==> SameTcp(On(r.preserved.value, target), On(r.preserved.value, startTcp))
  }

  function Between(from: Vec3, to: Vec3, fraction: real): Vec3 {
    Vec3(from.x + fraction * (to.x - from.x), from.y + fraction * (to.y - from.y), from.z + fraction * (to.z - from.z))
  }

  function SolveSide(w: World, r: Request, start: Pose, startTcp: Tcp, target: Tcp, q: Pose, sample: nat, s: Side)
    : Option<Joints>
  {
    if r.preserved == Some(s) then Some(On(s, start))
    else
      w.solve(s, Between(On(s, startTcp), On(s, target), sample as real / LAST_SAMPLE as real), On(s, q), r.maxBranchStep)
  }

  /** The pose at a sample, solved from the pose before it. */
  function NextPose(w: World, r: Request, start: Pose, startTcp: Tcp, target: Tcp, q: Pose, sample: nat): Option<Pose> {
    var left := SolveSide(w, r, start, startTcp, target, q, sample, Left);
    var right := SolveSide(w, r, start, startTcp, target, q, sample, Right);
    if left == None || right == None then None else Some(Pair(left.value, right.value))
  }

  datatype Progress = Progress(q: Pose, previous: real, minimum: real, recovering: bool)

  function Begin(w: World, r: Request, start: Pose): Option<Progress> {
    if PlanningClear(w, start) then
      var c := w.clearance(start, PLANNING_M).value; Some(Progress(start, c, c, false))
    else if r.allowRecovery && w.clearance(start, INTERVENTION_M).Some? then
      var c := w.clearance(start, INTERVENTION_M).value; Some(Progress(start, c, c, true))
    else None
  }

  function Accept(w: World, p: Progress, q: Pose): Option<Progress> {
    var planning, intervention := w.clearance(q, PLANNING_M), w.clearance(q, INTERVENTION_M);
    if planning.Some? then Some(Progress(q, planning.value, Min(planning.value, p.minimum), false))
    else if p.recovering && intervention.Some? && intervention.value >= p.previous - CLEARANCE_EPSILON then
      Some(Progress(q, intervention.value, Min(intervention.value, p.minimum), true))
    else None
  }

  /** The edge up to a sample. */
  function EdgeTo(w: World, r: Request, start: Pose, startTcp: Tcp, target: Tcp, sample: nat): Option<Progress> {
    if sample == 0 then Begin(w, r, start)
    else
      var p := EdgeTo(w, r, start, startTcp, target, sample - 1);
      if p == None then None
      else
        var q := NextPose(w, r, start, startTcp, target, p.value.q, sample);
        if q == None then None else Accept(w, p.value, q.value)
  }

  datatype Edge = Edge(q: Pose, minimum: real, recovered: bool)

  /** What an attempted edge yields. */
  function ValidEdge(w: World, r: Request, start: Pose, target: Tcp): Option<Edge> {
    var startTcp := w.tcp(start);
    if startTcp == None || !KeepsPreserved(r, startTcp.value, target) then None
    else
      var p := EdgeTo(w, r, start, startTcp.value, target, LAST_SAMPLE);
      if p == None || p.value.recovering then None
      else Some(Edge(p.value.q, p.value.minimum, !PlanningClear(w, start)))
  }

  method ValidateEdge(w: World, r: Request, start: Pose, target: Tcp) returns (e: Option<Edge>)
    ensures e == ValidEdge(w, r, start, target)
  {
    var startTcp := w.tcp(start);
    if startTcp == None || !KeepsPreserved(r, startTcp.value, target) {
      return None;
    }
    var q, usedRecovery := start, false;
    var clearance := w.clearance(q, PLANNING_M);
    var recovering := clearance == None;
    if recovering {
      clearance := w.clearance(q, INTERVENTION_M);
      if !r.allowRecovery || clearance == None {
        FailedStaysFailed(w, r, start, startTcp.value, target, 0, LAST_SAMPLE);
        return None;
      }
      usedRecovery := true;
    }
    var previous, minimum := clearance.value, clearance.value;
    for sample := 1 to LAST_SAMPLE + 1
      invariant EdgeTo(w, r, start, startTcp.value, target, sample - 1) == Some(Progress(q, previous, minimum, recovering))
    {
      var next := NextPose(w, r, start, startTcp.value, target, q, sample);
      if next == None {
        FailedStaysFailed(w, r, start, startTcp.value, target, sample, LAST_SAMPLE);
        return None;
      }
      q := next.value;
      clearance := w.clearance(q, PLANNING_M);
      if recovering {
        if clearance == None {
          clearance := w.clearance(q, INTERVENTION_M);
          if clearance == None || clearance.value < previous - CLEARANCE_EPSILON {
            FailedStaysFailed(w, r, start, startTcp.value, target, sample, LAST_SAMPLE);
            return None;
          }
        } else {
          recovering := false;
        }
      } else if clearance == None {
        FailedStaysFailed(w, r, start, startTcp.value, target, sample, LAST_SAMPLE);
        return None;
      }
      if clearance.value < minimum {
        minimum := clearance.value;
      }
      previous := clearance.value;
    }
    if recovering {
      return None;
    }
    return Some(Edge(q, minimum, usedRecovery));
  }

  lemma {:induction false} FailedStaysFailed(w: World, r: Request, start: Pose, startTcp: Tcp, target: Tcp, i: nat, j: nat)
    requires i <= j && EdgeTo(w, r, start, startTcp, target, i) == None
    ensures EdgeTo(w, r, start, startTcp, target, j) == None
    decreases j
  {
    if i < j {
      FailedStaysFailed(w, r, start, startTcp, target, i, j - 1);
    }
  }

  // ---------------------------------------------------------------------------
  // What a valid edge means, sample by sample.

  /** The poses of the straight path, whatever their clearance. */
  function PathPose(w: World, r: Request, start: Pose, startTcp: Tcp, target: Tcp, sample: nat): Option<Pose> {
    if sample == 0 then Some(start)
    else
      var q := PathPose(w, r, start, startTcp, target, sample - 1);
      if q == None then None else NextPose(w, r, start, startTcp, target, q.value, sample)
  }

  /** Clear of the intervention floor only, and not lower than before. */
  predicate Recovers(w: World, before: Option<Pose>, q: Pose) {
    && w.clearance(q, 0.025) == None && w.clearance(q, 0.010).Some?
    && (before.Some? ==>
          w.clearance(before.value, 0.010).Some?
          && w.clearance(q, 0.010).value >= w.clearance(before.value, 0.010).value - 0.000001)
  }

  /** Sample k of a path whose first `escape` samples recover clearance. */
  predicate SampleKeeps(w: World, r: Request, start: Pose, startTcp: Tcp, target: Tcp, escape: nat, k: nat) {
    && PathPose(w, r, start, startTcp, target, k).Some?
    && var q := PathPose(w, r, start, startTcp, target, k).value;
    if k >= escape then w.clearance(q, 0.025).Some?
    else Recovers(w, if k == 0 then None else PathPose(w, r, start, startTcp, target, k - 1), q)
  }

  /** The first `escape` samples recover clearance without ever giving any back; all later
      ones, the last included, keep the planning clearance. */
  ghost predicate RecoversThenKeeps(w: World, r: Request, start: Pose, startTcp: Tcp, target: Tcp, escape: nat, last: nat) {
    && (escape > 0 ==> r.allowRecovery)
    && forall k :: 0 <= k <= last ==> SampleKeeps(w, r, start, startTcp, target, escape, k)
  }

  lemma {:induction false} ProgressMeans(w: World, r: Request, start: Pose, startTcp: Tcp, target: Tcp, k: nat) returns (escape: nat)
    requires EdgeTo(w, r, start, startTcp, target, k).Some?
    ensures RecoversThenKeeps(w, r, start, startTcp, target, escape, k)
    ensures var p := EdgeTo(w, r, start, startTcp, target, k).value;
            && PathPose(w, r, start, startTcp, target, k) == Some(p.q)
            && (p.recovering <==> escape == k + 1) && escape <= k + 1
            && (p.recovering ==> w.clearance(p.q, INTERVENTION_M) == Some(p.previous))
  {
    if k == 0 {
      escape := if PlanningClear(w, start) then 0 else 1;
    } else {
      var before := ProgressMeans(w, r, start, startTcp, target, k - 1);
      var p := EdgeTo(w, r, start, startTcp, target, k).value;
      escape := if p.recovering then k + 1 else before;
      forall j | 0 <= j < k
        ensures SampleKeeps(w, r, start, startTcp, target, escape, j)
      {
        assert SampleKeeps(w, r, start, startTcp, target, before, j);
      }
      assert PathPose(w, r, start, startTcp, target, k) == Some(p.q);
      assert SampleKeeps(w, r, start, startTcp, target, escape, k);
    }
  }

  lemma {:induction false} MeansProgress(w: World, r: Request, start: Pose, startTcp: Tcp, target: Tcp, escape: nat, k: nat)
    requires RecoversThenKeeps(w, r, start, startTcp, target, escape, k)
    ensures EdgeTo(w, r, start, startTcp, target, k).Some?
    ensures var p := EdgeTo(w, r, start, startTcp, target, k).value;
            && PathPose(w, r, start, startTcp, target, k) == Some(p.q) && (p.recovering <==> k < escape)
            && (p.recovering ==> w.clearance(p.q, INTERVENTION_M) == Some(p.previous))
  {
    assert SampleKeeps(w, r, start, startTcp, target, escape, k);
    if k > 0 {
      assert SampleKeeps(w, r, start, startTcp, target, escape, k - 1);
      MeansProgress(w, r, start, startTcp, target, escape, k - 1);
    }
  }

  /** An edge is valid exactly when its path can be solved throughout and its clearance
      recovers, if it must and may, and then is kept to the end. */
  lemma ValidEdgeIff(w: World, r: Request, start: Pose, target: Tcp)
    ensures ValidEdge(w, r, start, target).Some?
            <==> (w.tcp(start).Some? && KeepsPreserved(r, w.tcp(start).value, target)
                  && exists escape: nat :: escape <= LAST_SAMPLE
                       && RecoversThenKeeps(w, r, start, w.tcp(start).value, target, escape, LAST_SAMPLE))
  {
    if w.tcp(start).Some? && KeepsPreserved(r, w.tcp(start).value, target) {
      var startTcp := w.tcp(start).value;
      if ValidEdge(w, r, start, target).Some? {
        var escape := ProgressMeans(w, r, start, startTcp, target, LAST_SAMPLE);
        assert escape <= LAST_SAMPLE;
      }
      if escape: nat :| escape <= LAST_SAMPLE && RecoversThenKeeps(w, r, start, startTcp, target, escape, LAST_SAMPLE) {
        MeansProgress(w, r, start, startTcp, target, escape, LAST_SAMPLE);
      }
    }
  }

  lemma {:induction false} ProgressBounds(w: World, r: Request, start: Pose, startTcp: Tcp, target: Tcp, k: nat)
    requires Honest(w) && EdgeTo(w, r, start, startTcp, target, k).Some?
    ensures var p := EdgeTo(w, r, start, startTcp, target, k).value;
            && p.minimum >= INTERVENTION_M
            && (PlanningClear(w, start) ==> p.minimum >= PLANNING_M)
            && (!PlanningClear(w, start) ==> r.allowRecovery)
            && (!p.recovering ==> PlanningClear(w, p.q))
            && (r.preserved.Some? ==> On(r.preserved.value, p.q) == On(r.preserved.value, start))
            && (PlanningClear(w, start) ==> !p.recovering)
  {
    if k > 0 {
      ProgressBounds(w, r, start, startTcp, target, k - 1);
    }
  }

  /** Every valid edge ends with full planning clearance, leaves the preserved arm alone, and
      goes below the planning clearance only when it started below it and may recover. */
  lemma EdgeFacts(w: World, r: Request, start: Pose, target: Tcp)
    requires Honest(w) && ValidEdge(w, r, start, target).Some?
    ensures var e := ValidEdge(w, r, start, target).value;
            && w.clearance(e.q, 0.025).Some?
            && (e.recovered <==> w.clearance(start, 0.025) == None) && (e.recovered ==> r.allowRecovery)
            && e.minimum >= 0.010 && (!e.recovered ==> e.minimum >= 0.025)
            && (r.preserved.Some? ==> On(r.preserved.value, e.q) == On(r.preserved.value, start))
  {
    ProgressBounds(w, r, start, w.tcp(start).value, target, LAST_SAMPLE);
  }
}
