/** Where a route leads: the tool stays on the straight lines between its waypoints and ends at
    the target. */
module RouteReach {
  import opened Common
  import opened RealFacts
  import opened Geometry
  import opened RouteEdge
  import opened RoutePlanner

  /** Where each arm's tool is. */
  type Tool = (Side, Joints) -> Vec3

  /** No further apart than this. */
  predicate Near(a: Vec3, b: Vec3, e: real) {
    var d := Subtract(a, b);
    d.x * d.x + d.y * d.y + d.z * d.z <= e * e
  }

  /** The kinematics are those of the tool, and a solution brings the tool to the point asked for. */
  ghost predicate Reaching(w: World, tool: Tool, e: real) {
    && (forall q :: w.tcp(q).Some? ==> w.tcp(q).value == Pair(tool(Left, q.left), tool(Right, q.right)))
    && (forall s, p, seed, step :: w.solve(s, p, seed, step).Some? ==> Near(tool(s, w.solve(s, p, seed, step).value), p, e))
  }

  /** The point k sixteenths of the way. */
  function PointAt(a: Vec3, b: Vec3, k: nat): Vec3 {
    Vec3(Part(a.x, b.x, k), Part(a.y, b.y, k), Part(a.z, b.z, k))
  }

  function Part(a: real, b: real, k: nat): real {
    ((16.0 - k as real) * a + k as real * b) / 16.0
  }

  lemma PartIs(a: real, b: real, k: nat)
    ensures a + k as real / 16.0 * (b - a) == Part(a, b, k)
  {
  }

  lemma BetweenIsPointAt(a: Vec3, b: Vec3, k: nat)
    ensures Between(a, b, k as real / LAST_SAMPLE as real) == PointAt(a, b, k)
  {
    PartIs(a.x, b.x, k);
    PartIs(a.y, b.y, k);
    PartIs(a.z, b.z, k);
  }

  lemma PartEnds(a: real, b: real)
    ensures Part(a, b, 0) == a && Part(a, b, 16) == b
  {
  }

  lemma LineEnds(a: Vec3, b: Vec3)
    ensures PointAt(a, b, 0) == a && PointAt(a, b, 16) == b
  {
    PartEnds(a.x, b.x);
    PartEnds(a.y, b.y);
    PartEnds(a.z, b.z);
  }

  /** A free arm's tool is near the point of its line; a preserved arm has not moved. */
  predicate OnLine(r: Request, tool: Tool, e: real, start: Pose, target: Tcp, k: nat, q: Pose, s: Side) {
    if r.preserved == Some(s) then On(s, q) == On(s, start)
    else Near(tool(s, On(s, q)), PointAt(tool(s, On(s, start)), On(s, target), k), e)
  }

  lemma SolvedIsOnLine(w: World, tool: Tool, e: real, r: Request, start: Pose, target: Tcp, q: Pose, k: nat, s: Side)
    requires Reaching(w, tool, e) && w.tcp(start).Some?
    ensures var next := SolveSide(w, r, start, w.tcp(start).value, target, q, k, s);
            next.Some? ==>
              if r.preserved == Some(s) then next.value == On(s, start)
              else Near(tool(s, next.value), PointAt(tool(s, On(s, start)), On(s, target), k), e)
  {
    hide Near, PointAt, Between;
    BetweenIsPointAt(tool(s, On(s, start)), On(s, target), k);
  }

  /** Sample k of a path, from the first to the last. */
  lemma PathIsOnLine(w: World, tool: Tool, e: real, r: Request, start: Pose, target: Tcp, k: nat)
    requires Reaching(w, tool, e) && w.tcp(start).Some? && 1 <= k
    requires PathPose(w, r, start, w.tcp(start).value, target, k).Some?
    ensures var q := PathPose(w, r, start, w.tcp(start).value, target, k).value;
            OnLine(r, tool, e, start, target, k, q, Left) && OnLine(r, tool, e, start, target, k, q, Right)
  {
    hide Reaching, SolveSide, Near, PointAt;
    var before := PathPose(w, r, start, w.tcp(start).value, target, k - 1).value;
    SolvedIsOnLine(w, tool, e, r, start, target, before, k, Left);
    SolvedIsOnLine(w, tool, e, r, start, target, before, k, Right);
  }

  lemma {:induction false} EdgeReachesItsSamples(w: World, r: Request, start: Pose, startTcp: Tcp, target: Tcp, k: nat)
    requires EdgeTo(w, r, start, startTcp, target, k).Some?
    ensures PathPose(w, r, start, startTcp, target, k) == Some(EdgeTo(w, r, start, startTcp, target, k).value.q)
    ensures forall j :: 0 <= j <= k ==> PathPose(w, r, start, startTcp, target, j).Some?
    decreases k
  {
    hide NextPose;
    if k > 0 {
      EdgeReachesItsSamples(w, r, start, startTcp, target, k - 1);
    }
  }

  /** Along a valid edge each of the sixteen samples keeps both tools on their straight lines, and
      the last is the pose the edge ends in. */
  lemma EdgeFollowsTheLine(w: World, tool: Tool, e: real, r: Request, start: Pose, target: Tcp)
    requires Reaching(w, tool, e) && ValidEdge(w, r, start, target).Some?
    ensures w.tcp(start).Some?
    ensures forall k :: 1 <= k <= 16 ==>
              var q := PathPose(w, r, start, w.tcp(start).value, target, k);
              && q.Some? && OnLine(r, tool, e, start, target, k, q.value, Left)
              && OnLine(r, tool, e, start, target, k, q.value, Right)
    ensures PathPose(w, r, start, w.tcp(start).value, target, 16) == Some(ValidEdge(w, r, start, target).value.q)
  {
    hide Reaching, PathPose, EdgeTo, OnLine;
    EdgeReachesItsSamples(w, r, start, w.tcp(start).value, target, 16);
    forall k | 1 <= k <= 16
      ensures var q := PathPose(w, r, start, w.tcp(start).value, target, k);
              && q.Some? && OnLine(r, tool, e, start, target, k, q.value, Left)
              && OnLine(r, tool, e, start, target, k, q.value, Right)
    {
      PathIsOnLine(w, tool, e, r, start, target, k);
    }
  }

  predicate WithinStep(a: Joints, b: Joints, step: real) {
    |a| == |b| && forall j :: 0 <= j < |a| ==> -step <= a[j] - b[j] <= step
  }

  /** A solution stays near the joints it is solved from. */
  ghost predicate Branching(w: World) {
    forall s, p, seed, step :: w.solve(s, p, seed, step).Some? ==> WithinStep(w.solve(s, p, seed, step).value, seed, step)
  }

  /** From one sample to the next no joint of a free arm moves more than the request's step. */
  lemma EdgeStepsAreSmall(w: World, r: Request, start: Pose, target: Tcp, k: nat, s: Side)
    requires Branching(w) && ValidEdge(w, r, start, target).Some? && 1 <= k <= 16 && r.preserved != Some(s)
    ensures var before := PathPose(w, r, start, w.tcp(start).value, target, k - 1);
            var q := PathPose(w, r, start, w.tcp(start).value, target, k);
            before.Some? && q.Some? && WithinStep(On(s, q.value), On(s, before.value), r.maxBranchStep)
  {
    hide WithinStep, EdgeTo, Between;
    EdgeReachesItsSamples(w, r, start, w.tcp(start).value, target, 16);
  }

  /** The same point on every axis to within ten nanometres. */
  predicate Close(a: Vec3, b: Vec3) {
    && -0.00000001 <= a.x - b.x <= 0.00000001 && -0.00000001 <= a.y - b.y <= 0.00000001
    && -0.00000001 <= a.z - b.z <= 0.00000001
  }

  /** The arm's tool is where it should be: a preserved one has not moved and was already there. */
  predicate Arrived(r: Request, tool: Tool, e: real, start: Pose, target: Tcp, q: Pose, s: Side) {
    if r.preserved == Some(s) then On(s, q) == On(s, start) && Close(On(s, target), tool(s, On(s, start)))
    else Near(tool(s, On(s, q)), On(s, target), e)
  }

  /** So a valid edge ends with both tools at its target. */
  lemma EdgeArrives(w: World, tool: Tool, e: real, r: Request, start: Pose, target: Tcp)
    requires Reaching(w, tool, e) && ValidEdge(w, r, start, target).Some?
    ensures var q := ValidEdge(w, r, start, target).value.q;
            Arrived(r, tool, e, start, target, q, Left) && Arrived(r, tool, e, start, target, q, Right)
  {
    hide PathPose, EdgeTo, Near, PointAt;
    EdgeFollowsTheLine(w, tool, e, r, start, target);
    LineEnds(tool(Left, start.left), target.left);
    LineEnds(tool(Right, start.right), target.right);
  }

  /** The last waypoint is the target, for every arm that may move. */
  lemma LastIsTarget(w: World, r: Request, anchors: seq<Tcp>, route: Route, stops: seq<nat>)
    requires w.tcp(r.start).Some? && |anchors| == CANDIDATES - 1
    requires Chain(w, r, Candidates(r, w.tcp(r.start).value, anchors), route, stops)
    ensures |route.waypoints| > 0
    ensures var last := route.waypoints[|route.waypoints| - 1].tcp;
            (r.preserved != Some(Left) ==> last.left == r.target.left) && (r.preserved != Some(Right) ==> last.right == r.target.right)
  {
    hide EdgeInto;
    var cands := Candidates(r, w.tcp(r.start).value, anchors);
    var n := |stops| - 1;
    assert stops[n] == 0 && route.waypoints[n].tcp == cands[stops[n]];
    assert cands[0] == Candidate(r, w.tcp(r.start).value, r.target);
  }

  /** Every waypoint of a returned route has its tools at its own tool points, and the last one at
      the target asked for. */
  lemma RouteArrives(w: World, tool: Tool, e: real, r: Request, anchors: seq<Tcp>, route: Route, stops: seq<nat>)
    requires Honest(w) && Reaching(w, tool, e) && w.tcp(r.start).Some? && |anchors| == CANDIDATES - 1
    requires Chain(w, r, Candidates(r, w.tcp(r.start).value, anchors), route, stops)
    ensures forall i :: 0 <= i < |route.waypoints| ==>
              Arrived(r, tool, e, r.start, route.waypoints[i].tcp, route.waypoints[i].q, Left)
              && Arrived(r, tool, e, r.start, route.waypoints[i].tcp, route.waypoints[i].q, Right)
    ensures var last := route.waypoints[|route.waypoints| - 1];
            && (r.preserved != Some(Left) ==> last.tcp.left == r.target.left && Near(tool(Left, last.q.left), r.target.left, e))
            && (r.preserved != Some(Right) ==> last.tcp.right == r.target.right && Near(tool(Right, last.q.right), r.target.right, e))
  {
    hide Near, SameTcp, Close, ValidEdge, Distinct, Honest, Reaching, Chain;
    LastIsTarget(w, r, anchors, route, stops);
    var cands := Candidates(r, w.tcp(r.start).value, anchors);
    ChainEdges(w, r, cands, route, stops);
    RouteKeepsClearance(w, r, cands, route, stops);
    forall i | 0 <= i < |route.waypoints|
      ensures Arrived(r, tool, e, r.start, route.waypoints[i].tcp, route.waypoints[i].q, Left)
      ensures Arrived(r, tool, e, r.start, route.waypoints[i].tcp, route.waypoints[i].q, Right)
    {
      EdgeArrives(w, tool, e, r, if i == 0 then r.start else route.waypoints[i - 1].q, route.waypoints[i].tcp);
    }
  }
}
