/** The route search: breadth-first over a fixed table of anchor poses, where an edge is
    tried from the joint vector its start was actually discovered with. */
module RoutePlanner {
  import opened Common
  import opened RealFacts
  import opened Geometry
  import opened RouteEdge

  const CANDIDATES: nat := 22
  const MAX_WAYPOINTS: nat := 24

  datatype Node = Node(discovered: bool, predecessor: int, usedRecovery: bool, minimum: real, q: Pose)

  datatype Waypoint = Waypoint(tcp: Tcp, q: Pose)

  datatype Route = Route(waypoints: seq<Waypoint>, usedRecovery: bool, minimum: real)

  datatype Status = EInval | ENoPath | ECapacity

  datatype Result = Planned(route: Route) | Failed(status: Status)

  // ---------------------------------------------------------------------------
  // The search tree.

  /** Joint vector of a queue entry; -1 stands for the measured start. */
  function QOf(start: Pose, nodes: seq<Node>, i: int): Pose
    requires -1 <= i < |nodes|
  {
    if i < 0 then start else nodes[i].q
  }

  ghost predicate Distinct(s: seq<int>) {
    forall i, j :: 0 <= i < j < |s| ==> s[i] != s[j]
  }

  ghost predicate InRange(order: seq<int>) {
    forall k :: 0 <= k < |order| ==> -1 <= order[k] < CANDIDATES
  }

  /** Entry k was discovered over a valid edge from its parent, an earlier entry. */
  ghost predicate Grown(w: World, r: Request, cands: seq<Tcp>, nodes: seq<Node>, order: seq<int>, parent: seq<nat>, k: nat)
    requires |cands| == |nodes| == CANDIDATES && |parent| == |order| && k < |order| && InRange(order)
  {
    && order[k] >= 0 && parent[k] < k
    && var pred := order[parent[k]];
    && var n := nodes[order[k]];
    && n.predecessor == pred
    && var e := ValidEdge(w, r, QOf(r.start, nodes, pred), cands[order[k]]);
    && e.Some? && e.value.q == n.q && e.value.minimum == n.minimum
    && (n.usedRecovery <==> e.value.recovered || (pred >= 0 && nodes[pred].usedRecovery))
  }

  /** The discovered nodes in order of discovery, rooted at the start. */
  ghost predicate Tree(w: World, r: Request, cands: seq<Tcp>, nodes: seq<Node>, order: seq<int>, parent: seq<nat>) {
    && |cands| == |nodes| == CANDIDATES && |parent| == |order| > 0 && order[0] == -1
    && InRange(order) && Distinct(order)
    && (forall k :: 1 <= k < |order| ==> Grown(w, r, cands, nodes, order, parent, k))
    && (forall i :: 0 <= i < CANDIDATES ==> (nodes[i].discovered <==> i in order))
  }

  /** Every candidate with a valid edge from this entry has been discovered. */
  ghost predicate Expanded(w: World, r: Request, cands: seq<Tcp>, nodes: seq<Node>, from: int, upto: nat)
    requires |cands| == |nodes| == CANDIDATES && -1 <= from < CANDIDATES && upto <= CANDIDATES
  {
    forall i :: 0 <= i < upto && ValidEdge(w, r, QOf(r.start, nodes, from), cands[i]).Some? ==> nodes[i].discovered
  }

  /** A finite set of whole numbers bounds a sequence without repeats. */
  lemma {:induction false} DistinctBound(s: seq<int>, low: int, high: int)
    requires Distinct(s) && low <= high && forall k :: 0 <= k < |s| ==> low <= s[k] < high
    ensures |s| <= high - low
    decreases high - low
  {
    assert |s| > 0 ==> low <= s[0] < high;
    if low < high && exists k :: 0 <= k < |s| && s[k] == high - 1 {
      var k :| 0 <= k < |s| && s[k] == high - 1;
      var rest := s[..k] + s[k + 1..];
      assert forall i :: 0 <= i < |rest| ==> rest[i] == (if i < k then s[i] else s[i + 1]);
      DistinctBound(rest, low, high - 1);
    } else if low < high {
      DistinctBound(s, low, high - 1);
    }
  }

  /** Discovering one more candidate. */
  lemma GrowTree(w: World, r: Request, cands: seq<Tcp>, nodes: seq<Node>, order: seq<int>, parent: seq<nat>, head: nat, i: nat,
                 n: Node)
    requires Tree(w, r, cands, nodes, order, parent) && head < |order| && i < CANDIDATES && !nodes[i].discovered
    requires n.discovered && n.predecessor == order[head]
    requires var e := ValidEdge(w, r, QOf(r.start, nodes, order[head]), cands[i]);
             && e.Some? && e.value.q == n.q && e.value.minimum == n.minimum
             && (n.usedRecovery <==> e.value.recovered || (order[head] >= 0 && nodes[order[head]].usedRecovery))
    ensures Tree(w, r, cands, nodes[i := n], order + [i], parent + [head])
    ensures |order| < CANDIDATES + 1
  {
    hide ValidEdge;
    var nodes', order', parent' := nodes[i := n], order + [i], parent + [head];
    assert i !in order;
    assert Distinct(order');
    assert forall k :: 0 <= k < |order| ==> order'[k] == order[k];
    forall k | 1 <= k < |order'|
      ensures Grown(w, r, cands, nodes', order', parent', k)
    {
      if k < |order| {
        assert Grown(w, r, cands, nodes, order, parent, k);
        assert order[k] != i && order[parent[k]] != i;
      }
    }
    DistinctBound(order', -1, CANDIDATES);
  }

  // ---------------------------------------------------------------------------
  // From the tree to a route.

  /** Positions from below the root to entry k. */
  function PathTo(parent: seq<nat>, k: nat): seq<nat>
    requires k < |parent| && forall i :: 0 < i < |parent| ==> parent[i] < i
    decreases k
  {
    if k == 0 then [] else PathTo(parent, parent[k]) + [k]
  }

  /** The position before the i-th on a path; the root comes before the first. */
  function Before(path: seq<nat>, i: nat): nat
    requires i < |path|
  {
    if i == 0 then 0 else path[i - 1]
  }

  /** Step i of the path leads from the entry before it. */
  predicate Linked(parent: seq<nat>, path: seq<nat>, i: nat)
    requires i < |path|
  {
    0 < path[i] < |parent| && parent[path[i]] == Before(path, i)
  }

  lemma {:induction false} PathShape(parent: seq<nat>, k: nat)
    requires k < |parent| && forall i :: 0 < i < |parent| ==> parent[i] < i
    ensures var p := PathTo(parent, k);
            && (k > 0 ==> |p| > 0 && p[|p| - 1] == k)
            && (forall i :: 0 <= i < |p| ==> Linked(parent, p, i))
            && (forall i :: 0 <= i < |p| ==> 0 < p[i] <= k)
            && (forall i, j :: 0 <= i < j < |p| ==> p[i] < p[j])
            && |p| <= k
    decreases k
  {
    if k > 0 {
      PathShape(parent, parent[k]);
      var before := PathTo(parent, parent[k]);
      forall i | 0 <= i < |before| + 1
        ensures Linked(parent, before + [k], i)
      {
        if i < |before| {
          assert Linked(parent, before, i);
        }
      }
    }
  }

  /** The waypoints are reached one after the other over valid edges from the start, visit
      no candidate twice and end at the target; the flag and minimum are those of the edges. */
  ghost predicate Chain(w: World, r: Request, cands: seq<Tcp>, route: Route, stops: seq<nat>) {
    && |route.waypoints| == |stops| > 0 && |cands| == CANDIDATES
    && (forall i :: 0 <= i < |stops| ==> stops[i] < CANDIDATES && route.waypoints[i].tcp == cands[stops[i]])
    && stops[|stops| - 1] == 0
    && (forall i, j :: 0 <= i < j < |stops| ==> stops[i] != stops[j])
    && (forall i :: 0 <= i < |stops| ==> EdgeInto(w, r, route.waypoints, i).Some?
                                         && EdgeInto(w, r, route.waypoints, i).value.q == route.waypoints[i].q)
    && (forall i :: 0 <= i < |stops| ==> route.minimum <= EdgeInto(w, r, route.waypoints, i).value.minimum)
    && (exists i :: 0 <= i < |stops| && route.minimum == EdgeInto(w, r, route.waypoints, i).value.minimum)
    && (route.usedRecovery <==> exists i :: 0 <= i < |stops| && EdgeInto(w, r, route.waypoints, i).value.recovered)
  }

  /** The edge that leads into waypoint i. */
  function EdgeInto(w: World, r: Request, waypoints: seq<Waypoint>, i: nat): Option<Edge>
    requires i < |waypoints|
  {
    ValidEdge(w, r, if i == 0 then r.start else waypoints[i - 1].q, waypoints[i].tcp)
  }

  /** What any such route guarantees along the way: every waypoint has full planning
      clearance, only the first edge can recover, and a preserved arm never moves. */
  lemma RouteKeepsClearance(w: World, r: Request, cands: seq<Tcp>, route: Route, stops: seq<nat>)
    requires Honest(w) && Chain(w, r, cands, route, stops)
    ensures forall i :: 0 <= i < |route.waypoints| ==> w.clearance(route.waypoints[i].q, 0.025).Some?
    ensures forall i :: 1 <= i < |route.waypoints| ==> !EdgeInto(w, r, route.waypoints, i).value.recovered
    ensures r.preserved.Some? ==> forall i :: 0 <= i < |route.waypoints| ==>
              On(r.preserved.value, route.waypoints[i].q) == On(r.preserved.value, r.start)
    ensures |route.waypoints| <= CANDIDATES
  {
    hide ValidEdge, Honest, Distinct, Chain, EdgeInto;
    ChainEdges(w, r, cands, route, stops);
    StopsBound(w, r, cands, route, stops);
    forall i | 0 <= i < |route.waypoints|
      ensures PlanningClear(w, route.waypoints[i].q)
      ensures i > 0 ==> !EdgeInto(w, r, route.waypoints, i).value.recovered
    {
      EdgesAreGood(w, r, cands, route, stops, i);
    }
    if r.preserved.Some? {
      PreservedStays(w, r, route.waypoints, |stops|);
    }
  }

  /** And in total: the flag is set exactly when the start lacked clearance, and the reported
      minimum is at least 10 mm, without recovery 25 mm. */
  lemma RouteReportsClearance(w: World, r: Request, cands: seq<Tcp>, route: Route, stops: seq<nat>)
    requires Honest(w) && Chain(w, r, cands, route, stops)
    ensures route.usedRecovery <==> w.clearance(r.start, 0.025) == None
    ensures route.usedRecovery ==> r.allowRecovery
    ensures route.minimum >= 0.010 && (!route.usedRecovery ==> route.minimum >= 0.025)
  {
    hide ValidEdge, Honest, EdgeInto;
    forall i | 0 <= i < |stops|
      ensures EdgeInto(w, r, route.waypoints, i).value.recovered <==> i == 0 && !PlanningClear(w, r.start)
      ensures EdgeIntoFacts(w, r, route.waypoints, i)
    {
      EdgesAreGood(w, r, cands, route, stops, i);
    }
    assert EdgeIntoFacts(w, r, route.waypoints, 0);
    var least :| 0 <= least < |stops| && route.minimum == EdgeInto(w, r, route.waypoints, least).value.minimum;
    assert EdgeIntoFacts(w, r, route.waypoints, least);
  }

  /** What the search promises of one edge on the way. */
  predicate EdgeIntoFacts(w: World, r: Request, waypoints: seq<Waypoint>, i: nat)
    requires i < |waypoints|
  {
    && PlanningClear(w, waypoints[i].q)
    && var e := EdgeInto(w, r, waypoints, i);
    && e.Some? && (e.value.recovered <==> i == 0 && !PlanningClear(w, r.start)) && (e.value.recovered ==> r.allowRecovery)
    && e.value.minimum >= INTERVENTION_M && (!e.value.recovered ==> e.value.minimum >= PLANNING_M)
  }

  lemma EdgesAreGood(w: World, r: Request, cands: seq<Tcp>, route: Route, stops: seq<nat>, i: nat)
    requires Honest(w) && Chain(w, r, cands, route, stops) && i < |stops|
    ensures EdgeIntoFacts(w, r, route.waypoints, i)
  {
    hide ValidEdge, Honest;
    EdgeFacts(w, r, if i == 0 then r.start else route.waypoints[i - 1].q, route.waypoints[i].tcp);
    if i > 0 {
      EdgeFacts(w, r, if i == 1 then r.start else route.waypoints[i - 2].q, route.waypoints[i - 1].tcp);
    }
  }

  lemma ChainEdges(w: World, r: Request, cands: seq<Tcp>, route: Route, stops: seq<nat>)
    requires Chain(w, r, cands, route, stops)
    ensures |route.waypoints| == |stops| > 0
    ensures forall i :: 0 <= i < |stops| ==> EdgeInto(w, r, route.waypoints, i).Some?
                                             && EdgeInto(w, r, route.waypoints, i).value.q == route.waypoints[i].q
  {
    hide ValidEdge;
  }

  lemma StopsBound(w: World, r: Request, cands: seq<Tcp>, route: Route, stops: seq<nat>)
    requires Chain(w, r, cands, route, stops)
    ensures |route.waypoints| <= CANDIDATES
  {
    hide ValidEdge, EdgeInto;
    var indices := seq(|stops|, i requires 0 <= i < |stops| => stops[i] as int);
    DistinctBound(indices, 0, CANDIDATES);
  }

  lemma {:induction false} PreservedStays(w: World, r: Request, waypoints: seq<Waypoint>, n: nat)
    requires Honest(w) && r.preserved.Some? && n <= |waypoints|
    requires forall i :: 0 <= i < n ==> EdgeInto(w, r, waypoints, i).Some? && EdgeInto(w, r, waypoints, i).value.q == waypoints[i].q
    ensures forall i :: 0 <= i < n ==> On(r.preserved.value, waypoints[i].q) == On(r.preserved.value, r.start)
  {
    hide ValidEdge;
    if n > 0 {
      PreservedStays(w, r, waypoints, n - 1);
      EdgeFacts(w, r, if n == 1 then r.start else waypoints[n - 2].q, waypoints[n - 1].tcp);
    }
  }

  // ---------------------------------------------------------------------------
  // The search.

  /** The target first, then the anchors; a preserved arm stays where it is in all of them. */
  function Candidate(r: Request, startTcp: Tcp, t: Tcp): Tcp {
    if r.preserved == Some(Left) then Pair(startTcp.left, t.right)
    else if r.preserved == Some(Right) then Pair(t.left, startTcp.right)
    else t
  }

  function Candidates(r: Request, startTcp: Tcp, anchors: seq<Tcp>): (cands: seq<Tcp>)
    requires |anchors| == CANDIDATES - 1
    ensures |cands| == CANDIDATES
  {
    seq(CANDIDATES, i requires 0 <= i < CANDIDATES => Candidate(r, startTcp, if i == 0 then r.target else anchors[i - 1]))
  }

  predicate Acceptable(w: World, r: Request, inBounds: Pose -> bool) {
    && r.maxBranchStep > 0.0 && inBounds(r.start) && w.tcp(r.start).Some?
    && KeepsPreserved(r, w.tcp(r.start).value, r.target)
  }

  /** Everything reachable has been tried, and none of it leads to the target. */
  ghost predicate Exhausted(w: World, r: Request, cands: seq<Tcp>, nodes: seq<Node>) {
    && |cands| == |nodes| == CANDIDATES && !nodes[0].discovered
    && (exists order, parent :: Tree(w, r, cands, nodes, order, parent))
    && (forall i :: -1 <= i < CANDIDATES && (i >= 0 ==> nodes[i].discovered) ==> Expanded(w, r, cands, nodes, i, CANDIDATES))
  }

  /** No pose that was found has a valid edge to the target. */
  lemma ExhaustedMeansNoLastEdge(w: World, r: Request, cands: seq<Tcp>, nodes: seq<Node>, i: int)
    requires Exhausted(w, r, cands, nodes) && -1 <= i < CANDIDATES && (i >= 0 ==> nodes[i].discovered)
    ensures ValidEdge(w, r, QOf(r.start, nodes, i), cands[0]) == None
  {
    hide ValidEdge;
    assert Expanded(w, r, cands, nodes, i, CANDIDATES);
  }

  lemma ExpandedStays(w: World, r: Request, cands: seq<Tcp>, nodes: seq<Node>, i: nat, n: Node, from: int, upto: nat)
    requires |cands| == |nodes| == CANDIDATES && i < CANDIDATES && n.discovered && from != i
    requires -1 <= from < CANDIDATES && upto <= CANDIDATES && Expanded(w, r, cands, nodes, from, upto)
    ensures Expanded(w, r, cands, nodes[i := n], from, upto)
  {
    hide ValidEdge;
  }

  /** The first `done` entries of the queue have been expanded completely. */
  ghost predicate ExpandedTo(w: World, r: Request, cands: seq<Tcp>, nodes: seq<Node>, order: seq<int>, done: nat) {
    && |cands| == |nodes| == CANDIDATES && done <= |order| && InRange(order)
    && forall k :: 0 <= k < done ==> Expanded(w, r, cands, nodes, order[k], CANDIDATES)
  }

  lemma ExpandedToStays(w: World, r: Request, cands: seq<Tcp>, nodes: seq<Node>, order: seq<int>, done: nat, i: nat, n: Node)
    requires ExpandedTo(w, r, cands, nodes, order, done) && i < CANDIDATES && i !in order && n.discovered
    ensures ExpandedTo(w, r, cands, nodes[i := n], order + [i], done)
  {
    hide Expanded;
    forall k | 0 <= k < done
      ensures Expanded(w, r, cands, nodes[i := n], (order + [i])[k], CANDIDATES)
    {
      ExpandedStays(w, r, cands, nodes, i, n, order[k], CANDIDATES);
    }
  }

  /** Tries every undiscovered candidate from queue entry `head`. */
  method Expand(w: World, r: Request, cands: seq<Tcp>, nodes: array<Node>, queue: array<int>, head: nat, tail: nat,
                ghost order: seq<int>, ghost parent: seq<nat>)
    returns (newTail: nat, found: bool, ghost order': seq<int>, ghost parent': seq<nat>)
    requires nodes.Length == CANDIDATES && queue.Length == CANDIDATES + 1
    requires head < tail <= queue.Length && queue[..tail] == order
    requires Tree(w, r, cands, nodes[..], order, parent) && !nodes[0].discovered
    requires ExpandedTo(w, r, cands, nodes[..], order, head)
    modifies nodes, queue
    ensures Tree(w, r, cands, nodes[..], order', parent')
    ensures found <==> nodes[0].discovered
    ensures found ==> |order'| > 1 && order'[|order'| - 1] == 0
    ensures !found ==> head < newTail <= queue.Length && queue[..newTail] == order'
                       && ExpandedTo(w, r, cands, nodes[..], order', head + 1)
  {
    hide ValidEdge, Tree, Expanded, ExpandedTo;
    newTail, found, order', parent' := tail, false, order, parent;
    var current := queue[head];
    EntryInRange(w, r, cands, nodes[..], order, parent, head);
    var currentQ := if current < 0 then r.start else nodes[current].q;
    ExpandedNone(w, r, cands, nodes[..], current);
    for index := 0 to CANDIDATES
      invariant head < newTail <= queue.Length && queue[..newTail] == order' && queue[head] == current
      invariant Tree(w, r, cands, nodes[..], order', parent') && !nodes[0].discovered
      invariant ExpandedTo(w, r, cands, nodes[..], order', head)
      invariant -1 <= current < CANDIDATES && currentQ == QOf(r.start, nodes[..], current)
      invariant Expanded(w, r, cands, nodes[..], current, index)
    {
      var e := None;
      if !nodes[index].discovered {
        e := ValidateEdge(w, r, currentQ, cands[index]);
      }
      if e.Some? {
        var inherited := current >= 0 && nodes[current].usedRecovery;
        var n := Node(true, current, e.value.recovered || inherited, e.value.minimum, e.value.q);
        Fresh(w, r, cands, nodes[..], order', parent', index, head);
        GrowTree(w, r, cands, nodes[..], order', parent', head, index, n);
        ExpandedToStays(w, r, cands, nodes[..], order', head, index, n);
        ExpandedStays(w, r, cands, nodes[..], index, n, current, index);
        nodes[index] := n;
        order', parent' := order' + [index as int], parent' + [head];
        if index == 0 {
          found := true;
          return;
        }
        queue[newTail] := index;
        newTail := newTail + 1;
      }
      ExpandedOneMore(w, r, cands, nodes[..], current, index);
    }
    ExpandedEntry(w, r, cands, nodes[..], order', head);
  }

  lemma EntryInRange(w: World, r: Request, cands: seq<Tcp>, nodes: seq<Node>, order: seq<int>, parent: seq<nat>, k: nat)
    requires Tree(w, r, cands, nodes, order, parent) && k < |order|
    ensures |nodes| == |cands| == CANDIDATES && -1 <= order[k] < CANDIDATES
    ensures order[k] >= 0 ==> nodes[order[k]].discovered
  {
    hide ValidEdge;
  }

  lemma ExpandedNone(w: World, r: Request, cands: seq<Tcp>, nodes: seq<Node>, from: int)
    requires |cands| == |nodes| == CANDIDATES && -1 <= from < CANDIDATES
    ensures Expanded(w, r, cands, nodes, from, 0)
  {
  }

  lemma Fresh(w: World, r: Request, cands: seq<Tcp>, nodes: seq<Node>, order: seq<int>, parent: seq<nat>, i: nat, k: nat)
    requires Tree(w, r, cands, nodes, order, parent) && i < CANDIDATES && !nodes[i].discovered && k < |order|
    ensures i !in order && order[k] != i
  {
    hide ValidEdge;
  }

  lemma ExpandedOneMore(w: World, r: Request, cands: seq<Tcp>, nodes: seq<Node>, from: int, i: nat)
    requires |cands| == |nodes| == CANDIDATES && -1 <= from < CANDIDATES && i < CANDIDATES
    requires Expanded(w, r, cands, nodes, from, i)
    requires nodes[i].discovered || ValidEdge(w, r, QOf(r.start, nodes, from), cands[i]) == None
    ensures Expanded(w, r, cands, nodes, from, i + 1)
  {
    hide ValidEdge;
  }

  lemma ExpandedEntry(w: World, r: Request, cands: seq<Tcp>, nodes: seq<Node>, order: seq<int>, head: nat)
    requires ExpandedTo(w, r, cands, nodes, order, head) && head < |order|
    requires Expanded(w, r, cands, nodes, order[head], CANDIDATES)
    ensures ExpandedTo(w, r, cands, nodes, order, head + 1)
  {
    hide Expanded;
  }

  // ---------------------------------------------------------------------------
  // Reading the route back.

  lemma ParentsDescend(w: World, r: Request, cands: seq<Tcp>, nodes: seq<Node>, order: seq<int>, parent: seq<nat>)
    requires Tree(w, r, cands, nodes, order, parent)
    ensures |order| == |parent| && |nodes| == |cands| == CANDIDATES && InRange(order) && |order| <= CANDIDATES + 1
    ensures forall i :: 0 < i < |parent| ==> parent[i] < i && order[i] >= 0 && nodes[order[i]].predecessor == order[parent[i]]
    ensures |order| > 0 && order[0] == -1
  {
    hide ValidEdge;
    forall i | 0 < i < |parent|
      ensures parent[i] < i && order[i] >= 0 && nodes[order[i]].predecessor == order[parent[i]]
    {
      assert Grown(w, r, cands, nodes, order, parent, i);
    }
    DistinctBound(order, -1, CANDIDATES);
  }

  lemma TreeShape(w: World, r: Request, cands: seq<Tcp>, nodes: seq<Node>, order: seq<int>, parent: seq<nat>)
    requires Tree(w, r, cands, nodes, order, parent)
    ensures |order| == |parent| > 0 && |nodes| == |cands| == CANDIDATES
    ensures forall i :: 0 < i < |order| ==> 0 <= order[i] < CANDIDATES
  {
    hide Tree;
    ParentsDescend(w, r, cands, nodes, order, parent);
  }

  /** Waypoint of a tree entry. */
  function At(cands: seq<Tcp>, nodes: seq<Node>, order: seq<int>, k: nat): Waypoint
    requires |cands| == |nodes| == CANDIDATES && k < |order| && 0 <= order[k] < CANDIDATES
  {
    Waypoint(cands[order[k]], nodes[order[k]].q)
  }

  ghost predicate ReadsBack(cands: seq<Tcp>, nodes: seq<Node>, order: seq<int>, path: seq<nat>, waypoints: seq<Waypoint>) {
    && |cands| == |nodes| == CANDIDATES && |waypoints| == |path|
    && forall i :: 0 <= i < |path| ==>
         path[i] < |order| && 0 <= order[path[i]] < CANDIDATES && waypoints[i] == At(cands, nodes, order, path[i])
  }

  /** Along a tree path every waypoint is reached by the recorded edge. */
  lemma TreeEdge(w: World, r: Request, cands: seq<Tcp>, nodes: seq<Node>, order: seq<int>, parent: seq<nat>,
                 path: seq<nat>, waypoints: seq<Waypoint>, i: nat)
    requires Tree(w, r, cands, nodes, order, parent) && ReadsBack(cands, nodes, order, path, waypoints)
    requires i < |path| && Linked(parent, path, i)
    ensures var e := EdgeInto(w, r, waypoints, i);
            var n := nodes[order[path[i]]];
            && e.Some? && e.value.q == n.q == waypoints[i].q && e.value.minimum == n.minimum
            && (n.usedRecovery <==> e.value.recovered || (i > 0 && nodes[order[path[i - 1]]].usedRecovery))
  {
    hide ValidEdge;
    assert Grown(w, r, cands, nodes, order, parent, path[i]);
  }

  /** Recovery is inherited along the path. */
  lemma {:induction false} RecoveryInherited(w: World, r: Request, cands: seq<Tcp>, nodes: seq<Node>, order: seq<int>,
                                            parent: seq<nat>, path: seq<nat>, waypoints: seq<Waypoint>, i: nat)
    requires Tree(w, r, cands, nodes, order, parent) && ReadsBack(cands, nodes, order, path, waypoints) && i < |path|
    requires forall j :: 0 <= j < |path| ==> Linked(parent, path, j)
    ensures nodes[order[path[i]]].usedRecovery
            <==> exists j :: 0 <= j <= i && EdgeInto(w, r, waypoints, j).Some? && EdgeInto(w, r, waypoints, j).value.recovered
  {
    hide Tree, EdgeInto;
    TreeEdge(w, r, cands, nodes, order, parent, path, waypoints, i);
    if i > 0 {
      RecoveryInherited(w, r, cands, nodes, order, parent, path, waypoints, i - 1);
    }
  }

  lemma PathIsChain(w: World, r: Request, cands: seq<Tcp>, nodes: seq<Node>, order: seq<int>, parent: seq<nat>,
                    path: seq<nat>, route: Route) returns (stops: seq<nat>)
    requires Tree(w, r, cands, nodes, order, parent) && |order| > 1 && order[|order| - 1] == 0
    requires (forall i :: 0 < i < |parent| ==> parent[i] < i) && path == PathTo(parent, |order| - 1)
    requires ReadsBack(cands, nodes, order, path, route.waypoints)
    requires route.usedRecovery == nodes[0].usedRecovery
    requires forall i :: 0 <= i < |path| ==> route.minimum <= nodes[order[path[i]]].minimum
    requires exists i :: 0 <= i < |path| && route.minimum == nodes[order[path[i]]].minimum
    ensures Chain(w, r, cands, route, stops)
  {
    hide Tree, EdgeInto, PathTo, Distinct, InRange, Chain, ReachedBy, At, Linked;
    stops := StopsOf(w, r, cands, nodes, order, parent, path);
    ReachedAlong(w, r, cands, nodes, order, parent, path, route);
    RecoveryInherited(w, r, cands, nodes, order, parent, path, route.waypoints, |path| - 1);
    ChainHolds(w, r, cands, nodes, order, path, route, stops);
  }

  /** The candidates along the path to the target, all different. */
  lemma StopsOf(w: World, r: Request, cands: seq<Tcp>, nodes: seq<Node>, order: seq<int>, parent: seq<nat>, path: seq<nat>)
    returns (stops: seq<nat>)
    requires Tree(w, r, cands, nodes, order, parent) && |order| > 1 && order[|order| - 1] == 0
    requires (forall i :: 0 < i < |parent| ==> parent[i] < i) && path == PathTo(parent, |order| - 1)
    ensures |nodes| == CANDIDATES && |parent| == |order| && |stops| == |path| > 0 && stops[|stops| - 1] == 0
    ensures forall i :: 0 <= i < |path| ==> Linked(parent, path, i)
    ensures forall i :: 0 <= i < |path| ==> 0 < path[i] < |order|
    ensures forall i :: 0 <= i < |path| ==> stops[i] == order[path[i]] < CANDIDATES
    ensures forall i, j :: 0 <= i < j < |path| ==> order[path[i]] != order[path[j]]
    ensures path[|path| - 1] == |order| - 1
  {
    hide Tree, PathTo, Distinct, Linked;
    TreeShape(w, r, cands, nodes, order, parent);
    PathShape(parent, |order| - 1);
    OrderDistinct(w, r, cands, nodes, order, parent);
    stops := seq(|path|, i requires 0 <= i < |path| => order[path[i]]);
  }

  /** Waypoint i is reached by the edge its node records. */
  ghost predicate ReachedBy(w: World, r: Request, nodes: seq<Node>, order: seq<int>, path: seq<nat>, route: Route, i: nat)
    requires |nodes| == CANDIDATES && i < |path| == |route.waypoints| && path[i] < |order| && 0 <= order[path[i]] < CANDIDATES
  {
    var e := EdgeInto(w, r, route.waypoints, i);
    e.Some? && e.value.q == route.waypoints[i].q && e.value.minimum == nodes[order[path[i]]].minimum
  }

  lemma ReachedAlong(w: World, r: Request, cands: seq<Tcp>, nodes: seq<Node>, order: seq<int>, parent: seq<nat>,
                     path: seq<nat>, route: Route)
    requires Tree(w, r, cands, nodes, order, parent) && ReadsBack(cands, nodes, order, path, route.waypoints)
    requires forall j :: 0 <= j < |path| ==> Linked(parent, path, j)
    ensures forall i :: 0 <= i < |path| ==> ReachedBy(w, r, nodes, order, path, route, i)
  {
    hide Tree, EdgeInto;
    forall i | 0 <= i < |path|
      ensures ReachedBy(w, r, nodes, order, path, route, i)
    {
      TreeEdge(w, r, cands, nodes, order, parent, path, route.waypoints, i);
    }
  }

  lemma ChainHolds(w: World, r: Request, cands: seq<Tcp>, nodes: seq<Node>, order: seq<int>, path: seq<nat>, route: Route,
                   stops: seq<nat>)
    requires ReadsBack(cands, nodes, order, path, route.waypoints) && |path| == |stops| > 0
    requires forall i :: 0 <= i < |path| ==> stops[i] == order[path[i]]
    requires stops[|stops| - 1] == 0
    requires forall i, j :: 0 <= i < j < |path| ==> order[path[i]] != order[path[j]]
    requires forall i :: 0 <= i < |path| ==> ReachedBy(w, r, nodes, order, path, route, i)
    requires forall i :: 0 <= i < |path| ==> route.minimum <= nodes[order[path[i]]].minimum
    requires exists i :: 0 <= i < |path| && route.minimum == nodes[order[path[i]]].minimum
    requires route.usedRecovery <==> exists j :: 0 <= j <= |path| - 1 && EdgeInto(w, r, route.waypoints, j).Some?
                                                 && EdgeInto(w, r, route.waypoints, j).value.recovered
    ensures Chain(w, r, cands, route, stops)
  {
    hide EdgeInto;
    forall i | 0 <= i < |path|
      ensures EdgeInto(w, r, route.waypoints, i).Some?
      ensures EdgeInto(w, r, route.waypoints, i).value.q == route.waypoints[i].q
      ensures EdgeInto(w, r, route.waypoints, i).value.minimum == nodes[order[path[i]]].minimum
    {
      assert ReachedBy(w, r, nodes, order, path, route, i);
    }
    var least :| 0 <= least < |path| && route.minimum == nodes[order[path[least]]].minimum;
    assert ReachedBy(w, r, nodes, order, path, route, least);
  }

  lemma OrderDistinct(w: World, r: Request, cands: seq<Tcp>, nodes: seq<Node>, order: seq<int>, parent: seq<nat>)
    requires Tree(w, r, cands, nodes, order, parent)
    ensures forall i, j :: 0 <= i < j < |order| ==> order[i] != order[j]
  {
  }

  ghost predicate Positions(order: seq<int>, path: seq<nat>) {
    forall i :: 0 <= i < |path| ==> 0 < path[i] < |order| && 0 <= order[path[i]] < CANDIDATES
  }

  /** The candidates of a path, last first. */
  ghost function Backwards(order: seq<int>, path: seq<nat>): (b: seq<int>)
    requires Positions(order, path)
    ensures |b| == |path|
  {
    if path == [] then [] else
    PositionsTail(order, path);
    Backwards(order, path[1..]) + [order[path[0]]]
  }

  lemma PositionsTail(order: seq<int>, path: seq<nat>)
    requires Positions(order, path) && path != []
    ensures Positions(order, path[1..])
  {
  }

  lemma {:induction false} BackwardsAt(order: seq<int>, path: seq<nat>, i: nat)
    requires Positions(order, path) && i < |path|
    ensures Backwards(order, path)[|path| - 1 - i] == order[path[i]] && 0 <= order[path[i]] < CANDIDATES
  {
    if i > 0 {
      PositionsTail(order, path);
      BackwardsAt(order, path[1..], i - 1);
    }
  }

  /** Follows the predecessors from the target; room for 24 waypoints is always enough. */
  method WalkBack(w: World, r: Request, cands: seq<Tcp>, nodes: array<Node>, reverse: array<int>,
                  ghost order: seq<int>, ghost parent: seq<nat>)
    returns (count: nat, full: bool, ghost path: seq<nat>)
    requires nodes.Length == CANDIDATES == reverse.Length && Tree(w, r, cands, nodes[..], order, parent)
    requires |order| > 1 && order[|order| - 1] == 0
    modifies reverse
    ensures !full && |order| == |parent| && 0 < count == |path| <= reverse.Length
    ensures forall i :: 0 < i < |parent| ==> parent[i] < i
    ensures path == PathTo(parent, |order| - 1)
    ensures Positions(order, path) && reverse[..count] == Backwards(order, path)
  {
    hide Tree, ValidEdge, Distinct, InRange;
    ParentsDescend(w, r, cands, nodes[..], order, parent);
    InRangeAll(order);
    var cursor := 0;
    count, full, path := 0, false, [];
    ghost var last := |order| - 1;
    ghost var pos := last;
    assert PathTo(parent, last) + [] == PathTo(parent, last);
    while cursor >= 0
      invariant 0 <= pos <= last && order[pos] == cursor && count + pos <= last && !full
      invariant PathTo(parent, pos) + path == PathTo(parent, last) && |path| == count
      invariant Positions(order, path) && reverse[..count] == Backwards(order, path)
      decreases pos
    {
      if count >= MAX_WAYPOINTS {
        full := true;
        break;
      }
      PrependStep(parent, pos, path);
      PrependBackwards(order, path, pos);
      reverse[count] := cursor;
      assert reverse[..count + 1] == reverse[..count] + [cursor];
      count := count + 1;
      path := [pos] + path;
      cursor := nodes[cursor].predecessor;
      pos := parent[pos];
    }
    assert PathTo(parent, pos) == [];
    PathShape(parent, last);
  }

  lemma InRangeAll(order: seq<int>)
    requires InRange(order)
    ensures forall i :: 0 <= i < |order| ==> -1 <= order[i] < CANDIDATES
  {
  }

  lemma PrependBackwards(order: seq<int>, path: seq<nat>, pos: nat)
    requires Positions(order, path) && 0 < pos < |order| && 0 <= order[pos] < CANDIDATES
    ensures Positions(order, [pos] + path)
    ensures Backwards(order, [pos] + path) == Backwards(order, path) + [order[pos]]
  {
    assert ([pos] + path)[1..] == path;
  }

  lemma PrependStep(parent: seq<nat>, pos: nat, path: seq<nat>)
    requires 0 < pos < |parent| && forall i :: 0 < i < |parent| ==> parent[i] < i
    ensures PathTo(parent, pos) + path == PathTo(parent, parent[pos]) + ([pos] + path)
  {
    PrependAssociates(PathTo(parent, parent[pos]), pos, path);
  }

  lemma PrependAssociates(before: seq<nat>, pos: nat, path: seq<nat>)
    ensures before + [pos] + path == before + ([pos] + path)
  {
  }

  /** Lists the waypoints from the start on, with the smallest clearance of their edges. */
  method ReadBack(w: World, r: Request, cands: seq<Tcp>, nodes: array<Node>, ghost order: seq<int>, ghost parent: seq<nat>)
    returns (result: Result, ghost stops: seq<nat>)
    requires nodes.Length == CANDIDATES && Tree(w, r, cands, nodes[..], order, parent)
    requires |order| > 1 && order[|order| - 1] == 0
    ensures result.Planned? && Chain(w, r, cands, result.route, stops)
  {
    hide Tree, Chain, ValidEdge, Distinct, PathTo, Backwards;
    ParentsDescend(w, r, cands, nodes[..], order, parent);
    var reverse := new int[CANDIDATES];
    var count, full;
    ghost var path;
    count, full, path := WalkBack(w, r, cands, nodes, reverse, order, parent);
    if full {
      result, stops := Failed(ECapacity), [];
    } else {
      var back := reverse[..count];
      BackwardsAt(order, path, 0);
      var waypoints: seq<Waypoint>, minimum := [], nodes[back[count - 1]].minimum;
      ghost var least := 0;
      for i := 0 to count
        invariant |waypoints| == i
        invariant forall j :: 0 <= j < i ==> waypoints[j] == At(cands, nodes[..], order, path[j])
        invariant forall j :: 0 <= j < i ==> minimum <= nodes[order[path[j]]].minimum
        invariant 0 <= least < count && minimum == nodes[order[path[least]]].minimum
      {
        BackwardsAt(order, path, i);
        var index := back[count - 1 - i];
        waypoints := waypoints + [Waypoint(cands[index], nodes[index].q)];
        if nodes[index].minimum < minimum {
          minimum, least := nodes[index].minimum, i;
        }
      }
      var route := Route(waypoints, nodes[0].usedRecovery, minimum);
      stops := PathIsChain(w, r, cands, nodes[..], order, parent, path, route);
      result := Planned(route);
    }
  }

  /** The planner: EINVAL exactly for an unacceptable request; a returned route is a chain of
      valid edges; ENOPATH means the search is exhausted; ECAPACITY never happens. */
  method Plan(w: World, r: Request, anchors: seq<Tcp>, inBounds: Pose -> bool)
    returns (result: Result, ghost stops: seq<nat>, ghost nodes: seq<Node>)
    requires |anchors| == CANDIDATES - 1
    ensures result == Failed(EInval) <==> !Acceptable(w, r, inBounds)
    ensures Acceptable(w, r, inBounds) ==>
              var cands := Candidates(r, w.tcp(r.start).value, anchors);
              match result
              case Planned(route) => Chain(w, r, cands, route, stops)
              case Failed(status) => status == ENoPath && Exhausted(w, r, cands, nodes)
  {
    hide ValidEdge, Tree, Expanded, ExpandedTo, Chain, Exhausted;
    stops, nodes := [], [];
    if !Acceptable(w, r, inBounds) {
      return Failed(EInval), stops, nodes;
    }
    var cands := Candidates(r, w.tcp(r.start).value, anchors);
    var table := new Node[CANDIDATES](_ => Node(false, 0, false, 0.0, r.start));
    var queue := new int[CANDIDATES + 1];
    var head, tail, found := 0, 1, false;
    queue[0] := -1;
    ghost var order, parent: seq<nat> := [-1], [0];
    Rooted(w, r, cands, table[..]);
    while head < tail && !found
      invariant head <= tail <= queue.Length && found == table[0].discovered
      invariant Tree(w, r, cands, table[..], order, parent)
      invariant found ==> |order| > 1 && order[|order| - 1] == 0
      invariant !found ==> queue[..tail] == order && ExpandedTo(w, r, cands, table[..], order, head)
      decreases queue.Length - head, !found
    {
      var newTail;
      newTail, found, order, parent := Expand(w, r, cands, table, queue, head, tail, order, parent);
      if !found {
        tail := newTail;
        head := head + 1;
      }
    }
    nodes := table[..];
    if found {
      ParentsDescend(w, r, cands, table[..], order, parent);
      result, stops := ReadBack(w, r, cands, table, order, parent);
    } else {
      AllExpanded(w, r, cands, nodes, order, parent);
      result := Failed(ENoPath);
    }
  }

  lemma Rooted(w: World, r: Request, cands: seq<Tcp>, nodes: seq<Node>)
    requires |cands| == |nodes| == CANDIDATES && forall i :: 0 <= i < CANDIDATES ==> !nodes[i].discovered
    ensures Tree(w, r, cands, nodes, [-1], [0]) && ExpandedTo(w, r, cands, nodes, [-1], 0)
  {
  }

  lemma AllExpanded(w: World, r: Request, cands: seq<Tcp>, nodes: seq<Node>, order: seq<int>, parent: seq<nat>)
    requires Tree(w, r, cands, nodes, order, parent) && ExpandedTo(w, r, cands, nodes, order, |order|) && !nodes[0].discovered
    ensures Exhausted(w, r, cands, nodes)
  {
    hide ValidEdge, Expanded;
    forall i | -1 <= i < CANDIDATES && (i >= 0 ==> nodes[i].discovered)
      ensures Expanded(w, r, cands, nodes, i, CANDIDATES)
    {
      var k :| 0 <= k < |order| && order[k] == i;
    }
  }
}
