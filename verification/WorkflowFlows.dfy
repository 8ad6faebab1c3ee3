/** What the drawing handed to the viewer says, read off its own nodes and edges. */
module WorkflowFlows {
  import opened FlowBuilding
  import opened Wrappers
  import opened WorkflowCoverage
  import opened WorkflowDocument
  import opened WorkflowDrawing
  import opened WorkflowNames
  import opened WorkflowOrder
  import opened WorkflowPlan
  import opened WorkflowReach
  import opened WorkflowSpots
  import opened WorkflowTraces

  // ---------- Following the edges ----------

  /** The first node drawn is the start and the last one the end. */
  function StartOf(flow: WorkflowFlow): string {
    if flow.nodes == [] then "" else flow.nodes[0].id
  }

  function EndOf(flow: WorkflowFlow): string {
    if flow.nodes == [] then "" else flow.nodes[|flow.nodes| - 1].id
  }

  /** Some edge goes from `a` to `b`. */
  ghost predicate EdgeJoins(flow: WorkflowFlow, a: string, b: string) {
    exists e :: e in flow.edges && e.from == a && e.to == b
  }

  /** A way from the start along edges. */
  ghost predicate FollowsEdges(flow: WorkflowFlow, w: Trace) {
    |w| > 0 && w[0] == StartOf(flow) && forall i :: 0 <= i < |w| - 1 ==> EdgeJoins(flow, w[i], w[i + 1])
  }

  ghost predicate ComesToEnd(flow: WorkflowFlow, w: Trace) {
    FollowsEdges(flow, w) && w[|w| - 1] == EndOf(flow)
  }

  lemma Terminals(root: Node)
    ensures StartOf(Drawing(root)) == NameFlow(root).start && EndOf(Drawing(root)) == NameFlow(root).end
    ensures Drawing(root).nodes[0].kind == StartTerminal && Drawing(root).nodes[|Drawing(root).nodes| - 1].kind == EndTerminal
  {
  }

  lemma EdgeOfWire(wires: seq<Wire>, w: Wire)
    requires w in wires
    ensures exists e :: e in Numbered(wires) && e.from == w.from && e.to == w.to && e.variant == w.variant
  {
    var i :| 0 <= i < |wires| && wires[i] == w;
    assert Numbered(wires)[i] in Numbered(wires);
  }

  lemma WireOfEdge(wires: seq<Wire>, e: GraphEdge)
    requires e in Numbered(wires)
    ensures Wire(e.from, e.to, e.variant) in wires
  {
    var i :| 0 <= i < |wires| && Numbered(wires)[i] == e;
    assert wires[i] == Wire(e.from, e.to, e.variant);
  }

  lemma EdgesAreWires(root: Node, a: string, b: string)
    ensures EdgeJoins(Drawing(root), a, b) <==> Joins(FlowWires(NameFlow(root)), a, b)
  {
    var wires := FlowWires(NameFlow(root));
    if EdgeJoins(Drawing(root), a, b) {
      var e :| e in Drawing(root).edges && e.from == a && e.to == b;
      WireOfEdge(wires, e);
    }
    if Joins(wires, a, b) {
      var w :| w in wires && w.from == a && w.to == b;
      EdgeOfWire(wires, w);
    }
  }

  lemma EdgesAreFollowed(root: Node, w: Trace)
    ensures FollowsEdges(Drawing(root), w) <==> FlowWalk(NameFlow(root), w)
  {
    Terminals(root);
    forall i | 0 <= i < |w| - 1
      ensures EdgeJoins(Drawing(root), w[i], w[i + 1]) <==> Joins(FlowWires(NameFlow(root)), w[i], w[i + 1])
    {
      EdgesAreWires(root, w[i], w[i + 1]);
    }
  }

  /** The ids under which the spots of a run are drawn. */
  function DrawnAs(root: Node, t: seq<Spot>): Trace {
    Labels(NameFlow(root).body, t)
  }

  /** The ways along edges from the start to the end are exactly the document's complete runs. */
  lemma FlowMeansDocument(root: Node, w: Trace)
    ensures ComesToEnd(Drawing(root), w) <==>
      exists t :: RunOf(root, t) && w == [StartOf(Drawing(root))] + DrawnAs(root, t) + [EndOf(Drawing(root))]
  {
    Terminals(root);
    EdgesAreFollowed(root, w);
    DrawingMeansDocument(root, w);
    if t :| DrawsRun(root, w, t) {
      assert RunOf(root, t) && w == [StartOf(Drawing(root))] + DrawnAs(root, t) + [EndOf(Drawing(root))];
    }
    if t :| RunOf(root, t) && w == [StartOf(Drawing(root))] + DrawnAs(root, t) + [EndOf(Drawing(root))] {
      assert DrawsRun(root, w, t);
    }
  }

  /** And those that have not come to the end are the start alone and exactly its runs so far. */
  lemma FlowShowsEveryRun(root: Node, w: Trace)
    ensures FollowsEdges(Drawing(root), w) && w[|w| - 1] != EndOf(Drawing(root)) <==>
      w == [StartOf(Drawing(root))] || exists t :: RunsSoFar(root, [], t) && w == [StartOf(Drawing(root))] + DrawnAs(root, t)
  {
    Terminals(root);
    EdgesAreFollowed(root, w);
    DrawingShowsEveryRun(root, w);
    if t :| DrawsRunSoFar(root, w, t) {
      assert RunsSoFar(root, [], t) && w == [StartOf(Drawing(root))] + DrawnAs(root, t);
    }
    if t :| RunsSoFar(root, [], t) && w == [StartOf(Drawing(root))] + DrawnAs(root, t) {
      assert DrawsRunSoFar(root, w, t);
    }
  }

  /** The end can be reached exactly when some run of the document comes to an end. */
  lemma FlowEndReachable(root: Node)
    ensures (exists w :: ComesToEnd(Drawing(root), w)) <==> Completable(root)
  {
    Terminals(root);
    EndReachableIffCompletable(root);
    if w :| ComesToEnd(Drawing(root), w) {
      EdgesAreFollowed(root, w);
      assert EndReached(NameFlow(root), w);
    }
    if w :| EndReached(NameFlow(root), w) {
      EdgesAreFollowed(root, w);
      assert ComesToEnd(Drawing(root), w);
    }
  }

  ghost predicate OnTheWay(flow: WorkflowFlow, n: GraphNode) {
    exists w :: ComesToEnd(flow, w) && n.id in w
  }

  lemma UsedIsOnTheWay(root: Node, x: string)
    ensures Used(NameFlow(root), x) <==> exists w :: ComesToEnd(Drawing(root), w) && x in w
  {
    Terminals(root);
    if w :| ComesToEnd(Drawing(root), w) && x in w {
      EdgesAreFollowed(root, w);
      assert EndReached(NameFlow(root), w);
    }
    if Used(NameFlow(root), x) {
      var w :| EndReached(NameFlow(root), w) && x in w;
      EdgesAreFollowed(root, w);
      assert ComesToEnd(Drawing(root), w);
    }
  }

  /** Every node lies on a way from start to end exactly when the document has no dead end. */
  lemma FlowNodesAreUsed(root: Node)
    ensures (forall n :: n in Drawing(root).nodes ==> OnTheWay(Drawing(root), n)) <==> NoDeadEnd(root)
  {
    var f := NameFlow(root);
    EveryNodeUsedIffNoDeadEnd(root);
    forall n | n in Drawing(root).nodes ensures OnTheWay(Drawing(root), n) <==> Used(f, n.id) { UsedIsOnTheWay(root, n.id); }
    if NoDeadEnd(root) {
      forall n | n in Drawing(root).nodes ensures OnTheWay(Drawing(root), n) { assert IsDrawn(f, n.id); }
    } else {
      var x :| IsDrawn(f, x) && !Used(f, x);
      var n :| n in FlowNodes(f) && n.id == x;
      assert n in Drawing(root).nodes;
    }
  }

  // ---------- The edges themselves ----------

  ghost predicate ForwardJoins(flow: WorkflowFlow, a: string, b: string) {
    exists e :: e in flow.edges && e.from == a && e.to == b && e.variant != Back
  }

  ghost predicate ForwardWay(flow: WorkflowFlow, t: Trace) {
    forall k :: 0 <= k < |t| - 1 ==> ForwardJoins(flow, t[k], t[k + 1])
  }

  lemma ForwardIsWire(root: Node, a: string, b: string)
    requires ForwardJoins(Drawing(root), a, b)
    ensures ForwardEdge(NameFlow(root), a, b)
  {
    var e :| e in Drawing(root).edges && e.from == a && e.to == b && e.variant != Back;
    WireOfEdge(FlowWires(NameFlow(root)), e);
  }

  /** Without the edges that say they go back no way meets a node twice. */
  lemma FlowForwardAcyclic(root: Node, t: Trace, i: nat, j: nat)
    requires ForwardWay(Drawing(root), t) && i < j < |t|
    ensures t[i] != t[j]
  {
    forall k | 0 <= k < |t| - 1
      ensures ForwardEdge(NameFlow(root), t[k], t[k + 1])
    {
      assert ForwardJoins(Drawing(root), t[k], t[k + 1]);
      ForwardIsWire(root, t[k], t[k + 1]);
    }
    ForwardEdgesAcyclic(root, t, i, j);
  }

  /** An edge says that it goes back exactly if it goes against the reading order, in which every node stands once after the start. */
  lemma FlowBackEdges(root: Node, e: GraphEdge)
    requires e in Drawing(root).edges
    ensures e.variant == Back <==> Before(FlowReading(NameFlow(root)), e.to, e.from)
    ensures e.variant != Back <==> Before(FlowReading(NameFlow(root)), e.from, e.to)
  {
    var order := FlowReading(NameFlow(root));
    WireOfEdge(FlowWires(NameFlow(root)), e);
    FlowEdgesFollow(root, Wire(e.from, e.to, e.variant));
    FlowReadingDistinct(root);
    if Before(order, e.from, e.to) && Before(order, e.to, e.from) {
      BeforeTransitive(order, e.from, e.to, e.from);
      BeforeDiffers(order, e.from, e.from);
    }
  }

  /** That order begins with the start and holds exactly the nodes. */
  lemma OrderOfNodes(root: Node, x: string)
    ensures FlowReading(NameFlow(root))[0] == StartOf(Drawing(root)) && NoRepeats(FlowReading(NameFlow(root)))
    ensures x in FlowReading(NameFlow(root)) <==> exists n :: n in Drawing(root).nodes && n.id == x
  {
    FlowReadingDistinct(root);
    ReadingHas(Bracketed(NameFlow(root)), x);
    IsDrawnIffHad(NameFlow(root), x);
  }

  /** Both ends of every edge are nodes of the drawing. */
  lemma FlowEdgesJoinNodes(root: Node, e: GraphEdge)
    requires e in Drawing(root).edges
    ensures exists n :: n in Drawing(root).nodes && n.id == e.from
    ensures exists n :: n in Drawing(root).nodes && n.id == e.to
  {
    WireOfEdge(FlowWires(NameFlow(root)), e);
    EdgesJoinDrawnNodes(root, Wire(e.from, e.to, e.variant));
  }

  /** No two nodes and no two edges share an id. */
  lemma FlowIdsDistinct(root: Node, i: nat, j: nat)
    ensures i < |Drawing(root).nodes| && j < |Drawing(root).nodes| && Drawing(root).nodes[i].id == Drawing(root).nodes[j].id ==> i == j
    ensures i < |Drawing(root).edges| && j < |Drawing(root).edges| && Drawing(root).edges[i].id == Drawing(root).edges[j].id ==> i == j
  {
    FlowNodesDistinct(root);
    var wires := FlowWires(NameFlow(root));
    if i < |wires| && j < |wires| && Numbered(wires)[i].id == Numbered(wires)[j].id { EdgeIdsDistinct(wires, i, j); }
  }

  // ---------- What the nodes are ----------

  lemma DrawnFirstIn(ps: seq<Plan>, k: nat, i: nat, n: GraphNode)
    requires i < k <= |ps| && n in Drawn(ps[i])
    ensures n in DrawnFirst(ps, k)
  {
    if i < k - 1 { DrawnFirstIn(ps, k - 1, i, n); }
  }

  lemma ChildDrawn(p: Plan, i: nat, n: GraphNode)
    requires Child(p, i).Some? && n in Drawn(Child(p, i).value)
    ensures n in Drawn(p)
  {
    if p.Chain? {
      DrawnFirstIn(p.steps, |p.steps|, i, n);
    } else if p.Fork? {
      DrawnFirstIn(p.branches, |p.branches|, i, n);
    } else if p.Route? {
      DrawnFirstIn(p.targets, |p.targets|, i, n);
    } else if p.Switch? && i > 0 {
      DrawnFirstIn(p.targets, |p.targets|, i - 1, n);
    }
  }

  lemma OwnIsDrawn(p: Plan, part: Part)
    requires OwnName(p, part).Some?
    ensures GraphNode(OwnName(p, part).value, OwnKind(p, part)) in Drawn(p)
  {
  }

  /** The node drawn for a spot: under the id the document gives there, or that id with a number, and as what stands there. */
  ghost predicate DrawnFor(node: Node, s: Spot, n: GraphNode) {
    && NodeAt(node, s.path).Some?
    && NamedAfter(n.id, IdAt(NodeAt(node, s.path).value, s.part))
    && n.kind == KindAt(NodeAt(node, s.path).value, s.part)
  }

  lemma {:induction false} SpotIsDrawn(node: Node, p: Plan, s: Spot) returns (n: GraphNode)
    requires Mirrors(node, p) && NameAt(p, s).Some?
    ensures n in Drawn(p) && n.id == NameAt(p, s).value && DrawnFor(node, s, n)
    decreases |s.path|
  {
    if s.path == [] {
      OwnIsDrawn(p, s.part);
      n := GraphNode(OwnName(p, s.part).value, OwnKind(p, s.part));
    } else {
      var i := s.path[0];
      n := SpotIsDrawn(ChildOf(node, i).value, Child(p, i).value, Spot(s.path[1..], s.part));
      ChildDrawn(p, i, n);
    }
  }

  /** Apart from the terminals every node of the drawing is drawn for the one spot it is named for. */
  lemma NodesAreSpots(root: Node, i: nat) returns (s: Spot)
    requires 0 < i < |Drawing(root).nodes| - 1
    ensures NameAt(NameFlow(root).body, s) == Some(Drawing(root).nodes[i].id) && DrawnFor(root, s, Drawing(root).nodes[i])
  {
    var f, n := NameFlow(root), Drawing(root).nodes[i];
    RootSits(root);
    assert n == Drawn(f.body)[i - 1];
    DrawnIsHad(f.body, n);
    s := SpotOf(f.body, n.id);
    var m := SpotIsDrawn(root, f.body, s);
    SameNode(root, m, n);
  }

  lemma SameNode(root: Node, m: GraphNode, n: GraphNode)
    requires m in Drawn(NameFlow(root).body) && n in Drawn(NameFlow(root).body) && m.id == n.id
    ensures m == n
  {
    FlowNodesDistinct(root);
    var nodes := FlowNodes(NameFlow(root));
    assert m in nodes && n in nodes;
    var i :| 0 <= i < |nodes| && nodes[i] == m;
    var j :| 0 <= j < |nodes| && nodes[j] == n;
  }

  // ---------- Edges into a scope ----------

  predicate OwnScope(kind: Kind) {
    kind.SpawnGate? || kind.ContextGate?
  }

  /** Steps are drawn as steps, and scopes as one of the three there are. */
  ghost predicate Proper(p: Plan)
    decreases p
  {
    && (p.Step? ==> p.kind.Plain? || p.kind.Malformed?)
    && (p.Wrap? ==> OwnScope(p.kind) || p.kind.SubflowGate?)
    && forall i: nat :: Child(p, i).Some? ==> Proper(Child(p, i).value)
  }

  lemma {:induction false} MirrorsProper(node: Node, p: Plan)
    requires Mirrors(node, p)
    ensures Proper(p)
    decreases node
  {
    assert p.Step? || p.Wrap? ==> OwnName(p, Gate).Some?;
    forall i: nat | Child(p, i).Some?
      ensures Proper(Child(p, i).value)
    {
      MirrorsProper(ChildOf(node, i).value, Child(p, i).value);
    }
  }

  /** `x` is drawn there, and as a scope of its own exactly if `own`. */
  ghost predicate DrawnAsScope(p: Plan, x: string, own: bool) {
    exists n :: n in Drawn(p) && n.id == x && (OwnScope(n.kind) <==> own)
  }

  ghost predicate ChildWire(p: Plan, i: nat, w: Wire) {
    Child(p, i).Some? && (w in Wires(Child(p, i).value) || (w.from in Exits(Child(p, i).value) && w.variant != Isolated))
  }

  ghost predicate OwnWire(p: Plan, w: Wire) {
    OwnName(p, Gate) == Some(w.from) && (w.variant == Isolated <==> p.Wrap? && p.kind != SubflowGate)
  }

  /** A wire comes from the construct's own gate, or belongs to a child or leaves it. */
  lemma WireComes(p: Plan, w: Wire)
    requires w in Wires(p)
    ensures OwnWire(p, w) || exists i :: ChildWire(p, i, w)
  {
    match p
    case Step(_, _) =>
    case Chain(steps) =>
      if w in WiresFirst(steps, |steps|) {
        var i := WiresFirstOwner(steps, |steps|, w);
        assert ChildWire(p, i, w);
      } else {
        var i := LinksOwner(steps, |steps|, w);
        assert ChildWire(p, i, w);
      }
    case Fork(fork, join, branches) =>
      var i := ForkOwner(fork, join, branches, |branches|, w);
      assert OwnWire(p, w) || ChildWire(p, i, w);
    case Route(gate, targets, _) =>
      var i := RouteOwner(gate, targets, |targets|, w);
      assert OwnWire(p, w) || ChildWire(p, i, w);
    case Switch(decide, gate, targets) =>
      if w in RouteWires(gate, targets, |targets|) {
        var i := RouteOwner(gate, targets, |targets|, w);
        assert OwnWire(p, w) || ChildWire(p, i + 1, w);
      } else {
        assert ChildWire(p, 0, w);
      }
    case _ => assert OwnWire(p, w) || ChildWire(p, 0, w);
  }

  ghost predicate ChildExit(p: Plan, i: nat, x: string) {
    Child(p, i).Some? && x in Exits(Child(p, i).value)
  }

  lemma ExitComes(p: Plan, x: string)
    requires x in Exits(p)
    ensures (!p.Wrap? && (OwnName(p, Gate) == Some(x) || OwnName(p, Join) == Some(x))) || exists i :: ChildExit(p, i, x)
  {
    match p
    case Chain(steps) => assert ChildExit(p, |steps| - 1, x);
    case Route(gate, targets, _) =>
      if x != gate {
        ExitsFirstHas(targets, |targets|, x);
        var i :| 0 <= i < |targets| && x in Exits(targets[i]);
        assert ChildExit(p, i, x);
      }
    case Switch(_, _, targets) =>
      ExitsFirstHas(targets, |targets|, x);
      var i :| 0 <= i < |targets| && x in Exits(targets[i]);
      assert ChildExit(p, i + 1, x);
    case Wrap(_, _, _) => assert ChildExit(p, 0, x);
    case Fork(_, join, _) => assert OwnName(p, Join) == Some(join);
    case _ =>
  }

  lemma ChildScope(p: Plan, i: nat, x: string, own: bool)
    requires Child(p, i).Some? && DrawnAsScope(Child(p, i).value, x, own)
    ensures DrawnAsScope(p, x, own)
  {
    var n :| n in Drawn(Child(p, i).value) && n.id == x && (OwnScope(n.kind) <==> own);
    ChildDrawn(p, i, n);
  }

  lemma {:induction false} ExitsAreNoScopes(p: Plan, x: string)
    requires Proper(p) && x in Exits(p)
    ensures DrawnAsScope(p, x, false)
    decreases p
  {
    ExitComes(p, x);
    if i :| ChildExit(p, i, x) {
      ExitsAreNoScopes(Child(p, i).value, x);
      ChildScope(p, i, x, false);
    } else {
      var part := if OwnName(p, Gate) == Some(x) then Gate else Join;
      OwnIsDrawn(p, part);
    }
  }

  lemma {:induction false} IsolatedLeaveScopes(p: Plan, w: Wire)
    requires Proper(p) && w in Wires(p)
    ensures DrawnAsScope(p, w.from, w.variant == Isolated)
    decreases p
  {
    WireComes(p, w);
    if i :| ChildWire(p, i, w) {
      var child := Child(p, i).value;
      if w in Wires(child) { IsolatedLeaveScopes(child, w); } else { ExitsAreNoScopes(child, w.from); }
      ChildScope(p, i, w.from, w.variant == Isolated);
    } else {
      OwnIsDrawn(p, Gate);
    }
  }

  lemma ScopeInFlow(root: Node, w: Wire)
    requires w in FlowWires(NameFlow(root))
    ensures exists n :: n in Drawing(root).nodes && n.id == w.from && (OwnScope(n.kind) <==> w.variant == Isolated)
  {
    var f := NameFlow(root);
    RootSits(root);
    MirrorsProper(root, f.body);
    if w == Wire(f.start, Entry(f.body), Default) {
      assert Drawing(root).nodes[0] == GraphNode(f.start, StartTerminal);
    } else {
      if w in Wires(f.body) { IsolatedLeaveScopes(f.body, w); } else { ExitsAreNoScopes(f.body, w.from); }
      var n :| n in Drawn(f.body) && n.id == w.from && (OwnScope(n.kind) <==> w.variant == Isolated);
      assert n in Drawing(root).nodes;
    }
  }

  /** An edge is marked as isolated exactly if it leaves the gate of a spawned or context-scoped child. */
  lemma FlowIsolatedEdges(root: Node, e: GraphEdge)
    requires e in Drawing(root).edges
    ensures e.variant == Isolated <==> exists n :: n in Drawing(root).nodes && n.id == e.from && OwnScope(n.kind)
  {
    WireOfEdge(FlowWires(NameFlow(root)), e);
    ScopeInFlow(root, Wire(e.from, e.to, e.variant));
    FlowNodesDistinct(root);
  }
}
