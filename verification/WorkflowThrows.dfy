/** On which documents the drawing throws. */
module WorkflowThrows {
  import opened Wrappers
  import opened WorkflowDisplay
  import opened WorkflowPlan

  /** What a node shows of itself can be made: the text a leaf is described by, the list a split goes through, the routes of a
      conditional, and whatever stands in a template. A node drawn as a hole shows nothing of its own. */
  predicate OwnShown(node: Node) {
    match node
    case NotANode => true
    case Leaf(_, kind, held) => LeafShown(kind, held)
    case Sequence(_, _) => true
    case InParallel(_, each, paths, held) => ParallelShown(each.Some?, held) && (each.None? ==> !paths.NotIterable?)
    case Conditional(_, routes, _, labels) =>
      routes.Given? ==> forall i :: 0 <= i < |routes.list| && i < |labels| ==> RouteShown(labels[i])
    case RouteSwitch(_, decide, cases, _, held) => decide != NotANode && cases.Given? ==> SwitchShown(held)
    case Loop(_, body, held) => body != NotANode ==> LoopShown(held)
    case Schedule(_, step, held) => step != NotANode ==> ScheduleShown(held)
    case Scoped(_, spawns, child, held) => child != NotANode ==> ScopedShown(spawns, held)
    case Subflow(_, root, held) => root.None? || root.value == NotANode ==> LeafShown("subflow", held)
  }

  /** The nodes the drawing comes to: not the paths of a split that has one body for each item, and nothing below a hole. */
  function Visited(node: Node): set<Node>
    decreases node
  {
    {node} +
    match node
    case NotANode => {}
    case Leaf(_, _, _) => {}
    case Sequence(_, steps) => if steps.Given? then VisitedAll(steps.list) else {}
    case InParallel(_, each, paths, _) =>
      if each.Some? then Visited(each.value) else if paths.Given? then VisitedAll(paths.list) else {}
    case Conditional(_, routes, default, _) =>
      if !routes.Given? then {} else VisitedAll(routes.list) + if default.Some? then Visited(default.value) else {}
    case RouteSwitch(_, decide, cases, uncertain, _) =>
      if decide == NotANode || !cases.Given? then {}
      else Visited(decide) + VisitedAll(cases.list) + if uncertain.Some? then Visited(uncertain.value) else {}
    case Loop(_, body, _) => Visited(body)
    case Schedule(_, step, _) => Visited(step)
    case Scoped(_, _, child, _) => Visited(child)
    case Subflow(_, root, _) => if root.Some? then Visited(root.value) else {}
  }

  function VisitedAll(nodes: seq<Node>): set<Node>
    decreases nodes
  {
    set i, n | 0 <= i < |nodes| && n in Visited(nodes[i]) :: n
  }

  predicate AllOwnShown(nodes: set<Node>) {
    forall n :: n in nodes ==> OwnShown(n)
  }

  lemma {:induction false} RoutesShownAll(labels: seq<Option<Fields>>, k: nat)
    ensures RoutesShown(labels, k) <==> forall i :: 0 <= i < k && i < |labels| ==> RouteShown(labels[i])
  {
    if k > 0 { RoutesShownAll(labels, k - 1); }
  }

  lemma {:induction false} AllShownIff(nodes: seq<Node>)
    ensures AllShown(nodes) <==> AllOwnShown(VisitedAll(nodes))
    decreases nodes, 0
  {
    ShownFirstAll(nodes, |nodes|);
    forall i | 0 <= i < |nodes| ensures Shown(nodes[i]) <==> AllOwnShown(Visited(nodes[i])) { ShownIff(nodes[i]); }
    if !AllOwnShown(VisitedAll(nodes)) {
      var n :| n in VisitedAll(nodes) && !OwnShown(n);
      var i :| 0 <= i < |nodes| && n in Visited(nodes[i]);
      assert !AllOwnShown(Visited(nodes[i]));
    }
    if AllOwnShown(VisitedAll(nodes)) {
      forall i, n | 0 <= i < |nodes| && n in Visited(nodes[i]) ensures OwnShown(n) { assert n in VisitedAll(nodes); }
    }
  }

  lemma {:induction false} ShownIff(node: Node)
    ensures Shown(node) <==> AllOwnShown(Visited(node))
    decreases node, 1
  {
    assert node in Visited(node);
    match node
    case NotANode =>
    case Leaf(_, _, _) =>
    case Sequence(_, steps) => if steps.Given? { AllShownIff(steps.list); }
    case InParallel(_, each, paths, _) =>
      if each.Some? { ShownIff(each.value); } else if paths.Given? { AllShownIff(paths.list); }
    case Conditional(_, _, _, _) => ConditionalShownIff(node);
    case RouteSwitch(_, _, _, _, _) => SwitchShownIff(node);
    case Loop(_, body, _) => ShownIff(body);
    case Schedule(_, step, _) => ShownIff(step);
    case Scoped(_, _, child, _) => ShownIff(child);
    case Subflow(_, root, _) => if root.Some? { ShownIff(root.value); }
  }

  lemma {:induction false} ConditionalShownIff(node: Node)
    requires node.Conditional?
    ensures Shown(node) <==> AllOwnShown(Visited(node))
    decreases node, 0
  {
    assert node in Visited(node);
    if node.routes.Given? {
      RoutesShownAll(node.labels, |node.routes.list|);
      AllShownIff(node.routes.list);
      if node.default.Some? { ShownIff(node.default.value); }
      assert Visited(node) == {node} + VisitedAll(node.routes.list) + if node.default.Some? then Visited(node.default.value) else {};
    }
  }

  lemma {:induction false} SwitchShownIff(node: Node)
    requires node.RouteSwitch?
    ensures Shown(node) <==> AllOwnShown(Visited(node))
    decreases node, 0
  {
    assert node in Visited(node);
    if node.decide != NotANode && node.cases.Given? {
      ShownIff(node.decide);
      AllShownIff(node.cases.list);
      if node.uncertain.Some? { ShownIff(node.uncertain.value); }
    }
  }

  /** The drawing of a document throws exactly if some node it comes to cannot be shown. */
  lemma ThrowsIffSomeUnshown(root: Node)
    ensures !Shown(root) <==> exists n :: n in Visited(root) && !OwnShown(n)
  {
    ShownIff(root);
  }

  /** A model call without instructions is a node, and throws; a loop without a body is a hole, and does not, whatever else it lacks. */
  lemma MissingTextThrowsMissingChildDoesNot(id: string)
    ensures !Shown(Leaf(id, "callModel", map[]))
    ensures Shown(Loop(id, NotANode, map[])) && !Shown(Loop(id, Leaf(id, "other", map[]), map[]))
  {
  }

  /** The text some kinds of leaf are described by. */
  function TextKey(kind: string): Option<string> {
    if kind == "callModel" then Some("instructions")
    else if kind == "runCode" then Some("execute")
    else if kind == "compute" then Some("expr")
    else if kind == "acp-agent" then Some("prompt")
    else None
  }

  /** A leaf that has such a text needs it and nothing else; leaves of other kinds need nothing. */
  lemma LeafNeedsItsText(id: string, kind: string, held: Fields, text: string)
    ensures TextKey(kind).Some? && !IsText(Get(held, TextKey(kind).value)) ==> !Shown(Leaf(id, kind, held))
    ensures TextKey(kind).Some? ==> Shown(Leaf(id, kind, map[TextKey(kind).value := Str(text)]))
    ensures TextKey(kind).None? ==> Shown(Leaf(id, kind, map[]))
  {
  }

  /** A loop needs its predicate and a context its layers. */
  lemma LoopsAndContextsNeed(id: string, child: Node, given: bool)
    requires child != NotANode && Shown(child)
    ensures Shown(Loop(id, child, if given then map["until" := Obj(map[])] else map[])) <==> given
    ensures Shown(Scoped(id, false, child, if given then map["layers" := Arr([])] else map[])) <==> given
  {
  }

  /** The other constructs around nodes that can be shown. */
  function Bare(id: string, child: Node): seq<Node> {
    [Scoped(id, true, child, map[]), Schedule(id, child, map[]), InParallel(id, Some(child), NotIterable, map[]),
     RouteSwitch(id, child, Given([]), None, map[]), Conditional(id, Given([]), Some(child), []), Subflow(id, Some(child), map[])]
  }

  /** They need nothing of their own. */
  lemma OthersNeedNothing(id: string, child: Node)
    requires Shown(child)
    ensures forall n :: n in Bare(id, child) ==> Shown(n)
  {
  }
}
