/**
 What a document means, said on the document itself.

 A spot is a place in the document: the way down to a node, and the node's gate or, for a split, its
 join. `Runs` and `RunsSoFar` give the sequences of spots control passes through; no name, plan or
 drawing is mentioned. The naming of a document turns spots into drawn nodes one to one, and runs into
 the plan's runs.
 */
module WorkflowDocument {
  import opened Wrappers
  import opened WorkflowPlan

  datatype Part = Gate | Join

  datatype Spot = Spot(path: seq<nat>, part: Part)

  /** A node without structure of its own, or without the children it should have: a single step. */
  predicate Single(node: Node) {
    match node
    case NotANode => true
    case Leaf(_, _, _) => true
    case Sequence(_, steps) => !steps.Given? || steps.list == []
    case InParallel(_, _, _, _) => false
    case Conditional(_, routes, _, _) => !routes.Given?
    case RouteSwitch(_, decide, cases, _, _) => decide == NotANode || !cases.Given?
    case Loop(_, body, _) => body == NotANode
    case Schedule(_, step, _) => step == NotANode
    case Scoped(_, _, child, _) => child == NotANode
    case Subflow(_, root, _) => root.None? || root.value == NotANode
  }

  function At(nodes: seq<Node>, i: nat): Option<Node> {
    if i < |nodes| then Some(nodes[i]) else None
  }

  /** The `i`-th child: the steps, the paths, the routes and then the default, the decision and then the cases and the uncertain
      branch, or the one child there is. */
  function ChildOf(node: Node, i: nat): (child: Option<Node>)
    ensures child.Some? ==> child.value < node
  {
    if Single(node) then None
    else
      match node
      case NotANode => None
      case Leaf(_, _, _) => None
      case Sequence(_, steps) => At(steps.list, i)
      case InParallel(_, each, paths, _) =>
        if each.Some? then if i == 0 then each else None
        else if paths.Given? then At(paths.list, i)
        else None
      case Conditional(_, routes, default, _) => if i == |routes.list| then default else At(routes.list, i)
      case RouteSwitch(_, decide, cases, uncertain, _) =>
        if i == 0 then Some(decide) else if i == |cases.list| + 1 then uncertain else At(cases.list, i - 1)
      case Loop(_, body, _) => if i == 0 then Some(body) else None
      case Schedule(_, step, _) => if i == 0 then Some(step) else None
      case Scoped(_, _, child, _) => if i == 0 then Some(child) else None
      case Subflow(_, root, _) => if i == 0 then root else None
  }

  /** What a spot of the node asks to be called: the id it carries, or what stands for one that is missing. */
  function IdAt(node: Node, part: Part): string {
    match node
    case NotANode => "malformed"
    case Sequence(id, steps) => if steps.Given? then "empty" else id
    case InParallel(id, _, _, _) => if part.Join? then id + "~join" else id
    case _ => node.id
  }

  /** What a spot of the node is drawn as: a leaf as its own kind, a split as a gate and a join, every other construct as its gate, and
      a node without the children it should have as a hole. */
  function KindAt(node: Node, part: Part): Kind {
    match node
    case NotANode => Malformed
    case Leaf(_, kind, _) => Plain(kind)
    case Sequence(_, _) => Malformed
    case InParallel(_, _, _, _) => if part.Join? then JoinGate else ParallelGate
    case Conditional(_, _, _, _) => if Single(node) then Malformed else ConditionalGate
    case RouteSwitch(_, _, _, _, _) => if Single(node) then Malformed else SwitchGate
    case Loop(_, _, _) => if Single(node) then Malformed else LoopGate
    case Schedule(_, _, _) => if Single(node) then Malformed else ScheduleGate
    case Scoped(_, spawns, _, _) => if Single(node) then Malformed else if spawns then SpawnGate else ContextGate
    case Subflow(_, _, _) => if Single(node) then Plain("subflow") else SubflowGate
  }

  /** The node at the end of a way down. */
  function NodeAt(node: Node, path: seq<nat>): Option<Node>
    decreases |path|
  {
    if path == [] then Some(node)
    else if ChildOf(node, path[0]).Some? then NodeAt(ChildOf(node, path[0]).value, path[1..])
    else None
  }

  // ---------- Runs ----------

  /** `t` is a run of the node at `at` from beginning to end. */
  ghost predicate Runs(node: Node, at: seq<nat>, t: seq<Spot>)
    decreases node, |t|, 1
  {
    var gate := Spot(at, Gate);
    if Single(node) then t == [gate]
    else if node.Sequence? then RunsFrom(node, at, 0, t)
    else if node.InParallel? then
      |t| >= 2 && t[0] == gate && t[|t| - 1] == Spot(at, Join) && RunsOne(node, at, 0, t[1..|t| - 1])
    else if node.Conditional? then
      (node.default.None? && t == [gate]) || (|t| > 0 && t[0] == gate && RunsOne(node, at, 0, t[1..]))
    else if node.RouteSwitch? then
      exists k :: 0 <= k < |t| && RunsChild(node, at, 0, t[..k]) && t[k] == gate && RunsOne(node, at, 1, t[k + 1..])
    else if node.Loop? then
      exists k :: 0 <= k < |t| && RunsChild(node, at, 0, t[..k]) && t[k] == gate && (k + 1 == |t| || Runs(node, at, t[k + 1..]))
    else if node.Schedule? then false
    else |t| > 0 && t[0] == gate && RunsChild(node, at, 0, t[1..])
  }

  ghost predicate RunsChild(node: Node, at: seq<nat>, i: nat, t: seq<Spot>)
    decreases node, |t|, 0
  {
    ChildOf(node, i).Some? && Runs(ChildOf(node, i).value, at + [i], t)
  }

  /** Exactly one of the children from `first` on. */
  ghost predicate RunsOne(node: Node, at: seq<nat>, first: nat, t: seq<Spot>)
    decreases node, |t|, 0
  {
    exists i: nat :: first <= i && ChildOf(node, i).Some? && Runs(ChildOf(node, i).value, at + [i], t)
  }

  /** The children from `i` on, one after the other. */
  ghost predicate RunsFrom(node: Node, at: seq<nat>, i: nat, t: seq<Spot>)
    requires node.Sequence? && !Single(node)
    decreases node, |t|, 0, |node.steps.list| - i
  {
    i < |node.steps.list| &&
    if i + 1 == |node.steps.list| then Runs(node.steps.list[i], at + [i], t)
    else exists k :: 0 <= k <= |t| && Runs(node.steps.list[i], at + [i], t[..k]) && RunsFrom(node, at, i + 1, t[k..])
  }

  /** `t` is what a run of the node at `at` may have passed through so far. */
  ghost predicate RunsSoFar(node: Node, at: seq<nat>, t: seq<Spot>)
    decreases node, |t|, 1
  {
    var gate := Spot(at, Gate);
    if Single(node) then t == [gate]
    else if node.Sequence? then SoFarFrom(node, at, 0, t)
    else if node.InParallel? then (|t| > 0 && t[0] == gate && (|t| == 1 || SoFarOne(node, at, 0, t[1..]))) || Runs(node, at, t)
    else if node.Conditional? then |t| > 0 && t[0] == gate && (|t| == 1 || SoFarOne(node, at, 0, t[1..]))
    else if node.RouteSwitch? then
      SoFarChild(node, at, 0, t) ||
      exists k :: 0 <= k < |t| && RunsChild(node, at, 0, t[..k]) && t[k] == gate && (k + 1 == |t| || SoFarOne(node, at, 1, t[k + 1..]))
    else if node.Loop? then
      SoFarChild(node, at, 0, t) ||
      exists k :: 0 <= k < |t| && RunsChild(node, at, 0, t[..k]) && t[k] == gate && (k + 1 == |t| || RunsSoFar(node, at, t[k + 1..]))
    else if node.Schedule? then
      && |t| > 0 && t[0] == gate
      && (|t| == 1 || SoFarChild(node, at, 0, t[1..]) ||
          exists k :: 1 <= k < |t| && RunsChild(node, at, 0, t[1..k]) && RunsSoFar(node, at, t[k..]))
    else |t| > 0 && t[0] == gate && (|t| == 1 || SoFarChild(node, at, 0, t[1..]))
  }

  ghost predicate SoFarChild(node: Node, at: seq<nat>, i: nat, t: seq<Spot>)
    decreases node, |t|, 0
  {
    ChildOf(node, i).Some? && RunsSoFar(ChildOf(node, i).value, at + [i], t)
  }

  ghost predicate SoFarOne(node: Node, at: seq<nat>, first: nat, t: seq<Spot>)
    decreases node, |t|, 0
  {
    exists i: nat :: first <= i && ChildOf(node, i).Some? && RunsSoFar(ChildOf(node, i).value, at + [i], t)
  }

  ghost predicate SoFarFrom(node: Node, at: seq<nat>, i: nat, t: seq<Spot>)
    requires node.Sequence? && !Single(node)
    decreases node, |t|, 0, |node.steps.list| - i
  {
    i < |node.steps.list| &&
    (RunsSoFar(node.steps.list[i], at + [i], t) ||
     exists k :: 0 <= k <= |t| && Runs(node.steps.list[i], at + [i], t[..k]) && SoFarFrom(node, at, i + 1, t[k..]))
  }
}
