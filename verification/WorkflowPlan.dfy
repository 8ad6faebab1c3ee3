/**
 The workflow document, the graph drawn from it, and the plan between the two:
 the document with every construct under the name it is drawn by.
 */
module WorkflowPlan {
  import opened Text
  import opened WorkflowDisplay
  import opened Wrappers

  /** A value found where a workflow node is expected. Documents read back from storage were never revalidated, so any child may be
      missing or may not be a node at all. `held` are the node's other fields, as far as they are shown. */
  datatype Node =
    | NotANode
    | Leaf(id: string, kind: string, held: Fields)
    | Sequence(id: string, steps: Nodes)
    | InParallel(id: string, each: Option<Node>, paths: Nodes, held: Fields)
    | Conditional(id: string, routes: Nodes, default: Option<Node>, labels: seq<Option<Fields>>)
    | RouteSwitch(id: string, decide: Node, cases: Nodes, uncertain: Option<Node>, held: Fields)
    | Loop(id: string, body: Node, held: Fields)
    | Schedule(id: string, step: Node, held: Fields)
    | Scoped(id: string, spawns: bool, child: Node, held: Fields)
    | Subflow(id: string, root: Option<Node>, held: Fields)

  /** A list of nodes; nothing; or something that cannot be gone through. A route that is `null` is no node here and `None` among the labels. */
  datatype Nodes = Absent | Given(list: seq<Node>) | NotIterable

  // ---------- What can be shown ----------

  /** Everything the drawing of `node` comes to can be shown; otherwise it throws. */
  predicate Shown(node: Node)
    decreases node
  {
    match node
    case NotANode => true
    case Leaf(_, kind, held) => LeafShown(kind, held)
    case Sequence(_, steps) => steps.Given? ==> AllShown(steps.list)
    case InParallel(_, each, paths, held) =>
      && ParallelShown(each.Some?, held)
      && if each.Some? then Shown(each.value) else !paths.NotIterable? && (paths.Given? ==> AllShown(paths.list))
    case Conditional(_, routes, default, labels) =>
      routes.Given? ==>
        RoutesShown(labels, |routes.list|) && AllShown(routes.list) && (default.Some? ==> Shown(default.value))
    case RouteSwitch(_, decide, cases, uncertain, held) =>
      decide != NotANode && cases.Given? ==>
        SwitchShown(held) && Shown(decide) && AllShown(cases.list) && (uncertain.Some? ==> Shown(uncertain.value))
    case Loop(_, body, held) => body != NotANode ==> LoopShown(held) && Shown(body)
    case Schedule(_, step, held) => step != NotANode ==> ScheduleShown(held) && Shown(step)
    case Scoped(_, spawns, child, held) => child != NotANode ==> ScopedShown(spawns, held) && Shown(child)
    case Subflow(_, root, held) =>
      if root.None? || root.value == NotANode then LeafShown("subflow", held) else Shown(root.value)
  }

  predicate AllShown(nodes: seq<Node>)
    decreases nodes, |nodes| + 1
  {
    ShownFirst(nodes, |nodes|)
  }

  predicate ShownFirst(nodes: seq<Node>, k: nat)
    requires k <= |nodes|
    decreases nodes, k
  {
    k == 0 || (ShownFirst(nodes, k - 1) && Shown(nodes[k - 1]))
  }

  lemma {:induction false} ShownFirstAll(nodes: seq<Node>, k: nat)
    requires k <= |nodes|
    ensures ShownFirst(nodes, k) <==> forall i :: 0 <= i < k ==> Shown(nodes[i])
  {
    if k > 0 { ShownFirstAll(nodes, k - 1); }
  }

  lemma OneHidden(nodes: seq<Node>, i: nat)
    requires i < |nodes|
    ensures AllShown(nodes) ==> Shown(nodes[i])
  {
    ShownFirstAll(nodes, |nodes|);
  }

  datatype Kind =
    | Plain(kind: string)
    | Malformed
    | ParallelGate | JoinGate | ConditionalGate | SwitchGate | LoopGate | ScheduleGate
    | SpawnGate | ContextGate | SubflowGate
    | StartTerminal | EndTerminal

  datatype Variant = Default | Back | Isolated

  datatype GraphNode = GraphNode(id: string, kind: Kind)

  /** An edge before it is numbered. */
  datatype Wire = Wire(from: string, to: string, variant: Variant)

  datatype Plan =
    | Step(id: string, kind: Kind)
    | Chain(steps: seq<Plan>)
    | Fork(fork: string, join: string, branches: seq<Plan>)
    | Route(gate: string, targets: seq<Plan>, fallsThrough: bool)
    | Switch(decide: Plan, gate: string, targets: seq<Plan>)
    | Repeat(body: Plan, gate: string)
    | Timer(gate: string, step: Plan)
    | Wrap(gate: string, kind: Kind, child: Plan)

  // ---------- Names ----------

  /** The taken names among `id#n`, `id#(n+1)`, ... */
  ghost function Ahead(id: string, n: nat, taken: set<string>): set<string> {
    set s | s in taken && exists k: nat :: n <= k && s == Hashed(id, k)
  }

  lemma AheadShrinks(id: string, n: nat, taken: set<string>)
    requires Hashed(id, n) in taken
    ensures |Ahead(id, n + 1, taken)| < |Ahead(id, n, taken)|
  {
    var more, less := Ahead(id, n, taken), Ahead(id, n + 1, taken);
    assert Hashed(id, n) in more;
    if Hashed(id, n) in less {
      var k: nat :| n + 1 <= k && Hashed(id, n) == Hashed(id, k);
      HashedSplits(id, n, id, k);
      assert false;
    }
    assert less <= more - {Hashed(id, n)};
    SubsetSize(less, more - {Hashed(id, n)});
  }

  lemma {:induction false} SubsetSize<T>(a: set<T>, b: set<T>)
    requires a <= b
    ensures |a| <= |b|
  {
    if a != {} {
      var x :| x in a;
      SubsetSize(a - {x}, b - {x});
    }
  }

  /** The first number from `n` on whose suffixed name is free. */
  function FirstFree(id: string, n: nat, taken: set<string>): (k: nat)
    ensures n <= k && Hashed(id, k) !in taken
    ensures forall m :: n <= m < k ==> Hashed(id, m) in taken
    decreases |Ahead(id, n, taken)|
  {
    if Hashed(id, n) !in taken then n
    else
      AheadShrinks(id, n, taken);
      FirstFree(id, n + 1, taken)
  }

  /** The name a node asking for `id` is drawn under. */
  function Unique(id: string, taken: set<string>): (name: string)
    ensures name !in taken
    ensures id !in taken ==> name == id
    ensures id in taken ==> exists k: nat :: 2 <= k && name == Hashed(id, k)
  {
    if id !in taken then id else Hashed(id, FirstFree(id, 2, taken))
  }

  datatype Named = Named(plan: Plan, taken: set<string>)
  datatype NamedAll = NamedAll(plans: seq<Plan>, taken: set<string>)

  function NameStep(id: string, kind: Kind, taken: set<string>): Named {
    var name := Unique(id, taken);
    Named(Step(name, kind), taken + {name})
  }

  /** Names a node and everything below it, in drawing order. */
  function Name(node: Node, taken: set<string>): Named
    decreases node, 0
  {
    match node
    case NotANode => NameStep("malformed", Malformed, taken)
    case Leaf(id, kind, _) => NameStep(id, Plain(kind), taken)
    case Sequence(id, steps) =>
      if !steps.Given? then NameStep(id, Malformed, taken)
      else if steps.list == [] then NameStep("empty", Malformed, taken)
      else
        var all := NameFirst(steps.list, |steps.list|, taken);
        Named(Chain(all.plans), all.taken)
    case InParallel(id, each, paths, _) =>
      var fork := Unique(id, taken);
      var join := Unique(id + "~join", taken + {fork});
      var named := taken + {fork} + {join};
      if each.Some? then
        var body := Name(each.value, named);
        Named(Fork(fork, join, [body.plan]), body.taken)
      else if paths.Given? then
        var all := NameFirst(paths.list, |paths.list|, named);
        Named(Fork(fork, join, all.plans), all.taken)
      else
        Named(Fork(fork, join, []), named)
    case Conditional(id, routes, default, _) =>
      if !routes.Given? then NameStep(id, Malformed, taken)
      else
        var gate := Unique(id, taken);
        var all := NameFirst(routes.list, |routes.list|, taken + {gate});
        if default.None? then Named(Route(gate, all.plans, true), all.taken)
        else
          var last := Name(default.value, all.taken);
          Named(Route(gate, all.plans + [last.plan], false), last.taken)
    case RouteSwitch(id, decide, cases, uncertain, _) =>
      if decide == NotANode || !cases.Given? then NameStep(id, Malformed, taken)
      else
        var asked := Name(decide, taken);
        var gate := Unique(id, asked.taken);
        var all := NameFirst(cases.list, |cases.list|, asked.taken + {gate});
        if uncertain.None? then Named(Switch(asked.plan, gate, all.plans), all.taken)
        else
          var last := Name(uncertain.value, all.taken);
          Named(Switch(asked.plan, gate, all.plans + [last.plan]), last.taken)
    case Loop(id, body, _) =>
      if body == NotANode then NameStep(id, Malformed, taken)
      else
        var inner := Name(body, taken);
        var gate := Unique(id, inner.taken);
        Named(Repeat(inner.plan, gate), inner.taken + {gate})
    case Schedule(id, step, _) =>
      if step == NotANode then NameStep(id, Malformed, taken)
      else
        var gate := Unique(id, taken);
        var inner := Name(step, taken + {gate});
        Named(Timer(gate, inner.plan), inner.taken)
    case Scoped(id, spawns, child, _) =>
      if child == NotANode then NameStep(id, Malformed, taken)
      else
        var gate := Unique(id, taken);
        var inner := Name(child, taken + {gate});
        Named(Wrap(gate, if spawns then SpawnGate else ContextGate, inner.plan), inner.taken)
    case Subflow(id, root, _) =>
      if root.None? || root.value == NotANode then NameStep(id, Plain("subflow"), taken)
      else
        var gate := Unique(id, taken);
        var inner := Name(root.value, taken + {gate});
        Named(Wrap(gate, SubflowGate, inner.plan), inner.taken)
  }

  /** Names the first `k` of `nodes`, one after the other. */
  function NameFirst(nodes: seq<Node>, k: nat, taken: set<string>): (all: NamedAll)
    requires k <= |nodes|
    ensures |all.plans| == k
    decreases nodes, k
  {
    if k == 0 then NamedAll([], taken)
    else
      var before := NameFirst(nodes, k - 1, taken);
      var one := Name(nodes[k - 1], before.taken);
      NamedAll(before.plans + [one.plan], one.taken)
  }

  // ---------- Drawing ----------

  function Entry(p: Plan): string {
    match p
    case Step(id, _) => id
    case Chain(steps) => if |steps| == 0 then "" else Entry(steps[0])
    case Fork(fork, _, _) => fork
    case Route(gate, _, _) => gate
    case Switch(decide, _, _) => Entry(decide)
    case Repeat(body, _) => Entry(body)
    case Timer(gate, _) => gate
    case Wrap(gate, _, _) => gate
  }

  function Exits(p: Plan): seq<string>
    decreases p, 0
  {
    match p
    case Step(id, _) => [id]
    case Chain(steps) => if |steps| == 0 || Stalls(steps, |steps|) then [] else Exits(steps[|steps| - 1])
    case Fork(_, join, _) => [join]
    case Route(gate, targets, fallsThrough) =>
      ExitsFirst(targets, |targets|) + if fallsThrough then [gate] else []
    case Switch(_, _, targets) => ExitsFirst(targets, |targets|)
    case Repeat(_, gate) => [gate]
    case Timer(_, _) => []
    case Wrap(_, _, child) => Exits(child)
  }

  /** One of the first `k` steps never returns. */
  predicate Stalls(steps: seq<Plan>, k: nat)
    requires k <= |steps|
    decreases steps, k
  {
    k > 0 && (Stalls(steps, k - 1) || |Exits(steps[k - 1])| == 0)
  }

  function ExitsFirst(ps: seq<Plan>, k: nat): seq<string>
    requires k <= |ps|
    decreases ps, k
  {
    if k == 0 then [] else ExitsFirst(ps, k - 1) + Exits(ps[k - 1])
  }

  /** The nodes drawn for a plan, in the order they are added. */
  function Drawn(p: Plan): seq<GraphNode>
    decreases p, 0
  {
    match p
    case Step(id, kind) => [GraphNode(id, kind)]
    case Chain(steps) => DrawnFirst(steps, |steps|)
    case Fork(fork, join, branches) =>
      [GraphNode(fork, ParallelGate)] + [GraphNode(join, JoinGate)] + DrawnFirst(branches, |branches|)
    case Route(gate, targets, _) => [GraphNode(gate, ConditionalGate)] + DrawnFirst(targets, |targets|)
    case Switch(decide, gate, targets) =>
      Drawn(decide) + [GraphNode(gate, SwitchGate)] + DrawnFirst(targets, |targets|)
    case Repeat(body, gate) => Drawn(body) + [GraphNode(gate, LoopGate)]
    case Timer(gate, step) => [GraphNode(gate, ScheduleGate)] + Drawn(step)
    case Wrap(gate, kind, child) => [GraphNode(gate, kind)] + Drawn(child)
  }

  function DrawnFirst(ps: seq<Plan>, k: nat): seq<GraphNode>
    requires k <= |ps|
    decreases ps, k
  {
    if k == 0 then [] else DrawnFirst(ps, k - 1) + Drawn(ps[k - 1])
  }

  /** One wire from each of the sources to `to`. */
  function Into(sources: seq<string>, to: string, variant: Variant): seq<Wire> {
    seq(|sources|, i requires 0 <= i < |sources| => Wire(sources[i], to, variant))
  }

  /** The edges drawn for a plan, in the order they are connected. */
  function Wires(p: Plan): seq<Wire>
    decreases p, 0
  {
    match p
    case Step(_, _) => []
    case Chain(steps) => WiresFirst(steps, |steps|) + Links(steps, |steps|)
    case Fork(fork, join, branches) => ForkWires(fork, join, branches, |branches|)
    case Route(gate, targets, _) => RouteWires(gate, targets, |targets|)
    case Switch(decide, gate, targets) =>
      Wires(decide) + Into(Exits(decide), gate, Default) + RouteWires(gate, targets, |targets|)
    case Repeat(body, gate) =>
      Wires(body) + Into(Exits(body), gate, Default) + [Wire(gate, Entry(body), Back)]
    case Timer(gate, step) =>
      Wires(step) + [Wire(gate, Entry(step), Default)] + Into(Exits(step), gate, Back)
    case Wrap(gate, kind, child) =>
      Wires(child) + [Wire(gate, Entry(child), if kind == SubflowGate then Default else Isolated)]
  }

  function WiresFirst(ps: seq<Plan>, k: nat): seq<Wire>
    requires k <= |ps|
    decreases ps, k
  {
    if k == 0 then [] else WiresFirst(ps, k - 1) + Wires(ps[k - 1])
  }

  /** The wires joining each of the first `k` steps to the one before it. */
  function Links(steps: seq<Plan>, k: nat): seq<Wire>
    requires k <= |steps|
  {
    if k <= 1 then [] else Links(steps, k - 1) + Into(Exits(steps[k - 2]), Entry(steps[k - 1]), Default)
  }

  function ForkWires(fork: string, join: string, ps: seq<Plan>, k: nat): seq<Wire>
    requires k <= |ps|
    decreases ps, k
  {
    if k == 0 then []
    else
      ForkWires(fork, join, ps, k - 1) + BranchWires(fork, join, ps[k - 1])
  }

  /** A branch with the wire into it and the wires from its exits to the join. */
  function BranchWires(fork: string, join: string, p: Plan): seq<Wire>
    decreases p, 1
  {
    Wires(p) + [Wire(fork, Entry(p), Default)] + Into(Exits(p), join, Default)
  }

  function RouteWires(gate: string, ps: seq<Plan>, k: nat): seq<Wire>
    requires k <= |ps|
    decreases ps, k
  {
    if k == 0 then []
    else RouteWires(gate, ps, k - 1) + TargetWires(gate, ps[k - 1])
  }

  function TargetWires(gate: string, p: Plan): seq<Wire>
    decreases p, 1
  {
    Wires(p) + [Wire(gate, Entry(p), Default)]
  }

  /** The whole drawing: start, the document, end. */
  datatype Flow = Flow(start: string, body: Plan, end: string)

  function NameFlow(root: Node): Flow {
    var start := Unique("~start", {});
    var body := Name(root, {start});
    Flow(start, body.plan, Unique("~end", body.taken))
  }

  function FlowNodes(f: Flow): seq<GraphNode> {
    [GraphNode(f.start, StartTerminal)] + Drawn(f.body) + [GraphNode(f.end, EndTerminal)]
  }

  function FlowWires(f: Flow): seq<Wire> {
    Wires(f.body) + [Wire(f.start, Entry(f.body), Default)] + Into(Exits(f.body), f.end, Default)
  }
}
