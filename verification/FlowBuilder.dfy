/** The mutable builder that draws a document, proved against the plan's nodes and wires. */
module FlowBuilding {
  import opened Wrappers
  import opened Text
  import opened WorkflowDisplay
  import opened WorkflowNames
  import opened WorkflowPlan

  datatype GraphEdge = GraphEdge(id: string, from: string, to: string, variant: Variant)

  /** Where a drawn fragment connects: one way in, every way out. */
  datatype Ports = Ports(entry: string, exits: seq<string>)

  function PortsOf(p: Plan): Ports {
    Ports(Entry(p), Exits(p))
  }

  function EdgeId(from: string, to: string, number: nat): string {
    Hashed(from + "->" + to, number)
  }

  /** Edges are numbered as they are connected. */
  ghost function Numbered(wires: seq<Wire>): seq<GraphEdge> {
    seq(|wires|, i requires 0 <= i < |wires| => GraphEdge(EdgeId(wires[i].from, wires[i].to, i), wires[i].from, wires[i].to, wires[i].variant))
  }

  class FlowBuilder {
    var nodes: seq<GraphNode>
    var edges: seq<GraphEdge>
    var taken: set<string>
    ghost var wires: seq<Wire>  // the edges without their ids

    ghost predicate Valid()
      reads this
    {
      edges == Numbered(wires)
    }

    constructor ()
      ensures Valid() && nodes == [] && wires == [] && taken == {}
    {
      nodes, edges, taken, wires := [], [], {}, [];
    }

    method UniqueId(id: string) returns (name: string)
      modifies this`taken
      ensures name == Unique(id, old(taken)) && taken == old(taken) + {name}
    {
      if id !in taken {
        taken := taken + {id};
        return id;
      }
      var n := 2;
      while Hashed(id, n) in taken
        invariant 2 <= n
        invariant taken == old(taken)
        invariant FirstFree(id, 2, taken) == FirstFree(id, n, taken)
        decreases |Ahead(id, n, taken)|
      {
        AheadShrinks(id, n, taken);
        n := n + 1;
      }
      name := Hashed(id, n);
      taken := taken + {name};
    }

    method Add(id: string, kind: Kind) returns (name: string)
      requires Valid()
      modifies this`nodes, this`taken
      ensures Valid()
      ensures name == Unique(id, old(taken)) && taken == old(taken) + {name}
      ensures nodes == old(nodes) + [GraphNode(name, kind)]
    {
      name := UniqueId(id);
      nodes := nodes + [GraphNode(name, kind)];
    }

    method Connect(from: string, to: string, variant: Variant)
      requires Valid()
      modifies this`edges, this`wires
      ensures Valid()
      ensures wires == old(wires) + [Wire(from, to, variant)]
    {
      edges := edges + [GraphEdge(EdgeId(from, to, |edges|), from, to, variant)];
      wires := wires + [Wire(from, to, variant)];
    }

    method ConnectAll(exits: seq<string>, to: string, variant: Variant)
      requires Valid()
      modifies this`edges, this`wires
      ensures Valid()
      ensures wires == old(wires) + Into(exits, to, variant)
    {
      for i := 0 to |exits|
        invariant Valid()
        invariant wires == old(wires) + Into(exits[..i], to, variant)
      {
        Connect(exits[i], to, variant);
        assert Into(exits[..i + 1], to, variant) == Into(exits[..i], to, variant) + [Wire(exits[i], to, variant)];
      }
      assert exits[..|exits|] == exits;
    }

    /** What drawing a named plan adds to the builder. */
    twostate predicate Drew(named: Named)
      reads this
    {
      && taken == named.taken
      && nodes == old(nodes) + Drawn(named.plan)
      && wires == old(wires) + Wires(named.plan)
    }

    /** Throws exactly if something cannot be shown; otherwise the plan is drawn and its ports returned. */
    twostate predicate Projected(named: Named, shown: bool, new ports: Attempt<Ports>)
      reads this
    {
      && (ports.Made? <==> shown)
      && (ports.Made? ==> Drew(named) && ports.value == PortsOf(named.plan))
    }

    /** What drawing a list of named plans adds, before anything joins them. */
    twostate predicate DrewAll(all: NamedAll)
      reads this
    {
      && taken == all.taken
      && nodes == old(nodes) + DrawnFirst(all.plans, |all.plans|)
      && wires == old(wires) + WiresFirst(all.plans, |all.plans|)
    }

    /** What drawing a gate's targets adds. */
    twostate predicate DrewTargets(gate: string, all: NamedAll, exits: seq<string>)
      reads this
    {
      && taken == all.taken
      && nodes == old(nodes) + DrawnFirst(all.plans, |all.plans|)
      && wires == old(wires) + RouteWires(gate, all.plans, |all.plans|)
      && exits == ExitsFirst(all.plans, |all.plans|)
    }

    method Project(node: Node) returns (ports: Attempt<Ports>)
      requires Valid()
      modifies this
      ensures Valid() && Projected(Name(node, old(taken)), Shown(node), ports)
      decreases node, 3
    {
      match node
      case NotANode => ports := Broken(node, "malformed");
      case Leaf(_, _, _) => ports := ProjectLeaf(node);
      case Sequence(_, _) => ports := ProjectSequence(node);
      case InParallel(_, _, _, _) => ports := ProjectInParallel(node);
      case Conditional(_, _, _, _) => ports := ProjectConditional(node);
      case RouteSwitch(_, _, _, _, _) => ports := ProjectRouteSwitch(node);
      case Loop(_, _, _) => ports := ProjectLoop(node);
      case Schedule(_, _, _) => ports := ProjectSchedule(node);
      case Scoped(_, _, _, _) => ports := ProjectScoped(node);
      case Subflow(_, _, _) => ports := ProjectSubflow(node);
    }

    /** One step, through which the flow passes. */
    method DrawStep(id: string, kind: Kind) returns (ports: Ports)
      requires Valid()
      modifies this
      ensures Valid()
      ensures Drew(NameStep(id, kind, old(taken))) && ports == PortsOf(NameStep(id, kind, old(taken)).plan)
    {
      var name := Add(id, kind);
      ports := Ports(name, [name]);
    }

    /** A hole, drawn as a malformed step. */
    method Broken(ghost node: Node, id: string) returns (ports: Attempt<Ports>)
      requires Valid() && Name(node, taken) == NameStep(id, Malformed, taken) && Shown(node)
      modifies this
      ensures Valid() && Projected(Name(node, old(taken)), Shown(node), ports)
    {
      var step := DrawStep(id, Malformed);
      ports := Made(step);
    }

    method ProjectLeaf(node: Node) returns (ports: Attempt<Ports>)
      requires Valid() && node.Leaf?
      modifies this
      ensures Valid() && Projected(Name(node, old(taken)), Shown(node), ports)
    {
      if !LeafShown(node.kind, node.held) {
        return Threw;
      }
      var step := DrawStep(node.id, Plain(node.kind));
      ports := Made(step);
    }

    method ProjectSequence(node: Node) returns (ports: Attempt<Ports>)
      requires Valid() && node.Sequence?
      modifies this
      ensures Valid() && Projected(Name(node, old(taken)), Shown(node), ports)
      decreases node, 2
    {
      if !node.steps.Given? {
        ports := Broken(node, node.id);
      } else {
        ports := ProjectChain(node);
      }
    }

    /** Draws the steps of a sequence, not yet joined. */
    method ProjectAll(steps: seq<Node>) returns (projected: Attempt<seq<Ports>>)
      requires Valid()
      modifies this
      ensures Valid() && (projected.Made? <==> AllShown(steps))
      ensures projected.Made? ==>
        && DrewAll(NameFirst(steps, |steps|, old(taken)))
        && |projected.value| == |steps|
        && forall j :: 0 <= j < |steps| ==> projected.value[j] == PortsOf(NameFirst(steps, |steps|, old(taken)).plans[j])
      decreases steps
    {
      var all: seq<Ports> := [];
      ghost var plans: seq<Plan> := [];
      for i := 0 to |steps|
        invariant Valid() && ShownFirst(steps, i)
        invariant NameFirst(steps, i, old(taken)) == NamedAll(plans, taken) && |plans| == |all| == i
        invariant DrewAll(NamedAll(plans, taken))
        invariant forall j :: 0 <= j < i ==> all[j] == PortsOf(plans[j])
      {
        ghost var p := Name(steps[i], taken).plan;
        OneHidden(steps, i);
        var next :- Project(steps[i]);
        all := all + [next];
        OneMoreStep(old(nodes), old(wires), plans, p);
        plans := plans + [p];
      }
      projected := Made(all);
    }

    /** Joins each drawn step to the one before it. */
    method Link(projected: seq<Ports>, ghost all: seq<Plan>)
      requires Valid() && |projected| == |all|
      requires forall j :: 0 <= j < |all| ==> projected[j] == PortsOf(all[j])
      modifies this`edges, this`wires
      ensures Valid()
      ensures wires == old(wires) + Links(all, |all|)
    {
      var i := 1;
      while i < |projected|
        invariant Valid() && 1 <= i && (i <= |projected| || |projected| == 0)
        invariant |projected| > 0 ==> wires == old(wires) + Links(all, i)
        invariant |projected| == 0 ==> wires == old(wires)
      {
        ConnectAll(projected[i - 1].exits, projected[i].entry, Default);
        Extended(old(wires), Links(all, i), Into(Exits(all[i - 1]), Entry(all[i]), Default));
        i := i + 1;
      }
    }

    /** A step without exits never returns. */
    method SomeStalls(projected: seq<Ports>, ghost all: seq<Plan>) returns (stalls: bool)
      requires |projected| == |all| && forall j :: 0 <= j < |all| ==> projected[j] == PortsOf(all[j])
      ensures stalls == Stalls(all, |all|)
    {
      stalls := false;
      for i := 0 to |projected|
        invariant stalls == Stalls(all, i)
      {
        stalls := stalls || |projected[i].exits| == 0;
      }
    }

    method ProjectChain(node: Node) returns (ports: Attempt<Ports>)
      requires Valid() && node.Sequence? && node.steps.Given?
      modifies this
      ensures Valid() && Projected(Name(node, old(taken)), Shown(node), ports)
      decreases node, 0
    {
      var steps := node.steps.list;
      ghost var all := NameFirst(steps, |steps|, old(taken)).plans;
      var projected :- ProjectAll(steps);
      Link(projected, all);
      if |projected| == 0 {
        var hole := DrawStep("empty", Malformed);
        return Made(hole);
      }
      Extended(old(wires), WiresFirst(all, |all|), Links(all, |all|));
      var stalls := SomeStalls(projected, all);
      ports := Made(Ports(projected[0].entry, if stalls then [] else projected[|projected| - 1].exits));
    }

    /** Draws one path of a split, from the fork to the join. */
    method ProjectBranch(fork: string, join: string, path: Node) returns (drawn: Attempt<bool>)
      requires Valid()
      modifies this
      ensures Valid() && (drawn.Made? <==> Shown(path))
      ensures var named := Name(path, old(taken));
        drawn.Made? ==>
          && taken == named.taken
          && nodes == old(nodes) + Drawn(named.plan)
          && wires == old(wires) + BranchWires(fork, join, named.plan)
      decreases path, 4
    {
      ghost var p := Name(path, old(taken)).plan;
      var inner :- Project(path);
      Connect(fork, inner.entry, Default);
      ConnectAll(inner.exits, join, Default);
      BranchAssembled(old(wires), p, fork, join);
      drawn := Made(true);
    }

    method ProjectBranches(fork: string, join: string, paths: seq<Node>) returns (drawn: Attempt<bool>)
      requires Valid()
      modifies this
      ensures Valid() && (drawn.Made? <==> AllShown(paths))
      ensures var all := NameFirst(paths, |paths|, old(taken));
        drawn.Made? ==>
          && taken == all.taken
          && nodes == old(nodes) + DrawnFirst(all.plans, |paths|)
          && wires == old(wires) + ForkWires(fork, join, all.plans, |paths|)
      decreases paths
    {
      ghost var plans: seq<Plan> := [];
      for i := 0 to |paths|
        invariant Valid() && ShownFirst(paths, i)
        invariant NameFirst(paths, i, old(taken)) == NamedAll(plans, taken) && |plans| == i
        invariant nodes == old(nodes) + DrawnFirst(plans, i)
        invariant wires == old(wires) + ForkWires(fork, join, plans, i)
      {
        ghost var p := Name(paths[i], taken).plan;
        OneHidden(paths, i);
        var branch :- ProjectBranch(fork, join, paths[i]);
        OneMoreBranch(fork, join, old(nodes), old(wires), plans, p);
        plans := plans + [p];
      }
      drawn := Made(true);
    }

    method ProjectInParallel(node: Node) returns (ports: Attempt<Ports>)
      requires Valid() && node.InParallel?
      modifies this
      ensures Valid() && Projected(Name(node, old(taken)), Shown(node), ports)
      decreases node, 2
    {
      if !ParallelShown(node.each.Some?, node.held) {
        return Threw;
      }
      var fork := Add(node.id, ParallelGate);
      var join := Add(node.id + "~join", JoinGate);
      ghost var gates := [GraphNode(fork, ParallelGate)] + [GraphNode(join, JoinGate)];
      Extended(old(nodes), [GraphNode(fork, ParallelGate)], [GraphNode(join, JoinGate)]);
      ghost var named := taken;
      if node.each.Some? {
        var drawn :- ProjectBranch(fork, join, node.each.value);
        ghost var p := Name(node.each.value, named).plan;
        OneBranch(fork, join, p);
        Extended(old(nodes), gates, Drawn(p));
      } else if node.paths.NotIterable? {
        return Threw;
      } else if node.paths.Given? {
        var drawn :- ProjectBranches(fork, join, node.paths.list);
        ghost var all := NameFirst(node.paths.list, |node.paths.list|, named).plans;
        Extended(old(nodes), gates, DrawnFirst(all, |all|));
      } else {
        assert gates + [] == gates;
      }
      ports := Made(Ports(fork, [join]));
    }

    /** Draws one target of a gate. */
    method ProjectTarget(gate: string, target: Node) returns (exits: Attempt<seq<string>>)
      requires Valid()
      modifies this
      ensures Valid() && (exits.Made? <==> Shown(target))
      ensures var named := Name(target, old(taken));
        exits.Made? ==>
          && taken == named.taken
          && nodes == old(nodes) + Drawn(named.plan)
          && wires == old(wires) + TargetWires(gate, named.plan)
          && exits.value == Exits(named.plan)
      decreases target, 4
    {
      ghost var p := Name(target, old(taken)).plan;
      var inner :- Project(target);
      Connect(gate, inner.entry, Default);
      Extended(old(wires), Wires(p), [Wire(gate, Entry(p), Default)]);
      exits := Made(inner.exits);
    }

    /** A route must be there, and its label is made after its target is drawn. */
    method ProjectRoute(gate: string, target: Node, labels: seq<Option<Fields>>, i: nat) returns (exits: Attempt<seq<string>>)
      requires Valid()
      modifies this
      ensures Valid() && (exits.Made? <==> Shown(target) && (i < |labels| ==> RouteShown(labels[i])))
      ensures var named := Name(target, old(taken));
        exits.Made? ==>
          && taken == named.taken
          && nodes == old(nodes) + Drawn(named.plan)
          && wires == old(wires) + TargetWires(gate, named.plan)
          && exits.value == Exits(named.plan)
      decreases target, 5
    {
      if i < |labels| && labels[i].None? {
        return Threw;
      }
      exits := ProjectTarget(gate, target);
      if i < |labels| && !RouteShown(labels[i]) {
        return Threw;
      }
    }

    /** Draws the targets a gate routes to. */
    method ProjectTargets(gate: string, targets: seq<Node>, labels: seq<Option<Fields>>) returns (exits: Attempt<seq<string>>)
      requires Valid()
      modifies this
      ensures Valid() && (exits.Made? <==> AllShown(targets) && RoutesShown(labels, |targets|))
      ensures exits.Made? ==> DrewTargets(gate, NameFirst(targets, |targets|, old(taken)), exits.value)
      decreases targets
    {
      var all: seq<string> := [];
      ghost var plans: seq<Plan> := [];
      for i := 0 to |targets|
        invariant Valid() && ShownFirst(targets, i) && RoutesShown(labels, i)
        invariant NameFirst(targets, i, old(taken)) == NamedAll(plans, taken) && |plans| == i
        invariant nodes == old(nodes) + DrawnFirst(plans, i)
        invariant wires == old(wires) + RouteWires(gate, plans, i)
        invariant all == ExitsFirst(plans, i)
      {
        ghost var p := Name(targets[i], taken).plan;
        OneHidden(targets, i);
        if i < |labels| && RoutesShown(labels, |targets|) { OneRouteHidden(labels, |targets|, i); }
        var out :- ProjectRoute(gate, targets[i], labels, i);
        all := all + out;
        OneMoreTarget(gate, old(nodes), old(wires), plans, p);
        plans := plans + [p];
      }
      exits := Made(all);
    }

    /** Draws the target taken when none of the others is. */
    method ProjectLastTarget(gate: string, last: Node, others: seq<string>, ghost all: seq<Plan>,
        ghost nodes0: seq<GraphNode>, ghost wires0: seq<Wire>)
      returns (exits: Attempt<seq<string>>)
      requires Valid()
      requires nodes == nodes0 + DrawnFirst(all, |all|)
      requires wires == wires0 + RouteWires(gate, all, |all|)
      requires others == ExitsFirst(all, |all|)
      modifies this
      ensures Valid() && (exits.Made? <==> Shown(last))
      ensures var named := Name(last, old(taken));
        var more := all + [named.plan];
        exits.Made? ==>
          && taken == named.taken
          && nodes == nodes0 + DrawnFirst(more, |more|)
          && wires == wires0 + RouteWires(gate, more, |more|)
          && exits.value == ExitsFirst(more, |more|)
      decreases last, 5
    {
      ghost var p := Name(last, old(taken)).plan;
      var out :- ProjectTarget(gate, last);
      OneMoreTarget(gate, nodes0, wires0, all, p);
      exits := Made(others + out);
    }

    method ProjectConditional(node: Node) returns (ports: Attempt<Ports>)
      requires Valid() && node.Conditional?
      modifies this
      ensures Valid() && Projected(Name(node, old(taken)), Shown(node), ports)
      decreases node, 2
    {
      if !node.routes.Given? {
        ports := Broken(node, node.id);
      } else {
        ports := ProjectRoutes(node);
      }
    }

    method ProjectRoutes(node: Node) returns (ports: Attempt<Ports>)
      requires Valid() && node.Conditional? && node.routes.Given?
      modifies this
      ensures Valid() && Projected(Name(node, old(taken)), Shown(node), ports)
      decreases node, 0
    {
      var gate := Add(node.id, ConditionalGate);
      ghost var nodes0, named := nodes, taken;
      var exits :- ProjectTargets(gate, node.routes.list, node.labels);
      ghost var all := NameFirst(node.routes.list, |node.routes.list|, named);
      if node.default.Some? {
        ghost var last := Name(node.default.value, taken).plan;
        exits :- ProjectLastTarget(gate, node.default.value, exits, all.plans, nodes0, old(wires));
        Extended(old(nodes), [GraphNode(gate, ConditionalGate)], DrawnFirst(all.plans + [last], |all.plans| + 1));
        assert exits + [] == exits;
      } else {
        exits := exits + [gate];
        Extended(old(nodes), [GraphNode(gate, ConditionalGate)], DrawnFirst(all.plans, |all.plans|));
      }
      ports := Made(Ports(gate, exits));
    }

    /** The decision of a switch, and the gate its exits feed. */
    method ProjectDecision(decide: Node, id: string, held: Fields) returns (drawn: Attempt<(Ports, string)>)
      requires Valid()
      modifies this
      ensures Valid() && (drawn.Made? <==> Shown(decide) && SwitchShown(held))
      ensures var named := Name(decide, old(taken));
        var gate := Unique(id, named.taken);
        drawn.Made? ==>
          && drawn.value == (PortsOf(named.plan), gate)
          && taken == named.taken + {gate}
          && nodes == old(nodes) + (Drawn(named.plan) + [GraphNode(gate, SwitchGate)])
          && wires == old(wires) + (Wires(named.plan) + Into(Exits(named.plan), gate, Default))
      decreases decide, 4
    {
      ghost var p := Name(decide, old(taken)).plan;
      var asked :- Project(decide);
      if !SwitchShown(held) {
        return Threw;
      }
      var gate := Add(id, SwitchGate);
      ConnectAll(asked.exits, gate, Default);
      Extended(old(nodes), Drawn(p), [GraphNode(gate, SwitchGate)]);
      Extended(old(wires), Wires(p), Into(Exits(p), gate, Default));
      drawn := Made((asked, gate));
    }

    method ProjectRouteSwitch(node: Node) returns (ports: Attempt<Ports>)
      requires Valid() && node.RouteSwitch?
      modifies this
      ensures Valid() && Projected(Name(node, old(taken)), Shown(node), ports)
      decreases node, 2
    {
      if node.decide == NotANode || !node.cases.Given? {
        ports := Broken(node, node.id);
      } else {
        ports := ProjectCases(node);
      }
    }

    method ProjectCases(node: Node) returns (ports: Attempt<Ports>)
      requires Valid() && node.RouteSwitch? && node.decide != NotANode && node.cases.Given?
      modifies this
      ensures Valid() && Projected(Name(node, old(taken)), Shown(node), ports)
      decreases node, 0
    {
      ghost var decided := Name(node.decide, old(taken)).plan;
      var decision :- ProjectDecision(node.decide, node.id, node.held);
      var asked, gate := decision.0, decision.1;
      ghost var nodes0, wires0, named := nodes, wires, taken;
      NoRoutes(|node.cases.list|);
      var exits :- ProjectTargets(gate, node.cases.list, []);
      ghost var all := NameFirst(node.cases.list, |node.cases.list|, named).plans;
      if node.uncertain.Some? {
        ghost var last := Name(node.uncertain.value, taken).plan;
        exits :- ProjectLastTarget(gate, node.uncertain.value, exits, all, nodes0, wires0);
        all := all + [last];
      }
      SwitchAssembled(old(nodes), old(wires), decided, gate, all);
      ports := Made(Ports(asked.entry, exits));
    }

    method ProjectLoop(node: Node) returns (ports: Attempt<Ports>)
      requires Valid() && node.Loop?
      modifies this
      ensures Valid() && Projected(Name(node, old(taken)), Shown(node), ports)
      decreases node, 2
    {
      if node.body == NotANode {
        ports := Broken(node, node.id);
      } else {
        ports := DrawLoop(node.id, node.body, node.held);
      }
    }

    method DrawLoop(id: string, inner: Node, held: Fields) returns (ports: Attempt<Ports>)
      requires Valid()
      modifies this
      ensures Valid()
      ensures var named := Name(inner, old(taken));
        var gate := Unique(id, named.taken);
        Projected(Named(Repeat(named.plan, gate), named.taken + {gate}), LoopShown(held) && Shown(inner), ports)
      decreases inner, 4
    {
      if !LoopShown(held) {
        return Threw;
      }
      ghost var p := Name(inner, old(taken)).plan;
      var body :- Project(inner);
      var gate := Add(id, LoopGate);
      ConnectAll(body.exits, gate, Default);
      Connect(gate, body.entry, Back);
      LoopAssembled(old(nodes), old(wires), p, gate);
      ports := Made(Ports(body.entry, [gate]));
    }

    method ProjectSchedule(node: Node) returns (ports: Attempt<Ports>)
      requires Valid() && node.Schedule?
      modifies this
      ensures Valid() && Projected(Name(node, old(taken)), Shown(node), ports)
      decreases node, 2
    {
      if node.step == NotANode {
        ports := Broken(node, node.id);
      } else {
        ports := DrawSchedule(node.id, node.step, node.held);
      }
    }

    method DrawSchedule(id: string, step: Node, held: Fields) returns (ports: Attempt<Ports>)
      requires Valid()
      modifies this
      ensures Valid()
      ensures var gate := Unique(id, old(taken));
        var named := Name(step, old(taken) + {gate});
        Projected(Named(Timer(gate, named.plan), named.taken), ScheduleShown(held) && Shown(step), ports)
      decreases step, 4
    {
      if !ScheduleShown(held) {
        return Threw;
      }
      var gate := Add(id, ScheduleGate);
      ghost var p := Name(step, taken).plan;
      var body :- Project(step);
      Connect(gate, body.entry, Default);
      ConnectAll(body.exits, gate, Back);
      ScheduleAssembled(old(nodes), old(wires), p, gate);
      ports := Made(Ports(gate, []));
    }

    method ProjectScoped(node: Node) returns (ports: Attempt<Ports>)
      requires Valid() && node.Scoped?
      modifies this
      ensures Valid() && Projected(Name(node, old(taken)), Shown(node), ports)
      decreases node, 2
    {
      if node.child == NotANode {
        ports := Broken(node, node.id);
      } else if !ScopedShown(node.spawns, node.held) {
        ports := Threw;
      } else {
        ports := WrapChild(node.id, if node.spawns then SpawnGate else ContextGate, node.child);
      }
    }

    method ProjectSubflow(node: Node) returns (ports: Attempt<Ports>)
      requires Valid() && node.Subflow?
      modifies this
      ensures Valid() && Projected(Name(node, old(taken)), Shown(node), ports)
      decreases node, 2
    {
      if node.root.Some? && node.root.value != NotANode {
        ports := WrapChild(node.id, SubflowGate, node.root.value);
      } else if !LeafShown("subflow", node.held) {
        ports := Threw;
      } else {
        var step := DrawStep(node.id, Plain("subflow"));
        ports := Made(step);
      }
    }

    method WrapChild(id: string, kind: Kind, child: Node) returns (ports: Attempt<Ports>)
      requires Valid()
      modifies this
      ensures Valid()
      ensures var gate := Unique(id, old(taken));
        var inner := Name(child, old(taken) + {gate});
        Projected(Named(Wrap(gate, kind, inner.plan), inner.taken), Shown(child), ports)
      decreases child, 4
    {
      var gate := Add(id, kind);
      ghost var p := Name(child, taken).plan;
      var inner :- Project(child);
      Connect(gate, inner.entry, if kind == SubflowGate then Default else Isolated);
      WrapAssembled(old(nodes), old(wires), p, gate, kind);
      ports := Made(Ports(gate, inner.exits));
    }
  }

  /** A drawing as it is handed to the viewer. */
  datatype WorkflowFlow = WorkflowFlow(nodes: seq<GraphNode>, edges: seq<GraphEdge>)

  /** The drawing of a document that can be shown. */
  ghost function Drawing(root: Node): WorkflowFlow {
    WorkflowFlow(FlowNodes(NameFlow(root)), Numbered(FlowWires(NameFlow(root))))
  }

  /** Draws a whole document between its start and end terminals, or throws. */
  method ToFlow(root: Node) returns (flow: Attempt<WorkflowFlow>)
    ensures flow.Threw? <==> !Shown(root)
    ensures flow.Made? ==> flow.value == Drawing(root) && Distinct(flow.value.nodes)
  {
    var builder := new FlowBuilder();
    var start := builder.Add("~start", StartTerminal);
    assert builder.taken == {start} && builder.nodes == [GraphNode(start, StartTerminal)] && builder.wires == [];
    ghost var p := Name(root, {start}).plan;
    var body :- builder.Project(root);
    assert builder.wires == Wires(p);
    var end := builder.Add("~end", EndTerminal);
    builder.Connect(start, body.entry, Default);
    builder.ConnectAll(body.exits, end, Default);
    FlowNodesDistinct(root);
    flow := Made(WorkflowFlow(builder.nodes, builder.edges));
  }

  lemma BranchAssembled(wires: seq<Wire>, p: Plan, fork: string, join: string)
    ensures ((wires + Wires(p)) + [Wire(fork, Entry(p), Default)]) + Into(Exits(p), join, Default) == wires + BranchWires(fork, join, p)
  {
    Extended(wires, Wires(p), [Wire(fork, Entry(p), Default)]);
    Extended(wires, Wires(p) + [Wire(fork, Entry(p), Default)], Into(Exits(p), join, Default));
  }

  lemma OneMoreBranch(fork: string, join: string, nodes: seq<GraphNode>, wires: seq<Wire>, all: seq<Plan>, p: Plan)
    ensures var more := all + [p];
      && (nodes + DrawnFirst(all, |all|)) + Drawn(p) == nodes + DrawnFirst(more, |more|)
      && (wires + ForkWires(fork, join, all, |all|)) + BranchWires(fork, join, p) == wires + ForkWires(fork, join, more, |more|)
  {
    SamePrefix(all, all + [p], |all|);
    SameForkPrefix(fork, join, all, all + [p], |all|);
    Extended(nodes, DrawnFirst(all, |all|), Drawn(p));
    Extended(wires, ForkWires(fork, join, all, |all|), BranchWires(fork, join, p));
  }

  lemma Extended<T>(base: seq<T>, a: seq<T>, b: seq<T>)
    ensures (base + a) + b == base + (a + b)
  {
  }

  lemma LoopAssembled(nodes: seq<GraphNode>, wires: seq<Wire>, p: Plan, gate: string)
    ensures (nodes + Drawn(p)) + [GraphNode(gate, LoopGate)] == nodes + Drawn(Repeat(p, gate))
    ensures ((wires + Wires(p)) + Into(Exits(p), gate, Default)) + [Wire(gate, Entry(p), Back)] == wires + Wires(Repeat(p, gate))
  {
    Extended(wires, Wires(p), Into(Exits(p), gate, Default));
    Extended(wires, Wires(p) + Into(Exits(p), gate, Default), [Wire(gate, Entry(p), Back)]);
  }

  lemma ScheduleAssembled(nodes: seq<GraphNode>, wires: seq<Wire>, p: Plan, gate: string)
    ensures (nodes + [GraphNode(gate, ScheduleGate)]) + Drawn(p) == nodes + Drawn(Timer(gate, p))
    ensures ((wires + Wires(p)) + [Wire(gate, Entry(p), Default)]) + Into(Exits(p), gate, Back) == wires + Wires(Timer(gate, p))
  {
    Extended(wires, Wires(p), [Wire(gate, Entry(p), Default)]);
    Extended(wires, Wires(p) + [Wire(gate, Entry(p), Default)], Into(Exits(p), gate, Back));
  }

  lemma WrapAssembled(nodes: seq<GraphNode>, wires: seq<Wire>, p: Plan, gate: string, kind: Kind)
    ensures (nodes + [GraphNode(gate, kind)]) + Drawn(p) == nodes + Drawn(Wrap(gate, kind, p))
    ensures (wires + Wires(p)) + [Wire(gate, Entry(p), if kind == SubflowGate then Default else Isolated)] ==
      wires + Wires(Wrap(gate, kind, p))
  {
    Extended(wires, Wires(p), [Wire(gate, Entry(p), if kind == SubflowGate then Default else Isolated)]);
  }

  lemma OneMoreStep(nodes: seq<GraphNode>, wires: seq<Wire>, all: seq<Plan>, p: Plan)
    ensures var more := all + [p];
      && (nodes + DrawnFirst(all, |all|)) + Drawn(p) == nodes + DrawnFirst(more, |more|)
      && (wires + WiresFirst(all, |all|)) + Wires(p) == wires + WiresFirst(more, |more|)
  {
    SamePrefix(all, all + [p], |all|);
    Extended(nodes, DrawnFirst(all, |all|), Drawn(p));
    Extended(wires, WiresFirst(all, |all|), Wires(p));
  }

  lemma SwitchAssembled(nodes: seq<GraphNode>, wires: seq<Wire>, decide: Plan, gate: string, targets: seq<Plan>)
    ensures (nodes + (Drawn(decide) + [GraphNode(gate, SwitchGate)])) + DrawnFirst(targets, |targets|) ==
      nodes + Drawn(Switch(decide, gate, targets))
    ensures (wires + (Wires(decide) + Into(Exits(decide), gate, Default))) + RouteWires(gate, targets, |targets|) ==
      wires + Wires(Switch(decide, gate, targets))
  {
    Extended(nodes, Drawn(decide) + [GraphNode(gate, SwitchGate)], DrawnFirst(targets, |targets|));
    Extended(wires, Wires(decide) + Into(Exits(decide), gate, Default), RouteWires(gate, targets, |targets|));
  }

  lemma OneMoreTarget(gate: string, nodes: seq<GraphNode>, wires: seq<Wire>, all: seq<Plan>, p: Plan)
    ensures var more := all + [p];
      && (nodes + DrawnFirst(all, |all|)) + Drawn(p) == nodes + DrawnFirst(more, |more|)
      && (wires + RouteWires(gate, all, |all|)) + TargetWires(gate, p) == wires + RouteWires(gate, more, |more|)
      && ExitsFirst(all, |all|) + Exits(p) == ExitsFirst(more, |more|)
  {
    var more := all + [p];
    SamePrefix(all, more, |all|);
    SameRoutePrefix(gate, all, more, |all|);
    Extended(nodes, DrawnFirst(all, |all|), Drawn(p));
    Extended(wires, RouteWires(gate, all, |all|), TargetWires(gate, p));
  }

  lemma {:induction false} SamePrefix(ps: seq<Plan>, more: seq<Plan>, k: nat)
    requires k <= |ps| && ps <= more
    ensures DrawnFirst(ps, k) == DrawnFirst(more, k)
    ensures WiresFirst(ps, k) == WiresFirst(more, k)
    ensures ExitsFirst(ps, k) == ExitsFirst(more, k)
  {
    if k > 0 { SamePrefix(ps, more, k - 1); }
  }

  lemma {:induction false} SameForkPrefix(fork: string, join: string, ps: seq<Plan>, more: seq<Plan>, k: nat)
    requires k <= |ps| && ps <= more
    ensures ForkWires(fork, join, ps, k) == ForkWires(fork, join, more, k)
  {
    if k > 0 { SameForkPrefix(fork, join, ps, more, k - 1); }
  }

  lemma {:induction false} SameRoutePrefix(gate: string, ps: seq<Plan>, more: seq<Plan>, k: nat)
    requires k <= |ps| && ps <= more
    ensures RouteWires(gate, ps, k) == RouteWires(gate, more, k)
  {
    if k > 0 { SameRoutePrefix(gate, ps, more, k - 1); }
  }

  lemma OneBranch(fork: string, join: string, p: Plan)
    ensures DrawnFirst([p], 1) == Drawn(p)
    ensures ForkWires(fork, join, [p], 1) ==
      BranchWires(fork, join, p)
  {
    assert DrawnFirst([p], 1) == DrawnFirst([p], 0) + Drawn(p);
    assert ForkWires(fork, join, [p], 1) == ForkWires(fork, join, [p], 0) + BranchWires(fork, join, p);
  }

  /** Edge ids never repeat, whatever the node ids are. */
  lemma EdgeIdsDistinct(wires: seq<Wire>, i: nat, j: nat)
    requires i < |wires| && j < |wires| && Numbered(wires)[i].id == Numbered(wires)[j].id
    ensures i == j
  {
    HashedSplits(wires[i].from + "->" + wires[i].to, i, wires[j].from + "->" + wires[j].to, j);
  }
}
