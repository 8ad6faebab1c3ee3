/** Every plan the namer makes uses each drawn name once, and none that was taken before. */
module WorkflowNames {
  import opened WorkflowPlan

  /** `x` is one of the nodes drawn for `p`. */
  ghost predicate Has(p: Plan, x: string)
    decreases p
  {
    match p
    case Step(id, _) => x == id
    case Chain(steps) => AnyHas(steps, x)
    case Fork(fork, join, branches) => x == fork || x == join || AnyHas(branches, x)
    case Route(gate, targets, _) => x == gate || AnyHas(targets, x)
    case Switch(decide, gate, targets) => Has(decide, x) || x == gate || AnyHas(targets, x)
    case Repeat(body, gate) => Has(body, x) || x == gate
    case Timer(gate, step) => x == gate || Has(step, x)
    case Wrap(gate, _, child) => x == gate || Has(child, x)
  }

  ghost predicate AnyHas(ps: seq<Plan>, x: string)
    decreases ps
  {
    exists i :: 0 <= i < |ps| && Has(ps[i], x)
  }

  ghost predicate Apart(p: Plan, q: Plan) {
    forall x :: Has(p, x) ==> !Has(q, x)
  }

  /** No name is used twice inside `p`, and no chain is empty. */
  ghost predicate WellNamed(p: Plan)
    decreases p
  {
    match p
    case Step(_, _) => true
    case Chain(steps) => |steps| > 0 && AllWellNamed(steps)
    case Fork(fork, join, branches) =>
      fork != join && !AnyHas(branches, fork) && !AnyHas(branches, join) && AllWellNamed(branches)
    case Route(gate, targets, _) => !AnyHas(targets, gate) && AllWellNamed(targets)
    case Switch(decide, gate, targets) =>
      && WellNamed(decide) && AllWellNamed(targets)
      && !Has(decide, gate) && !AnyHas(targets, gate)
      && forall x :: Has(decide, x) ==> !AnyHas(targets, x)
    case Repeat(body, gate) => WellNamed(body) && !Has(body, gate)
    case Timer(gate, step) => WellNamed(step) && !Has(step, gate)
    case Wrap(gate, _, child) => WellNamed(child) && !Has(child, gate)
  }

  ghost predicate AllWellNamed(ps: seq<Plan>)
    decreases ps
  {
    && (forall i :: 0 <= i < |ps| ==> WellNamed(ps[i]))
    && forall i, j :: 0 <= i < j < |ps| ==> Apart(ps[i], ps[j])
  }

  /** The names after drawing are those before and those drawn, and the two never meet. */
  ghost predicate Grows(taken: set<string>, p: Plan, after: set<string>) {
    forall x :: (Has(p, x) ==> x !in taken) && (x in after <==> x in taken || Has(p, x))
  }

  ghost predicate GrowsAll(taken: set<string>, ps: seq<Plan>, after: set<string>) {
    forall x :: (AnyHas(ps, x) ==> x !in taken) && (x in after <==> x in taken || AnyHas(ps, x))
  }

  lemma AnyHasSnoc(ps: seq<Plan>, p: Plan, x: string)
    ensures AnyHas(ps + [p], x) <==> AnyHas(ps, x) || Has(p, x)
  {
    var more := ps + [p];
    if AnyHas(ps, x) {
      var i :| 0 <= i < |ps| && Has(ps[i], x);
      assert Has(more[i], x);
    }
    if Has(p, x) { assert Has(more[|ps|], x); }
  }

  /** One more plan named after the others keeps the list well named. */
  lemma GrowsSnoc(taken: set<string>, ps: seq<Plan>, between: set<string>, p: Plan, after: set<string>)
    requires GrowsAll(taken, ps, between) && AllWellNamed(ps)
    requires Grows(between, p, after) && WellNamed(p)
    ensures GrowsAll(taken, ps + [p], after) && AllWellNamed(ps + [p])
  {
    var more := ps + [p];
    forall x {
      AnyHasSnoc(ps, p, x);
    }
    forall i, j | 0 <= i < j < |more|
      ensures Apart(more[i], more[j])
    {
      if j == |ps| {
        forall x | Has(more[i], x)
          ensures !Has(p, x)
        {
          assert AnyHas(ps, x);
        }
      }
    }
  }

  /** The namer never reuses a name: for every document and every set of names already taken. */
  lemma {:induction false} NameIsFresh(node: Node, taken: set<string>)
    ensures WellNamed(Name(node, taken).plan)
    ensures Grows(taken, Name(node, taken).plan, Name(node, taken).taken)
    decreases node, 1
  {
    match node
    case NotANode =>
    case Leaf(_, _, _) =>
    case Sequence(_, steps) =>
      if steps.Given? { NameFirstIsFresh(steps.list, |steps.list|, taken); }
    case InParallel(_, _, _, _) => ParallelIsFresh(node, taken);
    case Conditional(_, _, _, _) =>
      if node.routes.Given? { ConditionalIsFresh(node, taken); }
    case RouteSwitch(_, _, _, _, _) =>
      if node.decide != NotANode && node.cases.Given? { SwitchIsFresh(node, taken); }
    case Loop(_, body, _) => NameIsFresh(body, taken);
    case Schedule(id, step, _) => NameIsFresh(step, taken + {Unique(id, taken)});
    case Scoped(id, _, child, _) => NameIsFresh(child, taken + {Unique(id, taken)});
    case Subflow(id, root, _) =>
      if root.Some? { NameIsFresh(root.value, taken + {Unique(id, taken)}); }
  }

  lemma {:induction false} ParallelIsFresh(node: Node, taken: set<string>)
    requires node.InParallel?
    ensures WellNamed(Name(node, taken).plan)
    ensures Grows(taken, Name(node, taken).plan, Name(node, taken).taken)
    decreases node, 0
  {
    var fork := Unique(node.id, taken);
    var join := Unique(node.id + "~join", taken + {fork});
    var named := taken + {fork} + {join};
    if node.each.Some? {
      NameIsFresh(node.each.value, named);
      SingleWellNamed(Name(node.each.value, named).plan);
    } else if node.paths.Given? {
      NameFirstIsFresh(node.paths.list, |node.paths.list|, named);
    }
  }

  lemma SingleWellNamed(p: Plan)
    requires WellNamed(p)
    ensures AllWellNamed([p])
    ensures forall x :: AnyHas([p], x) <==> Has(p, x)
  {
    forall x
      ensures AnyHas([p], x) <==> Has(p, x)
    {
      AnyHasSnoc([], p, x);
      assert [] + [p] == [p];
    }
  }

  lemma {:induction false} ConditionalIsFresh(node: Node, taken: set<string>)
    requires node.Conditional? && node.routes.Given?
    ensures WellNamed(Name(node, taken).plan)
    ensures Grows(taken, Name(node, taken).plan, Name(node, taken).taken)
    decreases node, 0
  {
    var named := taken + {Unique(node.id, taken)};
    NameFirstIsFresh(node.routes.list, |node.routes.list|, named);
    if node.default.Some? {
      var all := NameFirst(node.routes.list, |node.routes.list|, named);
      var last := Name(node.default.value, all.taken);
      NameIsFresh(node.default.value, all.taken);
      GrowsSnoc(named, all.plans, all.taken, last.plan, last.taken);
    }
  }

  lemma {:induction false} SwitchIsFresh(node: Node, taken: set<string>)
    requires node.RouteSwitch? && node.decide != NotANode && node.cases.Given?
    ensures WellNamed(Name(node, taken).plan)
    ensures Grows(taken, Name(node, taken).plan, Name(node, taken).taken)
    decreases node, 0
  {
    NameIsFresh(node.decide, taken);
    var asked := Name(node.decide, taken);
    var named := asked.taken + {Unique(node.id, asked.taken)};
    NameFirstIsFresh(node.cases.list, |node.cases.list|, named);
    if node.uncertain.Some? {
      var all := NameFirst(node.cases.list, |node.cases.list|, named);
      var last := Name(node.uncertain.value, all.taken);
      NameIsFresh(node.uncertain.value, all.taken);
      GrowsSnoc(named, all.plans, all.taken, last.plan, last.taken);
    }
  }

  lemma {:induction false} NameFirstIsFresh(nodes: seq<Node>, k: nat, taken: set<string>)
    requires k <= |nodes|
    ensures AllWellNamed(NameFirst(nodes, k, taken).plans)
    ensures GrowsAll(taken, NameFirst(nodes, k, taken).plans, NameFirst(nodes, k, taken).taken)
    decreases nodes, k
  {
    if k > 0 {
      NameFirstIsFresh(nodes, k - 1, taken);
      var before := NameFirst(nodes, k - 1, taken);
      NameIsFresh(nodes[k - 1], before.taken);
      var one := Name(nodes[k - 1], before.taken);
      GrowsSnoc(taken, before.plans, before.taken, one.plan, one.taken);
    }
  }

  /** `Has` is exactly the drawn nodes. */
  lemma {:induction false} DrawnHas(p: Plan, x: string)
    ensures (exists n :: n in Drawn(p) && n.id == x) <==> Has(p, x)
    decreases p, 0
  {
    match p
    case Step(id, kind) => assert GraphNode(id, kind) in Drawn(p);
    case Chain(steps) => DrawnFirstHas(steps, |steps|, x);
    case Fork(fork, join, branches) =>
      DrawnFirstHas(branches, |branches|, x);
      assert GraphNode(fork, ParallelGate) in Drawn(p) && GraphNode(join, JoinGate) in Drawn(p);
      assert forall n :: n in DrawnFirst(branches, |branches|) ==> n in Drawn(p);
    case Route(gate, targets, _) =>
      DrawnFirstHas(targets, |targets|, x);
      assert GraphNode(gate, ConditionalGate) in Drawn(p);
      assert forall n :: n in DrawnFirst(targets, |targets|) ==> n in Drawn(p);
    case Switch(decide, gate, targets) =>
      DrawnHas(decide, x);
      DrawnFirstHas(targets, |targets|, x);
      assert GraphNode(gate, SwitchGate) in Drawn(p);
      assert forall n :: n in DrawnFirst(targets, |targets|) || n in Drawn(decide) ==> n in Drawn(p);
    case Repeat(body, gate) =>
      DrawnHas(body, x);
      assert GraphNode(gate, LoopGate) in Drawn(p) && forall n :: n in Drawn(body) ==> n in Drawn(p);
    case Timer(gate, step) =>
      DrawnHas(step, x);
      assert GraphNode(gate, ScheduleGate) in Drawn(p) && forall n :: n in Drawn(step) ==> n in Drawn(p);
    case Wrap(gate, kind, child) =>
      DrawnHas(child, x);
      assert GraphNode(gate, kind) in Drawn(p) && forall n :: n in Drawn(child) ==> n in Drawn(p);
  }

  lemma {:induction false} DrawnFirstHas(ps: seq<Plan>, k: nat, x: string)
    requires k <= |ps|
    ensures (exists n :: n in DrawnFirst(ps, k) && n.id == x) <==> exists i :: 0 <= i < k && Has(ps[i], x)
    decreases ps, k
  {
    if k > 0 {
      DrawnFirstHas(ps, k - 1, x);
      DrawnHas(ps[k - 1], x);
      assert forall n :: n in DrawnFirst(ps, k) <==> n in DrawnFirst(ps, k - 1) || n in Drawn(ps[k - 1]);
    }
  }

  // ---------- Node ids ----------

  ghost predicate Distinct(nodes: seq<GraphNode>) {
    forall i, j :: 0 <= i < j < |nodes| ==> nodes[i].id != nodes[j].id
  }

  ghost predicate NoneShared(x: seq<GraphNode>, y: seq<GraphNode>) {
    forall m, n :: m in x && n in y ==> m.id != n.id
  }

  lemma DistinctConcat(x: seq<GraphNode>, y: seq<GraphNode>)
    requires Distinct(x) && Distinct(y) && NoneShared(x, y)
    ensures Distinct(x + y)
  {
    var s := x + y;
    forall i, j | 0 <= i < j < |s|
      ensures s[i].id != s[j].id
    {
      if i < |x| <= j { assert s[i] in x && s[j] in y; }
    }
  }

  lemma DrawnIsHad(p: Plan, n: GraphNode)
    requires n in Drawn(p)
    ensures Has(p, n.id)
  {
    DrawnHas(p, n.id);
  }

  lemma DrawnFirstIsHad(ps: seq<Plan>, k: nat, n: GraphNode)
    requires k <= |ps| && n in DrawnFirst(ps, k)
    ensures exists i :: 0 <= i < k && Has(ps[i], n.id)
  {
    DrawnFirstHas(ps, k, n.id);
  }

  lemma {:induction false} FirstDistinct(ps: seq<Plan>, k: nat)
    requires k <= |ps| && AllWellNamed(ps)
    ensures Distinct(DrawnFirst(ps, k))
    decreases ps, k
  {
    if k > 0 {
      FirstDistinct(ps, k - 1);
      DrawnDistinct(ps[k - 1]);
      forall m, n | m in DrawnFirst(ps, k - 1) && n in Drawn(ps[k - 1])
        ensures m.id != n.id
      {
        DrawnFirstIsHad(ps, k - 1, m);
        DrawnIsHad(ps[k - 1], n);
        var i :| 0 <= i < k - 1 && Has(ps[i], m.id);
        assert Apart(ps[i], ps[k - 1]);
      }
      DistinctConcat(DrawnFirst(ps, k - 1), Drawn(ps[k - 1]));
    }
  }

  /** A gate in front of nodes that do not bear its name. */
  lemma GateDistinct(gate: GraphNode, rest: seq<GraphNode>)
    requires Distinct(rest) && forall n :: n in rest ==> n.id != gate.id
    ensures Distinct([gate] + rest) && Distinct(rest + [gate])
  {
    DistinctConcat([gate], rest);
    DistinctConcat(rest, [gate]);
  }

  lemma {:induction false} TargetsDistinct(gate: GraphNode, targets: seq<Plan>)
    requires AllWellNamed(targets) && !AnyHas(targets, gate.id)
    ensures Distinct([gate] + DrawnFirst(targets, |targets|))
    decreases targets, |targets| + 1
  {
    FirstDistinct(targets, |targets|);
    forall n | n in DrawnFirst(targets, |targets|) ensures n.id != gate.id { DrawnFirstIsHad(targets, |targets|, n); }
    GateDistinct(gate, DrawnFirst(targets, |targets|));
  }

  lemma {:induction false} AroundDistinct(gate: GraphNode, p: Plan)
    requires WellNamed(p) && !Has(p, gate.id)
    ensures Distinct([gate] + Drawn(p)) && Distinct(Drawn(p) + [gate])
    decreases p, 2
  {
    DrawnDistinct(p);
    forall n | n in Drawn(p) ensures n.id != gate.id { DrawnIsHad(p, n); }
    GateDistinct(gate, Drawn(p));
  }

  /** No two nodes drawn for a well-named plan share an id. */
  lemma {:induction false} DrawnDistinct(p: Plan)
    requires WellNamed(p)
    ensures Distinct(Drawn(p))
    decreases p, 1
  {
    match p
    case Step(_, _) =>
    case Chain(steps) => FirstDistinct(steps, |steps|);
    case Fork(fork, join, branches) => ForkDistinct(p);
    case Route(gate, targets, _) => TargetsDistinct(GraphNode(gate, ConditionalGate), targets);
    case Switch(decide, gate, targets) => SwitchDistinct(p);
    case Repeat(body, gate) => AroundDistinct(GraphNode(gate, LoopGate), body);
    case Timer(gate, step) => AroundDistinct(GraphNode(gate, ScheduleGate), step);
    case Wrap(gate, kind, child) => AroundDistinct(GraphNode(gate, kind), child);
  }

  lemma {:induction false} ForkDistinct(p: Plan)
    requires p.Fork? && WellNamed(p)
    ensures Distinct(Drawn(p))
    decreases p.branches, |p.branches| + 2
  {
    var fork, join := GraphNode(p.fork, ParallelGate), GraphNode(p.join, JoinGate);
    var rest := DrawnFirst(p.branches, |p.branches|);
    TargetsDistinct(join, p.branches);
    forall n | n in [join] + rest ensures n.id != fork.id {
      if n in rest { DrawnFirstIsHad(p.branches, |p.branches|, n); }
    }
    GateDistinct(fork, [join] + rest);
    assert [fork] + ([join] + rest) == [fork] + [join] + rest;
  }

  lemma {:induction false} SwitchDistinct(p: Plan)
    requires p.Switch? && WellNamed(p)
    ensures Distinct(Drawn(p))
    decreases p, 0
  {
    var gate := GraphNode(p.gate, SwitchGate);
    var rest := [gate] + DrawnFirst(p.targets, |p.targets|);
    DrawnDistinct(p.decide);
    TargetsDistinct(gate, p.targets);
    forall m, n | m in Drawn(p.decide) && n in rest ensures m.id != n.id {
      DrawnIsHad(p.decide, m);
      if n != gate { DrawnFirstIsHad(p.targets, |p.targets|, n); }
    }
    DistinctConcat(Drawn(p.decide), rest);
    assert Drawn(p.decide) + rest == Drawn(p.decide) + [gate] + DrawnFirst(p.targets, |p.targets|);
  }

  /** In the drawing of every document all node ids differ. */
  lemma FlowNodesDistinct(root: Node)
    ensures Distinct(FlowNodes(NameFlow(root)))
  {
    var f := NameFlow(root);
    var start, end := GraphNode(f.start, StartTerminal), GraphNode(f.end, EndTerminal);
    NameIsFresh(root, {f.start});
    assert !Has(f.body, f.start) && !Has(f.body, f.end) && f.start != f.end;
    AroundDistinct(start, f.body);
    forall n | n in [start] + Drawn(f.body) ensures n.id != end.id {
      if n in Drawn(f.body) { DrawnIsHad(f.body, n); }
    }
    GateDistinct(end, [start] + Drawn(f.body));
  }
}
