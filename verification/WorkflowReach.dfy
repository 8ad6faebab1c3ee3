/** The whole drawing: what its start-to-end walks are, when there is one, and which nodes lie on one. */
module WorkflowReach {
  import opened WorkflowPlan
  import opened WorkflowNames
  import opened WorkflowTraces
  import opened WorkflowMeaning

  // ---------- The terminals ----------

  /** Start and end bracket the document as a fork and a join bracket a single branch. */
  function Bracketed(f: Flow): Plan {
    Fork(f.start, f.end, [f.body])
  }

  ghost predicate FlowWalk(f: Flow, w: Trace) {
    |w| > 0 && w[0] == f.start && forall i :: 0 <= i < |w| - 1 ==> Joins(FlowWires(f), w[i], w[i + 1])
  }

  ghost predicate IsDrawn(f: Flow, x: string) {
    exists n :: n in FlowNodes(f) && n.id == x
  }

  lemma IsDrawnIffHad(f: Flow, x: string)
    ensures IsDrawn(f, x) <==> Has(Bracketed(f), x)
  {
    DrawnHas(f.body, x);
    assert Bracketed(f).branches[0] == f.body;
    assert GraphNode(f.start, StartTerminal) in FlowNodes(f) && GraphNode(f.end, EndTerminal) in FlowNodes(f);
    assert forall n :: n in Drawn(f.body) ==> n in FlowNodes(f);
    assert AnyHas(Bracketed(f).branches, x) <==> Has(f.body, x);
  }

  lemma FlowArcs(f: Flow, a: string, b: string)
    ensures Joins(FlowWires(f), a, b) <==> Arc(Bracketed(f), a, b)
  {
    ArcsAreWires(f.body, a, b);
    OneJoins(Wire(f.start, Entry(f.body), Default), a, b);
    JoinsConcat(Wires(f.body), [Wire(f.start, Entry(f.body), Default)], a, b);
    IntoJoins(Exits(f.body), f.end, Default, a, b);
    JoinsConcat(Wires(f.body) + [Wire(f.start, Entry(f.body), Default)], Into(Exits(f.body), f.end, Default), a, b);
    var p := Bracketed(f);
    assert p.branches[0] == f.body;
    assert AnyArc(p.branches, a, b) <==> Arc(f.body, a, b);
  }

  lemma FlowWellNamed(root: Node)
    ensures WellNamed(Bracketed(NameFlow(root)))
  {
    var f := NameFlow(root);
    NameIsFresh(root, {f.start});
    SingleWellNamed(f.body);
  }

  lemma FlowWalks(f: Flow, w: Trace)
    ensures FlowWalk(f, w) <==> Walk(Bracketed(f), w)
  {
    forall i | 0 <= i < |w| - 1 {
      FlowArcs(f, w[i], w[i + 1]);
    }
  }

  /** The walks from start to end are exactly the plan's complete runs between the terminals. */
  lemma DrawingMeansPlan(root: Node, w: Trace)
    ensures var f := NameFlow(root);
      FlowWalk(f, w) && w[|w| - 1] == f.end <==>
      |w| >= 2 && w[0] == f.start && w[|w| - 1] == f.end && Completes(f.body, w[1..|w| - 1])
  {
    var f := NameFlow(root);
    FlowWellNamed(root);
    FlowWalks(f, w);
    WalksAreTraces(Bracketed(f), w);
    OneBranchCompletes(f, w);
  }

  lemma OneBranchCompletes(f: Flow, w: Trace)
    ensures Completes(Bracketed(f), w) <==>
      |w| >= 2 && w[0] == f.start && w[|w| - 1] == f.end && Completes(f.body, w[1..|w| - 1])
  {
    var p := Bracketed(f);
    assert p.branches[0] == f.body;
    assert |w| >= 2 && w[0] == f.start && w[|w| - 1] == f.end && Completes(f.body, w[1..|w| - 1]) ==>
      Completes(p.branches[0], w[1..|w| - 1]);
  }

  /** And the walks from start, wherever they stop, are exactly its runs under way. */
  lemma DrawingShowsPlan(root: Node, w: Trace)
    ensures var f := NameFlow(root);
      FlowWalk(f, w) && w[|w| - 1] != f.end <==>
      |w| > 0 && w[0] == f.start && (|w| == 1 || Underway(f.body, w[1..]))
  {
    var f := NameFlow(root);
    var p := Bracketed(f);
    FlowWellNamed(root);
    FlowWalks(f, w);
    WalksAreTraces(p, w);
    assert p.branches[0] == f.body;
    if |w| > 0 && w[0] == f.start && (|w| == 1 || Underway(f.body, w[1..])) {
      assert UnderwayVia(f.start, p.branches, w);
      if |w| > 1 {
        UnderwayHas(f.body, w[1..]);
        assert Has(f.body, w[1..][|w| - 2]);
        assert !AnyHas(p.branches, f.end);
      }
    }
    if |w| > 0 && w[|w| - 1] != f.end && Underway(p, w) {
      assert UnderwayVia(f.start, p.branches, w);
    }
  }

  /** A run only passes through nodes drawn for it. */
  lemma UnderwayHas(p: Plan, t: Trace)
    requires WellNamed(p) && Underway(p, t)
    ensures |t| > 0 && forall i :: 0 <= i < |t| ==> Has(p, t[i])
  {
    UnderwayWalks(p, t);
    WalkHas(p, t);
  }

  lemma CompletesHas(p: Plan, t: Trace)
    requires WellNamed(p) && Completes(p, t)
    ensures |t| > 0 && forall i :: 0 <= i < |t| ==> Has(p, t[i])
  {
    CompletesWalks(p, t);
    WalkHas(p, t);
  }

  lemma WalkHas(p: Plan, t: Trace)
    requires WellNamed(p) && Walk(p, t)
    ensures forall i :: 0 <= i < |t| ==> Has(p, t[i])
  {
    PortsInside(p);
    forall i | 0 <= i < |t|
      ensures Has(p, t[i])
    {
      if i > 0 {
        assert Arc(p, t[i - 1], t[i - 1 + 1]);
        ArcInside(p, t[i - 1], t[i]);
      }
    }
  }

  // ---------- When some run completes ----------

  /** Read off the document: some run of it comes to an end. */
  predicate Completable(node: Node)
    decreases node
  {
    match node
    case NotANode => true
    case Leaf(_, _, _) => true
    case Sequence(_, steps) => steps.Given? ==> forall i :: 0 <= i < |steps.list| ==> Completable(steps.list[i])
    case InParallel(_, each, paths, _) =>
      if each.Some? then Completable(each.value)
      else paths.Given? && exists i :: 0 <= i < |paths.list| && Completable(paths.list[i])
    case Conditional(_, routes, default, _) =>
      || !routes.Given? || default.None? || Completable(default.value)
      || exists i :: 0 <= i < |routes.list| && Completable(routes.list[i])
    case RouteSwitch(_, decide, cases, uncertain, _) =>
      || decide == NotANode || !cases.Given?
      || (Completable(decide) &&
          ((uncertain.Some? && Completable(uncertain.value)) ||
           exists i :: 0 <= i < |cases.list| && Completable(cases.list[i])))
    case Loop(_, body, _) => Completable(body)
    case Schedule(_, step, _) => step == NotANode
    case Scoped(_, _, child, _) => Completable(child)
    case Subflow(_, root, _) => root.Some? ==> Completable(root.value)
  }

  predicate CanFinish(p: Plan)
    decreases p
  {
    match p
    case Step(_, _) => true
    case Chain(steps) => forall i :: 0 <= i < |steps| ==> CanFinish(steps[i])
    case Fork(_, _, branches) => exists i :: 0 <= i < |branches| && CanFinish(branches[i])
    case Route(_, targets, fallsThrough) => fallsThrough || exists i :: 0 <= i < |targets| && CanFinish(targets[i])
    case Switch(decide, _, targets) =>
      CanFinish(decide) && exists i :: 0 <= i < |targets| && CanFinish(targets[i])
    case Repeat(body, _) => CanFinish(body)
    case Timer(_, _) => false
    case Wrap(_, _, child) => CanFinish(child)
  }

  lemma {:induction false} FinishesFirst(nodes: seq<Node>, k: nat, taken: set<string>)
    requires k <= |nodes|
    ensures forall i :: 0 <= i < k ==> CanFinish(NameFirst(nodes, k, taken).plans[i]) == Completable(nodes[i])
    decreases nodes, k
  {
    if k > 0 {
      FinishesFirst(nodes, k - 1, taken);
      FinishesLike(nodes[k - 1], NameFirst(nodes, k - 1, taken).taken);
    }
  }

  lemma {:induction false} FinishesLike(node: Node, taken: set<string>)
    ensures CanFinish(Name(node, taken).plan) == Completable(node)
    decreases node, 1
  {
    match node
    case NotANode =>
    case Leaf(_, _, _) =>
    case Sequence(_, steps) => if steps.Given? { FinishesFirst(steps.list, |steps.list|, taken); }
    case InParallel(_, _, _, _) => ParallelFinishesLike(node, taken);
    case Conditional(_, routes, _, _) => if routes.Given? { ConditionalFinishesLike(node, taken); }
    case RouteSwitch(_, decide, cases, _, _) =>
      if decide != NotANode && cases.Given? { SwitchFinishesLike(node, taken); }
    case Loop(_, body, _) => FinishesLike(body, taken);
    case Schedule(_, _, _) =>
    case Scoped(id, _, child, _) => FinishesLike(child, taken + {Unique(id, taken)});
    case Subflow(id, root, _) => if root.Some? { FinishesLike(root.value, taken + {Unique(id, taken)}); }
  }

  lemma {:induction false} ParallelFinishesLike(node: Node, taken: set<string>)
    requires node.InParallel?
    ensures CanFinish(Name(node, taken).plan) == Completable(node)
    decreases node, 0
  {
    var fork := Unique(node.id, taken);
    var named := taken + {fork} + {Unique(node.id + "~join", taken + {fork})};
    var p := Name(node, taken).plan;
    if node.each.Some? {
      FinishesLike(node.each.value, named);
      assert p.branches[0] == Name(node.each.value, named).plan;
    } else if node.paths.Given? {
      FinishesFirst(node.paths.list, |node.paths.list|, named);
    }
  }

  lemma AnyFinishes(nodes: seq<Node>, plans: seq<Plan>, last: Node, lastPlan: Plan)
    requires |plans| == |nodes|
    requires forall i :: 0 <= i < |nodes| ==> CanFinish(plans[i]) == Completable(nodes[i])
    requires CanFinish(lastPlan) == Completable(last)
    ensures var more := plans + [lastPlan];
      (exists i :: 0 <= i < |more| && CanFinish(more[i])) <==>
      Completable(last) || exists i :: 0 <= i < |nodes| && Completable(nodes[i])
  {
    var more := plans + [lastPlan];
    assert more[|plans|] == lastPlan;
    if i :| 0 <= i < |nodes| && Completable(nodes[i]) { assert CanFinish(more[i]); }
    if i :| 0 <= i < |more| && CanFinish(more[i]) { assert i < |nodes| ==> Completable(nodes[i]); }
  }

  lemma {:induction false} ConditionalFinishesLike(node: Node, taken: set<string>)
    requires node.Conditional? && node.routes.Given?
    ensures CanFinish(Name(node, taken).plan) == Completable(node)
    decreases node, 0
  {
    if node.default.Some? {
      var nodes, named := node.routes.list, taken + {Unique(node.id, taken)};
      FinishesFirst(nodes, |nodes|, named);
      var all := NameFirst(nodes, |nodes|, named);
      FinishesLike(node.default.value, all.taken);
      AnyFinishes(nodes, all.plans, node.default.value, Name(node.default.value, all.taken).plan);
    }
  }

  lemma {:induction false} SwitchFinishesLike(node: Node, taken: set<string>)
    requires node.RouteSwitch? && node.decide != NotANode && node.cases.Given?
    ensures CanFinish(Name(node, taken).plan) == Completable(node)
    decreases node, 0
  {
    FinishesLike(node.decide, taken);
    var asked := Name(node.decide, taken);
    var nodes, named := node.cases.list, asked.taken + {Unique(node.id, asked.taken)};
    FinishesFirst(nodes, |nodes|, named);
    if node.uncertain.Some? {
      var all := NameFirst(nodes, |nodes|, named);
      FinishesLike(node.uncertain.value, all.taken);
      AnyFinishes(nodes, all.plans, node.uncertain.value, Name(node.uncertain.value, all.taken).plan);
    }
  }

  /** A complete run of a plan that can finish. */
  lemma {:induction false} Finish(p: Plan) returns (t: Trace)
    requires WellNamed(p) && CanFinish(p)
    ensures Completes(p, t)
    decreases p, 0
  {
    match p
    case Step(id, _) => t := [id];
    case Chain(steps) => t := FinishFrom(steps, 0);
    case Fork(fork, join, branches) =>
      var i :| 0 <= i < |branches| && CanFinish(branches[i]);
      var u := Finish(branches[i]);
      t := [fork] + u + [join];
      assert t[1..|t| - 1] == u;
    case Route(gate, targets, fallsThrough) =>
      if fallsThrough {
        t := [gate];
      } else {
        var i :| 0 <= i < |targets| && CanFinish(targets[i]);
        t := FinishVia(gate, targets, i);
      }
    case Switch(decide, gate, targets) =>
      var first := Finish(decide);
      var i :| 0 <= i < |targets| && CanFinish(targets[i]);
      var routed := FinishVia(gate, targets, i);
      t := first + routed;
      assert t[..|first|] == first && t[|first|..] == routed;
    case Repeat(body, gate) =>
      var once := Finish(body);
      t := once + [gate];
      assert t[..|once|] == once;
    case Wrap(gate, _, child) =>
      var u := Finish(child);
      t := [gate] + u;
      assert t[1..] == u;
  }

  lemma {:induction false} FinishVia(gate: string, targets: seq<Plan>, i: nat) returns (t: Trace)
    requires AllWellNamed(targets) && i < |targets| && CanFinish(targets[i])
    ensures CompletesVia(gate, targets, t)
    decreases targets, 0
  {
    var u := Finish(targets[i]);
    t := [gate] + u;
    assert t[1..] == u;
  }

  lemma {:induction false} FinishFrom(steps: seq<Plan>, i: nat) returns (t: Trace)
    requires AllWellNamed(steps) && i < |steps| && forall j :: 0 <= j < |steps| ==> CanFinish(steps[j])
    ensures CompletesFrom(steps, i, t)
    decreases steps, |steps| - i
  {
    var first := Finish(steps[i]);
    if i + 1 == |steps| {
      t := first;
    } else {
      var rest := FinishFrom(steps, i + 1);
      t := first + rest;
      assert t[..|first|] == first && t[|first|..] == rest;
    }
  }

  lemma FirstRound(p: Plan, t: Trace) returns (k: nat)
    requires p.Repeat? && Completes(p, t)
    ensures k < |t| && Completes(p.body, t[..k]) && t[k] == p.gate && (k + 1 == |t| || Completes(p, t[k + 1..]))
  {
    k :| 0 <= k < |t| && Completes(p.body, t[..k]) && t[k] == p.gate && (k + 1 == |t| || Completes(p, t[k + 1..]));
  }

  lemma Decided(p: Plan, t: Trace) returns (k: nat)
    requires p.Switch? && Completes(p, t)
    ensures k < |t| && Completes(p.decide, t[..k]) && CompletesVia(p.gate, p.targets, t[k..])
  {
    k :| 0 <= k < |t| && Completes(p.decide, t[..k]) && CompletesVia(p.gate, p.targets, t[k..]);
  }

  lemma {:induction false} CompletedCanFinish(p: Plan, t: Trace)
    requires Completes(p, t)
    ensures CanFinish(p)
    decreases p
  {
    match p
    case Step(_, _) =>
    case Chain(steps) => ChainCanFinish(steps, 0, t);
    case Fork(_, _, branches) =>
      var i :| 0 <= i < |branches| && Completes(branches[i], t[1..|t| - 1]);
      CompletedCanFinish(branches[i], t[1..|t| - 1]);
    case Route(gate, targets, fallsThrough) =>
      if !fallsThrough { ViaCanFinish(gate, targets, t); }
    case Switch(decide, gate, targets) =>
      var k := Decided(p, t);
      CompletedCanFinish(decide, t[..k]);
      ViaCanFinish(gate, targets, t[k..]);
    case Repeat(body, gate) =>
      var k := FirstRound(p, t);
      CompletedCanFinish(body, t[..k]);
    case Timer(_, _) =>
    case Wrap(_, _, child) => CompletedCanFinish(child, t[1..]);
  }

  lemma {:induction false} ViaCanFinish(gate: string, targets: seq<Plan>, t: Trace)
    requires CompletesVia(gate, targets, t)
    ensures exists i :: 0 <= i < |targets| && CanFinish(targets[i])
    decreases targets
  {
    var i :| 0 <= i < |targets| && Completes(targets[i], t[1..]);
    CompletedCanFinish(targets[i], t[1..]);
  }

  lemma {:induction false} ChainCanFinish(steps: seq<Plan>, i: nat, t: Trace)
    requires i <= |steps| && CompletesFrom(steps, i, t)
    ensures forall j :: i <= j < |steps| ==> CanFinish(steps[j])
    decreases steps, |steps| - i
  {
    if i + 1 == |steps| {
      CompletedCanFinish(steps[i], t);
    } else {
      var k :| 0 <= k <= |t| && Completes(steps[i], t[..k]) && CompletesFrom(steps, i + 1, t[k..]);
      CompletedCanFinish(steps[i], t[..k]);
      ChainCanFinish(steps, i + 1, t[k..]);
    }
  }

  ghost predicate EndReached(f: Flow, w: Trace) {
    FlowWalk(f, w) && w[|w| - 1] == f.end
  }

  /** End is reachable from start exactly when the document itself can complete. */
  lemma EndReachableIffCompletable(root: Node)
    ensures (exists w :: EndReached(NameFlow(root), w)) <==> Completable(root)
  {
    var f := NameFlow(root);
    FinishesLike(root, {f.start});
    NameIsFresh(root, {f.start});
    if w :| EndReached(f, w) {
      DrawingMeansPlan(root, w);
      CompletedCanFinish(f.body, w[1..|w| - 1]);
    }
    if Completable(root) {
      var t := Finish(f.body);
      var w := [f.start] + t + [f.end];
      assert w[1..|w| - 1] == t;
      DrawingMeansPlan(root, w);
      assert EndReached(f, w);
    }
  }
}
