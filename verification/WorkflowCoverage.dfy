/** Which drawn nodes lie on some start-to-end walk: all of them, exactly when nothing in the document is a dead end. */
module WorkflowCoverage {
  import opened WorkflowPlan
  import opened WorkflowNames
  import opened WorkflowTraces
  import opened WorkflowReach

  /** No schedule, no split without paths and no switch without cases is drawn. */
  predicate NoDeadEnd(node: Node)
    decreases node
  {
    match node
    case NotANode => true
    case Leaf(_, _, _) => true
    case Sequence(_, steps) => steps.Given? ==> forall i :: 0 <= i < |steps.list| ==> NoDeadEnd(steps.list[i])
    case InParallel(_, each, paths, _) =>
      if each.Some? then NoDeadEnd(each.value)
      else paths.Given? && paths.list != [] && forall i :: 0 <= i < |paths.list| ==> NoDeadEnd(paths.list[i])
    case Conditional(_, routes, default, _) =>
      routes.Given? ==>
        && (default.Some? ==> NoDeadEnd(default.value))
        && forall i :: 0 <= i < |routes.list| ==> NoDeadEnd(routes.list[i])
    case RouteSwitch(_, decide, cases, uncertain, _) =>
      decide != NotANode && cases.Given? ==>
        && NoDeadEnd(decide)
        && (cases.list != [] || uncertain.Some?)
        && (uncertain.Some? ==> NoDeadEnd(uncertain.value))
        && forall i :: 0 <= i < |cases.list| ==> NoDeadEnd(cases.list[i])
    case Loop(_, body, _) => NoDeadEnd(body)
    case Schedule(_, step, _) => step == NotANode
    case Scoped(_, _, child, _) => NoDeadEnd(child)
    case Subflow(_, root, _) => root.Some? ==> NoDeadEnd(root.value)
  }

  predicate Live(p: Plan)
    decreases p
  {
    match p
    case Step(_, _) => true
    case Chain(steps) => AllLive(steps)
    case Fork(_, _, branches) => branches != [] && AllLive(branches)
    case Route(_, targets, fallsThrough) => (fallsThrough || targets != []) && AllLive(targets)
    case Switch(decide, _, targets) => Live(decide) && targets != [] && AllLive(targets)
    case Repeat(body, _) => Live(body)
    case Timer(_, _) => false
    case Wrap(_, _, child) => Live(child)
  }

  predicate AllLive(ps: seq<Plan>)
    decreases ps
  {
    forall i :: 0 <= i < |ps| ==> Live(ps[i])
  }

  lemma AllLiveSnoc(ps: seq<Plan>, p: Plan)
    ensures AllLive(ps + [p]) <==> AllLive(ps) && Live(p)
  {
    var more := ps + [p];
    if AllLive(more) {
      assert Live(more[|ps|]);
      forall i | 0 <= i < |ps|
        ensures Live(ps[i])
      {
        assert more[i] == ps[i];
      }
    }
  }

  lemma {:induction false} LiveFirst(nodes: seq<Node>, k: nat, taken: set<string>)
    requires k <= |nodes|
    ensures AllLive(NameFirst(nodes, k, taken).plans) <==> forall i :: 0 <= i < k ==> NoDeadEnd(nodes[i])
    decreases nodes, k
  {
    if k > 0 {
      LiveFirst(nodes, k - 1, taken);
      var before := NameFirst(nodes, k - 1, taken);
      LiveLike(nodes[k - 1], before.taken);
      AllLiveSnoc(before.plans, Name(nodes[k - 1], before.taken).plan);
    }
  }

  lemma {:induction false} LiveLike(node: Node, taken: set<string>)
    ensures Live(Name(node, taken).plan) == NoDeadEnd(node)
    decreases node, 1
  {
    match node
    case NotANode =>
    case Leaf(_, _, _) =>
    case Sequence(_, steps) => if steps.Given? { LiveFirst(steps.list, |steps.list|, taken); }
    case InParallel(_, _, _, _) => ParallelLiveLike(node, taken);
    case Conditional(_, routes, _, _) => if routes.Given? { ConditionalLiveLike(node, taken); }
    case RouteSwitch(_, decide, cases, _, _) =>
      if decide != NotANode && cases.Given? { SwitchLiveLike(node, taken); }
    case Loop(_, body, _) => LiveLike(body, taken);
    case Schedule(_, _, _) =>
    case Scoped(_, _, _, _) => AroundLiveLike(node, taken);
    case Subflow(_, _, _) => AroundLiveLike(node, taken);
  }

  lemma {:induction false} AroundLiveLike(node: Node, taken: set<string>)
    requires node.Scoped? || node.Subflow?
    ensures Live(Name(node, taken).plan) == NoDeadEnd(node)
    decreases node, 0
  {
    var named := taken + {Unique(node.id, taken)};
    if node.Scoped? { LiveLike(node.child, named); } else if node.root.Some? { LiveLike(node.root.value, named); }
  }

  lemma {:induction false} ParallelLiveLike(node: Node, taken: set<string>)
    requires node.InParallel?
    ensures Live(Name(node, taken).plan) == NoDeadEnd(node)
    decreases node, 0
  {
    var fork := Unique(node.id, taken);
    var named := taken + {fork} + {Unique(node.id + "~join", taken + {fork})};
    if node.each.Some? {
      var body := Name(node.each.value, named).plan;
      LiveLike(node.each.value, named);
      AllLiveSnoc([], body);
      assert [] + [body] == [body];
    } else if node.paths.Given? {
      LiveFirst(node.paths.list, |node.paths.list|, named);
    }
  }

  lemma {:induction false} ConditionalLiveLike(node: Node, taken: set<string>)
    requires node.Conditional? && node.routes.Given?
    ensures Live(Name(node, taken).plan) == NoDeadEnd(node)
    decreases node, 0
  {
    var nodes, named := node.routes.list, taken + {Unique(node.id, taken)};
    LiveFirst(nodes, |nodes|, named);
    if node.default.Some? {
      var all := NameFirst(nodes, |nodes|, named);
      LiveLike(node.default.value, all.taken);
      AllLiveSnoc(all.plans, Name(node.default.value, all.taken).plan);
    }
  }

  lemma {:induction false} SwitchLiveLike(node: Node, taken: set<string>)
    requires node.RouteSwitch? && node.decide != NotANode && node.cases.Given?
    ensures Live(Name(node, taken).plan) == NoDeadEnd(node)
    decreases node, 0
  {
    LiveLike(node.decide, taken);
    var asked := Name(node.decide, taken);
    var nodes, named := node.cases.list, asked.taken + {Unique(node.id, asked.taken)};
    LiveFirst(nodes, |nodes|, named);
    if node.uncertain.Some? {
      var all := NameFirst(nodes, |nodes|, named);
      LiveLike(node.uncertain.value, all.taken);
      AllLiveSnoc(all.plans, Name(node.uncertain.value, all.taken).plan);
    }
  }

  lemma {:induction false} LiveFinishes(p: Plan)
    requires Live(p)
    ensures CanFinish(p)
    decreases p
  {
    match p
    case Step(_, _) =>
    case Chain(steps) => forall i | 0 <= i < |steps| { LiveFinishes(steps[i]); }
    case Fork(_, _, branches) => LiveFinishes(branches[0]);
    case Route(_, targets, _) => if targets != [] { LiveFinishes(targets[0]); }
    case Switch(decide, _, targets) => LiveFinishes(decide); LiveFinishes(targets[0]);
    case Repeat(body, _) => LiveFinishes(body);
    case Wrap(_, _, child) => LiveFinishes(child);
  }

  // ---------- Without dead ends, a complete run through every node ----------

  lemma {:induction false} Through(p: Plan, x: string) returns (t: Trace)
    requires WellNamed(p) && Live(p) && Has(p, x)
    ensures Completes(p, t) && x in t
    decreases p, 0
  {
    match p
    case Step(id, _) => t := [id];
    case Chain(steps) =>
      var j :| 0 <= j < |steps| && Has(steps[j], x);
      t := ThroughFrom(steps, 0, j, x);
    case Fork(fork, join, branches) =>
      var i := if x == fork || x == join then 0 else var i :| 0 <= i < |branches| && Has(branches[i], x); i;
      var u := ThroughOrFinish(branches[i], x);
      t := [fork] + u + [join];
      assert t[1..|t| - 1] == u;
    case Route(gate, targets, fallsThrough) =>
      if x == gate && fallsThrough {
        t := [gate];
      } else {
        t := ThroughVia(gate, targets, x);
      }
    case Switch(decide, gate, targets) =>
      var first := ThroughOrFinish(decide, x);
      var routed := ThroughVia(gate, targets, if Has(decide, x) then gate else x);
      t := first + routed;
      assert t[..|first|] == first && t[|first|..] == routed;
    case Repeat(body, gate) =>
      var once := ThroughOrFinish(body, x);
      t := once + [gate];
      assert t[..|once|] == once;
    case Wrap(gate, _, child) =>
      var u := ThroughOrFinish(child, x);
      t := [gate] + u;
      assert t[1..] == u;
  }

  lemma {:induction false} ThroughOrFinish(p: Plan, x: string) returns (t: Trace)
    requires WellNamed(p) && Live(p)
    ensures Completes(p, t) && (Has(p, x) ==> x in t)
    decreases p, 1
  {
    if Has(p, x) {
      t := Through(p, x);
    } else {
      LiveFinishes(p);
      t := Finish(p);
    }
  }

  lemma {:induction false} ThroughVia(gate: string, targets: seq<Plan>, x: string) returns (t: Trace)
    requires AllWellNamed(targets) && AllLive(targets) && targets != []
    requires x == gate || AnyHas(targets, x)
    ensures CompletesVia(gate, targets, t) && x in t
    decreases targets, 2
  {
    var i := if x == gate then 0 else var i :| 0 <= i < |targets| && Has(targets[i], x); i;
    var u := ThroughOrFinish(targets[i], x);
    t := [gate] + u;
    assert t[1..] == u;
  }

  lemma {:induction false} ThroughFrom(steps: seq<Plan>, i: nat, j: nat, x: string) returns (t: Trace)
    requires AllWellNamed(steps) && AllLive(steps) && i < |steps| && j < |steps| && Has(steps[j], x)
    ensures CompletesFrom(steps, i, t) && (i <= j ==> x in t)
    decreases steps, |steps| - i
  {
    var first := ThroughOrFinish(steps[i], x);
    if i + 1 == |steps| {
      t := first;
    } else {
      var rest := ThroughFrom(steps, i + 1, j, x);
      t := first + rest;
      assert t[..|first|] == first && t[|first|..] == rest;
    }
  }

  // ---------- With one, a node no complete run passes ----------

  ghost predicate NeverPassed(p: Plan, x: string) {
    Has(p, x) && forall t :: Completes(p, t) ==> x !in t
  }

  ghost predicate PassedIn(q: Plan, x: string) {
    exists u :: Completes(q, u) && x in u
  }

  lemma {:induction false} ChainPart(steps: seq<Plan>, i: nat, t: Trace, x: string)
    requires i <= |steps| && CompletesFrom(steps, i, t) && x in t
    ensures exists j :: i <= j < |steps| && PassedIn(steps[j], x)
    decreases |steps| - i
  {
    if i + 1 == |steps| {
      assert PassedIn(steps[i], x);
    } else {
      var k :| 0 <= k <= |t| && Completes(steps[i], t[..k]) && CompletesFrom(steps, i + 1, t[k..]);
      assert t == t[..k] + t[k..];
      if x in t[..k] {
        assert PassedIn(steps[i], x);
      } else {
        ChainPart(steps, i + 1, t[k..], x);
      }
    }
  }

  lemma ViaPart(gate: string, targets: seq<Plan>, t: Trace, x: string)
    requires CompletesVia(gate, targets, t) && x in t && x != gate
    ensures exists j :: 0 <= j < |targets| && PassedIn(targets[j], x)
  {
    var i :| 0 <= i < |targets| && Completes(targets[i], t[1..]);
    assert x in t[1..];
    assert PassedIn(targets[i], x);
  }

  lemma {:induction false} RepeatPart(p: Plan, t: Trace, x: string)
    requires p.Repeat? && Completes(p, t) && x in t && x != p.gate
    ensures PassedIn(p.body, x)
    decreases |t|
  {
    var k := FirstRound(p, t);
    assert t == t[..k] + [t[k]] + t[k + 1..];
    if x !in t[..k] { RepeatPart(p, t[k + 1..], x); }
  }

  /** Of a list of parts that share no name, only the one that has `x` can pass it. */
  lemma OwnerPasses(ps: seq<Plan>, i: nat, j: nat, x: string)
    requires AllWellNamed(ps) && i < |ps| && j < |ps| && Has(ps[i], x) && PassedIn(ps[j], x)
    ensures i == j
  {
    var u :| Completes(ps[j], u) && x in u;
    CompletesHas(ps[j], u);
  }

  lemma {:induction false} DeadTarget(ps: seq<Plan>) returns (i: nat, x: string)
    requires AllWellNamed(ps) && !AllLive(ps)
    ensures i < |ps| && Has(ps[i], x)
    ensures forall j :: 0 <= j < |ps| ==> !PassedIn(ps[j], x)
    decreases ps
  {
    i :| 0 <= i < |ps| && !Live(ps[i]);
    x := DeadNode(ps[i]);
    forall j | 0 <= j < |ps|
      ensures !PassedIn(ps[j], x)
    {
      if PassedIn(ps[j], x) { OwnerPasses(ps, i, j, x); }
    }
  }

  lemma {:induction false} DeadNode(p: Plan) returns (x: string)
    requires WellNamed(p) && !Live(p)
    ensures NeverPassed(p, x)
    decreases p, 1
  {
    match p
    case Chain(steps) =>
      var i;
      i, x := DeadTarget(steps);
      forall t | Completes(p, t)
        ensures x !in t
      {
        if x in t { ChainPart(steps, 0, t, x); }
      }
    case Fork(_, _, _) => x := DeadInFork(p);
    case Route(gate, targets, fallsThrough) =>
      if targets == [] {
        x := gate;
      } else {
        var i;
        i, x := DeadTarget(targets);
        forall t | Completes(p, t)
          ensures x !in t
        {
          if x in t && t != [gate] { ViaPart(gate, targets, t, x); }
        }
      }
    case Switch(_, _, _) => x := DeadInSwitch(p);
    case Repeat(body, gate) =>
      x := DeadNode(body);
      forall t | Completes(p, t)
        ensures x !in t
      {
        if x in t { RepeatPart(p, t, x); }
      }
    case Timer(gate, _) => x := gate;
    case Wrap(gate, _, child) =>
      x := DeadNode(child);
      forall t | Completes(p, t)
        ensures x !in t
      {
        assert t == [gate] + t[1..];
      }
  }

  lemma {:induction false} DeadInFork(p: Plan) returns (x: string)
    requires p.Fork? && WellNamed(p) && !Live(p)
    ensures NeverPassed(p, x)
    decreases p, 0
  {
    if p.branches == [] {
      x := p.fork;
    } else {
      var i;
      i, x := DeadTarget(p.branches);
      forall t | Completes(p, t)
        ensures x !in t
      {
        var u := t[1..|t| - 1];
        assert t == [p.fork] + u + [p.join];
        var j :| 0 <= j < |p.branches| && Completes(p.branches[j], u);
        assert !PassedIn(p.branches[j], x);
      }
    }
  }

  lemma {:induction false} DeadInSwitch(p: Plan) returns (x: string)
    requires p.Switch? && WellNamed(p) && !Live(p)
    ensures NeverPassed(p, x)
    decreases p, 0
  {
    var decide, gate, targets := p.decide, p.gate, p.targets;
    if targets == [] {
      x := gate;
      if t :| Completes(p, t) {
        var k := Decided(p, t);
        assert false;
      }
    } else if !Live(decide) {
      x := DeadNode(decide);
      assert !AnyHas(targets, x);
      forall t | Completes(p, t)
        ensures x !in t
      {
        var k := Decided(p, t);
        assert t == t[..k] + t[k..];
        if x in t[k..] {
          ViaPart(gate, targets, t[k..], x);
          var j :| 0 <= j < |targets| && PassedIn(targets[j], x);
          var u :| Completes(targets[j], u) && x in u;
          CompletesHas(targets[j], u);
          assert false;
        }
      }
    } else {
      var i;
      i, x := DeadTarget(targets);
      assert AnyHas(targets, x);
      forall t | Completes(p, t)
        ensures x !in t
      {
        var k := Decided(p, t);
        CompletesHas(decide, t[..k]);
        assert t == t[..k] + t[k..];
        if x in t[k..] { ViaPart(gate, targets, t[k..], x); }
      }
    }
  }

  // ---------- The drawing ----------

  /** Some walk from start to end passes `x`. */
  ghost predicate Used(f: Flow, x: string) {
    exists w :: EndReached(f, w) && x in w
  }

  lemma NotInside(w: Trace, start: string, end: string, x: string)
    requires |w| >= 2 && w[0] == start != x && w[|w| - 1] == end != x && x !in w[1..|w| - 1]
    ensures x !in w
  {
    assert w == [start] + w[1..|w| - 1] + [end];
  }

  lemma Unused(root: Node) returns (x: string)
    requires !Live(NameFlow(root).body)
    ensures IsDrawn(NameFlow(root), x) && !Used(NameFlow(root), x)
  {
    var f := NameFlow(root);
    NameIsFresh(root, {f.start});
    x := DeadNode(f.body);
    forall w | EndReached(f, w)
      ensures x !in w
    {
      DrawingMeansPlan(root, w);
      NotInside(w, f.start, f.end, x);
    }
    IsDrawnIffHad(f, x);
    assert Bracketed(f).branches[0] == f.body;
    assert AnyHas(Bracketed(f).branches, x);
  }

  /** Every drawn node lies on some walk from start to end, exactly when the document has no dead end. */
  lemma EveryNodeUsedIffNoDeadEnd(root: Node)
    ensures (forall x :: IsDrawn(NameFlow(root), x) ==> Used(NameFlow(root), x)) <==> NoDeadEnd(root)
  {
    var f := NameFlow(root);
    LiveLike(root, {f.start});
    if NoDeadEnd(root) {
      forall x | IsDrawn(f, x)
        ensures Used(f, x)
      {
        IsDrawnIffHad(f, x);
        UsedThrough(root, x);
      }
    } else {
      var x := Unused(root);
    }
  }

  lemma UsedThrough(root: Node, x: string)
    requires Live(NameFlow(root).body) && Has(Bracketed(NameFlow(root)), x)
    ensures Used(NameFlow(root), x)
  {
    var f := NameFlow(root);
    NameIsFresh(root, {f.start});
    var t := ThroughOrFinish(f.body, x);
    var w := [f.start] + t + [f.end];
    assert w[1..|w| - 1] == t;
    DrawingMeansPlan(root, w);
    assert EndReached(f, w) && x in w;
  }
}
