/** The naming of a document keeps its shape and carries its spots one to one onto the drawn nodes. */
module WorkflowSpots {
  import opened Text
  import opened Wrappers
  import opened WorkflowPlan
  import opened WorkflowNames
  import opened WorkflowTraces
  import opened WorkflowDocument

  // ---------- The plan keeps the document's shape ----------

  /** The `i`-th child, counted as in the document. */
  function Child(p: Plan, i: nat): (child: Option<Plan>)
    ensures child.Some? ==> child.value < p
  {
    match p
    case Step(_, _) => None
    case Chain(steps) => if i < |steps| then Some(steps[i]) else None
    case Fork(_, _, branches) => if i < |branches| then Some(branches[i]) else None
    case Route(_, targets, _) => if i < |targets| then Some(targets[i]) else None
    case Switch(decide, _, targets) => if i == 0 then Some(decide) else if i - 1 < |targets| then Some(targets[i - 1]) else None
    case Repeat(body, _) => if i == 0 then Some(body) else None
    case Timer(_, step) => if i == 0 then Some(step) else None
    case Wrap(_, _, child) => if i == 0 then Some(child) else None
  }

  predicate SameKind(node: Node, p: Plan) {
    if Single(node) then p.Step?
    else
      match node
      case Sequence(_, steps) => p.Chain? && |p.steps| == |steps.list|
      case InParallel(_, _, _, _) => p.Fork?
      case Conditional(_, _, default, _) => p.Route? && p.fallsThrough == default.None?
      case RouteSwitch(_, _, _, _, _) => p.Switch?
      case Loop(_, _, _) => p.Repeat?
      case Schedule(_, _, _) => p.Timer?
      case _ => p.Wrap?
  }

  function OwnName(p: Plan, part: Part): Option<string> {
    match p
    case Step(id, _) => if part.Gate? then Some(id) else None
    case Chain(_) => None
    case Fork(fork, join, _) => if part.Gate? then Some(fork) else Some(join)
    case Route(gate, _, _) => if part.Gate? then Some(gate) else None
    case Switch(_, gate, _) => if part.Gate? then Some(gate) else None
    case Repeat(_, gate) => if part.Gate? then Some(gate) else None
    case Timer(gate, _) => if part.Gate? then Some(gate) else None
    case Wrap(gate, _, _) => if part.Gate? then Some(gate) else None
  }

  /** What the plan draws there. */
  function OwnKind(p: Plan, part: Part): Kind {
    match p
    case Step(_, kind) => kind
    case Chain(_) => Malformed
    case Fork(_, _, _) => if part.Gate? then ParallelGate else JoinGate
    case Route(_, _, _) => ConditionalGate
    case Switch(_, _, _) => SwitchGate
    case Repeat(_, _) => LoopGate
    case Timer(_, _) => ScheduleGate
    case Wrap(_, kind, _) => kind
  }

  /** The id itself, or the id with a number from two on. */
  ghost predicate NamedAfter(name: string, id: string) {
    name == id || exists k: nat :: 2 <= k && name == Hashed(id, k)
  }

  /** The plan's own nodes carry the names and kinds the document asks for. */
  ghost predicate Fits(node: Node, p: Plan) {
    forall part :: OwnName(p, part).Some? ==>
      NamedAfter(OwnName(p, part).value, IdAt(node, part)) && OwnKind(p, part) == KindAt(node, part)
  }

  /** Construct by construct, the plan has the document's children. */
  ghost predicate Mirrors(node: Node, p: Plan)
    decreases node
  {
    && SameKind(node, p) && Fits(node, p)
    && (forall i: nat :: ChildOf(node, i).Some? <==> Child(p, i).Some?)
    && (forall i: nat :: ChildOf(node, i).Some? && Child(p, i).Some? ==> Mirrors(ChildOf(node, i).value, Child(p, i).value))
  }

  lemma {:induction false} NamedListMirrors(nodes: seq<Node>, k: nat, taken: set<string>)
    requires k <= |nodes|
    ensures forall i :: 0 <= i < k ==> Mirrors(nodes[i], NameFirst(nodes, k, taken).plans[i])
    decreases nodes, k
  {
    if k > 0 {
      NamedListMirrors(nodes, k - 1, taken);
      NameMirrors(nodes[k - 1], NameFirst(nodes, k - 1, taken).taken);
    }
  }

  /** Naming drops, adds and moves nothing. */
  lemma {:induction false} NameMirrors(node: Node, taken: set<string>)
    ensures Mirrors(node, Name(node, taken).plan)
    decreases node, 1
  {
    match node
    case NotANode =>
    case Leaf(_, _, _) =>
    case Sequence(_, steps) => if steps.Given? { NamedListMirrors(steps.list, |steps.list|, taken); }
    case InParallel(_, _, _, _) => ParallelMirrors(node, taken);
    case Conditional(_, _, _, _) => ConditionalMirrors(node, taken);
    case RouteSwitch(_, _, _, _, _) => SwitchMirrors(node, taken);
    case Loop(_, body, _) => NameMirrors(body, taken);
    case Schedule(id, step, _) => NameMirrors(step, taken + {Unique(id, taken)});
    case Scoped(id, _, child, _) => NameMirrors(child, taken + {Unique(id, taken)});
    case Subflow(id, root, _) => if root.Some? { NameMirrors(root.value, taken + {Unique(id, taken)}); }
  }

  lemma {:induction false} ParallelMirrors(node: Node, taken: set<string>)
    requires node.InParallel?
    ensures Mirrors(node, Name(node, taken).plan)
    decreases node, 0
  {
    var fork := Unique(node.id, taken);
    var named := taken + {fork} + {Unique(node.id + "~join", taken + {fork})};
    if node.each.Some? {
      NameMirrors(node.each.value, named);
    } else if node.paths.Given? {
      NamedListMirrors(node.paths.list, |node.paths.list|, named);
    }
  }

  lemma {:induction false} ConditionalMirrors(node: Node, taken: set<string>)
    requires node.Conditional?
    ensures Mirrors(node, Name(node, taken).plan)
    decreases node, 0
  {
    if node.routes.Given? {
      var named := taken + {Unique(node.id, taken)};
      NamedListMirrors(node.routes.list, |node.routes.list|, named);
      if node.default.Some? { NameMirrors(node.default.value, NameFirst(node.routes.list, |node.routes.list|, named).taken); }
    }
  }

  lemma {:induction false} SwitchMirrors(node: Node, taken: set<string>)
    requires node.RouteSwitch?
    ensures Mirrors(node, Name(node, taken).plan)
    decreases node, 0
  {
    if !Single(node) {
      NameMirrors(node.decide, taken);
      var asked := Name(node.decide, taken);
      var named := asked.taken + {Unique(node.id, asked.taken)};
      NamedListMirrors(node.cases.list, |node.cases.list|, named);
      if node.uncertain.Some? { NameMirrors(node.uncertain.value, NameFirst(node.cases.list, |node.cases.list|, named).taken); }
    }
  }

  // ---------- The names of spots ----------

  function SubPlan(p: Plan, path: seq<nat>): Option<Plan>
    decreases |path|
  {
    if path == [] then Some(p)
    else if Child(p, path[0]).Some? then SubPlan(Child(p, path[0]).value, path[1..])
    else None
  }

  /** The name of the node drawn for a spot, if one is. */
  function NameAt(p: Plan, s: Spot): Option<string> {
    if SubPlan(p, s.path).Some? then OwnName(SubPlan(p, s.path).value, s.part) else None
  }

  function Label(p: Plan, s: Spot): string {
    if NameAt(p, s).Some? then NameAt(p, s).value else ""
  }

  function Labels(p: Plan, t: seq<Spot>): (ids: Trace)
    ensures |ids| == |t| && forall i :: 0 <= i < |t| ==> ids[i] == Label(p, t[i])
  {
    seq(|t|, i requires 0 <= i < |t| => Label(p, t[i]))
  }

  predicate AllDrawn(p: Plan, t: seq<Spot>) {
    forall i :: 0 <= i < |t| ==> NameAt(p, t[i]).Some?
  }

  lemma {:induction false} SubSnoc(p: Plan, path: seq<nat>, i: nat)
    requires SubPlan(p, path).Some?
    ensures SubPlan(p, path + [i]) == Child(SubPlan(p, path).value, i)
    decreases |path|
  {
    if path == [] {
      assert ([] + [i])[1..] == [];
    } else {
      assert (path + [i])[1..] == path[1..] + [i];
      SubSnoc(Child(p, path[0]).value, path[1..], i);
    }
  }

  lemma ChildHas(p: Plan, i: nat, x: string)
    requires Child(p, i).Some? && Has(Child(p, i).value, x)
    ensures Has(p, x)
  {
    match p
    case Switch(_, _, targets) => if i > 0 { assert Has(targets[i - 1], x); }
    case _ =>
  }

  lemma OneHas(ps: seq<Plan>, i: nat, x: string)
    requires i < |ps|
    ensures Has(ps[i], x) ==> AnyHas(ps, x)
  {
  }

  lemma OwnIsNotChilds(p: Plan, part: Part, i: nat)
    requires WellNamed(p) && OwnName(p, part).Some? && Child(p, i).Some?
    ensures !Has(Child(p, i).value, OwnName(p, part).value)
  {
    if p.Switch? && i > 0 { OneHas(p.targets, i - 1, p.gate); }
  }

  lemma ChildrenApart(p: Plan, i: nat, j: nat)
    requires WellNamed(p) && i != j && Child(p, i).Some? && Child(p, j).Some?
    ensures Apart(Child(p, i).value, Child(p, j).value)
  {
    var a, b := if i < j then i else j, if i < j then j else i;
    match p
    case Chain(steps) => assert Apart(steps[a], steps[b]);
    case Fork(_, _, branches) => assert Apart(branches[a], branches[b]);
    case Route(_, targets, _) => assert Apart(targets[a], targets[b]);
    case Switch(decide, _, targets) =>
      if a > 0 {
        assert Apart(targets[a - 1], targets[b - 1]);
      } else {
        forall x | Has(decide, x) ensures !Has(targets[b - 1], x) { assert !AnyHas(targets, x); }
      }
    case _ =>
  }

  lemma ChildWellNamed(p: Plan, i: nat)
    requires WellNamed(p) && Child(p, i).Some?
    ensures WellNamed(Child(p, i).value)
  {
  }

  lemma {:induction false} LabelIsHad(p: Plan, s: Spot)
    requires NameAt(p, s).Some?
    ensures Has(p, Label(p, s))
    decreases |s.path|
  {
    if s.path != [] {
      LabelIsHad(Child(p, s.path[0]).value, Spot(s.path[1..], s.part));
      ChildHas(p, s.path[0], Label(p, s));
    }
  }

  /** No two spots are drawn under one name. */
  lemma {:induction false} LabelsDiffer(p: Plan, s: Spot, u: Spot)
    requires WellNamed(p) && NameAt(p, s).Some? && NameAt(p, u).Some? && Label(p, s) == Label(p, u)
    ensures s == u
    decreases |s.path|
  {
    if s.path != [] { LabelIsHad(Child(p, s.path[0]).value, Spot(s.path[1..], s.part)); }
    if u.path != [] { LabelIsHad(Child(p, u.path[0]).value, Spot(u.path[1..], u.part)); }
    if s.path == [] {
      if u.path != [] { OwnIsNotChilds(p, s.part, u.path[0]); }
    } else if u.path == [] {
      OwnIsNotChilds(p, u.part, s.path[0]);
    } else if s.path[0] == u.path[0] {
      ChildWellNamed(p, s.path[0]);
      LabelsDiffer(Child(p, s.path[0]).value, Spot(s.path[1..], s.part), Spot(u.path[1..], u.part));
      assert s.path == [s.path[0]] + s.path[1..] && u.path == [u.path[0]] + u.path[1..];
    } else {
      ChildrenApart(p, s.path[0], u.path[0]);
    }
  }

  lemma HadByChild(p: Plan, x: string) returns (i: nat)
    requires Has(p, x) && OwnName(p, Gate) != Some(x) && OwnName(p, Join) != Some(x)
    ensures Child(p, i).Some? && Has(Child(p, i).value, x)
  {
    if p.Chain? {
      i :| 0 <= i < |p.steps| && Has(p.steps[i], x);
    } else if p.Fork? {
      i :| 0 <= i < |p.branches| && Has(p.branches[i], x);
    } else if p.Route? {
      i :| 0 <= i < |p.targets| && Has(p.targets[i], x);
    } else if p.Switch? && !Has(p.decide, x) {
      var j :| 0 <= j < |p.targets| && Has(p.targets[j], x);
      i := j + 1;
    } else {
      i := 0;
    }
  }

  /** And every drawn node is drawn for a spot. */
  lemma {:induction false} SpotOf(p: Plan, x: string) returns (s: Spot)
    requires Has(p, x)
    ensures NameAt(p, s) == Some(x)
    decreases p
  {
    if OwnName(p, Gate) == Some(x) {
      s := Spot([], Gate);
    } else if OwnName(p, Join) == Some(x) {
      s := Spot([], Join);
    } else {
      var i := HadByChild(p, x);
      var inner := SpotOf(Child(p, i).value, x);
      s := Spot([i] + inner.path, inner.part);
      assert s.path[1..] == inner.path;
    }
  }

  lemma {:induction false} SpotsOf(p: Plan, ids: Trace) returns (t: seq<Spot>)
    requires forall i :: 0 <= i < |ids| ==> Has(p, ids[i])
    ensures AllDrawn(p, t) && Labels(p, t) == ids
    decreases |ids|
  {
    if ids == [] {
      t := [];
    } else {
      var n := |ids| - 1;
      var init := SpotsOf(p, ids[..n]);
      var last := SpotOf(p, ids[n]);
      t := init + [last];
      assert ids == ids[..n] + [ids[n]];
    }
  }
}
