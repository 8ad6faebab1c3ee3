/** A reading order of the drawn nodes: back edges go against it and all others along it. */
module WorkflowOrder {
  import opened WorkflowPlan
  import opened WorkflowNames
  import opened WorkflowTraces
  import opened WorkflowReach

  /** The nodes of a plan with every construct's join or gate where control meets it. */
  function Reading(p: Plan): seq<string>
    decreases p, 0
  {
    match p
    case Step(id, _) => [id]
    case Chain(steps) => ReadingFirst(steps, |steps|)
    case Fork(fork, join, branches) => [fork] + ReadingFirst(branches, |branches|) + [join]
    case Route(gate, targets, _) => [gate] + ReadingFirst(targets, |targets|)
    case Switch(decide, gate, targets) => Reading(decide) + [gate] + ReadingFirst(targets, |targets|)
    case Repeat(body, gate) => Reading(body) + [gate]
    case Timer(gate, step) => [gate] + Reading(step)
    case Wrap(gate, _, child) => [gate] + Reading(child)
  }

  function ReadingFirst(ps: seq<Plan>, k: nat): seq<string>
    requires k <= |ps|
    decreases ps, k
  {
    if k == 0 then [] else ReadingFirst(ps, k - 1) + Reading(ps[k - 1])
  }

  ghost predicate NoRepeats(s: seq<string>) {
    forall i, j :: 0 <= i < j < |s| ==> s[i] != s[j]
  }

  ghost predicate Before(s: seq<string>, a: string, b: string) {
    exists i, j :: 0 <= i < j < |s| && s[i] == a && s[j] == b
  }

  ghost predicate Follows(s: seq<string>, w: Wire) {
    if w.variant == Back then Before(s, w.to, w.from) else Before(s, w.from, w.to)
  }

  lemma BeforeConcat(x: seq<string>, y: seq<string>, a: string, b: string)
    ensures Before(x, a, b) || Before(y, a, b) || (a in x && b in y) ==> Before(x + y, a, b)
  {
    var s := x + y;
    if Before(x, a, b) {
      var i, j :| 0 <= i < j < |x| && x[i] == a && x[j] == b;
      assert s[i] == a && s[j] == b;
    } else if Before(y, a, b) {
      var i, j :| 0 <= i < j < |y| && y[i] == a && y[j] == b;
      assert s[|x| + i] == a && s[|x| + j] == b;
    } else if a in x && b in y {
      var i :| 0 <= i < |x| && x[i] == a;
      var j :| 0 <= j < |y| && y[j] == b;
      assert s[i] == a && s[|x| + j] == b;
    }
  }

  lemma FollowsConcat(x: seq<string>, y: seq<string>, w: Wire)
    ensures Follows(x, w) || Follows(y, w) ==> Follows(x + y, w)
  {
    BeforeConcat(x, y, w.from, w.to);
    BeforeConcat(x, y, w.to, w.from);
  }

  // ---------- Each drawn node is read once ----------

  lemma {:induction false} ReadingHas(p: Plan, x: string)
    ensures x in Reading(p) <==> Has(p, x)
    decreases p, 0
  {
    match p
    case Step(_, _) =>
    case Chain(steps) => ReadingFirstHas(steps, |steps|, x);
    case Fork(_, _, branches) => ReadingFirstHas(branches, |branches|, x);
    case Route(_, targets, _) => ReadingFirstHas(targets, |targets|, x);
    case Switch(decide, _, targets) => ReadingHas(decide, x); ReadingFirstHas(targets, |targets|, x);
    case Repeat(body, _) => ReadingHas(body, x);
    case Timer(_, step) => ReadingHas(step, x);
    case Wrap(_, _, child) => ReadingHas(child, x);
  }

  lemma {:induction false} ReadingFirstHas(ps: seq<Plan>, k: nat, x: string)
    requires k <= |ps|
    ensures x in ReadingFirst(ps, k) <==> exists i :: 0 <= i < k && Has(ps[i], x)
    decreases ps, k
  {
    if k > 0 {
      ReadingFirstHas(ps, k - 1, x);
      ReadingHas(ps[k - 1], x);
    }
  }

  lemma NoRepeatsConcat(x: seq<string>, y: seq<string>)
    requires NoRepeats(x) && NoRepeats(y) && forall a :: a in x ==> a !in y
    ensures NoRepeats(x + y)
  {
    var s := x + y;
    forall i, j | 0 <= i < j < |s|
      ensures s[i] != s[j]
    {
      if i < |x| <= j { assert s[i] in x && s[j] in y; }
    }
  }

  lemma {:induction false} ReadingFirstDistinct(ps: seq<Plan>, k: nat)
    requires k <= |ps| && AllWellNamed(ps)
    ensures NoRepeats(ReadingFirst(ps, k))
    decreases ps, k
  {
    if k > 0 {
      ReadingFirstDistinct(ps, k - 1);
      ReadingDistinct(ps[k - 1]);
      var before := ReadingFirst(ps, k - 1);
      forall a | a in before
        ensures a !in Reading(ps[k - 1])
      {
        ReadingFirstHas(ps, k - 1, a);
        ReadingHas(ps[k - 1], a);
      }
      NoRepeatsConcat(ReadingFirst(ps, k - 1), Reading(ps[k - 1]));
    }
  }

  lemma ReadAll(ps: seq<Plan>, x: string)
    ensures x in ReadingFirst(ps, |ps|) <==> AnyHas(ps, x)
  {
    ReadingFirstHas(ps, |ps|, x);
  }

  lemma {:induction false} ReadingDistinct(p: Plan)
    requires WellNamed(p)
    ensures NoRepeats(Reading(p))
    decreases p
  {
    match p
    case Step(_, _) =>
    case Chain(steps) => ReadingFirstDistinct(steps, |steps|);
    case Fork(fork, join, branches) =>
      var inner := ReadingFirst(branches, |branches|);
      ReadingFirstDistinct(branches, |branches|);
      ReadAll(branches, fork);
      ReadAll(branches, join);
      NoRepeatsConcat([fork], inner);
      NoRepeatsConcat([fork] + inner, [join]);
    case Route(gate, targets, _) =>
      ReadingFirstDistinct(targets, |targets|);
      ReadAll(targets, gate);
      NoRepeatsConcat([gate], ReadingFirst(targets, |targets|));
    case Switch(decide, gate, targets) =>
      ReadingDistinct(decide);
      ReadingFirstDistinct(targets, |targets|);
      ReadingHas(decide, gate);
      ReadAll(targets, gate);
      NoRepeatsConcat(Reading(decide), [gate]);
      forall a | a in Reading(decide) + [gate]
        ensures a !in ReadingFirst(targets, |targets|)
      {
        ReadingHas(decide, a);
        ReadAll(targets, a);
      }
      NoRepeatsConcat(Reading(decide) + [gate], ReadingFirst(targets, |targets|));
    case Repeat(body, gate) =>
      ReadingDistinct(body);
      ReadingHas(body, gate);
      NoRepeatsConcat(Reading(body), [gate]);
    case Timer(gate, step) =>
      ReadingDistinct(step);
      ReadingHas(step, gate);
      NoRepeatsConcat([gate], Reading(step));
    case Wrap(gate, _, child) =>
      ReadingDistinct(child);
      ReadingHas(child, gate);
      NoRepeatsConcat([gate], Reading(child));
  }

  // ---------- Edges follow the order ----------

  lemma PortsRead(p: Plan)
    requires WellNamed(p)
    ensures Entry(p) in Reading(p) && forall x :: x in Exits(p) ==> x in Reading(p)
  {
    PortsInside(p);
    ReadingHas(p, Entry(p));
    forall x | x in Exits(p)
      ensures x in Reading(p)
    {
      ReadingHas(p, x);
    }
  }

  /** What is read of an earlier part comes before what is read of a later one. */
  lemma {:induction false} PartsInOrder(ps: seq<Plan>, k: nat, i: nat)
    requires i < k <= |ps|
    ensures forall w :: Follows(Reading(ps[i]), w) ==> Follows(ReadingFirst(ps, k), w)
    ensures forall x :: x in Reading(ps[i]) ==> x in ReadingFirst(ps, k)
    ensures forall j, a, b :: i < j < k && a in Reading(ps[i]) && b in Reading(ps[j]) ==> Before(ReadingFirst(ps, k), a, b)
    decreases k
  {
    var x, y := ReadingFirst(ps, k - 1), Reading(ps[k - 1]);
    forall w {
      FollowsConcat(x, y, w);
    }
    forall a, b {
      BeforeConcat(x, y, a, b);
    }
    if i < k - 1 { PartsInOrder(ps, k - 1, i); }
  }

  lemma {:induction false} WiresFirstOwner(ps: seq<Plan>, k: nat, w: Wire) returns (i: nat)
    requires k <= |ps| && w in WiresFirst(ps, k)
    ensures i < k && w in Wires(ps[i])
  {
    if w in Wires(ps[k - 1]) { i := k - 1; } else { i := WiresFirstOwner(ps, k - 1, w); }
  }

  lemma {:induction false} LinksOwner(ps: seq<Plan>, k: nat, w: Wire) returns (i: nat)
    requires k <= |ps| && w in Links(ps, k)
    ensures i + 1 < k && w.from in Exits(ps[i]) && w.to == Entry(ps[i + 1]) && w.variant == Default
  {
    if w in Links(ps, k - 1) { i := LinksOwner(ps, k - 1, w); } else { i := k - 2; }
  }

  lemma {:induction false} RouteOwner(gate: string, ps: seq<Plan>, k: nat, w: Wire) returns (i: nat)
    requires k <= |ps| && w in RouteWires(gate, ps, k)
    ensures i < k && (w in Wires(ps[i]) || w == Wire(gate, Entry(ps[i]), Default))
  {
    if w in RouteWires(gate, ps, k - 1) { i := RouteOwner(gate, ps, k - 1, w); } else { i := k - 1; }
  }

  lemma {:induction false} ForkOwner(fork: string, join: string, ps: seq<Plan>, k: nat, w: Wire) returns (i: nat)
    requires k <= |ps| && w in ForkWires(fork, join, ps, k)
    ensures i < k
    ensures w in Wires(ps[i]) || w == Wire(fork, Entry(ps[i]), Default) ||
      (w.from in Exits(ps[i]) && w.to == join && w.variant == Default)
  {
    if w in ForkWires(fork, join, ps, k - 1) { i := ForkOwner(fork, join, ps, k - 1, w); } else { i := k - 1; }
  }

  lemma {:induction false} ChainFollows(p: Plan, w: Wire)
    requires p.Chain? && WellNamed(p) && w in Wires(p)
    ensures Follows(Reading(p), w)
    decreases p, 0
  {
    var steps := p.steps;
    if w in WiresFirst(steps, |steps|) {
      var i := WiresFirstOwner(steps, |steps|, w);
      EdgesFollow(steps[i], w);
      PartsInOrder(steps, |steps|, i);
    } else {
      var i := LinksOwner(steps, |steps|, w);
      PortsRead(steps[i]);
      PortsRead(steps[i + 1]);
      PartsInOrder(steps, |steps|, i);
    }
  }

  lemma {:induction false} RouteFollows(gate: string, targets: seq<Plan>, w: Wire)
    requires AllWellNamed(targets) && w in RouteWires(gate, targets, |targets|)
    ensures Follows([gate] + ReadingFirst(targets, |targets|), w)
    decreases targets
  {
    var i := RouteOwner(gate, targets, |targets|, w);
    var inner := ReadingFirst(targets, |targets|);
    PartsInOrder(targets, |targets|, i);
    if w in Wires(targets[i]) {
      EdgesFollow(targets[i], w);
      FollowsConcat([gate], inner, w);
    } else {
      PortsRead(targets[i]);
      BeforeConcat([gate], inner, gate, Entry(targets[i]));
    }
  }

  lemma {:induction false} ForkFollows(p: Plan, w: Wire)
    requires p.Fork? && WellNamed(p) && w in Wires(p)
    ensures Follows(Reading(p), w)
    decreases p, 0
  {
    var branches := p.branches;
    var i := ForkOwner(p.fork, p.join, branches, |branches|, w);
    var inner := ReadingFirst(branches, |branches|);
    PartsInOrder(branches, |branches|, i);
    PortsRead(branches[i]);
    if w in Wires(branches[i]) {
      EdgesFollow(branches[i], w);
      FollowsConcat([p.fork], inner, w);
      FollowsConcat([p.fork] + inner, [p.join], w);
    } else if w == Wire(p.fork, Entry(branches[i]), Default) {
      BeforeConcat([p.fork], inner, w.from, w.to);
      BeforeConcat([p.fork] + inner, [p.join], w.from, w.to);
    } else {
      BeforeConcat([p.fork] + inner, [p.join], w.from, w.to);
    }
  }

  lemma {:induction false} SwitchFollows(p: Plan, w: Wire)
    requires p.Switch? && WellNamed(p) && w in Wires(p)
    ensures Follows(Reading(p), w)
    decreases p, 0
  {
    var decide, gate, targets := p.decide, p.gate, p.targets;
    var first, inner := Reading(decide), ReadingFirst(targets, |targets|);
    assert Reading(p) == first + ([gate] + inner);
    if w in Wires(decide) {
      EdgesFollow(decide, w);
    } else if w in RouteWires(gate, targets, |targets|) {
      RouteFollows(gate, targets, w);
    } else {
      PortsRead(decide);
      BeforeConcat(first, [gate] + inner, w.from, w.to);
    }
    FollowsConcat(first, [gate] + inner, w);
  }

  /** Every drawn edge goes along the reading order, except the back edges, which all go against it. */
  lemma {:induction false} EdgesFollow(p: Plan, w: Wire)
    requires WellNamed(p) && w in Wires(p)
    ensures Follows(Reading(p), w)
    decreases p, 1
  {
    match p
    case Chain(_) => ChainFollows(p, w);
    case Fork(_, _, _) => ForkFollows(p, w);
    case Route(gate, targets, _) => RouteFollows(gate, targets, w);
    case Switch(_, _, _) => SwitchFollows(p, w);
    case Repeat(body, gate) =>
      if w in Wires(body) { EdgesFollow(body, w); }
      PortsRead(body);
      FollowsConcat(Reading(body), [gate], w);
      BeforeConcat(Reading(body), [gate], w.from, w.to);
      BeforeConcat(Reading(body), [gate], w.to, w.from);
    case Timer(gate, step) =>
      if w in Wires(step) { EdgesFollow(step, w); }
      PortsRead(step);
      FollowsConcat([gate], Reading(step), w);
      BeforeConcat([gate], Reading(step), w.from, w.to);
      BeforeConcat([gate], Reading(step), w.to, w.from);
    case Wrap(gate, _, child) =>
      if w in Wires(child) { EdgesFollow(child, w); }
      PortsRead(child);
      FollowsConcat([gate], Reading(child), w);
      BeforeConcat([gate], Reading(child), w.from, w.to);
  }

  // ---------- The drawing ----------

  function FlowReading(f: Flow): seq<string> {
    Reading(Bracketed(f))
  }

  lemma FlowEdgesFollow(root: Node, w: Wire)
    requires w in FlowWires(NameFlow(root))
    ensures Follows(FlowReading(NameFlow(root)), w)
  {
    var f := NameFlow(root);
    var p := Bracketed(f);
    FlowWellNamed(root);
    var ws := ForkWires(f.start, f.end, [f.body], 1);
    assert ws == ForkWires(f.start, f.end, [f.body], 0) + BranchWires(f.start, f.end, f.body);
    assert w in BranchWires(f.start, f.end, f.body);
    assert w in Wires(p);
    EdgesFollow(p, w);
  }

  ghost predicate ForwardEdge(f: Flow, a: string, b: string) {
    exists w :: w in FlowWires(f) && w.from == a && w.to == b && w.variant != Back
  }

  /** A way along edges that are not back edges. */
  ghost predicate ForwardPath(f: Flow, t: Trace) {
    forall i :: 0 <= i < |t| - 1 ==> ForwardEdge(f, t[i], t[i + 1])
  }

  lemma FlowReadingDistinct(root: Node)
    ensures NoRepeats(FlowReading(NameFlow(root)))
  {
    FlowWellNamed(root);
    ReadingDistinct(Bracketed(NameFlow(root)));
  }

  lemma ForwardIsBefore(root: Node, a: string, b: string)
    requires ForwardEdge(NameFlow(root), a, b)
    ensures Before(FlowReading(NameFlow(root)), a, b)
  {
    var w :| w in FlowWires(NameFlow(root)) && w.from == a && w.to == b && w.variant != Back;
    FlowEdgesFollow(root, w);
  }

  lemma BeforeDiffers(s: seq<string>, a: string, b: string)
    requires NoRepeats(s) && Before(s, a, b)
    ensures a != b
  {
  }

  lemma BeforeTransitive(s: seq<string>, a: string, b: string, c: string)
    requires NoRepeats(s) && Before(s, a, b) && Before(s, b, c)
    ensures Before(s, a, c)
  {
    var i, j :| 0 <= i < j < |s| && s[i] == a && s[j] == b;
    var k, l :| 0 <= k < l < |s| && s[k] == b && s[l] == c;
    assert j == k;
  }

  /** Each of `t` comes before the next one in `s`. */
  ghost predicate Stepwise(s: seq<string>, t: Trace) {
    forall i :: 0 <= i < |t| - 1 ==> Before(s, t[i], t[i + 1])
  }

  lemma {:induction false} StepwiseBefore(s: seq<string>, t: Trace, i: nat, j: nat)
    requires NoRepeats(s) && Stepwise(s, t) && i < j < |t|
    ensures Before(s, t[i], t[j])
    decreases j
  {
    assert Before(s, t[j - 1], t[j - 1 + 1]);
    if i < j - 1 {
      StepwiseBefore(s, t, i, j - 1);
      BeforeTransitive(s, t[i], t[j - 1], t[j]);
    }
  }

  lemma ForwardPathIsStepwise(root: Node, t: Trace)
    requires ForwardPath(NameFlow(root), t)
    ensures Stepwise(FlowReading(NameFlow(root)), t)
  {
    forall i | 0 <= i < |t| - 1
      ensures Before(FlowReading(NameFlow(root)), t[i], t[i + 1])
    {
      ForwardIsBefore(root, t[i], t[i + 1]);
    }
  }

  /** Without its back edges the drawing of every document is acyclic: no forward path meets a node twice. */
  lemma ForwardEdgesAcyclic(root: Node, t: Trace, i: nat, j: nat)
    requires ForwardPath(NameFlow(root), t) && i < j < |t|
    ensures t[i] != t[j]
  {
    FlowReadingDistinct(root);
    ForwardPathIsStepwise(root, t);
    StepwiseBefore(FlowReading(NameFlow(root)), t, i, j);
    BeforeDiffers(FlowReading(NameFlow(root)), t[i], t[j]);
  }

  /** The graph is closed: every edge joins two drawn nodes. */
  lemma EdgesJoinDrawnNodes(root: Node, w: Wire)
    requires w in FlowWires(NameFlow(root))
    ensures IsDrawn(NameFlow(root), w.from) && IsDrawn(NameFlow(root), w.to)
  {
    var f := NameFlow(root);
    FlowEdgesFollow(root, w);
    ReadingHas(Bracketed(f), w.from);
    ReadingHas(Bracketed(f), w.to);
    IsDrawnIffHad(f, w.from);
    IsDrawnIffHad(f, w.to);
  }
}
