/** The drawing of a document means the document: its walks are the document's traces. */
module WorkflowMeaning {
  import opened WorkflowPlan
  import opened WorkflowNames
  import opened WorkflowTraces

  // ---------- Every trace is a walk ----------

  ghost predicate Within(q: Plan, p: Plan) {
    forall a, b :: Arc(q, a, b) ==> Arc(p, a, b)
  }

  lemma Glue(p: Plan, x: Trace, y: Trace)
    requires Path(p, x) && Path(p, y) && Arc(p, x[|x| - 1], y[0])
    ensures Path(p, x + y)
  {
    var w := x + y;
    forall i | 0 <= i < |w| - 1
      ensures Arc(p, w[i], w[i + 1])
    {
      if i >= |x| { assert w[i] == y[i - |x|] && w[i + 1] == y[i - |x| + 1]; }
    }
  }

  lemma Lift(q: Plan, p: Plan, w: Trace)
    requires Path(q, w) && Within(q, p)
    ensures Path(p, w)
  {
  }

  lemma PartArcs(ps: seq<Plan>, i: nat)
    requires i < |ps|
    ensures forall a, b :: Arc(ps[i], a, b) ==> AnyArc(ps, a, b)
  {
  }

  /** A run of a part, then a path that takes up where it leaves off. */
  lemma Resume(p: Plan, q: Plan, t: Trace, k: nat)
    requires 0 < k < |t|
    requires Path(q, t[..k]) && Within(q, p)
    requires Path(p, t[k..]) && Arc(p, t[k - 1], t[k])
    ensures Path(p, t)
  {
    Lift(q, p, t[..k]);
    Glue(p, t[..k], t[k..]);
    assert t[..k] + t[k..] == t;
  }

  /** A gate in front of a run of a part. */
  lemma Prefixed(p: Plan, q: Plan, t: Trace)
    requires |t| > 1 && Path(q, t[1..]) && Within(q, p) && Arc(p, t[0], t[1])
    ensures Path(p, t)
  {
    Lift(q, p, t[1..]);
    assert [t[0]] + t[1..] == t;
    Glue(p, [t[0]], t[1..]);
  }

  lemma {:induction false} ForkCompletesWalks(p: Plan, t: Trace)
    requires p.Fork? && WellNamed(p) && Completes(p, t)
    ensures Walk(p, t) && AtExit(p, t)
    decreases p, |t|, 0
  {
    var fork, join, branches, u := p.fork, p.join, p.branches, t[1..|t| - 1];
    var i :| 0 <= i < |branches| && Completes(branches[i], u);
    CompletesWalks(branches[i], u);
    assert t == [fork] + u + [join];
    PartArcs(branches, i);
    Lift(branches[i], p, u);
    assert ViaArc(fork, branches, fork, u[0]);
    Glue(p, [fork], u);
    Glue(p, [fork] + u, [join]);
  }

  lemma {:induction false} RepeatCompletesWalks(p: Plan, t: Trace)
    requires p.Repeat? && WellNamed(p) && Completes(p, t)
    ensures Walk(p, t) && AtExit(p, t)
    decreases p, |t|, 0
  {
    var body, gate := p.body, p.gate;
    var k :| 0 <= k < |t| && Completes(body, t[..k]) && t[k] == gate && (k + 1 == |t| || Completes(p, t[k + 1..]));
    CompletesWalks(body, t[..k]);
    if k + 1 < |t| { CompletesWalks(p, t[k + 1..]); }
    AnotherRound(p, t, k);
  }

  /** A walk through the body, the gate, and a walk through the rounds after it, if there are any. */
  lemma AnotherRound(p: Plan, t: Trace, k: nat)
    requires p.Repeat? && k < |t| && t[k] == p.gate
    requires Walk(p.body, t[..k]) && AtExit(p.body, t[..k]) && (k + 1 == |t| || Walk(p, t[k + 1..]))
    ensures Walk(p, t)
  {
    assert Within(p.body, p);
    if k + 1 < |t| {
      assert t[k..] == [p.gate] + t[k + 1..];
      Glue(p, [p.gate], t[k + 1..]);
    }
    Resume(p, p.body, t, k);
  }

  lemma {:induction false} CompletesWalks(p: Plan, t: Trace)
    requires WellNamed(p) && Completes(p, t)
    ensures Walk(p, t) && AtExit(p, t)
    decreases p, |t|, 1
  {
    match p
    case Step(_, _) =>
    case Chain(steps) =>
      ChainCompletesWalks(p, 0, t);
      NoStall(steps, |steps|);
    case Fork(_, _, _) => ForkCompletesWalks(p, t);
    case Route(gate, targets, fallsThrough) =>
      if !(fallsThrough && t == [gate]) { ViaCompletesWalks(p, gate, targets, t); }
    case Switch(decide, gate, targets) =>
      var k :| 0 <= k < |t| && Completes(decide, t[..k]) && CompletesVia(gate, targets, t[k..]);
      CompletesWalks(decide, t[..k]);
      ViaCompletesWalks(p, gate, targets, t[k..]);
      assert Within(decide, p);
      Resume(p, decide, t, k);
    case Repeat(_, _) => RepeatCompletesWalks(p, t);
    case Timer(_, _) =>
    case Wrap(gate, _, child) =>
      CompletesWalks(child, t[1..]);
      assert Within(child, p);
      Prefixed(p, child, t);
  }

  lemma {:induction false} ViaCompletesWalks(p: Plan, gate: string, targets: seq<Plan>, t: Trace)
    requires AllWellNamed(targets) && CompletesVia(gate, targets, t)
    requires forall a, b :: ViaArc(gate, targets, a, b) ==> Arc(p, a, b)
    ensures Path(p, t) && t[0] == gate && t[|t| - 1] in ExitsFirst(targets, |targets|)
    decreases targets, |t|
  {
    var i :| 0 <= i < |targets| && Completes(targets[i], t[1..]);
    CompletesWalks(targets[i], t[1..]);
    assert ViaArc(gate, targets, t[0], t[1]);
    PartArcs(targets, i);
    Prefixed(p, targets[i], t);
    ExitsFirstHas(targets, |targets|, t[|t| - 1]);
  }

  lemma ChainResumes(p: Plan, i: nat, t: Trace, k: nat)
    requires p.Chain? && i + 1 < |p.steps| && 0 < k < |t|
    requires Path(p.steps[i], t[..k]) && AtExit(p.steps[i], t[..k])
    requires Path(p, t[k..]) && t[k] == Entry(p.steps[i + 1])
    ensures Path(p, t)
  {
    assert Within(p.steps[i], p);
    assert LinkArc(p.steps, i, t[k - 1], t[k]);
    Resume(p, p.steps[i], t, k);
  }

  lemma {:induction false} ChainCompletesWalks(p: Plan, i: nat, t: Trace)
    requires p.Chain? && AllWellNamed(p.steps) && i < |p.steps| && CompletesFrom(p.steps, i, t)
    ensures Path(p, t) && t[0] == Entry(p.steps[i]) && t[|t| - 1] in Exits(p.steps[|p.steps| - 1])
    ensures forall j :: i <= j < |p.steps| ==> Exits(p.steps[j]) != []
    decreases p.steps, |p.steps| - i, |t|
  {
    var steps := p.steps;
    assert Within(steps[i], p);
    if i + 1 == |steps| {
      CompletesWalks(steps[i], t);
    } else {
      var k :| 0 <= k <= |t| && Completes(steps[i], t[..k]) && CompletesFrom(steps, i + 1, t[k..]);
      CompletesWalks(steps[i], t[..k]);
      ChainCompletesWalks(p, i + 1, t[k..]);
      ChainResumes(p, i, t, k);
    }
  }

  lemma {:induction false} NoStall(steps: seq<Plan>, k: nat)
    requires k <= |steps| && forall j :: 0 <= j < k ==> Exits(steps[j]) != []
    ensures !Stalls(steps, k)
  {
    if k > 0 { NoStall(steps, k - 1); }
  }

  lemma {:induction false} SwitchUnderwayWalks(p: Plan, t: Trace)
    requires p.Switch? && WellNamed(p) && Underway(p, t)
    ensures Walk(p, t)
    decreases p, |t|, 0
  {
    var decide, gate, targets := p.decide, p.gate, p.targets;
    assert Within(decide, p);
    if Underway(decide, t) {
      UnderwayWalks(decide, t);
    } else {
      var k :| 0 <= k < |t| && Completes(decide, t[..k]) && UnderwayVia(gate, targets, t[k..]);
      CompletesWalks(decide, t[..k]);
      ViaUnderwayWalks(p, gate, targets, t[k..]);
      Resume(p, decide, t, k);
    }
  }

  lemma {:induction false} RepeatUnderwayWalks(p: Plan, t: Trace)
    requires p.Repeat? && WellNamed(p) && Underway(p, t)
    ensures Walk(p, t)
    decreases p, |t|, 0
  {
    var body, gate := p.body, p.gate;
    if Underway(body, t) {
      UnderwayWalks(body, t);
      assert Within(body, p);
      Lift(body, p, t);
    } else {
      var k :| 0 <= k < |t| && Completes(body, t[..k]) && t[k] == gate && (k + 1 == |t| || Underway(p, t[k + 1..]));
      CompletesWalks(body, t[..k]);
      if k + 1 < |t| { UnderwayWalks(p, t[k + 1..]); }
      AnotherRound(p, t, k);
    }
  }

  /** The gate, a finished step, and what came after it. */
  lemma {:induction false} AgainWalks(p: Plan, t: Trace, k: nat)
    requires p.Timer? && WellNamed(p) && 1 <= k < |t| && t[0] == p.gate
    requires Completes(p.step, t[1..k]) && Underway(p, t[k..])
    ensures Walk(p, t)
    decreases p, |t| - 1, 2
  {
    CompletesWalks(p.step, t[1..k]);
    UnderwayWalks(p, t[k..]);
    assert t[1..][..k - 1] == t[1..k] && t[1..][k - 1..] == t[k..];
    StepAndOn(p, t[1..], k - 1);
    assert t == [p.gate] + t[1..];
    Glue(p, [p.gate], t[1..]);
  }

  lemma StepAndOn(p: Plan, u: Trace, k: nat)
    requires p.Timer? && 0 < k < |u|
    requires Walk(p.step, u[..k]) && AtExit(p.step, u[..k]) && Walk(p, u[k..])
    ensures Path(p, u) && u[0] == Entry(p.step)
  {
    assert Within(p.step, p);
    Resume(p, p.step, u, k);
  }

  lemma {:induction false} TimerUnderwayWalks(p: Plan, t: Trace)
    requires p.Timer? && WellNamed(p) && Underway(p, t)
    ensures Walk(p, t)
    decreases p, |t|, 0
  {
    var step, gate := p.step, p.gate;
    assert Within(step, p);
    if |t| > 1 {
      if Underway(step, t[1..]) {
        UnderwayWalks(step, t[1..]);
        Prefixed(p, step, t);
      } else {
        var k :| 1 <= k < |t| && Completes(step, t[1..k]) && Underway(p, t[k..]);
        AgainWalks(p, t, k);
      }
    }
  }

  lemma {:induction false} UnderwayWalks(p: Plan, t: Trace)
    requires WellNamed(p) && Underway(p, t)
    ensures Walk(p, t)
    decreases p, |t|, 1
  {
    match p
    case Step(_, _) =>
    case Chain(steps) => ChainUnderwayWalks(p, 0, t);
    case Fork(fork, join, branches) =>
      if Completes(p, t) {
        CompletesWalks(p, t);
      } else {
        ViaUnderwayWalks(p, fork, branches, t);
      }
    case Route(gate, targets, _) => ViaUnderwayWalks(p, gate, targets, t);
    case Switch(_, _, _) => SwitchUnderwayWalks(p, t);
    case Repeat(_, _) => RepeatUnderwayWalks(p, t);
    case Timer(_, _) => TimerUnderwayWalks(p, t);
    case Wrap(gate, _, child) =>
      if |t| > 1 {
        UnderwayWalks(child, t[1..]);
        assert Within(child, p);
        Prefixed(p, child, t);
      }
  }

  lemma {:induction false} ViaUnderwayWalks(p: Plan, gate: string, targets: seq<Plan>, t: Trace)
    requires AllWellNamed(targets) && UnderwayVia(gate, targets, t)
    requires forall a, b :: ViaArc(gate, targets, a, b) ==> Arc(p, a, b)
    ensures Path(p, t) && t[0] == gate
    decreases targets, |t|
  {
    if |t| > 1 {
      var i :| 0 <= i < |targets| && Underway(targets[i], t[1..]);
      UnderwayWalks(targets[i], t[1..]);
      assert ViaArc(gate, targets, t[0], t[1]);
      PartArcs(targets, i);
      Prefixed(p, targets[i], t);
    }
  }

  lemma {:induction false} ChainUnderwayWalks(p: Plan, i: nat, t: Trace)
    requires p.Chain? && AllWellNamed(p.steps) && i < |p.steps| && UnderwayFrom(p.steps, i, t)
    ensures Path(p, t) && t[0] == Entry(p.steps[i])
    decreases p.steps, |p.steps| - i, |t|
  {
    var steps := p.steps;
    assert Within(steps[i], p);
    if Underway(steps[i], t) {
      UnderwayWalks(steps[i], t);
    } else {
      var k :| 0 <= k <= |t| && Completes(steps[i], t[..k]) && UnderwayFrom(steps, i + 1, t[k..]);
      CompletesWalks(steps[i], t[..k]);
      ChainUnderwayWalks(p, i + 1, t[k..]);
      ChainResumes(p, i, t, k);
    }
  }

  // ---------- Every walk is a trace ----------

  /** From inside `q`, the edges of `p` either stay on edges of `q` or leave by one of its exits. */
  ghost predicate Encloses(p: Plan, q: Plan) {
    forall a, b :: Arc(p, a, b) && Has(q, a) ==> if Has(q, b) then Arc(q, a, b) else a in Exits(q)
  }

  /** How far a path stays inside `q`. */
  lemma LeavesAt(p: Plan, q: Plan, w: Trace) returns (k: nat)
    requires Path(p, w) && Has(q, w[0]) && Encloses(p, q)
    ensures 1 <= k <= |w| && Path(q, w[..k]) && Has(q, w[k - 1])
    ensures k < |w| ==> !Has(q, w[k]) && w[k - 1] in Exits(q) && Arc(p, w[k - 1], w[k])
  {
    k := 1;
    while k < |w| && Has(q, w[k])
      invariant 1 <= k <= |w| && Path(q, w[..k]) && Has(q, w[k - 1])
    {
      assert Arc(p, w[k - 1], w[k]);
      k := k + 1;
    }
    if k < |w| { assert Arc(p, w[k - 1], w[k]); }
  }

  lemma PathFrom(p: Plan, w: Trace, k: nat)
    requires Path(p, w) && k < |w|
    ensures Path(p, w[k..])
  {
    var v := w[k..];
    forall i | 0 <= i < |v| - 1
      ensures Arc(p, v[i], v[i + 1])
    {
      assert v[i] == w[k + i] && v[i + 1] == w[k + i + 1];
    }
  }

  lemma ChainEncloses(p: Plan, i: nat)
    requires p.Chain? && WellNamed(p) && i < |p.steps|
    ensures Encloses(p, p.steps[i])
    ensures forall a, b :: Arc(p, a, b) && Has(p.steps[i], a) && !Has(p.steps[i], b) ==>
      i + 1 < |p.steps| && b == Entry(p.steps[i + 1])
  {
    var steps := p.steps;
    forall j | 0 <= j < |steps| { PortsInside(steps[j]); }
    forall a, b | Arc(p, a, b) && Has(steps[i], a)
      ensures if Has(steps[i], b) then Arc(steps[i], a, b)
        else a in Exits(steps[i]) && i + 1 < |steps| && b == Entry(steps[i + 1])
    {
      AnyArcInside(steps, a, b);
      if AnyArc(steps, a, b) {
        var j :| 0 <= j < |steps| && Arc(steps[j], a, b);
        assert j == i;
      } else {
        var j :| 0 <= j < |steps| - 1 && LinkArc(steps, j, a, b);
        assert j == i;
      }
    }
  }

  /** A walk of a chain from its `i`-th step on. */
  lemma {:induction false} ChainWalkTraces(p: Plan, i: nat, w: Trace)
    requires p.Chain? && WellNamed(p) && i < |p.steps|
    requires Path(p, w) && w[0] == Entry(p.steps[i])
    ensures UnderwayFrom(p.steps, i, w)
    ensures w[|w| - 1] in Exits(p.steps[|p.steps| - 1]) ==> CompletesFrom(p.steps, i, w)
    decreases p, 0, |w|
  {
    var steps := p.steps;
    PortsInside(steps[i]);
    ChainEncloses(p, i);
    var k := LeavesAt(p, steps[i], w);
    WalkTraces(steps[i], w[..k]);
    if k == |w| {
      assert w[..k] == w;
      PortsInside(steps[|steps| - 1]);
    } else {
      PathFrom(p, w, k);
      ChainWalkTraces(p, i + 1, w[k..]);
    }
  }

  lemma ViaEncloses(p: Plan, gate: string, targets: seq<Plan>, i: nat)
    requires AllWellNamed(targets) && i < |targets| && !AnyHas(targets, gate)
    requires forall a, b :: Arc(p, a, b) && Has(targets[i], a) ==>
      ViaArc(gate, targets, a, b) || (a in Exits(targets[i]) && !AnyHas(targets, b))
    ensures Encloses(p, targets[i])
    ensures forall a, b :: Arc(p, a, b) && Has(targets[i], a) && !Has(targets[i], b) ==> !AnyHas(targets, b)
  {
    forall a, b | Arc(p, a, b) && Has(targets[i], a)
      ensures if Has(targets[i], b) then Arc(targets[i], a, b) else a in Exits(targets[i]) && !AnyHas(targets, b)
    {
      AnyArcInside(targets, a, b);
      if ViaArc(gate, targets, a, b) {
        assert AnyHas(targets, a) && a != gate && AnyArc(targets, a, b);
        var j :| 0 <= j < |targets| && Arc(targets[j], a, b);
        assert j == i;
      }
    }
  }

  /** A walk from a gate into its targets, in a plan that leaves a target for nowhere else. */
  lemma {:induction false} ViaWalkTraces(p: Plan, gate: string, targets: seq<Plan>, w: Trace)
    requires AllWellNamed(targets) && !AnyHas(targets, gate)
    requires forall a, b :: Arc(p, a, b) && (a == gate || AnyHas(targets, a)) ==> ViaArc(gate, targets, a, b)
    requires Path(p, w) && w[0] == gate
    ensures UnderwayVia(gate, targets, w)
    ensures |w| > 1 && w[|w| - 1] in ExitsFirst(targets, |targets|) ==> CompletesVia(gate, targets, w)
    ensures |w| > 1 ==> AnyHas(targets, w[|w| - 1])
    decreases targets, 1, |w|
  {
    if |w| > 1 {
      assert Arc(p, w[0], w[1]);
      AnyArcInside(targets, w[0], w[1]);
      var i :| 0 <= i < |targets| && w[1] == Entry(targets[i]);
      PortsInside(targets[i]);
      forall a, b | Arc(p, a, b) && Has(targets[i], a)
        ensures ViaArc(gate, targets, a, b)
      {
        assert AnyHas(targets, a);
      }
      ViaEncloses(p, gate, targets, i);
      PathFrom(p, w, 1);
      var k := LeavesAt(p, targets[i], w[1..]);
      if k < |w[1..]| {
        ViaStays(p, gate, targets, i, w[k], w[k + 1]);
        assert false;
      }
      assert w[1..][..k] == w[1..];
      WalkTraces(targets[i], w[1..]);
      if w[|w| - 1] in ExitsFirst(targets, |targets|) {
        ExitOwner(targets, i, w[|w| - 1]);
      }
    }
  }

  lemma ViaStays(p: Plan, gate: string, targets: seq<Plan>, i: nat, a: string, b: string)
    requires AllWellNamed(targets) && i < |targets| && !AnyHas(targets, gate)
    requires Has(targets[i], a) && ViaArc(gate, targets, a, b)
    ensures Has(targets[i], b)
  {
    AnyArcInside(targets, a, b);
    assert AnyHas(targets, a) && a != gate && AnyArc(targets, a, b);
    var j :| 0 <= j < |targets| && Arc(targets[j], a, b);
    assert j == i;
  }

  /** An exit of a target list that lies in the `i`-th target is that target's own exit. */
  lemma ExitOwner(targets: seq<Plan>, i: nat, x: string)
    requires AllWellNamed(targets) && i < |targets|
    requires Has(targets[i], x) && x in ExitsFirst(targets, |targets|)
    ensures x in Exits(targets[i])
  {
    ExitsFirstHas(targets, |targets|, x);
    var j :| 0 <= j < |targets| && x in Exits(targets[j]);
    PortsInside(targets[j]);
    assert j == i;
  }

  lemma {:induction false} ForkWalkTraces(p: Plan, w: Trace)
    requires p.Fork? && WellNamed(p) && Walk(p, w)
    ensures Underway(p, w) && (AtExit(p, w) ==> Completes(p, w))
    decreases p, 0, |w|
  {
    var branches := p.branches;
    if |w| > 1 {
      assert Arc(p, w[0], w[1]);
      AnyArcInside(branches, w[0], w[1]);
      forall j | 0 <= j < |branches| { PortsInside(branches[j]); }
      assert forall j :: 0 <= j < |branches| && w[0] in Exits(branches[j]) ==> AnyHas(branches, w[0]);
      var i :| 0 <= i < |branches| && w[1] == Entry(branches[i]);
      ForkEncloses(p, i);
      PathFrom(p, w, 1);
      var k := LeavesAt(p, branches[i], w[1..]);
      assert w[1..][..k] == w[1..k + 1];
      WalkTraces(branches[i], w[1..k + 1]);
      if k == |w[1..]| {
        assert w[1..k + 1] == w[1..];
        assert AnyHas(branches, w[|w| - 1]);
      } else {
        assert Arc(p, w[k], w[k + 1]) && w[k + 1] == p.join;
        if k + 2 < |w| {
          assert Arc(p, w[k + 1], w[k + 2]);
          JoinEnds(p, w[k + 2]);
          assert false;
        }
        assert w[1..k + 1] == w[1..|w| - 1];
        assert Completes(p, w);
      }
    }
  }

  lemma ForkEncloses(p: Plan, i: nat)
    requires p.Fork? && WellNamed(p) && i < |p.branches|
    ensures Encloses(p, p.branches[i])
    ensures forall a, b :: Arc(p, a, b) && Has(p.branches[i], a) && !Has(p.branches[i], b) ==> b == p.join
  {
    var branches := p.branches;
    forall a, b | Arc(p, a, b) && Has(branches[i], a)
      ensures if Has(branches[i], b) then Arc(branches[i], a, b) else a in Exits(branches[i]) && b == p.join
    {
      assert AnyHas(branches, a);
      if ViaArc(p.fork, branches, a, b) {
        ViaStays(p, p.fork, branches, i, a, b);
        AnyArcInside(branches, a, b);
        assert a != p.fork && AnyArc(branches, a, b);
        var j :| 0 <= j < |branches| && Arc(branches[j], a, b);
        assert j == i;
      } else {
        var j :| 0 <= j < |branches| && a in Exits(branches[j]);
        PortsInside(branches[j]);
        assert j == i;
        assert !Has(branches[i], p.join);
      }
    }
  }

  lemma JoinEnds(p: Plan, b: string)
    requires p.Fork? && WellNamed(p)
    ensures !Arc(p, p.join, b)
  {
    AnyArcInside(p.branches, p.join, b);
    forall j | 0 <= j < |p.branches| { PortsInside(p.branches[j]); }
    assert forall j :: 0 <= j < |p.branches| && p.join in Exits(p.branches[j]) ==> AnyHas(p.branches, p.join);
  }

  lemma {:induction false} SwitchWalkTraces(p: Plan, w: Trace)
    requires p.Switch? && WellNamed(p) && Walk(p, w)
    ensures Underway(p, w) && (AtExit(p, w) ==> Completes(p, w))
    decreases p, 0, |w|
  {
    var decide, gate, targets := p.decide, p.gate, p.targets;
    PortsInside(decide);
    TargetExitsInside(targets);
    SwitchArcs(p);
    var k := LeavesAt(p, decide, w);
    WalkTraces(decide, w[..k]);
    if k == |w| {
      assert w[..k] == w;
      assert !AnyHas(targets, w[|w| - 1]);
    } else {
      PathFrom(p, w, k);
      ViaWalkTraces(p, gate, targets, w[k..]);
    }
  }

  lemma SwitchArcs(p: Plan)
    requires p.Switch? && WellNamed(p)
    ensures Encloses(p, p.decide)
    ensures forall a, b :: Arc(p, a, b) && Has(p.decide, a) && !Has(p.decide, b) ==> b == p.gate
    ensures forall a, b :: Arc(p, a, b) && (a == p.gate || AnyHas(p.targets, a)) ==> ViaArc(p.gate, p.targets, a, b)
  {
    var decide, gate, targets := p.decide, p.gate, p.targets;
    PortsInside(decide);
    forall a, b | Arc(p, a, b)
      ensures Has(decide, a) ==> if Has(decide, b) then Arc(decide, a, b) else a in Exits(decide) && b == gate
      ensures a == gate || AnyHas(targets, a) ==> ViaArc(gate, targets, a, b)
    {
      AnyArcInside(targets, a, b);
      assert Has(decide, a) ==> !AnyHas(targets, a) && !AnyArc(targets, a, b) && !ViaArc(gate, targets, a, b);
      if Arc(decide, a, b) { ArcInside(decide, a, b); }
    }
  }

  lemma {:induction false} RepeatWalkTraces(p: Plan, w: Trace)
    requires p.Repeat? && WellNamed(p) && Walk(p, w)
    ensures Underway(p, w) && (AtExit(p, w) ==> Completes(p, w))
    decreases p, 0, |w|
  {
    var body, gate := p.body, p.gate;
    PortsInside(body);
    RepeatArcs(p);
    var k := LeavesAt(p, body, w);
    WalkTraces(body, w[..k]);
    if k == |w| {
      assert w[..k] == w;
    } else if k + 1 < |w| {
      assert Arc(p, w[k], w[k + 1]);
      PathFrom(p, w, k + 1);
      RepeatWalkTraces(p, w[k + 1..]);
    }
  }

  lemma RepeatArcs(p: Plan)
    requires p.Repeat? && WellNamed(p)
    ensures Encloses(p, p.body)
    ensures forall a, b :: Arc(p, a, b) && Has(p.body, a) && !Has(p.body, b) ==> b == p.gate
    ensures forall b :: Arc(p, p.gate, b) ==> b == Entry(p.body)
  {
    PortsInside(p.body);
    forall a, b | Arc(p.body, a, b)
      ensures Has(p.body, a) && Has(p.body, b)
    {
      ArcInside(p.body, a, b);
    }
  }

  lemma {:induction false} TimerWalkTraces(p: Plan, w: Trace)
    requires p.Timer? && WellNamed(p) && Path(p, w) && w[0] == p.gate
    ensures Underway(p, w)
    decreases p, 0, |w|
  {
    var step, gate := p.step, p.gate;
    PortsInside(step);
    TimerArcs(p);
    if |w| > 1 {
      assert Arc(p, w[0], w[1]);
      PathFrom(p, w, 1);
      var k := LeavesAt(p, step, w[1..]);
      assert w[1..][..k] == w[1..k + 1];
      WalkTraces(step, w[1..k + 1]);
      if k == |w[1..]| {
        assert w[1..k + 1] == w[1..];
      } else {
        assert w[k + 1] == gate;
        PathFrom(p, w, k + 1);
        TimerWalkTraces(p, w[k + 1..]);
      }
    }
  }

  lemma TimerArcs(p: Plan)
    requires p.Timer? && WellNamed(p)
    ensures Encloses(p, p.step)
    ensures forall a, b :: Arc(p, a, b) && Has(p.step, a) && !Has(p.step, b) ==> b == p.gate
    ensures forall b :: Arc(p, p.gate, b) ==> b == Entry(p.step)
  {
    PortsInside(p.step);
    forall a, b | Arc(p.step, a, b)
      ensures Has(p.step, a) && Has(p.step, b)
    {
      ArcInside(p.step, a, b);
    }
  }

  lemma {:induction false} WrapWalkTraces(p: Plan, w: Trace)
    requires p.Wrap? && WellNamed(p) && Walk(p, w)
    ensures Underway(p, w) && (AtExit(p, w) ==> Completes(p, w))
    decreases p, 0, |w|
  {
    var child := p.child;
    PortsInside(child);
    if |w| > 1 {
      forall a, b | Arc(child, a, b)
        ensures Has(child, a) && Has(child, b)
      {
        ArcInside(child, a, b);
      }
      assert Arc(p, w[0], w[1]);
      assert Encloses(p, child);
      PathFrom(p, w, 1);
      var k := LeavesAt(p, child, w[1..]);
      assert w[1..][..k] == w[1..];
      WalkTraces(child, w[1..]);
    }
  }

  lemma {:induction false} RouteWalkTraces(p: Plan, w: Trace)
    requires p.Route? && WellNamed(p) && Walk(p, w)
    ensures Underway(p, w) && (AtExit(p, w) ==> Completes(p, w))
    decreases p, 0, |w|
  {
    var gate, targets := p.gate, p.targets;
    ViaWalkTraces(p, gate, targets, w);
    TargetExitsInside(targets);
    if |w| == 1 { assert w == [gate]; }
  }

  /** Every walk into a fragment is a run under way, and one that ends at an exit is complete. */
  lemma {:induction false} WalkTraces(p: Plan, w: Trace)
    requires WellNamed(p) && Walk(p, w)
    ensures Underway(p, w)
    ensures AtExit(p, w) ==> Completes(p, w)
    decreases p, 1, |w|
  {
    match p
    case Step(id, _) =>
      assert |w| > 1 ==> Arc(p, w[0], w[1]);
    case Chain(steps) => ChainWalkTraces(p, 0, w);
    case Fork(_, _, _) => ForkWalkTraces(p, w);
    case Route(_, _, _) => RouteWalkTraces(p, w);
    case Switch(_, _, _) => SwitchWalkTraces(p, w);
    case Repeat(_, _) => RepeatWalkTraces(p, w);
    case Timer(_, _) => TimerWalkTraces(p, w);
    case Wrap(_, _, _) => WrapWalkTraces(p, w);
  }

  /** For every named plan: complete walks are complete runs, and all walks are runs under way. */
  lemma WalksAreTraces(p: Plan, w: Trace)
    requires WellNamed(p)
    ensures Walk(p, w) && AtExit(p, w) <==> Completes(p, w)
    ensures Walk(p, w) <==> Underway(p, w)
  {
    if Walk(p, w) { WalkTraces(p, w); }
    if Completes(p, w) { CompletesWalks(p, w); }
    if Underway(p, w) { UnderwayWalks(p, w); }
  }
}
