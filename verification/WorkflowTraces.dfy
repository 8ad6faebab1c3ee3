/**
 What a document means, and what its drawing says.

 A trace is the sequence of drawn constructs control passes through. `Completes` gives the traces
 of whole runs and `Underway` those of runs that may still be going; a walk follows drawn edges,
 back edges included. The two agree on every document.
 */
module WorkflowTraces {
  import opened WorkflowPlan
  import opened WorkflowNames

  type Trace = seq<string>

  // ---------- The document's side ----------

  /** `t` is a run of `p` from beginning to end. */
  ghost predicate Completes(p: Plan, t: Trace)
    decreases p, |t|
  {
    match p
    case Step(id, _) => t == [id]
    case Chain(steps) => CompletesFrom(steps, 0, t)
    case Fork(fork, join, branches) =>
      && |t| >= 2 && t[0] == fork && t[|t| - 1] == join
      && exists i :: 0 <= i < |branches| && Completes(branches[i], t[1..|t| - 1])
    case Route(gate, targets, fallsThrough) =>
      (fallsThrough && t == [gate]) || CompletesVia(gate, targets, t)
    case Switch(decide, gate, targets) =>
      exists k :: 0 <= k < |t| && Completes(decide, t[..k]) && CompletesVia(gate, targets, t[k..])
    case Repeat(body, gate) =>
      exists k :: 0 <= k < |t| && Completes(body, t[..k]) && t[k] == gate &&
        (k + 1 == |t| || Completes(p, t[k + 1..]))
    case Timer(_, _) => false
    case Wrap(gate, _, child) => |t| > 0 && t[0] == gate && Completes(child, t[1..])
  }

  /** Step `i` and every later one, in order. */
  ghost predicate CompletesFrom(steps: seq<Plan>, i: nat, t: Trace)
    requires i <= |steps|
    decreases steps, |steps| - i
  {
    i < |steps| &&
    if i + 1 == |steps| then Completes(steps[i], t)
    else exists k :: 0 <= k <= |t| && Completes(steps[i], t[..k]) && CompletesFrom(steps, i + 1, t[k..])
  }

  /** The gate, then exactly one of its targets. */
  ghost predicate CompletesVia(gate: string, targets: seq<Plan>, t: Trace)
    decreases targets, |targets|
  {
    |t| > 0 && t[0] == gate && exists i :: 0 <= i < |targets| && Completes(targets[i], t[1..])
  }

  /** `t` is what a run of `p` may have passed through so far. */
  ghost predicate Underway(p: Plan, t: Trace)
    decreases p, |t|
  {
    match p
    case Step(id, _) => t == [id]
    case Chain(steps) => UnderwayFrom(steps, 0, t)
    case Fork(fork, join, branches) => UnderwayVia(fork, branches, t) || Completes(p, t)
    case Route(gate, targets, _) => UnderwayVia(gate, targets, t)
    case Switch(decide, gate, targets) =>
      Underway(decide, t) ||
      exists k :: 0 <= k < |t| && Completes(decide, t[..k]) && UnderwayVia(gate, targets, t[k..])
    case Repeat(body, gate) =>
      Underway(body, t) ||
      exists k :: 0 <= k < |t| && Completes(body, t[..k]) && t[k] == gate &&
        (k + 1 == |t| || Underway(p, t[k + 1..]))
    case Timer(gate, step) =>
      && |t| > 0 && t[0] == gate
      && (|t| == 1 || Underway(step, t[1..]) ||
          exists k :: 1 <= k < |t| && Completes(step, t[1..k]) && Underway(p, t[k..]))
    case Wrap(gate, _, child) => |t| > 0 && t[0] == gate && (|t| == 1 || Underway(child, t[1..]))
  }

  ghost predicate UnderwayFrom(steps: seq<Plan>, i: nat, t: Trace)
    requires i <= |steps|
    decreases steps, |steps| - i
  {
    i < |steps| &&
    (Underway(steps[i], t) ||
     exists k :: 0 <= k <= |t| && Completes(steps[i], t[..k]) && UnderwayFrom(steps, i + 1, t[k..]))
  }

  ghost predicate UnderwayVia(gate: string, targets: seq<Plan>, t: Trace)
    decreases targets, |targets|
  {
    |t| > 0 && t[0] == gate &&
    (|t| == 1 || exists i :: 0 <= i < |targets| && Underway(targets[i], t[1..]))
  }

  // ---------- The drawing's side ----------

  /** Some drawn edge goes from `a` to `b`. */
  ghost predicate Joins(ws: seq<Wire>, a: string, b: string) {
    exists w :: w in ws && w.from == a && w.to == b
  }

  /** `Joins(Wires(p), a, b)`, construct by construct. */
  ghost predicate Arc(p: Plan, a: string, b: string)
    decreases p
  {
    match p
    case Step(_, _) => false
    case Chain(steps) => AnyArc(steps, a, b) || exists i :: 0 <= i < |steps| - 1 && LinkArc(steps, i, a, b)
    case Fork(fork, join, branches) =>
      ViaArc(fork, branches, a, b) || (b == join && exists i :: 0 <= i < |branches| && a in Exits(branches[i]))
    case Route(gate, targets, _) => ViaArc(gate, targets, a, b)
    case Switch(decide, gate, targets) =>
      Arc(decide, a, b) || (a in Exits(decide) && b == gate) || ViaArc(gate, targets, a, b)
    case Repeat(body, gate) =>
      Arc(body, a, b) || (a in Exits(body) && b == gate) || (a == gate && b == Entry(body))
    case Timer(gate, step) =>
      Arc(step, a, b) || (a == gate && b == Entry(step)) || (a in Exits(step) && b == gate)
    case Wrap(gate, _, child) => Arc(child, a, b) || (a == gate && b == Entry(child))
  }

  ghost predicate AnyArc(ps: seq<Plan>, a: string, b: string)
    decreases ps, 0
  {
    exists i :: 0 <= i < |ps| && Arc(ps[i], a, b)
  }

  ghost predicate ViaArc(gate: string, ps: seq<Plan>, a: string, b: string)
    decreases ps, 1
  {
    AnyArc(ps, a, b) || (a == gate && exists i :: 0 <= i < |ps| && b == Entry(ps[i]))
  }

  ghost predicate LinkArc(steps: seq<Plan>, i: nat, a: string, b: string)
    requires i + 1 < |steps|
  {
    a in Exits(steps[i]) && b == Entry(steps[i + 1])
  }

  ghost predicate Path(p: Plan, w: Trace) {
    |w| > 0 && forall i :: 0 <= i < |w| - 1 ==> Arc(p, w[i], w[i + 1])
  }

  ghost predicate Walk(p: Plan, w: Trace) {
    Path(p, w) && w[0] == Entry(p)
  }

  ghost predicate AtExit(p: Plan, w: Trace) {
    |w| > 0 && w[|w| - 1] in Exits(p)
  }

  // ---------- Arcs are the drawn wires ----------

  lemma IntoJoins(sources: seq<string>, to: string, v: Variant, a: string, b: string)
    ensures Joins(Into(sources, to, v), a, b) <==> a in sources && b == to
  {
    var ws := Into(sources, to, v);
    if a in sources && b == to {
      var i :| 0 <= i < |sources| && sources[i] == a;
      assert ws[i] in ws;
    }
  }

  lemma JoinsConcat(x: seq<Wire>, y: seq<Wire>, a: string, b: string)
    ensures Joins(x + y, a, b) <==> Joins(x, a, b) || Joins(y, a, b)
  {
    if Joins(x, a, b) {
      var w :| w in x && w.from == a && w.to == b;
      assert w in x + y;
    }
    if Joins(y, a, b) {
      var w :| w in y && w.from == a && w.to == b;
      assert w in x + y;
    }
  }

  lemma OneJoins(w: Wire, a: string, b: string)
    ensures Joins([w], a, b) <==> a == w.from && b == w.to
  {
    assert w in [w];
  }

  lemma WiresFirstJoin(ps: seq<Plan>, k: nat, a: string, b: string)
    requires k <= |ps|
    requires forall i :: 0 <= i < k ==> (Arc(ps[i], a, b) <==> Joins(Wires(ps[i]), a, b))
    ensures Joins(WiresFirst(ps, k), a, b) <==> exists i :: 0 <= i < k && Arc(ps[i], a, b)
  {
    if k > 0 {
      WiresFirstJoin(ps, k - 1, a, b);
      JoinsConcat(WiresFirst(ps, k - 1), Wires(ps[k - 1]), a, b);
    }
  }

  lemma LinksJoin(steps: seq<Plan>, k: nat, a: string, b: string)
    requires k <= |steps|
    ensures Joins(Links(steps, k), a, b) <==> exists i :: 0 <= i < k - 1 && LinkArc(steps, i, a, b)
  {
    if k > 1 {
      LinksJoin(steps, k - 1, a, b);
      var last := Into(Exits(steps[k - 2]), Entry(steps[k - 1]), Default);
      JoinsConcat(Links(steps, k - 1), last, a, b);
      IntoJoins(Exits(steps[k - 2]), Entry(steps[k - 1]), Default, a, b);
      if LinkArc(steps, k - 2, a, b) { assert Joins(Links(steps, k), a, b); }
    }
  }

  ghost predicate TargetJoins(gate: string, p: Plan, a: string, b: string) {
    Joins(Wires(p), a, b) || (a == gate && b == Entry(p))
  }

  lemma TargetWiresJoin(gate: string, p: Plan, a: string, b: string)
    ensures Joins(TargetWires(gate, p), a, b) <==> TargetJoins(gate, p, a, b)
  {
    JoinsConcat(Wires(p), [Wire(gate, Entry(p), Default)], a, b);
    OneJoins(Wire(gate, Entry(p), Default), a, b);
  }

  lemma RouteWiresJoin(gate: string, ps: seq<Plan>, k: nat, a: string, b: string)
    requires k <= |ps|
    ensures Joins(RouteWires(gate, ps, k), a, b) <==> exists i :: 0 <= i < k && TargetJoins(gate, ps[i], a, b)
  {
    if k > 0 {
      RouteWiresJoin(gate, ps, k - 1, a, b);
      JoinsConcat(RouteWires(gate, ps, k - 1), TargetWires(gate, ps[k - 1]), a, b);
      TargetWiresJoin(gate, ps[k - 1], a, b);
    }
  }

  lemma ForkWiresJoin(fork: string, join: string, ps: seq<Plan>, k: nat, a: string, b: string)
    requires k <= |ps|
    ensures Joins(ForkWires(fork, join, ps, k), a, b) <==>
      exists i :: 0 <= i < k && (TargetJoins(fork, ps[i], a, b) || (a in Exits(ps[i]) && b == join))
  {
    if k > 0 {
      ForkWiresJoin(fork, join, ps, k - 1, a, b);
      var p := ps[k - 1];
      JoinsConcat(ForkWires(fork, join, ps, k - 1), BranchWires(fork, join, p), a, b);
      JoinsConcat(TargetWires(fork, p), Into(Exits(p), join, Default), a, b);
      TargetWiresJoin(fork, p, a, b);
      IntoJoins(Exits(p), join, Default, a, b);
    }
  }

  lemma ViaJoins(gate: string, ps: seq<Plan>, a: string, b: string)
    requires forall i :: 0 <= i < |ps| ==> (Arc(ps[i], a, b) <==> Joins(Wires(ps[i]), a, b))
    ensures ViaArc(gate, ps, a, b) <==> exists i :: 0 <= i < |ps| && TargetJoins(gate, ps[i], a, b)
  {
    if i :| 0 <= i < |ps| && Arc(ps[i], a, b) { assert TargetJoins(gate, ps[i], a, b); }
    if i :| 0 <= i < |ps| && a == gate && b == Entry(ps[i]) { assert TargetJoins(gate, ps[i], a, b); }
    if i :| 0 <= i < |ps| && TargetJoins(gate, ps[i], a, b) { assert Arc(ps[i], a, b) || b == Entry(ps[i]); }
  }

  /** `Arc` is exactly the drawn edges. */
  lemma {:induction false} ArcsAreWires(p: Plan, a: string, b: string)
    ensures Arc(p, a, b) <==> Joins(Wires(p), a, b)
    decreases p
  {
    match p
    case Step(_, _) =>
    case Chain(steps) =>
      forall i | 0 <= i < |steps| { ArcsAreWires(steps[i], a, b); }
      WiresFirstJoin(steps, |steps|, a, b);
      LinksJoin(steps, |steps|, a, b);
      JoinsConcat(WiresFirst(steps, |steps|), Links(steps, |steps|), a, b);
    case Fork(fork, join, branches) =>
      forall i | 0 <= i < |branches| { ArcsAreWires(branches[i], a, b); }
      ViaJoins(fork, branches, a, b);
      ForkWiresJoin(fork, join, branches, |branches|, a, b);
    case Route(gate, targets, _) =>
      forall i | 0 <= i < |targets| { ArcsAreWires(targets[i], a, b); }
      ViaJoins(gate, targets, a, b);
      RouteWiresJoin(gate, targets, |targets|, a, b);
    case Switch(decide, gate, targets) =>
      ArcsAreWires(decide, a, b);
      forall i | 0 <= i < |targets| { ArcsAreWires(targets[i], a, b); }
      ViaJoins(gate, targets, a, b);
      RouteWiresJoin(gate, targets, |targets|, a, b);
      IntoJoins(Exits(decide), gate, Default, a, b);
      JoinsConcat(Wires(decide), Into(Exits(decide), gate, Default), a, b);
      JoinsConcat(Wires(decide) + Into(Exits(decide), gate, Default), RouteWires(gate, targets, |targets|), a, b);
    case Repeat(body, gate) =>
      ArcsAreWires(body, a, b);
      IntoJoins(Exits(body), gate, Default, a, b);
      JoinsConcat(Wires(body), Into(Exits(body), gate, Default), a, b);
      OneJoins(Wire(gate, Entry(body), Back), a, b);
      JoinsConcat(Wires(body) + Into(Exits(body), gate, Default), [Wire(gate, Entry(body), Back)], a, b);
    case Timer(gate, step) =>
      ArcsAreWires(step, a, b);
      OneJoins(Wire(gate, Entry(step), Default), a, b);
      JoinsConcat(Wires(step), [Wire(gate, Entry(step), Default)], a, b);
      IntoJoins(Exits(step), gate, Back, a, b);
      JoinsConcat(Wires(step) + [Wire(gate, Entry(step), Default)], Into(Exits(step), gate, Back), a, b);
    case Wrap(gate, kind, child) =>
      ArcsAreWires(child, a, b);
      var w := Wire(gate, Entry(child), if kind == SubflowGate then Default else Isolated);
      OneJoins(w, a, b);
      JoinsConcat(Wires(child), [w], a, b);
  }

  // ---------- Fragments are closed: one way in, the exits out ----------

  lemma {:induction false} ExitsFirstHas(ps: seq<Plan>, k: nat, x: string)
    requires k <= |ps|
    ensures x in ExitsFirst(ps, k) <==> exists i :: 0 <= i < k && x in Exits(ps[i])
  {
    if k > 0 { ExitsFirstHas(ps, k - 1, x); }
  }

  lemma {:induction false} PortsInside(p: Plan)
    requires WellNamed(p)
    ensures Has(p, Entry(p))
    ensures forall x :: x in Exits(p) ==> Has(p, x)
    decreases p
  {
    match p
    case Step(_, _) =>
    case Chain(steps) => forall i | 0 <= i < |steps| { PortsInside(steps[i]); }
    case Fork(_, _, _) =>
    case Route(_, targets, _) => TargetExitsInside(targets);
    case Switch(decide, _, targets) => PortsInside(decide); TargetExitsInside(targets);
    case Repeat(body, _) => PortsInside(body);
    case Timer(_, step) => PortsInside(step);
    case Wrap(_, _, child) => PortsInside(child);
  }

  lemma {:induction false} TargetExitsInside(ps: seq<Plan>)
    requires AllWellNamed(ps)
    ensures forall x :: x in ExitsFirst(ps, |ps|) ==> AnyHas(ps, x)
    decreases ps
  {
    forall i | 0 <= i < |ps| { PortsInside(ps[i]); }
    forall x | x in ExitsFirst(ps, |ps|)
      ensures AnyHas(ps, x)
    {
      ExitsFirstHas(ps, |ps|, x);
    }
  }

  lemma {:induction false} ArcInside(p: Plan, a: string, b: string)
    requires WellNamed(p) && Arc(p, a, b)
    ensures Has(p, a) && Has(p, b)
    decreases p
  {
    match p
    case Chain(steps) =>
      AnyArcInside(steps, a, b);
      forall i | 0 <= i < |steps| { PortsInside(steps[i]); }
    case Fork(_, _, branches) =>
      AnyArcInside(branches, a, b);
      forall i | 0 <= i < |branches| { PortsInside(branches[i]); }
    case Route(_, targets, _) =>
      AnyArcInside(targets, a, b);
      forall i | 0 <= i < |targets| { PortsInside(targets[i]); }
    case Switch(decide, _, targets) =>
      if Arc(decide, a, b) { ArcInside(decide, a, b); }
      PortsInside(decide);
      AnyArcInside(targets, a, b);
      forall i | 0 <= i < |targets| { PortsInside(targets[i]); }
    case Repeat(body, _) => if Arc(body, a, b) { ArcInside(body, a, b); } PortsInside(body);
    case Timer(_, step) => if Arc(step, a, b) { ArcInside(step, a, b); } PortsInside(step);
    case Wrap(_, _, child) => if Arc(child, a, b) { ArcInside(child, a, b); } PortsInside(child);
  }

  lemma {:induction false} AnyArcInside(ps: seq<Plan>, a: string, b: string)
    requires AllWellNamed(ps)
    ensures AnyArc(ps, a, b) ==> AnyHas(ps, a) && AnyHas(ps, b)
    ensures forall i :: 0 <= i < |ps| && Arc(ps[i], a, b) ==> Has(ps[i], a) && Has(ps[i], b)
    decreases ps
  {
    forall i | 0 <= i < |ps| && Arc(ps[i], a, b)
      ensures Has(ps[i], a) && Has(ps[i], b)
    {
      ArcInside(ps[i], a, b);
    }
  }
}
