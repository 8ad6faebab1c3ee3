/** The naming of a document carries its runs onto the plan's, both the complete ones and those that may still be going. */
module WorkflowRuns {
  import opened Wrappers
  import opened WorkflowPlan
  import opened WorkflowNames
  import opened WorkflowTraces
  import opened WorkflowDocument
  import opened WorkflowSpots

  // ---------- Runs are the plan's runs ----------

  /** `p` is the plan of the node at `at` in the whole. */
  ghost predicate Sits(whole: Plan, at: seq<nat>, node: Node, p: Plan) {
    WellNamed(whole) && SubPlan(whole, at) == Some(p) && Mirrors(node, p)
  }

  lemma ChildSits(whole: Plan, at: seq<nat>, node: Node, p: Plan, i: nat)
    requires Sits(whole, at, node, p)
    ensures ChildOf(node, i).Some? <==> Child(p, i).Some?
    ensures Child(p, i).Some? ==> Sits(whole, at + [i], ChildOf(node, i).value, Child(p, i).value)
  {
    SubSnoc(whole, at, i);
  }

  lemma IsOwn(whole: Plan, at: seq<nat>, p: Plan, s: Spot, part: Part)
    requires WellNamed(whole) && SubPlan(whole, at) == Some(p) && OwnName(p, part).Some? && NameAt(whole, s).Some?
    ensures Label(whole, s) == OwnName(p, part).value <==> s == Spot(at, part)
  {
    assert NameAt(whole, Spot(at, part)) == OwnName(p, part);
    if Label(whole, s) == OwnName(p, part).value { LabelsDiffer(whole, s, Spot(at, part)); }
  }

  lemma CutLabels(whole: Plan, t: seq<Spot>, k: nat)
    requires k <= |t|
    ensures Labels(whole, t)[..k] == Labels(whole, t[..k]) && Labels(whole, t)[k..] == Labels(whole, t[k..])
    ensures AllDrawn(whole, t) ==> AllDrawn(whole, t[..k]) && AllDrawn(whole, t[k..])
  {
  }

  lemma InnerLabels(whole: Plan, t: seq<Spot>)
    requires |t| >= 2
    ensures Labels(whole, t)[1..|t| - 1] == Labels(whole, t[1..|t| - 1])
    ensures AllDrawn(whole, t) ==> AllDrawn(whole, t[1..|t| - 1])
  {
  }

  lemma OneLabel(whole: Plan, at: seq<nat>, p: Plan, t: seq<Spot>)
    requires WellNamed(whole) && SubPlan(whole, at) == Some(p) && OwnName(p, Gate).Some? && AllDrawn(whole, t)
    ensures t == [Spot(at, Gate)] <==> Labels(whole, t) == [OwnName(p, Gate).value]
  {
    if |t| == 1 { IsOwn(whole, at, p, t[0], Gate); }
  }

  lemma {:induction false} ChildRuns(whole: Plan, at: seq<nat>, node: Node, p: Plan, i: nat, t: seq<Spot>)
    requires Sits(whole, at, node, p) && AllDrawn(whole, t)
    ensures RunsChild(node, at, i, t) <==> Child(p, i).Some? && Completes(Child(p, i).value, Labels(whole, t))
    decreases node, |t|, 0
  {
    ChildSits(whole, at, node, p, i);
    if Child(p, i).Some? { RunsIff(whole, at + [i], ChildOf(node, i).value, Child(p, i).value, t); }
  }

  /** The children control picks one of. */
  function Picked(p: Plan): seq<Plan>
    requires p.Fork? || p.Route? || p.Switch?
  {
    if p.Fork? then p.branches else p.targets
  }

  function FirstPicked(p: Plan): nat
    requires p.Fork? || p.Route? || p.Switch?
  {
    if p.Switch? then 1 else 0
  }

  lemma PickedIsChild(p: Plan, j: nat)
    requires p.Fork? || p.Route? || p.Switch?
    ensures Child(p, j + FirstPicked(p)) == if j < |Picked(p)| then Some(Picked(p)[j]) else None
  {
  }

  lemma {:induction false} RunsPicked(whole: Plan, at: seq<nat>, node: Node, p: Plan, i: nat, t: seq<Spot>) returns (j: nat)
    requires Sits(whole, at, node, p) && AllDrawn(whole, t) && (p.Fork? || p.Route? || p.Switch?)
    requires FirstPicked(p) <= i && RunsChild(node, at, i, t)
    ensures j < |Picked(p)| && Completes(Picked(p)[j], Labels(whole, t))
    decreases node, |t|, 1
  {
    j := i - FirstPicked(p);
    ChildRuns(whole, at, node, p, i, t);
    PickedIsChild(p, j);
  }

  lemma {:induction false} PickedRuns(whole: Plan, at: seq<nat>, node: Node, p: Plan, j: nat, t: seq<Spot>)
    requires Sits(whole, at, node, p) && AllDrawn(whole, t) && (p.Fork? || p.Route? || p.Switch?)
    requires j < |Picked(p)| && Completes(Picked(p)[j], Labels(whole, t))
    ensures RunsChild(node, at, j + FirstPicked(p), t)
    decreases node, |t|, 1
  {
    PickedIsChild(p, j);
    ChildRuns(whole, at, node, p, j + FirstPicked(p), t);
  }

  lemma {:induction false} OneRuns(whole: Plan, at: seq<nat>, node: Node, p: Plan, t: seq<Spot>)
    requires Sits(whole, at, node, p) && AllDrawn(whole, t) && (p.Fork? || p.Route? || p.Switch?)
    ensures RunsOne(node, at, FirstPicked(p), t) <==>
      exists j :: 0 <= j < |Picked(p)| && Completes(Picked(p)[j], Labels(whole, t))
    decreases node, |t|, 2
  {
    var first := FirstPicked(p);
    if RunsOne(node, at, first, t) {
      var i: nat :| first <= i && ChildOf(node, i).Some? && Runs(ChildOf(node, i).value, at + [i], t);
      var j := RunsPicked(whole, at, node, p, i, t);
    }
    if j :| 0 <= j < |Picked(p)| && Completes(Picked(p)[j], Labels(whole, t)) {
      PickedRuns(whole, at, node, p, j, t);
    }
  }

  lemma {:induction false} FromRuns(whole: Plan, at: seq<nat>, node: Node, p: Plan, i: nat, t: seq<Spot>)
    requires Sits(whole, at, node, p) && AllDrawn(whole, t) && node.Sequence? && !Single(node) && i < |node.steps.list|
    ensures p.Chain? && |p.steps| == |node.steps.list|
    ensures RunsFrom(node, at, i, t) <==> CompletesFrom(p.steps, i, Labels(whole, t))
    decreases node, |t|, 1, |node.steps.list| - i
  {
    ChildSits(whole, at, node, p, i);
    var step, q := node.steps.list[i], p.steps[i];
    if i + 1 == |p.steps| {
      RunsIff(whole, at + [i], step, q, t);
    } else {
      forall k | 0 <= k <= |t|
        ensures Runs(step, at + [i], t[..k]) && RunsFrom(node, at, i + 1, t[k..]) <==>
          Completes(q, Labels(whole, t)[..k]) && CompletesFrom(p.steps, i + 1, Labels(whole, t)[k..])
      {
        CutLabels(whole, t, k);
        RunsIff(whole, at + [i], step, q, t[..k]);
        FromRuns(whole, at, node, p, i + 1, t[k..]);
      }
    }
  }

  lemma ForkEnds(whole: Plan, at: seq<nat>, p: Plan, t: seq<Spot>)
    requires WellNamed(whole) && SubPlan(whole, at) == Some(p) && p.Fork? && AllDrawn(whole, t) && |t| >= 2
    ensures t[0] == Spot(at, Gate) <==> Labels(whole, t)[0] == p.fork
    ensures t[|t| - 1] == Spot(at, Join) <==> Labels(whole, t)[|t| - 1] == p.join
  {
    IsOwn(whole, at, p, t[0], Gate);
    IsOwn(whole, at, p, t[|t| - 1], Join);
  }

  lemma {:induction false} ForkInner(whole: Plan, at: seq<nat>, node: Node, p: Plan, t: seq<Spot>)
    requires Sits(whole, at, node, p) && AllDrawn(whole, t) && node.InParallel? && |t| >= 2
    ensures p.Fork?
    ensures RunsOne(node, at, 0, t[1..|t| - 1]) <==>
      exists j :: 0 <= j < |p.branches| && Completes(p.branches[j], Labels(whole, t)[1..|t| - 1])
    decreases node, |t|, 2
  {
    InnerLabels(whole, t);
    OneRuns(whole, at, node, p, t[1..|t| - 1]);
    assert Picked(p) == p.branches && FirstPicked(p) == 0;
  }

  lemma {:induction false} ForkRuns(whole: Plan, at: seq<nat>, node: Node, p: Plan, t: seq<Spot>)
    requires Sits(whole, at, node, p) && AllDrawn(whole, t) && node.InParallel?
    ensures Runs(node, at, t) <==> Completes(p, Labels(whole, t))
    decreases node, |t|, 3
  {
    if |t| >= 2 {
      ForkInner(whole, at, node, p, t);
      ForkEnds(whole, at, p, t);
    }
  }

  lemma {:induction false} RouteRuns(whole: Plan, at: seq<nat>, node: Node, p: Plan, t: seq<Spot>)
    requires Sits(whole, at, node, p) && AllDrawn(whole, t) && node.Conditional? && !Single(node)
    ensures Runs(node, at, t) <==> Completes(p, Labels(whole, t))
    decreases node, |t|, 3
  {
    OneLabel(whole, at, p, t);
    if |t| > 0 {
      IsOwn(whole, at, p, t[0], Gate);
      CutLabels(whole, t, 1);
      OneRuns(whole, at, node, p, t[1..]);
      assert Picked(p) == p.targets && FirstPicked(p) == 0;
    }
  }

  lemma {:induction false} DecidedAt(whole: Plan, at: seq<nat>, node: Node, p: Plan, t: seq<Spot>, k: nat)
    requires Sits(whole, at, node, p) && AllDrawn(whole, t) && node.RouteSwitch? && !Single(node) && k < |t|
    ensures p.Switch?
    ensures RunsChild(node, at, 0, t[..k]) <==> Completes(p.decide, Labels(whole, t)[..k])
    ensures t[k] == Spot(at, Gate) && RunsOne(node, at, 1, t[k + 1..]) <==> CompletesVia(p.gate, p.targets, Labels(whole, t)[k..])
    decreases node, |t|, 3
  {
    CutLabels(whole, t, k);
    ChildRuns(whole, at, node, p, 0, t[..k]);
    IsOwn(whole, at, p, t[k], Gate);
    CutLabels(whole, t, k + 1);
    OneRuns(whole, at, node, p, t[k + 1..]);
    assert Picked(p) == p.targets && FirstPicked(p) == 1;
    assert Labels(whole, t)[k..][1..] == Labels(whole, t)[k + 1..];
  }

  lemma {:induction false} SwitchRuns(whole: Plan, at: seq<nat>, node: Node, p: Plan, t: seq<Spot>)
    requires Sits(whole, at, node, p) && AllDrawn(whole, t) && node.RouteSwitch? && !Single(node)
    ensures Runs(node, at, t) <==> Completes(p, Labels(whole, t))
    decreases node, |t|, 4
  {
    forall k | 0 <= k < |t|
      ensures RunsChild(node, at, 0, t[..k]) && t[k] == Spot(at, Gate) && RunsOne(node, at, 1, t[k + 1..]) <==>
        Completes(p.decide, Labels(whole, t)[..k]) && CompletesVia(p.gate, p.targets, Labels(whole, t)[k..])
    {
      DecidedAt(whole, at, node, p, t, k);
    }
  }

  /** One round of a loop, read at its gate. */
  lemma {:induction false} RoundRuns(whole: Plan, at: seq<nat>, node: Node, p: Plan, t: seq<Spot>, k: nat)
    requires Sits(whole, at, node, p) && AllDrawn(whole, t) && node.Loop? && !Single(node) && k < |t|
    ensures p.Repeat?
    ensures RunsChild(node, at, 0, t[..k]) && t[k] == Spot(at, Gate) <==>
      Completes(p.body, Labels(whole, t)[..k]) && Labels(whole, t)[k] == p.gate
    ensures AllDrawn(whole, t[k + 1..]) && Labels(whole, t)[k + 1..] == Labels(whole, t[k + 1..])
    decreases node, |t|, 2
  {
    CutLabels(whole, t, k);
    ChildRuns(whole, at, node, p, 0, t[..k]);
    IsOwn(whole, at, p, t[k], Gate);
    CutLabels(whole, t, k + 1);
  }

  lemma {:induction false} LoopRuns(whole: Plan, at: seq<nat>, node: Node, p: Plan, t: seq<Spot>)
    requires Sits(whole, at, node, p) && AllDrawn(whole, t) && node.Loop? && !Single(node)
    ensures Runs(node, at, t) <==> Completes(p, Labels(whole, t))
    decreases node, |t|, 3
  {
    forall k | 0 <= k < |t|
      ensures RunsChild(node, at, 0, t[..k]) && t[k] == Spot(at, Gate) && (k + 1 == |t| || Runs(node, at, t[k + 1..])) <==>
        Completes(p.body, Labels(whole, t)[..k]) && Labels(whole, t)[k] == p.gate &&
        (k + 1 == |t| || Completes(p, Labels(whole, t)[k + 1..]))
    {
      RoundRuns(whole, at, node, p, t, k);
      RunsIff(whole, at, node, p, t[k + 1..]);
    }
  }

  lemma {:induction false} WrapRuns(whole: Plan, at: seq<nat>, node: Node, p: Plan, t: seq<Spot>)
    requires Sits(whole, at, node, p) && AllDrawn(whole, t) && (node.Scoped? || node.Subflow?) && !Single(node)
    ensures Runs(node, at, t) <==> Completes(p, Labels(whole, t))
    decreases node, |t|, 3
  {
    if |t| > 0 {
      IsOwn(whole, at, p, t[0], Gate);
      CutLabels(whole, t, 1);
      ChildRuns(whole, at, node, p, 0, t[1..]);
    }
  }

  /** A sequence of spots is a run of the document exactly if the drawn nodes are one of the plan. */
  lemma {:induction false} RunsIff(whole: Plan, at: seq<nat>, node: Node, p: Plan, t: seq<Spot>)
    requires Sits(whole, at, node, p) && AllDrawn(whole, t)
    ensures Runs(node, at, t) <==> Completes(p, Labels(whole, t))
    decreases node, |t|, 5
  {
    if Single(node) {
      OneLabel(whole, at, p, t);
    } else if node.Sequence? {
      FromRuns(whole, at, node, p, 0, t);
    } else if node.InParallel? {
      ForkRuns(whole, at, node, p, t);
    } else if node.Conditional? {
      RouteRuns(whole, at, node, p, t);
    } else if node.RouteSwitch? {
      SwitchRuns(whole, at, node, p, t);
    } else if node.Loop? {
      LoopRuns(whole, at, node, p, t);
    } else if node.Scoped? || node.Subflow? {
      WrapRuns(whole, at, node, p, t);
    }
  }

  // ---------- And runs so far ----------

  lemma {:induction false} ChildSoFar(whole: Plan, at: seq<nat>, node: Node, p: Plan, i: nat, t: seq<Spot>)
    requires Sits(whole, at, node, p) && AllDrawn(whole, t)
    ensures SoFarChild(node, at, i, t) <==> Child(p, i).Some? && Underway(Child(p, i).value, Labels(whole, t))
    decreases node, |t|, 0
  {
    ChildSits(whole, at, node, p, i);
    if Child(p, i).Some? { SoFarIff(whole, at + [i], ChildOf(node, i).value, Child(p, i).value, t); }
  }

  lemma {:induction false} SoFarPicked(whole: Plan, at: seq<nat>, node: Node, p: Plan, i: nat, t: seq<Spot>) returns (j: nat)
    requires Sits(whole, at, node, p) && AllDrawn(whole, t) && (p.Fork? || p.Route? || p.Switch?)
    requires FirstPicked(p) <= i && SoFarChild(node, at, i, t)
    ensures j < |Picked(p)| && Underway(Picked(p)[j], Labels(whole, t))
    decreases node, |t|, 1
  {
    j := i - FirstPicked(p);
    ChildSoFar(whole, at, node, p, i, t);
    PickedIsChild(p, j);
  }

  lemma {:induction false} PickedSoFar(whole: Plan, at: seq<nat>, node: Node, p: Plan, j: nat, t: seq<Spot>)
    requires Sits(whole, at, node, p) && AllDrawn(whole, t) && (p.Fork? || p.Route? || p.Switch?)
    requires j < |Picked(p)| && Underway(Picked(p)[j], Labels(whole, t))
    ensures SoFarChild(node, at, j + FirstPicked(p), t)
    decreases node, |t|, 1
  {
    PickedIsChild(p, j);
    ChildSoFar(whole, at, node, p, j + FirstPicked(p), t);
  }

  lemma {:induction false} OneSoFar(whole: Plan, at: seq<nat>, node: Node, p: Plan, t: seq<Spot>)
    requires Sits(whole, at, node, p) && AllDrawn(whole, t) && (p.Fork? || p.Route? || p.Switch?)
    ensures SoFarOne(node, at, FirstPicked(p), t) <==>
      exists j :: 0 <= j < |Picked(p)| && Underway(Picked(p)[j], Labels(whole, t))
    decreases node, |t|, 2
  {
    var first := FirstPicked(p);
    if SoFarOne(node, at, first, t) {
      var i: nat :| first <= i && ChildOf(node, i).Some? && RunsSoFar(ChildOf(node, i).value, at + [i], t);
      var j := SoFarPicked(whole, at, node, p, i, t);
    }
    if j :| 0 <= j < |Picked(p)| && Underway(Picked(p)[j], Labels(whole, t)) {
      PickedSoFar(whole, at, node, p, j, t);
    }
  }

  /** The gate and then, if control went on, one of the children. */
  lemma {:induction false} ViaSoFar(whole: Plan, at: seq<nat>, node: Node, p: Plan, gate: string, t: seq<Spot>)
    requires Sits(whole, at, node, p) && AllDrawn(whole, t) && (p.Fork? || p.Route? || p.Switch?)
    requires OwnName(p, Gate) == Some(gate)
    ensures UnderwayVia(gate, Picked(p), Labels(whole, t)) <==>
      |t| > 0 && t[0] == Spot(at, Gate) && (|t| == 1 || SoFarOne(node, at, FirstPicked(p), t[1..]))
    decreases node, |t|, 2
  {
    if |t| > 0 {
      IsOwn(whole, at, p, t[0], Gate);
      CutLabels(whole, t, 1);
      OneSoFar(whole, at, node, p, t[1..]);
    }
  }

  lemma {:induction false} FromSoFar(whole: Plan, at: seq<nat>, node: Node, p: Plan, i: nat, t: seq<Spot>)
    requires Sits(whole, at, node, p) && AllDrawn(whole, t) && node.Sequence? && !Single(node) && i < |node.steps.list|
    ensures p.Chain? && |p.steps| == |node.steps.list|
    ensures SoFarFrom(node, at, i, t) <==> UnderwayFrom(p.steps, i, Labels(whole, t))
    decreases node, |t|, 1, |node.steps.list| - i
  {
    ChildSits(whole, at, node, p, i);
    var step, q := node.steps.list[i], p.steps[i];
    SoFarIff(whole, at + [i], step, q, t);
    if i + 1 < |p.steps| {
      forall k | 0 <= k <= |t|
        ensures Runs(step, at + [i], t[..k]) && SoFarFrom(node, at, i + 1, t[k..]) <==>
          Completes(q, Labels(whole, t)[..k]) && UnderwayFrom(p.steps, i + 1, Labels(whole, t)[k..])
      {
        CutLabels(whole, t, k);
        RunsIff(whole, at + [i], step, q, t[..k]);
        FromSoFar(whole, at, node, p, i + 1, t[k..]);
      }
    }
  }

  lemma {:induction false} SwitchSoFar(whole: Plan, at: seq<nat>, node: Node, p: Plan, t: seq<Spot>)
    requires Sits(whole, at, node, p) && AllDrawn(whole, t) && node.RouteSwitch? && !Single(node)
    ensures RunsSoFar(node, at, t) <==> Underway(p, Labels(whole, t))
    decreases node, |t|, 3
  {
    ChildSoFar(whole, at, node, p, 0, t);
    forall k | 0 <= k < |t|
      ensures RunsChild(node, at, 0, t[..k]) && t[k] == Spot(at, Gate) && (k + 1 == |t| || SoFarOne(node, at, 1, t[k + 1..])) <==>
        Completes(p.decide, Labels(whole, t)[..k]) && UnderwayVia(p.gate, p.targets, Labels(whole, t)[k..])
    {
      CutLabels(whole, t, k);
      ChildRuns(whole, at, node, p, 0, t[..k]);
      ViaSoFar(whole, at, node, p, p.gate, t[k..]);
      assert Picked(p) == p.targets && FirstPicked(p) == 1;
      assert t[k..][1..] == t[k + 1..];
    }
  }

  lemma {:induction false} LoopSoFar(whole: Plan, at: seq<nat>, node: Node, p: Plan, t: seq<Spot>)
    requires Sits(whole, at, node, p) && AllDrawn(whole, t) && node.Loop? && !Single(node)
    ensures RunsSoFar(node, at, t) <==> Underway(p, Labels(whole, t))
    decreases node, |t|, 3
  {
    ChildSoFar(whole, at, node, p, 0, t);
    forall k | 0 <= k < |t|
      ensures RunsChild(node, at, 0, t[..k]) && t[k] == Spot(at, Gate) && (k + 1 == |t| || RunsSoFar(node, at, t[k + 1..])) <==>
        Completes(p.body, Labels(whole, t)[..k]) && Labels(whole, t)[k] == p.gate &&
        (k + 1 == |t| || Underway(p, Labels(whole, t)[k + 1..]))
    {
      RoundRuns(whole, at, node, p, t, k);
      SoFarIff(whole, at, node, p, t[k + 1..]);
    }
  }

  /** One turn of a schedule, after its gate. */
  lemma {:induction false} TurnRuns(whole: Plan, at: seq<nat>, node: Node, p: Plan, t: seq<Spot>, k: nat)
    requires Sits(whole, at, node, p) && AllDrawn(whole, t) && node.Schedule? && !Single(node) && 1 <= k < |t|
    ensures p.Timer?
    ensures RunsChild(node, at, 0, t[1..k]) <==> Completes(p.step, Labels(whole, t)[1..k])
    ensures AllDrawn(whole, t[k..]) && Labels(whole, t)[k..] == Labels(whole, t[k..])
    decreases node, |t|, 2
  {
    CutLabels(whole, t, 1);
    CutLabels(whole, t[1..], k - 1);
    assert t[1..][..k - 1] == t[1..k] && Labels(whole, t)[1..][..k - 1] == Labels(whole, t)[1..k];
    ChildRuns(whole, at, node, p, 0, t[1..k]);
    CutLabels(whole, t, k);
  }

  lemma {:induction false} TimerSoFar(whole: Plan, at: seq<nat>, node: Node, p: Plan, t: seq<Spot>)
    requires Sits(whole, at, node, p) && AllDrawn(whole, t) && node.Schedule? && !Single(node)
    ensures RunsSoFar(node, at, t) <==> Underway(p, Labels(whole, t))
    decreases node, |t|, 3
  {
    if |t| > 0 {
      IsOwn(whole, at, p, t[0], Gate);
      CutLabels(whole, t, 1);
      ChildSoFar(whole, at, node, p, 0, t[1..]);
      forall k | 1 <= k < |t|
        ensures RunsChild(node, at, 0, t[1..k]) && RunsSoFar(node, at, t[k..]) <==>
          Completes(p.step, Labels(whole, t)[1..k]) && Underway(p, Labels(whole, t)[k..])
      {
        TurnRuns(whole, at, node, p, t, k);
        SoFarIff(whole, at, node, p, t[k..]);
      }
    }
  }

  lemma {:induction false} WrapSoFar(whole: Plan, at: seq<nat>, node: Node, p: Plan, t: seq<Spot>)
    requires Sits(whole, at, node, p) && AllDrawn(whole, t) && (node.Scoped? || node.Subflow?) && !Single(node)
    ensures RunsSoFar(node, at, t) <==> Underway(p, Labels(whole, t))
    decreases node, |t|, 3
  {
    if |t| > 0 {
      IsOwn(whole, at, p, t[0], Gate);
      CutLabels(whole, t, 1);
      ChildSoFar(whole, at, node, p, 0, t[1..]);
    }
  }

  /** The same of runs that may still be going. */
  lemma {:induction false} SoFarIff(whole: Plan, at: seq<nat>, node: Node, p: Plan, t: seq<Spot>)
    requires Sits(whole, at, node, p) && AllDrawn(whole, t)
    ensures RunsSoFar(node, at, t) <==> Underway(p, Labels(whole, t))
    decreases node, |t|, 5
  {
    if Single(node) {
      OneLabel(whole, at, p, t);
    } else if node.Sequence? {
      FromSoFar(whole, at, node, p, 0, t);
    } else if node.InParallel? {
      ViaSoFar(whole, at, node, p, p.fork, t);
      RunsIff(whole, at, node, p, t);
      assert Picked(p) == p.branches && FirstPicked(p) == 0;
    } else if node.Conditional? {
      ViaSoFar(whole, at, node, p, p.gate, t);
      assert Picked(p) == p.targets && FirstPicked(p) == 0;
    } else if node.RouteSwitch? {
      SwitchSoFar(whole, at, node, p, t);
    } else if node.Loop? {
      LoopSoFar(whole, at, node, p, t);
    } else if node.Schedule? {
      TimerSoFar(whole, at, node, p, t);
    } else {
      WrapSoFar(whole, at, node, p, t);
    }
  }

  // ---------- Runs pass through drawn spots only ----------

  lemma BothDrawn(whole: Plan, t: seq<Spot>, k: nat)
    requires k <= |t| && AllDrawn(whole, t[..k]) && AllDrawn(whole, t[k..])
    ensures AllDrawn(whole, t)
  {
    forall i | 0 <= i < |t|
      ensures NameAt(whole, t[i]).Some?
    {
      assert t[i] == if i < k then t[..k][i] else t[k..][i - k];
    }
  }

  lemma FirstDrawn(whole: Plan, t: seq<Spot>)
    requires |t| > 0 && NameAt(whole, t[0]).Some? && AllDrawn(whole, t[1..])
    ensures AllDrawn(whole, t)
  {
    BothDrawn(whole, t, 1);
  }

  lemma {:induction false} ChildRunDrawn(whole: Plan, at: seq<nat>, node: Node, p: Plan, i: nat, t: seq<Spot>)
    requires Sits(whole, at, node, p) && RunsChild(node, at, i, t)
    ensures AllDrawn(whole, t)
    decreases node, |t|, 0
  {
    ChildSits(whole, at, node, p, i);
    RunDrawn(whole, at + [i], ChildOf(node, i).value, Child(p, i).value, t);
  }

  lemma {:induction false} OneRunDrawn(whole: Plan, at: seq<nat>, node: Node, p: Plan, first: nat, t: seq<Spot>)
    requires Sits(whole, at, node, p) && RunsOne(node, at, first, t)
    ensures AllDrawn(whole, t)
    decreases node, |t|, 1
  {
    var i: nat :| first <= i && ChildOf(node, i).Some? && Runs(ChildOf(node, i).value, at + [i], t);
    ChildRunDrawn(whole, at, node, p, i, t);
  }

  lemma {:induction false} FromRunDrawn(whole: Plan, at: seq<nat>, node: Node, p: Plan, i: nat, t: seq<Spot>)
    requires Sits(whole, at, node, p) && node.Sequence? && !Single(node) && RunsFrom(node, at, i, t)
    ensures AllDrawn(whole, t)
    decreases node, |t|, 1, |node.steps.list| - i
  {
    if i + 1 == |node.steps.list| {
      ChildRunDrawn(whole, at, node, p, i, t);
    } else {
      var k :| 0 <= k <= |t| && Runs(node.steps.list[i], at + [i], t[..k]) && RunsFrom(node, at, i + 1, t[k..]);
      ChildRunDrawn(whole, at, node, p, i, t[..k]);
      FromRunDrawn(whole, at, node, p, i + 1, t[k..]);
      BothDrawn(whole, t, k);
    }
  }

  lemma {:induction false} RunDrawn(whole: Plan, at: seq<nat>, node: Node, p: Plan, t: seq<Spot>)
    requires Sits(whole, at, node, p) && Runs(node, at, t)
    ensures AllDrawn(whole, t)
    decreases node, |t|, 2
  {
    assert OwnName(p, Gate).Some? ==> NameAt(whole, Spot(at, Gate)).Some?;
    if Single(node) {
    } else if node.Sequence? {
      FromRunDrawn(whole, at, node, p, 0, t);
    } else if node.InParallel? {
      var n := |t| - 1;
      OneRunDrawn(whole, at, node, p, 0, t[1..n]);
      assert NameAt(whole, Spot(at, Join)).Some?;
      assert t[1..][..n - 1] == t[1..n] && t[1..][n - 1..] == [t[n]];
      BothDrawn(whole, t[1..], n - 1);
      FirstDrawn(whole, t);
    } else if node.Conditional? {
      if !(node.default.None? && t == [Spot(at, Gate)]) {
        OneRunDrawn(whole, at, node, p, 0, t[1..]);
        FirstDrawn(whole, t);
      }
    } else if node.RouteSwitch? {
      var k :| 0 <= k < |t| && RunsChild(node, at, 0, t[..k]) && t[k] == Spot(at, Gate) && RunsOne(node, at, 1, t[k + 1..]);
      ChildRunDrawn(whole, at, node, p, 0, t[..k]);
      OneRunDrawn(whole, at, node, p, 1, t[k + 1..]);
      assert t[k..][1..] == t[k + 1..];
      FirstDrawn(whole, t[k..]);
      BothDrawn(whole, t, k);
    } else if node.Loop? {
      var k :| 0 <= k < |t| && RunsChild(node, at, 0, t[..k]) && t[k] == Spot(at, Gate) && (k + 1 == |t| || Runs(node, at, t[k + 1..]));
      ChildRunDrawn(whole, at, node, p, 0, t[..k]);
      if k + 1 < |t| { RunDrawn(whole, at, node, p, t[k + 1..]); }
      assert t[k..][1..] == t[k + 1..];
      FirstDrawn(whole, t[k..]);
      BothDrawn(whole, t, k);
    } else {
      ChildRunDrawn(whole, at, node, p, 0, t[1..]);
      FirstDrawn(whole, t);
    }
  }

  lemma {:induction false} ChildSoFarDrawn(whole: Plan, at: seq<nat>, node: Node, p: Plan, i: nat, t: seq<Spot>)
    requires Sits(whole, at, node, p) && SoFarChild(node, at, i, t)
    ensures AllDrawn(whole, t)
    decreases node, |t|, 0
  {
    ChildSits(whole, at, node, p, i);
    SoFarDrawn(whole, at + [i], ChildOf(node, i).value, Child(p, i).value, t);
  }

  lemma {:induction false} OneSoFarDrawn(whole: Plan, at: seq<nat>, node: Node, p: Plan, first: nat, t: seq<Spot>)
    requires Sits(whole, at, node, p) && SoFarOne(node, at, first, t)
    ensures AllDrawn(whole, t)
    decreases node, |t|, 1
  {
    var i: nat :| first <= i && ChildOf(node, i).Some? && RunsSoFar(ChildOf(node, i).value, at + [i], t);
    ChildSoFarDrawn(whole, at, node, p, i, t);
  }

  lemma {:induction false} FromSoFarDrawn(whole: Plan, at: seq<nat>, node: Node, p: Plan, i: nat, t: seq<Spot>)
    requires Sits(whole, at, node, p) && node.Sequence? && !Single(node) && SoFarFrom(node, at, i, t)
    ensures AllDrawn(whole, t)
    decreases node, |t|, 1, |node.steps.list| - i
  {
    if RunsSoFar(node.steps.list[i], at + [i], t) {
      ChildSoFarDrawn(whole, at, node, p, i, t);
    } else {
      var k :| 0 <= k <= |t| && Runs(node.steps.list[i], at + [i], t[..k]) && SoFarFrom(node, at, i + 1, t[k..]);
      ChildRunDrawn(whole, at, node, p, i, t[..k]);
      FromSoFarDrawn(whole, at, node, p, i + 1, t[k..]);
      BothDrawn(whole, t, k);
    }
  }

  lemma {:induction false} SwitchSoFarDrawn(whole: Plan, at: seq<nat>, node: Node, p: Plan, t: seq<Spot>)
    requires Sits(whole, at, node, p) && node.RouteSwitch? && !Single(node) && RunsSoFar(node, at, t)
    ensures AllDrawn(whole, t)
    decreases node, |t|, 2
  {
    if SoFarChild(node, at, 0, t) {
      ChildSoFarDrawn(whole, at, node, p, 0, t);
    } else {
      var k :| 0 <= k < |t| && RunsChild(node, at, 0, t[..k]) && t[k] == Spot(at, Gate) && (k + 1 == |t| || SoFarOne(node, at, 1, t[k + 1..]));
      ChildRunDrawn(whole, at, node, p, 0, t[..k]);
      if k + 1 < |t| { OneSoFarDrawn(whole, at, node, p, 1, t[k + 1..]); }
      assert t[k..][1..] == t[k + 1..] && NameAt(whole, Spot(at, Gate)).Some?;
      FirstDrawn(whole, t[k..]);
      BothDrawn(whole, t, k);
    }
  }

  lemma {:induction false} LoopSoFarDrawn(whole: Plan, at: seq<nat>, node: Node, p: Plan, t: seq<Spot>)
    requires Sits(whole, at, node, p) && node.Loop? && !Single(node) && RunsSoFar(node, at, t)
    ensures AllDrawn(whole, t)
    decreases node, |t|, 2
  {
    if SoFarChild(node, at, 0, t) {
      ChildSoFarDrawn(whole, at, node, p, 0, t);
    } else {
      var k :| 0 <= k < |t| && RunsChild(node, at, 0, t[..k]) && t[k] == Spot(at, Gate) && (k + 1 == |t| || RunsSoFar(node, at, t[k + 1..]));
      ChildRunDrawn(whole, at, node, p, 0, t[..k]);
      if k + 1 < |t| { SoFarDrawn(whole, at, node, p, t[k + 1..]); }
      assert t[k..][1..] == t[k + 1..] && NameAt(whole, Spot(at, Gate)).Some?;
      FirstDrawn(whole, t[k..]);
      BothDrawn(whole, t, k);
    }
  }

  /** A step that finished and what came after it. */
  lemma {:induction false} AgainDrawn(whole: Plan, at: seq<nat>, node: Node, p: Plan, t: seq<Spot>, k: nat)
    requires Sits(whole, at, node, p) && node.Schedule? && !Single(node) && 1 <= k < |t|
    requires RunsChild(node, at, 0, t[1..k]) && RunsSoFar(node, at, t[k..])
    ensures AllDrawn(whole, t[1..])
    decreases node, |t|, 1
  {
    ChildRunDrawn(whole, at, node, p, 0, t[1..k]);
    SoFarDrawn(whole, at, node, p, t[k..]);
    assert t[1..][..k - 1] == t[1..k] && t[1..][k - 1..] == t[k..];
    BothDrawn(whole, t[1..], k - 1);
  }

  lemma {:induction false} TimerSoFarDrawn(whole: Plan, at: seq<nat>, node: Node, p: Plan, t: seq<Spot>)
    requires Sits(whole, at, node, p) && node.Schedule? && !Single(node) && RunsSoFar(node, at, t)
    ensures AllDrawn(whole, t)
    decreases node, |t|, 2
  {
    assert NameAt(whole, Spot(at, Gate)).Some?;
    if |t| > 1 {
      if SoFarChild(node, at, 0, t[1..]) {
        ChildSoFarDrawn(whole, at, node, p, 0, t[1..]);
      } else {
        var k :| 1 <= k < |t| && RunsChild(node, at, 0, t[1..k]) && RunsSoFar(node, at, t[k..]);
        AgainDrawn(whole, at, node, p, t, k);
      }
      FirstDrawn(whole, t);
    }
  }

  lemma {:induction false} SoFarDrawn(whole: Plan, at: seq<nat>, node: Node, p: Plan, t: seq<Spot>)
    requires Sits(whole, at, node, p) && RunsSoFar(node, at, t)
    ensures AllDrawn(whole, t)
    decreases node, |t|, 3
  {
    assert OwnName(p, Gate).Some? ==> NameAt(whole, Spot(at, Gate)).Some?;
    if Single(node) {
    } else if node.Sequence? {
      FromSoFarDrawn(whole, at, node, p, 0, t);
    } else if node.RouteSwitch? {
      SwitchSoFarDrawn(whole, at, node, p, t);
    } else if node.Loop? {
      LoopSoFarDrawn(whole, at, node, p, t);
    } else if node.Schedule? {
      TimerSoFarDrawn(whole, at, node, p, t);
    } else if node.InParallel? && Runs(node, at, t) {
      RunDrawn(whole, at, node, p, t);
    } else if |t| > 1 {
      if node.InParallel? || node.Conditional? {
        OneSoFarDrawn(whole, at, node, p, 0, t[1..]);
      } else {
        ChildSoFarDrawn(whole, at, node, p, 0, t[1..]);
      }
      FirstDrawn(whole, t);
    }
  }
}
