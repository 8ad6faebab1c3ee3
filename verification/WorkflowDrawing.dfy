/** The drawing and the document: every walk is a run of the document, place by place, and every run is a walk. */
module WorkflowDrawing {
  import opened Wrappers
  import opened WorkflowPlan
  import opened WorkflowNames
  import opened WorkflowTraces
  import opened WorkflowReach
  import opened WorkflowDocument
  import opened WorkflowSpots
  import opened WorkflowRuns

  /** `t` is a run of the whole document. */
  ghost predicate RunOf(root: Node, t: seq<Spot>) {
    Runs(root, [], t)
  }

  /** `w` is the drawing of the run `t` of the document, from start to end. */
  ghost predicate DrawsRun(root: Node, w: Trace, t: seq<Spot>) {
    var f := NameFlow(root);
    RunOf(root, t) && w == [f.start] + Labels(f.body, t) + [f.end]
  }

  ghost predicate DrawsRunSoFar(root: Node, w: Trace, t: seq<Spot>) {
    var f := NameFlow(root);
    RunsSoFar(root, [], t) && w == [f.start] + Labels(f.body, t)
  }

  lemma RootSits(root: Node)
    ensures var f := NameFlow(root); Sits(f.body, [], root, f.body)
  {
    var f := NameFlow(root);
    NameIsFresh(root, {f.start});
    NameMirrors(root, {f.start});
  }

  /** Apart from the terminals, every drawn node stands for one spot of the document, and no other. */
  lemma DrawnForOneSpot(root: Node, x: string)
    ensures var f := NameFlow(root);
      IsDrawn(f, x) && x != f.start && x != f.end <==>
      exists s :: NameAt(f.body, s) == Some(x) && forall u :: NameAt(f.body, u) == Some(x) ==> u == s
  {
    var f := NameFlow(root);
    RootSits(root);
    FlowWellNamed(root);
    IsDrawnIffHad(f, x);
    var around := Bracketed(f).branches;
    assert around[0] == f.body;
    assert AnyHas(around, x) <==> Has(f.body, x);
    if Has(f.body, x) {
      var s := SpotOf(f.body, x);
      forall u | NameAt(f.body, u) == Some(x)
        ensures u == s
      {
        LabelsDiffer(f.body, u, s);
      }
    }
    if s :| NameAt(f.body, s) == Some(x) { LabelIsHad(f.body, s); }
  }

  lemma RunOfSpots(root: Node, t: seq<Spot>)
    requires RunOf(root, t)
    ensures Completes(NameFlow(root).body, Labels(NameFlow(root).body, t))
  {
    var p := NameFlow(root).body;
    RootSits(root);
    RunDrawn(p, [], root, p, t);
    RunsIff(p, [], root, p, t);
  }

  lemma SpotsOfRun(root: Node, ids: Trace) returns (t: seq<Spot>)
    requires Completes(NameFlow(root).body, ids)
    ensures RunOf(root, t) && Labels(NameFlow(root).body, t) == ids
  {
    var p := NameFlow(root).body;
    RootSits(root);
    CompletesHas(p, ids);
    t := SpotsOf(p, ids);
    RunsIff(p, [], root, p, t);
  }

  lemma SoFarOfSpots(root: Node, t: seq<Spot>)
    requires RunsSoFar(root, [], t)
    ensures |t| > 0 && Underway(NameFlow(root).body, Labels(NameFlow(root).body, t))
  {
    var p := NameFlow(root).body;
    RootSits(root);
    SoFarDrawn(p, [], root, p, t);
    SoFarIff(p, [], root, p, t);
    UnderwayHas(p, Labels(p, t));
  }

  lemma SpotsOfSoFar(root: Node, ids: Trace) returns (t: seq<Spot>)
    requires Underway(NameFlow(root).body, ids)
    ensures RunsSoFar(root, [], t) && Labels(NameFlow(root).body, t) == ids
  {
    var p := NameFlow(root).body;
    RootSits(root);
    UnderwayHas(p, ids);
    t := SpotsOf(p, ids);
    SoFarIff(p, [], root, p, t);
  }

  lemma Between(start: string, ids: Trace, end: string)
    ensures ([start] + ids + [end])[1..|ids| + 1] == ids
  {
  }

  lemma WalkIsRun(root: Node, w: Trace) returns (t: seq<Spot>)
    requires EndReached(NameFlow(root), w)
    ensures DrawsRun(root, w, t)
  {
    DrawingMeansPlan(root, w);
    t := SpotsOfRun(root, w[1..|w| - 1]);
    assert w == [w[0]] + w[1..|w| - 1] + [w[|w| - 1]];
  }

  lemma RunIsWalk(root: Node, w: Trace, t: seq<Spot>)
    requires DrawsRun(root, w, t)
    ensures EndReached(NameFlow(root), w)
  {
    var f := NameFlow(root);
    RunOfSpots(root, t);
    Between(f.start, Labels(f.body, t), f.end);
    DrawingMeansPlan(root, w);
  }

  /** For every document: the walks from start to end are exactly its complete runs, drawn spot by spot. */
  lemma DrawingMeansDocument(root: Node, w: Trace)
    ensures EndReached(NameFlow(root), w) <==> exists t :: DrawsRun(root, w, t)
  {
    if EndReached(NameFlow(root), w) { var t := WalkIsRun(root, w); }
    if t :| DrawsRun(root, w, t) { RunIsWalk(root, w, t); }
  }

  /** A walk that has not come to the end. */
  ghost predicate Going(f: Flow, w: Trace) {
    FlowWalk(f, w) && w[|w| - 1] != f.end
  }

  lemma WalkIsSoFar(root: Node, w: Trace) returns (t: seq<Spot>)
    requires Going(NameFlow(root), w) && |w| > 1
    ensures DrawsRunSoFar(root, w, t)
  {
    DrawingShowsPlan(root, w);
    t := SpotsOfSoFar(root, w[1..]);
    assert w == [w[0]] + w[1..];
  }

  lemma SoFarIsWalk(root: Node, w: Trace, t: seq<Spot>)
    requires DrawsRunSoFar(root, w, t)
    ensures Going(NameFlow(root), w)
  {
    SoFarOfSpots(root, t);
    assert w[1..] == Labels(NameFlow(root).body, t);
    DrawingShowsPlan(root, w);
  }

  /** And the walks from start that have not come to the end are exactly its runs so far. */
  lemma DrawingShowsEveryRun(root: Node, w: Trace)
    ensures Going(NameFlow(root), w) <==> w == [NameFlow(root).start] || exists t :: DrawsRunSoFar(root, w, t)
  {
    if Going(NameFlow(root), w) && |w| > 1 { var t := WalkIsSoFar(root, w); }
    if w == [NameFlow(root).start] { DrawingShowsPlan(root, w); }
    if t :| DrawsRunSoFar(root, w, t) { SoFarIsWalk(root, w, t); }
  }

  /** The structural test of a document says whether some run of it comes to an end. */
  lemma CompletableIffSomeRun(root: Node)
    ensures Completable(root) <==> exists t :: RunOf(root, t)
  {
    var f := NameFlow(root);
    FinishesLike(root, {f.start});
    NameIsFresh(root, {f.start});
    if Completable(root) {
      var ids := Finish(f.body);
      var t := SpotsOfRun(root, ids);
    }
    if t :| RunOf(root, t) {
      RunOfSpots(root, t);
      CompletedCanFinish(f.body, Labels(f.body, t));
    }
  }
}
