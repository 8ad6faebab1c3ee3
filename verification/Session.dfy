/**
 The turn queue of one agent session, and the death of the agent.

 A prompt waits for the one before it whatever became of that one, installs its accumulator, and
 races the agent's answer against the death signal. Between any two steps the agent may notify,
 answer or die, and new prompts may arrive.
 */
module Session {
  import opened TurnAccumulator
  import opened Wrappers

  datatype Outcome = Stopped(reason: string) | RequestFailed | AgentDied

  /** `Answered` is the moment between the race settling and the turn running on to its end. */
  datatype Phase = Queued | Running | Answered(outcome: Outcome) | Done(outcome: Outcome, result: Option<TurnResult>)

  datatype TurnRecord = TurnRecord(phase: Phase, received: seq<Update>)

  datatype State = State(turns: seq<TurnRecord>, active: Option<nat>, commands: seq<string>, dead: bool, rejections: nat)

  datatype Event =
    | Prompt
    | Start(k: nat)
    | Respond(k: nat, outcome: Outcome)
    | DeathSeen(k: nat)
    | Finish(k: nat)
    | Notify(update: Update)
    | Die

  // ---------- The steps ----------

  function WithPhase(turns: seq<TurnRecord>, k: nat, phase: Phase): seq<TurnRecord>
    requires k < |turns|
  {
    turns[k := turns[k].(phase := phase)]
  }

  function Receive(s: State, u: Update): State {
    var t := if u.CommandsUpdate? then s.(commands := u.commands) else s;
    if t.active.Some? && t.active.value < |t.turns| then
      var k := t.active.value;
      t.(turns := t.turns[k := t.turns[k].(received := t.turns[k].received + [u])])
    else t
  }

  /** The queue lets `k` run: the prompt before it, if any, has settled one way or the other. */
  predicate CanStart(s: State, k: nat) {
    k < |s.turns| && s.turns[k].phase.Queued? && (k > 0 ==> s.turns[k - 1].phase.Done?)
  }

  function Next(s: State, e: Event): State {
    match e
    case Prompt => s.(turns := s.turns + [TurnRecord(Queued, [])])
    case Start(k) =>
      if CanStart(s, k) then s.(turns := WithPhase(s.turns, k, Running), active := Some(k)) else s
    case Respond(k, outcome) =>
      if k < |s.turns| && s.turns[k].phase.Running? && !outcome.AgentDied? then
        s.(turns := WithPhase(s.turns, k, Answered(outcome)))
      else s
    case DeathSeen(k) =>
      if k < |s.turns| && s.turns[k].phase.Running? && s.dead then s.(turns := WithPhase(s.turns, k, Answered(AgentDied))) else s
    case Finish(k) =>
      if k < |s.turns| && s.turns[k].phase.Answered? then
        var outcome := s.turns[k].phase.outcome;
        var result := if outcome.Stopped? then Some(ResultOf(Run(s.turns[k].received))) else None;
        s.(turns := WithPhase(s.turns, k, Done(outcome, result)), active := None)
      else s
    case Notify(u) => Receive(s, u)
    case Die => if s.dead then s else s.(dead := true, rejections := s.rejections + 1)
  }

  const OPENED := State([], None, [], false, 0)

  function After(es: seq<Event>): State
    decreases |es|
  {
    if es == [] then OPENED else Next(After(es[..|es| - 1]), es[|es| - 1])
  }

  // ---------- The session's fields, updated in place ----------

  class AcpSession {
    var turns: seq<TurnRecord>
    var activeTurn: Option<nat>
    var commands: seq<string>
    var alive: bool  // the death promise has not been rejected
    ghost var rejections: nat

    ghost function View(): State
      reads this
    {
      State(turns, activeTurn, commands, !alive, rejections)
    }

    constructor ()
      ensures View() == OPENED
    {
      turns, activeTurn, commands, alive, rejections := [], None, [], true, 0;
    }

    method OnNotification(update: Update)
      modifies this
      ensures View() == Next(old(View()), Notify(update))
    {
      if update.CommandsUpdate? {
        commands := update.commands;
      }
      if activeTurn.Some? && activeTurn.value < |turns| {
        var k := activeTurn.value;
        turns := turns[k := turns[k].(received := turns[k].received + [update])];
      }
    }

    method OnPrompt()
      modifies this
      ensures View() == Next(old(View()), Prompt)
    {
      turns := turns + [TurnRecord(Queued, [])];
    }

    method OnStart(k: nat)
      requires CanStart(View(), k)
      modifies this
      ensures View() == Next(old(View()), Start(k))
    {
      turns := WithPhase(turns, k, Running);
      activeTurn := Some(k);
    }

    /** The turn runs on after the race, and its `finally` clears the active turn. */
    method OnFinish(k: nat)
      requires k < |turns| && turns[k].phase.Answered?
      modifies this
      ensures View() == Next(old(View()), Finish(k))
    {
      var outcome := turns[k].phase.outcome;
      var result: Option<TurnResult> := None;
      if outcome.Stopped? {
        result := Some(ResultOf(Run(turns[k].received)));
      }
      turns := WithPhase(turns, k, Done(outcome, result));
      activeTurn := None;
    }

    method OnDie()
      modifies this
      ensures View() == Next(old(View()), Die)
    {
      if !alive {
        return;
      }
      alive := false;
      rejections := rejections + 1;
    }
  }

  // ---------- What every interleaving keeps ----------

  predicate InFlight(p: Phase) {
    p.Running? || p.Answered?
  }

  /** The first `n` turns are done, the next may be in flight, and all later ones are queued. */
  ghost predicate Serial(s: State, n: nat) {
    && n <= |s.turns|
    && (forall k :: 0 <= k < n ==> s.turns[k].phase.Done?)
    && (forall k :: n < k < |s.turns| ==> s.turns[k].phase.Queued?)
    && (n < |s.turns| ==> !s.turns[n].phase.Done?)
    && s.active == (if n < |s.turns| && InFlight(s.turns[n].phase) then Some(n) else None)
    && (forall k :: 0 <= k < |s.turns| && s.turns[k].phase.Queued? ==> s.turns[k].received == [])
  }

  lemma FinishSerial(s: State, n: nat, k: nat) returns (m: nat)
    requires Serial(s, n)
    ensures Serial(Next(s, Finish(k)), m) && n <= m <= n + 1
  {
    m := if k == n && k < |s.turns| && s.turns[k].phase.Answered? then n + 1 else n;
  }

  lemma StartSerial(s: State, n: nat, k: nat)
    requires Serial(s, n)
    ensures Serial(Next(s, Start(k)), n)
  {
  }

  lemma StepSerial(s: State, n: nat, e: Event) returns (m: nat)
    requires Serial(s, n)
    ensures Serial(Next(s, e), m) && n <= m <= n + 1
  {
    match e
    case Finish(k) => m := FinishSerial(s, n, k);
    case Start(k) => m := n; StartSerial(s, n, k);
    case _ => m := n;
  }

  lemma {:induction false} AfterSerial(es: seq<Event>) returns (n: nat)
    ensures Serial(After(es), n)
    decreases |es|
  {
    if es == [] {
      n := 0;
    } else {
      var m := AfterSerial(es[..|es| - 1]);
      n := StepSerial(After(es[..|es| - 1]), m, es[|es| - 1]);
    }
  }

  /** Turns run one at a time and in call order: when one is in flight, all before it are done and all after it still queued, and it is the active one. */
  lemma OneTurnAtATime(es: seq<Event>, k: nat)
    requires k < |After(es).turns| && InFlight(After(es).turns[k].phase)
    ensures After(es).active == Some(k)
    ensures forall j :: 0 <= j < k ==> After(es).turns[j].phase.Done?
    ensures forall j :: k < j < |After(es).turns| ==> After(es).turns[j].phase.Queued?
  {
    var n := AfterSerial(es);
    assert k == n;
  }

  // ---------- Notifications ----------

  /** The notifications that arrived while turn `k` was the active one. */
  function Heard(es: seq<Event>, k: nat): seq<Update>
    decreases |es|
  {
    if es == [] then []
    else
      var init, e := es[..|es| - 1], es[|es| - 1];
      Heard(init, k) + if e.Notify? && After(init).active == Some(k) then [e.update] else []
  }

  lemma StepReceives(s: State, n: nat, e: Event, k: nat)
    requires Serial(s, n) && k < |s.turns|
    ensures k < |Next(s, e).turns|
    ensures Next(s, e).turns[k].received ==
      s.turns[k].received + if e.Notify? && s.active == Some(k) then [e.update] else []
  {
  }

  lemma StepAdds(s: State, n: nat, e: Event, k: nat)
    requires Serial(s, n) && k >= |s.turns|
    ensures k < |Next(s, e).turns| ==> Next(s, e).turns[k].received == []
    ensures s.active != Some(k)
  {
  }

  /** Each turn accumulates exactly the notifications that arrive while it runs, and no other turn does. */
  lemma {:induction false} TurnsHearTheirOwn(es: seq<Event>, k: nat)
    ensures k < |After(es).turns| ==> After(es).turns[k].received == Heard(es, k)
    ensures k >= |After(es).turns| ==> Heard(es, k) == []
    decreases |es|
  {
    if es != [] {
      var init, e := es[..|es| - 1], es[|es| - 1];
      TurnsHearTheirOwn(init, k);
      var n := AfterSerial(init);
      if k < |After(init).turns| { StepReceives(After(init), n, e, k); } else { StepAdds(After(init), n, e, k); }
    }
  }

  predicate Honest(s: State, k: nat) {
    k < |s.turns| && s.turns[k].phase.Done? ==>
      s.turns[k].phase.result == if s.turns[k].phase.outcome.Stopped? then Some(ResultOf(Run(s.turns[k].received))) else None
  }

  lemma StepHonest(s: State, n: nat, e: Event, k: nat)
    requires Serial(s, n) && Honest(s, k)
    ensures Honest(Next(s, e), k)
  {
  }

  lemma {:induction false} AfterHonest(es: seq<Event>, k: nat)
    ensures Honest(After(es), k)
    decreases |es|
  {
    if es != [] {
      var n := AfterSerial(es[..|es| - 1]);
      AfterHonest(es[..|es| - 1], k);
      StepHonest(After(es[..|es| - 1]), n, es[|es| - 1], k);
    }
  }

  /** A turn that completed resolves with what its own notifications make, whatever other turns did. */
  lemma ResultsAreTheirOwn(es: seq<Event>, k: nat)
    requires k < |After(es).turns| && After(es).turns[k].phase.Done? && After(es).turns[k].phase.outcome.Stopped?
    ensures After(es).turns[k].phase.result == Some(ResultOf(Run(Heard(es, k))))
  {
    TurnsHearTheirOwn(es, k);
    AfterHonest(es, k);
  }

  /** What the agent's answer, or the death signal, that came first while turn `k` was running settled it with. */
  function FirstOutcome(es: seq<Event>, k: nat): Option<Outcome>
    decreases |es|
  {
    if es == [] then None
    else
      var init, e := es[..|es| - 1], es[|es| - 1];
      var s := After(init);
      if FirstOutcome(init, k).Some? then FirstOutcome(init, k)
      else if k >= |s.turns| || !s.turns[k].phase.Running? then None
      else if e.Respond? && e.k == k && !e.outcome.AgentDied? then Some(e.outcome)
      else if e == DeathSeen(k) && s.dead then Some(AgentDied)
      else None
  }

  /** The turn is where its outcome puts it. */
  predicate SettledBy(t: TurnRecord, first: Option<Outcome>) {
    match t.phase
    case Answered(outcome) => first == Some(outcome)
    case Done(outcome, result) => first == Some(outcome) && (result.Some? <==> outcome.Stopped?)
    case _ => first == None
  }

  lemma StepOutcome(s: State, e: Event, k: nat, first: Option<Outcome>)
    requires k < |s.turns| && SettledBy(s.turns[k], first)
    ensures k < |Next(s, e).turns|
    ensures SettledBy(Next(s, e).turns[k],
      if first.Some? || !s.turns[k].phase.Running? then first
      else if e.Respond? && e.k == k && !e.outcome.AgentDied? then Some(e.outcome)
      else if e == DeathSeen(k) && s.dead then Some(AgentDied)
      else None)
  {
  }

  lemma StepOpens(s: State, e: Event, k: nat)
    requires k >= |s.turns| && k < |Next(s, e).turns|
    ensures Next(s, e).turns[k].phase.Queued?
  {
  }

  /** A turn ends as it was answered first: with a result exactly if that was a stop, and without one if the request failed or the agent died. */
  lemma {:induction false} TurnsEndAsAnswered(es: seq<Event>, k: nat)
    ensures k < |After(es).turns| ==> SettledBy(After(es).turns[k], FirstOutcome(es, k))
    ensures k >= |After(es).turns| ==> FirstOutcome(es, k) == None
    decreases |es|
  {
    if es != [] {
      var init, e := es[..|es| - 1], es[|es| - 1];
      TurnsEndAsAnswered(init, k);
      if k < |After(init).turns| {
        StepOutcome(After(init), e, k, FirstOutcome(init, k));
      } else if k < |After(es).turns| {
        StepOpens(After(init), e, k);
      }
    }
  }

  /** The session's commands are those of the last update that listed any, whether a turn was active or not. */
  function LastCommands(es: seq<Event>): seq<string>
    decreases |es|
  {
    if es == [] then []
    else
      var e := es[|es| - 1];
      if e.Notify? && e.update.CommandsUpdate? then e.update.commands else LastCommands(es[..|es| - 1])
  }

  lemma {:induction false} CommandsAreLast(es: seq<Event>)
    ensures After(es).commands == LastCommands(es)
    decreases |es|
  {
    if es != [] { CommandsAreLast(es[..|es| - 1]); }
  }

  // ---------- Death and progress ----------

  lemma StepDies(s: State, e: Event)
    ensures Next(s, e).dead <==> s.dead || e == Die
    ensures Next(s, e).rejections == s.rejections + if e == Die && !s.dead then 1 else 0
  {
  }

  /** The death signal fires once, however often the agent is reported dead. */
  lemma {:induction false} DeathFiresOnce(es: seq<Event>)
    ensures After(es).rejections == (if After(es).dead then 1 else 0)
    ensures After(es).dead <==> Die in es
    decreases |es|
  {
    if es != [] {
      var init, e := es[..|es| - 1], es[|es| - 1];
      DeathFiresOnce(init);
      StepDies(After(init), e);
      assert es == init + [e];
    }
  }

  function Left(turns: seq<TurnRecord>): nat
    decreases |turns|
  {
    if turns == [] then 0
    else
      Left(turns[..|turns| - 1]) + Weight(turns[|turns| - 1].phase)
  }

  function Weight(p: Phase): nat {
    match p
    case Queued => 3
    case Running => 2
    case Answered(_) => 1
    case Done(_, _) => 0
  }

  lemma {:induction false} LeftChanges(turns: seq<TurnRecord>, k: nat, phase: Phase)
    requires k < |turns|
    ensures Left(WithPhase(turns, k, phase)) == Left(turns) - Weight(turns[k].phase) + Weight(phase)
    decreases |turns|
  {
    var n := |turns| - 1;
    if k < n {
      LeftChanges(turns[..n], k, phase);
      assert WithPhase(turns, k, phase)[..n] == WithPhase(turns[..n], k, phase);
    } else {
      assert WithPhase(turns, k, phase)[..n] == turns[..n];
    }
  }

  predicate OwnStep(e: Event) {
    e.Start? || e.DeathSeen? || e.Finish?
  }

  /** The session's own next step once the agent is dead. */
  lemma NextOwnStep(s: State, n: nat) returns (e: Event)
    requires Serial(s, n) && s.dead && n < |s.turns|
    ensures OwnStep(e) && Left(Next(s, e).turns) < Left(s.turns)
    ensures Next(s, e).dead && |Next(s, e).turns| == |s.turns|
  {
    match s.turns[n].phase
    case Queued =>
      e := Start(n);
      LeftChanges(s.turns, n, Running);
    case Running =>
      e := DeathSeen(n);
      LeftChanges(s.turns, n, Answered(AgentDied));
    case Answered(outcome) =>
      e := Finish(n);
      LeftChanges(s.turns, n, Next(s, e).turns[n].phase);
  }

  function RunFrom(s: State, es: seq<Event>): State
    decreases |es|
  {
    if es == [] then s else RunFrom(Next(s, es[0]), es[1..])
  }

  lemma {:induction false} AfterRunsOn(es: seq<Event>, more: seq<Event>)
    ensures After(es + more) == RunFrom(After(es), more)
    decreases |more|
  {
    if more == [] {
      assert es + more == es;
    } else {
      AfterSnoc(es, more[0]);
      AfterRunsOn(es + [more[0]], more[1..]);
      Regroup(es, more);
    }
  }

  lemma AfterSnoc(es: seq<Event>, e: Event)
    ensures After(es + [e]) == Next(After(es), e)
  {
    assert (es + [e])[..|es|] == es;
  }

  lemma Regroup(es: seq<Event>, more: seq<Event>)
    requires more != []
    ensures es + more == (es + [more[0]]) + more[1..]
  {
  }

  ghost predicate AllDone(s: State) {
    forall k :: 0 <= k < |s.turns| ==> s.turns[k].phase.Done?
  }

  lemma {:induction false} SettlesOnItsOwn(s: State, n: nat) returns (more: seq<Event>)
    requires Serial(s, n) && s.dead
    ensures |more| <= Left(s.turns) && forall i :: 0 <= i < |more| ==> OwnStep(more[i])
    ensures |RunFrom(s, more).turns| == |s.turns| && AllDone(RunFrom(s, more))
    decreases Left(s.turns)
  {
    if n == |s.turns| {
      more := [];
    } else {
      var e := NextOwnStep(s, n);
      var m := StepSerial(s, n, e);
      var rest := SettlesOnItsOwn(Next(s, e), m);
      more := [e] + rest;
      assert more[1..] == rest;
    }
  }

  /** After death the queue can settle without any answer from the agent, in as many steps as it still needs. */
  lemma QueueSettlesOnItsOwn(es: seq<Event>) returns (more: seq<Event>)
    requires After(es).dead
    ensures |more| <= Left(After(es).turns) && forall i :: 0 <= i < |more| ==> OwnStep(more[i])
    ensures |After(es + more).turns| == |After(es).turns| && AllDone(After(es + more))
  {
    var n := AfterSerial(es);
    more := SettlesOnItsOwn(After(es), n);
    AfterRunsOn(es, more);
  }

  // ---------- Every prompt settles, however many more arrive ----------

  /** A step of the session itself that does something. */
  predicate TakesStep(s: State, e: Event) {
    OwnStep(e) && Next(s, e) != s
  }

  /** What the turns up to `k` still need. */
  function LeftUpTo(s: State, k: nat): nat
    requires k < |s.turns|
  {
    Left(s.turns[..k + 1])
  }

  lemma LeftUpToLast(s: State, k: nat)
    requires k < |s.turns|
    ensures LeftUpTo(s, k) == 0 ==> s.turns[k].phase.Done?
  {
    assert s.turns[..k + 1][|s.turns[..k + 1]| - 1] == s.turns[k];
  }

  lemma {:induction false} SamePhasesLeft(a: seq<TurnRecord>, b: seq<TurnRecord>)
    requires |a| == |b| && forall i :: 0 <= i < |a| ==> a[i].phase == b[i].phase
    ensures Left(a) == Left(b)
    decreases |a|
  {
    if a != [] { SamePhasesLeft(a[..|a| - 1], b[..|b| - 1]); }
  }

  lemma PhaseLeftUpTo(s: State, i: nat, phase: Phase, k: nat)
    requires i < |s.turns| && k < |s.turns|
    ensures Left(WithPhase(s.turns, i, phase)[..k + 1]) ==
      LeftUpTo(s, k) + if i <= k then Weight(phase) - Weight(s.turns[i].phase) else 0
  {
    if i <= k {
      LeftChanges(s.turns[..k + 1], i, phase);
      assert WithPhase(s.turns, i, phase)[..k + 1] == WithPhase(s.turns[..k + 1], i, phase);
    } else {
      assert WithPhase(s.turns, i, phase)[..k + 1] == s.turns[..k + 1];
    }
  }

  /** A turn behind one that is not done takes no step. */
  lemma StepsInFront(s: State, n: nat, e: Event, k: nat)
    requires Serial(s, n) && TakesStep(s, e) && k < |s.turns| && !s.turns[k].phase.Done?
    ensures e.k <= k
  {
  }

  /** What the steps of a turn do to its phase. */
  lemma PhaseFalls(s: State, e: Event)
    requires (OwnStep(e) || e.Respond?) && Next(s, e) != s
    ensures e.k < |s.turns|
    ensures exists phase :: Next(s, e).turns == WithPhase(s.turns, e.k, phase) && Weight(phase) < Weight(s.turns[e.k].phase)
    ensures s.turns[e.k].phase != Next(s, e).turns[e.k].phase && !s.turns[e.k].phase.Done?
  {
    var phase := Next(s, e).turns[e.k].phase;
    assert Next(s, e).turns == WithPhase(s.turns, e.k, phase);
  }

  lemma PhaseStepLeft(s: State, n: nat, e: Event, k: nat)
    requires Serial(s, n) && k < |s.turns| && (OwnStep(e) || e.Respond?) && Next(s, e) != s
    ensures k < |Next(s, e).turns| && (s.turns[k].phase.Done? ==> Next(s, e).turns[k].phase.Done?)
    ensures LeftUpTo(Next(s, e), k) <= LeftUpTo(s, k)
    ensures TakesStep(s, e) && !s.turns[k].phase.Done? ==> LeftUpTo(Next(s, e), k) < LeftUpTo(s, k)
  {
    PhaseFalls(s, e);
    var phase :| Next(s, e).turns == WithPhase(s.turns, e.k, phase) && Weight(phase) < Weight(s.turns[e.k].phase);
    PhaseLeftUpTo(s, e.k, phase, k);
    if TakesStep(s, e) && !s.turns[k].phase.Done? { StepsInFront(s, n, e, k); }
  }

  /** No event adds to what the turns up to `k` need, and a step of the session takes from it while turn `k` is not done. */
  lemma StepLeft(s: State, n: nat, e: Event, k: nat)
    requires Serial(s, n) && k < |s.turns|
    ensures k < |Next(s, e).turns| && (s.turns[k].phase.Done? ==> Next(s, e).turns[k].phase.Done?)
    ensures LeftUpTo(Next(s, e), k) <= LeftUpTo(s, k)
    ensures TakesStep(s, e) && !s.turns[k].phase.Done? ==> LeftUpTo(Next(s, e), k) < LeftUpTo(s, k)
  {
    if (OwnStep(e) || e.Respond?) && Next(s, e) != s {
      PhaseStepLeft(s, n, e, k);
    } else if e.Prompt? {
      assert Next(s, e).turns[..k + 1] == s.turns[..k + 1];
    } else {
      SamePhasesLeft(Next(s, e).turns[..k + 1], s.turns[..k + 1]);
    }
  }

  /** How many of the events of `more` after `es` are such steps. */
  function StepsTaken(es: seq<Event>, more: seq<Event>): nat
    decreases |more|
  {
    if more == [] then 0
    else
      var init, e := more[..|more| - 1], more[|more| - 1];
      StepsTaken(es, init) + if TakesStep(After(es + init), e) then 1 else 0
  }

  lemma {:induction false} LeftRunsOut(es: seq<Event>, more: seq<Event>, k: nat)
    requires k < |After(es).turns|
    ensures k < |After(es + more).turns|
    ensures After(es + more).turns[k].phase.Done? || LeftUpTo(After(es + more), k) + StepsTaken(es, more) <= LeftUpTo(After(es), k)
    decreases |more|
  {
    if more == [] {
      assert es + more == es;
    } else {
      var init, e := more[..|more| - 1], more[|more| - 1];
      LeftRunsOut(es, init, k);
      assert (es + init) + [e] == es + more;
      AfterSnoc(es + init, e);
      var n := AfterSerial(es + init);
      StepLeft(After(es + init), n, e, k);
    }
  }

  lemma {:induction false} StaysDead(es: seq<Event>, more: seq<Event>)
    requires After(es).dead
    ensures After(es + more).dead
    decreases |more|
  {
    if more == [] {
      assert es + more == es;
    } else {
      var init, e := more[..|more| - 1], more[|more| - 1];
      StaysDead(es, init);
      assert (es + init) + [e] == es + more;
      AfterSnoc(es + init, e);
    }
  }

  /** After death every prompt settles without any answer from the agent, whatever else happens and however many prompts follow it:
      a step of the session is possible until it is done, and it is done once as many were taken as the turns up to it need. */
  lemma DeathSettlesEveryPrompt(es: seq<Event>, more: seq<Event>, k: nat) returns (e: Event)
    requires After(es).dead && k < |After(es).turns|
    ensures k < |After(es + more).turns|
    ensures StepsTaken(es, more) >= LeftUpTo(After(es), k) ==> After(es + more).turns[k].phase.Done?
    ensures !After(es + more).turns[k].phase.Done? ==> TakesStep(After(es + more), e)
  {
    LeftRunsOut(es, more, k);
    LeftUpToLast(After(es + more), k);
    StaysDead(es, more);
    var n := AfterSerial(es + more);
    e := Prompt;
    if !After(es + more).turns[k].phase.Done? { e := NextOwnStep(After(es + more), n); }
  }

  /** The session's own steps never lead away from that: each one that does anything lowers what is left. */
  lemma OwnStepsProgress(es: seq<Event>, e: Event)
    requires OwnStep(e) || e.Respond?
    ensures Next(After(es), e) == After(es) || Left(Next(After(es), e).turns) < Left(After(es).turns)
  {
    var s := After(es);
    if Next(s, e) != s {
      LeftChanges(s.turns, e.k, Next(s, e).turns[e.k].phase);
    }
  }

  /** The queue is never poisoned: the first turn that is not done may start or is in flight already, however the turns before it ended. */
  lemma NextInLineRuns(es: seq<Event>) returns (k: nat)
    requires !AllDone(After(es))
    ensures k < |After(es).turns| && !After(es).turns[k].phase.Done?
    ensures forall j :: 0 <= j < k ==> After(es).turns[j].phase.Done?
    ensures After(es).turns[k].phase.Queued? ==>
      Next(After(es), Start(k)).turns[k].phase.Running? && Next(After(es), Start(k)).active == Some(k)
    ensures !After(es).turns[k].phase.Queued? ==> After(es).active == Some(k)
  {
    k := AfterSerial(es);
  }
}
