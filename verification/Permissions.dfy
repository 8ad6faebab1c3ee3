/**
 The permission gate of a served agent: the declarative policy, and the broker on which a call that
 must be asked about is parked until the client answers, the deadline passes or the session is cancelled.
 */
module Permissions {
  import opened Wrappers

  // ---------- The policy ----------

  datatype Decision = Deny | Ask | Allow

  datatype Rule = Rule(tool: Option<string>, kind: Option<string>, decision: Decision)

  datatype Policy = Policy(rules: seq<Rule>, default: Option<Decision>)

  predicate Matches(rule: Rule, tool: string, kind: Option<string>) {
    rule.tool == Some(tool) || (rule.kind.Some? && rule.kind == kind)
  }

  predicate SomeRule(rules: seq<Rule>, decision: Decision, tool: string, kind: Option<string>) {
    exists i :: 0 <= i < |rules| && rules[i].decision == decision && Matches(rules[i], tool, kind)
  }

  function Evaluate(policy: Policy, tool: string, kind: Option<string>): Decision {
    if SomeRule(policy.rules, Deny, tool, kind) then Deny
    else if SomeRule(policy.rules, Ask, tool, kind) then Ask
    else if SomeRule(policy.rules, Allow, tool, kind) then Allow
    else if policy.default.Some? then policy.default.value
    else Allow
  }

  method EvaluateServePolicy(policy: Policy, tool: string, kind: Option<string>) returns (decision: Decision)
    ensures decision == Evaluate(policy, tool, kind)
  {
    var tiers := [Deny, Ask, Allow];
    for t := 0 to |tiers|
      invariant forall d :: 0 <= d < t ==> !SomeRule(policy.rules, tiers[d], tool, kind)
    {
      var matched := false;
      for i := 0 to |policy.rules|
        invariant matched <==> exists j :: 0 <= j < i && policy.rules[j].decision == tiers[t] && Matches(policy.rules[j], tool, kind)
      {
        matched := matched || (policy.rules[i].decision == tiers[t] && Matches(policy.rules[i], tool, kind));
      }
      if matched {
        assert SomeRule(policy.rules, tiers[t], tool, kind);
        assert t > 0 ==> !SomeRule(policy.rules, tiers[0], tool, kind);
        assert t > 1 ==> !SomeRule(policy.rules, tiers[1], tool, kind);
        return tiers[t];
      }
    }
    assert !SomeRule(policy.rules, tiers[0], tool, kind) && !SomeRule(policy.rules, tiers[1], tool, kind)
      && !SomeRule(policy.rules, tiers[2], tool, kind);
    decision := if policy.default.Some? then policy.default.value else Allow;
  }

  /** The higher, the more restrictive. */
  function Severity(d: Decision): nat {
    match d
    case Deny => 2
    case Ask => 1
    case Allow => 0
  }

  /** The answer is the most restrictive decision among the rules that match, and the default only when none does. */
  lemma MostRestrictiveWins(policy: Policy, tool: string, kind: Option<string>)
    ensures (exists r :: r in policy.rules && Matches(r, tool, kind)) ==>
      exists r :: r in policy.rules && Matches(r, tool, kind) && r.decision == Evaluate(policy, tool, kind)
    ensures forall r :: r in policy.rules && Matches(r, tool, kind) ==>
      Severity(r.decision) <= Severity(Evaluate(policy, tool, kind))
    ensures (forall r :: r in policy.rules ==> !Matches(r, tool, kind)) ==>
      Evaluate(policy, tool, kind) == if policy.default.Some? then policy.default.value else Allow
  {
    var d := Evaluate(policy, tool, kind);
    forall r | r in policy.rules && Matches(r, tool, kind)
      ensures Severity(r.decision) <= Severity(d) && SomeRule(policy.rules, d, tool, kind)
    {
      var i :| 0 <= i < |policy.rules| && policy.rules[i] == r;
      assert SomeRule(policy.rules, r.decision, tool, kind);
    }
    if r :| r in policy.rules && Matches(r, tool, kind) {
      var i :| 0 <= i < |policy.rules| && policy.rules[i].decision == d && Matches(policy.rules[i], tool, kind);
      assert policy.rules[i] in policy.rules;
    }
  }

  /** A rule applies if it names the tool, or if it names the call's kind, and not otherwise: the answer is at least as restrictive as
      each such rule says, is what one of them says, and is the default, or to allow, when there is none. */
  lemma NamingRulesDecide(policy: Policy, tool: string, kind: Option<string>)
    ensures forall r :: r in policy.rules && r.tool == Some(tool) ==> Severity(r.decision) <= Severity(Evaluate(policy, tool, kind))
    ensures forall r :: r in policy.rules && r.kind.Some? && r.kind == kind ==> Severity(r.decision) <= Severity(Evaluate(policy, tool, kind))
    ensures (exists r :: r in policy.rules && (r.tool == Some(tool) || (r.kind.Some? && r.kind == kind)) && r.decision == Evaluate(policy, tool, kind))
      || ((forall r :: r in policy.rules ==> r.tool != Some(tool) && (r.kind.None? || r.kind != kind))
          && Evaluate(policy, tool, kind) == if policy.default.Some? then policy.default.value else Allow)
  {
    MostRestrictiveWins(policy, tool, kind);
    forall r | r in policy.rules && (r.tool == Some(tool) || (r.kind.Some? && r.kind == kind))
      ensures Severity(r.decision) <= Severity(Evaluate(policy, tool, kind))
    {
      assert Matches(r, tool, kind);
    }
  }

  /** A deny rule that names the tool or the call's kind denies, whatever the other rules say. */
  lemma DenyRuleDenies(policy: Policy, tool: string, kind: Option<string>, r: Rule)
    requires r in policy.rules && r.decision == Deny
    requires r.tool == Some(tool) || (r.kind.Some? && r.kind == kind)
    ensures Evaluate(policy, tool, kind) == Deny
  {
    NamingRulesDecide(policy, tool, kind);
  }

  /** The order of the rules, and repeating them, makes no difference. */
  lemma RuleOrderIrrelevant(a: Policy, b: Policy, tool: string, kind: Option<string>)
    requires a.default == b.default && forall r :: r in a.rules <==> r in b.rules
    ensures Evaluate(a, tool, kind) == Evaluate(b, tool, kind)
  {
    MostRestrictiveWins(a, tool, kind);
    MostRestrictiveWins(b, tool, kind);
    if r :| r in a.rules && Matches(r, tool, kind) {
      var x :| x in a.rules && Matches(x, tool, kind) && x.decision == Evaluate(a, tool, kind);
      var y :| y in b.rules && Matches(y, tool, kind) && y.decision == Evaluate(b, tool, kind);
      assert Severity(Evaluate(a, tool, kind)) == Severity(Evaluate(b, tool, kind));
    }
  }

  // ---------- The broker, step by step ----------

  datatype Reply = Reply(allows: bool, cancels: bool, reason: Option<string>)

  /** What settled a park. */
  datatype Source = Forwarder | Deadline | Cancelled

  datatype Settlement = Settlement(reply: Reply, source: Source)

  /** One call of `ask`; `resolved` is what its promise resolved with. */
  datatype Park = Park(requestId: string, sessionId: string, resolved: Option<Settlement>, forwardDone: bool, awake: bool)

  datatype State = State(parks: seq<Park>, pending: map<string, nat>)

  datatype Event =
    | AskFor(requestId: string, sessionId: string)
    | ForwardSettles(i: nat, reply: Reply)
    | ForwardFails(i: nat, message: string)
    | DeadlinePasses(i: nat)
    | CancelSession(sessionId: string)
    | Wake(i: nat)

  const TIMED_OUT := Reply(false, false, Some("permission request timed out"))
  const TURN_CANCELLED := Reply(false, true, Some("turn cancelled"))

  predicate Fresh(s: State, requestId: string) {
    forall i :: 0 <= i < |s.parks| ==> s.parks[i].requestId != requestId
  }

  /** `answer`: the park is looked up by its request; later answers find nothing. */
  function Answer(s: State, requestId: string, settlement: Settlement): State {
    if requestId !in s.pending || s.pending[requestId] >= |s.parks| then s
    else
      var i := s.pending[requestId];
      State(s.parks[i := Resolve(s.parks[i], settlement)], s.pending - {requestId})
  }

  /** Resolving a promise that is resolved already does nothing. */
  function Resolve(p: Park, settlement: Settlement): Park {
    if p.resolved.None? then p.(resolved := Some(settlement)) else p
  }

  predicate Unwound(s: State, requestId: string, sessionId: string) {
    requestId in s.pending && s.pending[requestId] < |s.parks| && s.parks[s.pending[requestId]].sessionId == sessionId
  }

  predicate Unwinds(s: State, i: nat, sessionId: string, among: set<string>)
    requires i < |s.parks|
  {
    s.parks[i].requestId in among && Unwound(s, s.parks[i].requestId, sessionId) && s.pending[s.parks[i].requestId] == i
  }

  /** The session's parks among some pending requests are unwound. */
  function CancelAmong(s: State, sessionId: string, among: set<string>): State {
    State(
      seq(|s.parks|, i requires 0 <= i < |s.parks| =>
        if Unwinds(s, i, sessionId, among) then Resolve(s.parks[i], Settlement(TURN_CANCELLED, Cancelled)) else s.parks[i]),
      map id | id in s.pending && !(id in among && Unwound(s, id, sessionId)) :: s.pending[id])
  }

  /** `cancelSession`: every park of the session is unwound at once. */
  function Cancel(s: State, sessionId: string): State {
    CancelAmong(s, sessionId, s.pending.Keys)
  }

  function Next(s: State, e: Event): State {
    match e
    case AskFor(requestId, sessionId) =>
      if Fresh(s, requestId) then
        State(s.parks + [Park(requestId, sessionId, None, false, false)], s.pending[requestId := |s.parks|])
      else s
    case ForwardSettles(i, reply) =>
      if i < |s.parks| && !s.parks[i].forwardDone then
        Answer(s.(parks := s.parks[i := s.parks[i].(forwardDone := true)]), s.parks[i].requestId, Settlement(reply, Forwarder))
      else s
    case ForwardFails(i, message) =>
      if i < |s.parks| && !s.parks[i].forwardDone then
        Answer(s.(parks := s.parks[i := s.parks[i].(forwardDone := true)]), s.parks[i].requestId,
          Settlement(Reply(false, false, Some(message)), Forwarder))
      else s
    case DeadlinePasses(i) =>
      if i < |s.parks| && !s.parks[i].awake then Answer(s, s.parks[i].requestId, Settlement(TIMED_OUT, Deadline)) else s
    case CancelSession(sessionId) => Cancel(s, sessionId)
    case Wake(i) =>
      if i < |s.parks| && s.parks[i].resolved.Some? && !s.parks[i].awake then
        State(s.parks[i := s.parks[i].(awake := true)], s.pending - {s.parks[i].requestId})
      else s
  }

  function After(es: seq<Event>): State
    decreases |es|
  {
    if es == [] then State([], map[]) else Next(After(es[..|es| - 1]), es[|es| - 1])
  }

  // ---------- The broker's map, updated in place ----------

  class ServePermissionBroker {
    var parks: seq<Park>
    var pending: map<string, nat>

    ghost function View(): State
      reads this
    {
      State(parks, pending)
    }

    constructor ()
      ensures View() == State([], map[])
    {
      parks, pending := [], map[];
    }

    method DoAnswer(requestId: string, settlement: Settlement)
      modifies this
      ensures View() == Answer(old(View()), requestId, settlement)
    {
      if requestId !in pending || pending[requestId] >= |parks| {
        return;
      }
      var i := pending[requestId];
      pending := pending - {requestId};
      parks := parks[i := Resolve(parks[i], settlement)];
    }

    /** Walks the pending entries, in whatever order, and unwinds those of the session. */
    method DoCancelSession(sessionId: string)
      requires Inv(View())
      modifies this
      ensures View() == Cancel(old(View()), sessionId)
    {
      ghost var s := View();
      var todo := pending.Keys;
      CancelNone(s, sessionId);
      while todo != {}
        invariant todo <= s.pending.Keys
        invariant View() == CancelAmong(s, sessionId, s.pending.Keys - todo)
        decreases |todo|
      {
        var requestId :| requestId in todo;
        CancelOneMore(s, sessionId, s.pending.Keys - todo, requestId);
        Walked(s.pending.Keys, todo, requestId);
        todo := todo - {requestId};
        var i := pending[requestId];
        if parks[i].sessionId != sessionId {
          continue;
        }
        pending := pending - {requestId};
        parks := parks[i := Resolve(parks[i], Settlement(TURN_CANCELLED, Cancelled))];
      }
      assert s.pending.Keys - {} == s.pending.Keys;
    }
  }

  lemma CancelNone(s: State, sessionId: string)
    ensures CancelAmong(s, sessionId, s.pending.Keys - s.pending.Keys) == s
  {
    var t := CancelAmong(s, sessionId, s.pending.Keys - s.pending.Keys);
    assert t.parks == s.parks && t.pending == s.pending;
  }

  /** One entry more of the walk. */
  lemma Walked(keys: set<string>, todo: set<string>, id: string)
    requires todo <= keys && id in todo
    ensures keys - (todo - {id}) == (keys - todo) + {id}
  {
  }

  /** The parks and the pending entries when one entry more is walked. */
  lemma CancelledOne(s: State, sessionId: string, among: set<string>, id: string)
    requires Inv(s) && id in s.pending && id !in among && among <= s.pending.Keys
    ensures var t, u, k := CancelAmong(s, sessionId, among), CancelAmong(s, sessionId, among + {id}), s.pending[id];
      && id in t.pending && t.pending[id] == k < |s.parks| == |t.parks| && t.parks[k] == s.parks[k]
      && u.parks == (if s.parks[k].sessionId != sessionId then t.parks else t.parks[k := Resolve(s.parks[k], Settlement(TURN_CANCELLED, Cancelled))])
      && u.pending == (if s.parks[k].sessionId != sessionId then t.pending else t.pending - {id})
  {
    assert Parked(s, id);
    assert forall j :: 0 <= j < |s.parks| && j != s.pending[id] ==> s.parks[j].requestId != id;
  }

  lemma CancelOneMore(s: State, sessionId: string, among: set<string>, id: string)
    requires Inv(s) && id in s.pending && id !in among && among <= s.pending.Keys
    ensures var t := CancelAmong(s, sessionId, among);
      && id in t.pending && t.pending[id] == s.pending[id] < |t.parks|
      && t.parks[t.pending[id]] == s.parks[t.pending[id]]
      && CancelAmong(s, sessionId, among + {id}) ==
        if t.parks[t.pending[id]].sessionId != sessionId then t
        else State(t.parks[t.pending[id] := Resolve(t.parks[t.pending[id]], Settlement(TURN_CANCELLED, Cancelled))], t.pending - {id})
  {
    CancelledOne(s, sessionId, among, id);
  }

  // ---------- What every interleaving keeps ----------

  ghost predicate Parked(s: State, id: string)
    requires id in s.pending
  {
    s.pending[id] < |s.parks| && s.parks[s.pending[id]].requestId == id && s.parks[s.pending[id]].resolved.None?
  }

  /** `pending` holds exactly the parks nothing has settled yet. */
  ghost predicate Inv(s: State) {
    && (forall i, j :: 0 <= i < j < |s.parks| ==> s.parks[i].requestId != s.parks[j].requestId)
    && (forall id :: id in s.pending ==> Parked(s, id))
    && (forall i :: 0 <= i < |s.parks| ==>
        (s.parks[i].resolved.None? <==> s.parks[i].requestId in s.pending && s.pending[s.parks[i].requestId] == i))
  }

  lemma AnswerKeeps(s: State, requestId: string, settlement: Settlement)
    requires Inv(s)
    ensures Inv(Answer(s, requestId, settlement))
  {
  }

  lemma CancelKeeps(s: State, sessionId: string)
    requires Inv(s)
    ensures Inv(Cancel(s, sessionId))
  {
    var t := Cancel(s, sessionId);
    forall id | id in t.pending
      ensures Parked(t, id)
    {
      assert Parked(s, id);
    }
  }

  lemma AskKeeps(s: State, requestId: string, sessionId: string)
    requires Inv(s)
    ensures Inv(Next(s, AskFor(requestId, sessionId)))
  {
    assert requestId in s.pending ==> Parked(s, requestId);
  }

  lemma WakeKeeps(s: State, i: nat)
    requires Inv(s)
    ensures Inv(Next(s, Wake(i)))
  {
  }

  lemma StepKeeps(s: State, e: Event)
    requires Inv(s)
    ensures Inv(Next(s, e))
  {
    match e
    case AskFor(requestId, sessionId) => AskKeeps(s, requestId, sessionId);
    case ForwardSettles(i, reply) =>
      if i < |s.parks| { AnswerKeeps(s.(parks := s.parks[i := s.parks[i].(forwardDone := true)]), s.parks[i].requestId, Settlement(reply, Forwarder)); }
    case ForwardFails(i, message) =>
      if i < |s.parks| {
        AnswerKeeps(s.(parks := s.parks[i := s.parks[i].(forwardDone := true)]), s.parks[i].requestId,
          Settlement(Reply(false, false, Some(message)), Forwarder));
      }
    case DeadlinePasses(i) => if i < |s.parks| { AnswerKeeps(s, s.parks[i].requestId, Settlement(TIMED_OUT, Deadline)); }
    case CancelSession(sessionId) => CancelKeeps(s, sessionId);
    case Wake(i) => WakeKeeps(s, i);
  }

  lemma {:induction false} AfterKeeps(es: seq<Event>)
    ensures Inv(After(es))
    decreases |es|
  {
    if es != [] {
      AfterKeeps(es[..|es| - 1]);
      StepKeeps(After(es[..|es| - 1]), es[|es| - 1]);
    }
  }

  // ---------- The first answer wins ----------

  /** What event `e` would answer park `i` of session `sessionId` with. */
  function AnswerOf(e: Event, i: nat, sessionId: string): Option<Settlement> {
    match e
    case ForwardSettles(j, reply) => if i == j then Some(Settlement(reply, Forwarder)) else None
    case ForwardFails(j, message) => if i == j then Some(Settlement(Reply(false, false, Some(message)), Forwarder)) else None
    case DeadlinePasses(j) => if i == j then Some(Settlement(TIMED_OUT, Deadline)) else None
    case CancelSession(id) => if id == sessionId then Some(Settlement(TURN_CANCELLED, Cancelled)) else None
    case _ => None
  }

  /** The first answer to park `i` after it was asked for. */
  function FirstAnswer(es: seq<Event>, i: nat): Option<Settlement>
    decreases |es|
  {
    if es == [] then None
    else
      var init, e := es[..|es| - 1], es[|es| - 1];
      if i >= |After(init).parks| then None
      else if FirstAnswer(init, i).Some? then FirstAnswer(init, i)
      else AnswerOf(e, i, After(init).parks[i].sessionId)
  }

  lemma StepAnswers(s: State, e: Event, i: nat)
    requires Inv(s) && i < |s.parks|
    requires s.parks[i].resolved.None? ==> !s.parks[i].forwardDone && !s.parks[i].awake
    ensures i < |Next(s, e).parks|
    ensures Next(s, e).parks[i].requestId == s.parks[i].requestId && Next(s, e).parks[i].sessionId == s.parks[i].sessionId
    ensures Next(s, e).parks[i].resolved ==
      if s.parks[i].resolved.Some? then s.parks[i].resolved else AnswerOf(e, i, s.parks[i].sessionId)
    ensures Next(s, e).parks[i].resolved.None? ==> !Next(s, e).parks[i].forwardDone && !Next(s, e).parks[i].awake
  {
  }

  lemma StepParks(s: State, e: Event, i: nat)
    requires i >= |s.parks| && i < |Next(s, e).parks|
    ensures Next(s, e).parks[i].resolved.None? && !Next(s, e).parks[i].forwardDone && !Next(s, e).parks[i].awake
  {
  }

  lemma {:induction false} FirstAnswerWins(es: seq<Event>, i: nat)
    ensures i < |After(es).parks| ==> After(es).parks[i].resolved == FirstAnswer(es, i)
    ensures i < |After(es).parks| && After(es).parks[i].resolved.None? ==>
      !After(es).parks[i].forwardDone && !After(es).parks[i].awake
    decreases |es|
  {
    if es != [] {
      var init, e := es[..|es| - 1], es[|es| - 1];
      FirstAnswerWins(init, i);
      AfterKeeps(init);
      if i < |After(init).parks| {
        StepAnswers(After(init), e, i);
      } else if i < |After(es).parks| {
        StepParks(After(init), e, i);
      }
    }
  }

  /** Each park is settled at most once, by whichever answer came first, and is pending exactly until then. */
  lemma ParksSettleOnce(es: seq<Event>, i: nat)
    requires i < |After(es).parks|
    ensures After(es).parks[i].resolved == FirstAnswer(es, i)
    ensures FirstAnswer(es, i).None? <==>
      After(es).parks[i].requestId in After(es).pending && After(es).pending[After(es).parks[i].requestId] == i
    ensures forall id :: id in After(es).pending ==> After(es).pending[id] < |After(es).parks|
  {
    FirstAnswerWins(es, i);
    AfterKeeps(es);
    assert forall id :: id in After(es).pending ==> Parked(After(es), id);
  }

  // ---------- The gate ----------

  datatype Verdict = Go | Stop(guidance: string) | StillParked

  function OrElse(reason: Option<string>, otherwise: string): string {
    if reason.Some? then reason.value else otherwise
  }

  /** `beforeToolCall`: the policy decides, or the park the call was asked about on. */
  function Gate(policy: Policy, tool: string, kind: Option<string>, parked: Option<Settlement>): Verdict {
    match Evaluate(policy, tool, kind)
    case Allow => Go
    case Deny => Stop("tool '" + tool + "' is denied by the ACP serve policy")
    case Ask =>
      if parked.None? then StillParked
      else if parked.value.reply.allows then Go
      else Stop(OrElse(parked.value.reply.reason,
        if parked.value.reply.cancels then "turn cancelled" else "the user rejected the tool call"))
  }

  /** A gated call goes ahead only on the policy's word, or on an allowing reply of the forwarder that
      arrived before any deadline, failure or cancellation; and no other reply lets it through. */
  lemma GateOpensOnlyOnAllow(policy: Policy, tool: string, kind: Option<string>, es: seq<Event>, i: nat)
    requires i < |After(es).parks|
    ensures Gate(policy, tool, kind, After(es).parks[i].resolved).Go? <==>
      || Evaluate(policy, tool, kind) == Allow
      || (Evaluate(policy, tool, kind) == Ask && exists reply: Reply :: reply.allows && FirstAnswer(es, i) == Some(Settlement(reply, Forwarder)))
  {
    FirstAnswerWins(es, i);
    AnswersAllow(es, i);
    var first := FirstAnswer(es, i);
    if first.Some? && first.value.reply.allows { assert first == Some(Settlement(first.value.reply, Forwarder)); }
  }

  /** What a stopped call is told: the policy's word, the deadline, the cancellation or the forwarder's failure, whichever it was. */
  lemma StoppedCallIsTold(policy: Policy, tool: string, kind: Option<string>, es: seq<Event>, i: nat)
    requires i < |After(es).parks|
    ensures var verdict := Gate(policy, tool, kind, After(es).parks[i].resolved);
      && (Evaluate(policy, tool, kind) == Deny ==> verdict == Stop("tool '" + tool + "' is denied by the ACP serve policy"))
      && (Evaluate(policy, tool, kind) == Ask ==>
          && (FirstAnswer(es, i).None? ==> verdict == StillParked)
          && (FirstAnswer(es, i).Some? ==>
              match FirstAnswer(es, i).value.source
              case Deadline => verdict == Stop("permission request timed out")
              case Cancelled => verdict == Stop("turn cancelled")
              case Forwarder => !FirstAnswer(es, i).value.reply.allows ==>
                verdict == Stop(OrElse(FirstAnswer(es, i).value.reply.reason, if FirstAnswer(es, i).value.reply.cancels then "turn cancelled" else "the user rejected the tool call"))))
  {
    FirstAnswerWins(es, i);
    SourcesSay(es, i);
  }

  lemma {:induction false} SourcesSay(es: seq<Event>, i: nat)
    ensures FirstAnswer(es, i).Some? ==>
      match FirstAnswer(es, i).value.source
      case Deadline => FirstAnswer(es, i).value.reply == Reply(false, false, Some("permission request timed out"))
      case Cancelled => FirstAnswer(es, i).value.reply == Reply(false, true, Some("turn cancelled"))
      case Forwarder => true
    decreases |es|
  {
    if es != [] { SourcesSay(es[..|es| - 1], i); }
  }

  lemma {:induction false} AnswersAllow(es: seq<Event>, i: nat)
    ensures FirstAnswer(es, i).Some? && FirstAnswer(es, i).value.reply.allows ==> FirstAnswer(es, i).value.source == Forwarder
    decreases |es|
  {
    if es != [] { AnswersAllow(es[..|es| - 1], i); }
  }
}
