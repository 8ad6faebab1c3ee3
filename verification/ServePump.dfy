/** Translating the harness's events for one prompt into session updates, up to the turn's end. */
module ServePump {
  import opened CallMarks
  import opened StreamEvents
  import opened Wrappers

  datatype Status = Completed | Failed

  datatype Note =
    | MessageChunk(text: string)
    | ThoughtChunk(text: string)
    | Announce(id: string, title: string, rawInput: Option<string>)
    | Update(id: string, status: Status, content: Option<string>)
    | Nested(update: string)

  datatype Outcome = EndTurn | CancelledTurn | Refusal | MaxTokens | Error(message: string)

  /** How a call is shown: from its name, its id and its arguments if they were seen. */
  type Presenter = (string, string, Option<string>) -> string

  datatype Claim = Ours(turnId: Option<string>, primary: bool) | NotOurs

  function MatchClaim(e: StreamEvent, messageId: string): Claim {
    if !HasName(e, TurnStarted) && !HasName(e, InboxInjected) then NotOurs
    else if e.data.messageIds.None? || messageId !in e.data.messageIds.value then NotOurs
    else Ours(e.data.turnId, e.data.messageIds.value[0] == messageId)
  }

  datatype Turn = Turn(turnId: Option<string>, args: map<string, string>, open: seq<string>)

  /** What one event of a claimed turn does: the notes it makes, and the outcome if it is the turn's end. */
  datatype Effect = Effect(turn: Turn, notes: seq<Note>, outcome: Option<Outcome>)

  function Flushed(open: seq<string>, status: Status): seq<Note> {
    seq(|open|, i requires 0 <= i < |open| => Update(open[i], status, None))
  }

  function AbortOutcome(d: Data, cancelRequested: bool): Outcome {
    if d.errorKind == Some("cancelled") || cancelRequested then CancelledTurn
    else if d.errorKind == Some("model_refused") then Refusal
    else if d.errorKind == Some("budget_exceeded") then MaxTokens
    else Error(if d.reason.Some? then d.reason.value else "turn aborted")
  }

  function HandleSdk(t: Turn, p: Payload): Effect {
    match p
    case TextDelta(delta) => Effect(t, [MessageChunk(delta)], None)
    case ReasoningDelta(delta) => Effect(t, [ThoughtChunk(delta)], None)
    case FunctionCallDone(callId, args) => Effect(t.(args := t.args[callId := args]), [], None)
    case NestedUpdate(update) => Effect(t, [Nested(update)], None)
    case _ => Effect(t, [], None)
  }

  function Handle(t: Turn, e: StreamEvent, cancelRequested: bool, present: Presenter): Effect {
    if e.Sdk? then HandleSdk(t, e.payload)
    else if HasName(e, ToolCallStarted) then
      if !IsCall(e) then Effect(t, [], None)
      else
        var id := e.data.callId.value;
        var args := if id in t.args then Some(t.args[id]) else None;
        Effect(t.(open := Insert(t.open, id)), [Announce(id, present(e.data.name.value, id, args), args)], None)
    else if HasName(e, ToolCallCompleted) then
      if !IsCall(e) then Effect(t, [], None)
      else
        var id := e.data.callId.value;
        Effect(t.(open := Remove(t.open, id)), [Update(id, if e.data.failed then Failed else Completed, e.data.output)], None)
    else if HasName(e, TurnCompleted) && MatchesTurn(e, t.turnId) then
      Effect(t.(open := []), Flushed(t.open, Completed), Some(EndTurn))
    else if HasName(e, TurnAborted) && MatchesTurn(e, t.turnId) then
      Effect(t.(open := []), Flushed(t.open, Failed), Some(AbortOutcome(e.data, cancelRequested)))
    else Effect(t, [], None)
  }

  // ---------- The pump ----------

  /** Where the pump stands after reading events: still waiting, inside its turn, or ended by the last one read. */
  datatype Pump =
    | Waiting
    | Claimed(at: nat, primary: bool, turn: Turn, notes: seq<Note>)
    | Ended(at: nat, primary: bool, end: nat, outcome: Outcome, notes: seq<Note>)

  function Sent(primary: bool, notes: seq<Note>): seq<Note> {
    if primary then notes else []
  }

  function StepPump(p: Pump, n: nat, e: StreamEvent, cancelRequested: bool, messageId: string, present: Presenter): Pump {
    match p
    case Waiting =>
      var claim := MatchClaim(e, messageId);
      if claim.Ours? then Claimed(n, claim.primary, Turn(claim.turnId, map[], []), []) else Waiting
    case Claimed(at, primary, turn, notes) =>
      var effect := Handle(turn, e, cancelRequested, present);
      if effect.outcome.Some? then Ended(at, primary, n, effect.outcome.value, notes + Sent(primary, effect.notes))
      else Claimed(at, primary, effect.turn, notes + Sent(primary, effect.notes))
    case Ended(_, _, _, _, _) => p
  }

  /** `cancels[i]` tells whether a cancel had been received when event `i` was handled. */
  function Pumped(events: seq<StreamEvent>, cancels: seq<bool>, messageId: string, present: Presenter): Pump
    requires |cancels| >= |events|
    decreases |events|
  {
    if events == [] then Waiting
    else
      var n := |events| - 1;
      StepPump(Pumped(events[..n], cancels, messageId, present), n, events[n], cancels[n], messageId, present)
  }

  function OutcomeOf(p: Pump): Outcome {
    if p.Ended? then p.outcome else CancelledTurn
  }

  function NotesOf(p: Pump): seq<Note> {
    if p.Waiting? then [] else p.notes
  }

  lemma PumpedNext(events: seq<StreamEvent>, i: nat, cancels: seq<bool>, messageId: string, present: Presenter)
    requires |cancels| >= |events| && i < |events|
    ensures Pumped(events[..i + 1], cancels, messageId, present) ==
      StepPump(Pumped(events[..i], cancels, messageId, present), i, events[i], cancels[i], messageId, present)
  {
    assert events[..i + 1][..i] == events[..i];
  }

  method PumpTurnEvents(events: seq<StreamEvent>, cancels: seq<bool>, messageId: string, present: Presenter)
    returns (outcome: Outcome, sent: seq<Note>)
    requires |cancels| >= |events|
    ensures outcome == OutcomeOf(Pumped(events, cancels, messageId, present))
    ensures sent == NotesOf(Pumped(events, cancels, messageId, present))
  {
    var claimed, primary := false, false;
    var turn := Turn(None, map[], []);
    sent := [];
    ghost var at: nat := 0;
    var i := 0;
    while i < |events|
      invariant 0 <= i <= |events|
      invariant !claimed ==> sent == []
      invariant Pumped(events[..i], cancels, messageId, present) == if claimed then Claimed(at, primary, turn, sent) else Waiting
    {
      var event := events[i];
      PumpedNext(events, i, cancels, messageId, present);
      if !claimed {
        var claim := MatchClaim(event, messageId);
        if claim.Ours? {
          claimed := true;
          primary := claim.primary;
          turn := Turn(claim.turnId, map[], []);
          at := i;
        }
        i := i + 1;
        continue;
      }
      var effect := Handle(turn, event, cancels[i], present);
      if primary {
        sent := sent + effect.notes;
      }
      if effect.outcome.Some? {
        StaysEnded(events, i + 1, cancels, messageId, present);
        return effect.outcome.value, sent;
      }
      turn := effect.turn;
      i := i + 1;
    }
    assert events[..i] == events;
    outcome := CancelledTurn;
  }

  lemma {:induction false} StaysEnded(events: seq<StreamEvent>, k: nat, cancels: seq<bool>, messageId: string, present: Presenter)
    requires |cancels| >= |events| && k <= |events|
    requires Pumped(events[..k], cancels, messageId, present).Ended?
    ensures Pumped(events, cancels, messageId, present) == Pumped(events[..k], cancels, messageId, present)
    decreases |events|
  {
    if k < |events| {
      var init := events[..|events| - 1];
      assert init[..k] == events[..k];
      StaysEnded(init, k, cancels, messageId, present);
    } else {
      assert events[..k] == events;
    }
  }

  // ---------- Prompts that share a turn ----------

  /** Two pumps in the same place: claimed by the same event, or ended together, with the same turn in hand. */
  ghost predicate InStep(p: Pump, q: Pump) {
    match (p, q)
    case (Claimed(i, _, t, _), Claimed(j, _, u, _)) => i == j && t == u
    case (Ended(i, _, m, o, _), Ended(j, _, n, r, _)) => i == j && m == n && o == r
    case _ => false
  }

  lemma {:induction false} ClaimedBefore(events: seq<StreamEvent>, cancels: seq<bool>, messageId: string, present: Presenter)
    requires |cancels| >= |events|
    requires !Pumped(events, cancels, messageId, present).Waiting?
    ensures var p := Pumped(events, cancels, messageId, present);
      && p.at < |events|
      && MatchClaim(events[p.at], messageId).Ours?
      && p.primary == MatchClaim(events[p.at], messageId).primary
      && (!p.primary ==> p.notes == [])
    decreases |events|
  {
    var n := |events| - 1;
    if !Pumped(events[..n], cancels, messageId, present).Waiting? {
      ClaimedBefore(events[..n], cancels, messageId, present);
    }
  }

  lemma {:induction false} PumpsStayInStep(events: seq<StreamEvent>, cancels: seq<bool>, a: string, b: string, present: Presenter)
    requires |cancels| >= |events|
    requires !Pumped(events, cancels, a, present).Waiting? && !Pumped(events, cancels, b, present).Waiting?
    requires Pumped(events, cancels, a, present).at == Pumped(events, cancels, b, present).at
    ensures InStep(Pumped(events, cancels, a, present), Pumped(events, cancels, b, present))
    decreases |events|
  {
    var n := |events| - 1;
    var p, q := Pumped(events[..n], cancels, a, present), Pumped(events[..n], cancels, b, present);
    if !p.Waiting? { ClaimedBefore(events[..n], cancels, a, present); }
    if !q.Waiting? { ClaimedBefore(events[..n], cancels, b, present); }
    if !p.Waiting? && !q.Waiting? {
      PumpsStayInStep(events[..n], cancels, a, b, present);
    }
  }

  /** `id` heads the batch of messages the event names. */
  predicate FirstIn(e: StreamEvent, id: string) {
    e.Framework? && e.data.messageIds.Some? && e.data.messageIds.value != [] && e.data.messageIds.value[0] == id
  }

  /** Pumps claimed by the same batch end at the same event with the same outcome, and only the one whose id comes first sends anything. */
  lemma SharedTurnEndsTogether(events: seq<StreamEvent>, cancels: seq<bool>, a: string, b: string, present: Presenter)
    requires |cancels| >= |events| && a != b
    requires !Pumped(events, cancels, a, present).Waiting? && !Pumped(events, cancels, b, present).Waiting?
    requires Pumped(events, cancels, a, present).at == Pumped(events, cancels, b, present).at
    ensures var p, q := Pumped(events, cancels, a, present), Pumped(events, cancels, b, present);
      && (p.Ended? <==> q.Ended?) && (p.Ended? ==> p.end == q.end)
      && OutcomeOf(p) == OutcomeOf(q)
      && (NotesOf(p) != [] ==> p.at < |events| && FirstIn(events[p.at], a))
      && (NotesOf(p) == [] || NotesOf(q) == [])
  {
    PumpsStayInStep(events, cancels, a, b, present);
    ClaimedBefore(events, cancels, a, present);
    ClaimedBefore(events, cancels, b, present);
  }

  // ---------- What is relayed, and where it ends ----------

  /** What is said apart from the tool calls, in order. */
  function Prose(notes: seq<Note>): seq<Note>
    decreases |notes|
  {
    if notes == [] then []
    else
      var last := notes[|notes| - 1];
      Prose(notes[..|notes| - 1]) + if last.Announce? || last.Update? then [] else [last]
  }

  /** The model's words and thoughts and the nested updates among the events, in order. */
  function Spoken(seen: seq<StreamEvent>): seq<Note>
    decreases |seen|
  {
    if seen == [] then []
    else
      var last := seen[|seen| - 1];
      Spoken(seen[..|seen| - 1]) +
      if !last.Sdk? then []
      else if last.payload.TextDelta? then [MessageChunk(last.payload.delta)]
      else if last.payload.ReasoningDelta? then [ThoughtChunk(last.payload.delta)]
      else if last.payload.NestedUpdate? then [Nested(last.payload.update)]
      else []
  }

  lemma {:induction false} ProseAppend(a: seq<Note>, b: seq<Note>)
    ensures Prose(a + b) == Prose(a) + Prose(b)
    decreases |b|
  {
    if b == [] {
      assert a + b == a;
    } else {
      assert (a + b)[..|a + b| - 1] == a + b[..|b| - 1];
      ProseAppend(a, b[..|b| - 1]);
    }
  }

  lemma {:induction false} FlushedHasNoProse(open: seq<string>, status: Status)
    ensures Prose(Flushed(open, status)) == []
    decreases |open|
  {
    if open != [] {
      var init := open[..|open| - 1];
      FlushedHasNoProse(init, status);
      assert Flushed(open, status)[..|open| - 1] == Flushed(init, status);
    }
  }

  lemma SpokenSnoc(seen: seq<StreamEvent>, e: StreamEvent)
    ensures Spoken(seen + [e]) == Spoken(seen) + Spoken([e])
  {
    assert (seen + [e])[..|seen|] == seen;
    assert Spoken([e][..0]) == [];
  }

  lemma SdkRelays(t: Turn, e: StreamEvent)
    requires e.Sdk?
    ensures Prose(HandleSdk(t, e.payload).notes) == Spoken([e])
  {
    var notes := HandleSdk(t, e.payload).notes;
    assert Spoken([e][..0]) == [];
    if notes != [] { assert Prose(notes[..0]) == []; }
  }

  lemma FrameworkIsNoProse(t: Turn, e: StreamEvent, cancelRequested: bool, present: Presenter)
    requires e.Framework?
    ensures Prose(Handle(t, e, cancelRequested, present).notes) == [] == Spoken([e])
  {
    assert Spoken([e][..0]) == [];
    if Boundary(e, t.turnId) {
      FlushedHasNoProse(t.open, if HasName(e, TurnCompleted) then Completed else Failed);
    } else {
      var notes := Handle(t, e, cancelRequested, present).notes;
      if notes != [] { assert Prose(notes[..0]) == []; }
    }
  }

  lemma HandleRelays(t: Turn, e: StreamEvent, cancelRequested: bool, present: Presenter)
    ensures Prose(Handle(t, e, cancelRequested, present).notes) == Spoken([e])
  {
    if e.Sdk? { SdkRelays(t, e); } else { FrameworkIsNoProse(t, e, cancelRequested, present); }
  }

  lemma HandleEnds(t: Turn, e: StreamEvent, cancelRequested: bool, present: Presenter)
    ensures Handle(t, e, cancelRequested, present).turn.turnId == t.turnId
    ensures var outcome := Handle(t, e, cancelRequested, present).outcome;
      && (outcome.Some? <==> Boundary(e, t.turnId))
      && (outcome == Some(EndTurn) <==> Boundary(e, t.turnId) && HasName(e, TurnCompleted))
  {
  }

  /** The turn the claiming event names; none lets any turn's end count. */
  function TurnOf(events: seq<StreamEvent>, at: nat): Option<string> {
    if at < |events| && events[at].Framework? then events[at].data.turnId else None
  }

  ghost predicate RelaysSoFar(turn: Turn, primary: bool, notes: seq<Note>, seen: seq<StreamEvent>, turnId: Option<string>) {
    && turn.turnId == turnId
    && NoBoundary(seen, turnId)
    && Prose(notes) == if primary then Spoken(seen) else []
  }

  ghost predicate Relayed(p: Pump, events: seq<StreamEvent>) {
    match p
    case Waiting => true
    case Claimed(at, primary, turn, notes) =>
      at < |events| && RelaysSoFar(turn, primary, notes, Since(events, at), TurnOf(events, at))
    case Ended(at, primary, end, outcome, notes) =>
      && at < end < |events|
      && Boundary(events[end], TurnOf(events, at))
      && NoBoundary(Since(events[..end], at), TurnOf(events, at))
      && (outcome == EndTurn <==> HasName(events[end], TurnCompleted))
      && Prose(notes) == if primary then Spoken(Since(events[..end], at)) else []
  }

  lemma RelayStep(t: Turn, notes: seq<Note>, primary: bool, seen: seq<StreamEvent>, e: StreamEvent, cancelRequested: bool, present: Presenter)
    requires RelaysSoFar(t, primary, notes, seen, t.turnId)
    ensures var effect := Handle(t, e, cancelRequested, present);
      && effect.turn.turnId == t.turnId
      && (effect.outcome.Some? <==> Boundary(e, t.turnId))
      && (effect.outcome == Some(EndTurn) <==> Boundary(e, t.turnId) && HasName(e, TurnCompleted))
      && (effect.outcome.None? ==> NoBoundary(seen + [e], t.turnId))
      && Prose(notes + Sent(primary, effect.notes)) ==
          if !primary then [] else if effect.outcome.Some? then Spoken(seen) else Spoken(seen + [e])
  {
    HandleRelays(t, e, cancelRequested, present);
    HandleEnds(t, e, cancelRequested, present);
    assert (seen + [e])[..|seen|] == seen;
    SpokenSnoc(seen, e);
    ProseAppend(notes, Sent(primary, Handle(t, e, cancelRequested, present).notes));
    assert Boundary(e, t.turnId) ==> Spoken([e]) == [] by { assert Spoken([e][..0]) == []; }
    assert Prose([]) == [];
  }

  lemma ClaimedRelays(p: Pump, events: seq<StreamEvent>, cancelRequested: bool, messageId: string, present: Presenter)
    requires events != [] && p.Claimed? && Relayed(p, events[..|events| - 1])
    ensures Relayed(StepPump(p, |events| - 1, events[|events| - 1], cancelRequested, messageId, present), events)
  {
    var n := |events| - 1;
    SinceSnoc(events, p.at);
    assert TurnOf(events, p.at) == TurnOf(events[..n], p.at);
    RelayStep(p.turn, p.notes, p.primary, Since(events[..n], p.at), events[n], cancelRequested, present);
  }

  lemma EndedRelays(p: Pump, events: seq<StreamEvent>)
    requires events != [] && p.Ended? && Relayed(p, events[..|events| - 1])
    ensures Relayed(p, events)
  {
    assert events[..|events| - 1][..p.end] == events[..p.end];
    assert TurnOf(events, p.at) == TurnOf(events[..|events| - 1], p.at);
  }

  /** A pump relays its turn's words, thoughts and nested updates once each, in order, and ends at the first boundary of its turn after
      the claim; the turn counts as completed exactly when that boundary does. */
  lemma {:induction false} RelaysUpToFirstBoundary(events: seq<StreamEvent>, cancels: seq<bool>, messageId: string, present: Presenter)
    requires |cancels| >= |events|
    ensures Relayed(Pumped(events, cancels, messageId, present), events)
    decreases |events|
  {
    if events != [] {
      var n := |events| - 1;
      var p := Pumped(events[..n], cancels, messageId, present);
      RelaysUpToFirstBoundary(events[..n], cancels, messageId, present);
      match p
      case Waiting => NothingRelayed(events, messageId);
      case Claimed(_, _, _, _) => ClaimedRelays(p, events, cancels[n], messageId, present);
      case Ended(_, _, _, _, _) => EndedRelays(p, events);
    }
  }

  lemma NothingRelayed(events: seq<StreamEvent>, messageId: string)
    requires events != []
    ensures var claim := MatchClaim(events[|events| - 1], messageId);
      claim.Ours? ==> Relayed(Claimed(|events| - 1, claim.primary, Turn(claim.turnId, map[], []), []), events)
  {
    assert Since(events, |events| - 1) == [];
  }

  // ---------- No call is left open ----------

  function MarkOf(note: Note): Mark {
    if note.Announce? then Opens(note.id) else if note.Update? then Closes(note.id) else Silent
  }

  function Marks(notes: seq<Note>): seq<Mark> {
    seq(|notes|, i requires 0 <= i < |notes| => MarkOf(notes[i]))
  }

  lemma MarksAppend(a: seq<Note>, b: seq<Note>)
    ensures Marks(a + b) == Marks(a) + Marks(b)
  {
  }

  predicate Ends(e: StreamEvent, t: Turn) {
    (HasName(e, TurnCompleted) || HasName(e, TurnAborted)) && MatchesTurn(e, t.turnId)
  }

  /** What one event of the turn says about tool calls. */
  lemma HandleMarks(t: Turn, e: StreamEvent, cancelRequested: bool, present: Presenter)
    ensures var effect := Handle(t, e, cancelRequested, present);
      && (effect.outcome.Some? <==> Ends(e, t))
      && (Ends(e, t) ==> Marks(effect.notes) == CloseAll(t.open))
      && (IsCall(e) && HasName(e, ToolCallStarted) ==>
          Marks(effect.notes) == [Opens(e.data.callId.value)] && effect.turn.open == Insert(t.open, e.data.callId.value))
      && (IsCall(e) && HasName(e, ToolCallCompleted) ==>
          Marks(effect.notes) == [Closes(e.data.callId.value)] && effect.turn.open == Remove(t.open, e.data.callId.value))
      && (!IsCallEvent(e) && !Ends(e, t) ==> Quiet(Marks(effect.notes)) && effect.turn.open == t.open)
  {
  }

  /** One event inside the turn that does not end it. */
  lemma HandleMirrors(t: Turn, notes: seq<Note>, seen: seq<StreamEvent>, e: StreamEvent, effect: Effect, cancelRequested: bool, present: Presenter, id: string)
    requires Mirrors(t.open, Marks(notes), seen, id) && !Ends(e, t) && effect == Handle(t, e, cancelRequested, present)
    ensures Mirrors(effect.turn.open, Marks(notes + effect.notes), seen + [e], id)
  {
    HandleMarks(t, e, cancelRequested, present);
    MarksAppend(notes, effect.notes);
    if IsCall(e) && HasName(e, ToolCallStarted) {
      StartMirrors(t.open, Marks(notes), seen, e, id);
    } else if IsCall(e) && HasName(e, ToolCallCompleted) {
      CompleteMirrors(t.open, Marks(notes), seen, e, id);
    } else {
      OtherMirrors(t.open, Marks(notes), seen, e, Marks(effect.notes), id);
    }
  }

  lemma {:induction false} PumpMirrors(events: seq<StreamEvent>, cancels: seq<bool>, messageId: string, present: Presenter, id: string)
    requires |cancels| >= |events|
    requires Pumped(events, cancels, messageId, present).Claimed? && Pumped(events, cancels, messageId, present).primary
    ensures var p := Pumped(events, cancels, messageId, present);
      p.at < |events| && Mirrors(p.turn.open, Marks(p.notes), Since(events, p.at), id)
    decreases |events|
  {
    var n := |events| - 1;
    var p := Pumped(events[..n], cancels, messageId, present);
    if p.Claimed? {
      PumpMirrors(events[..n], cancels, messageId, present, id);
      SinceSnoc(events, p.at);
      HandleMarks(p.turn, events[n], cancels[n], present);
      HandleMirrors(p.turn, p.notes, Since(events[..n], p.at), events[n], Handle(p.turn, events[n], cancels[n], present), cancels[n], present, id);
    } else {
      NothingSeen(id);
    }
  }

  lemma {:induction false} EndsAfterClaim(events: seq<StreamEvent>, cancels: seq<bool>, messageId: string, present: Presenter)
    requires |cancels| >= |events| && Pumped(events, cancels, messageId, present).Ended?
    ensures var p := Pumped(events, cancels, messageId, present);
      && p.at < p.end < |events|
      && var before := Pumped(events[..p.end], cancels, messageId, present);
        before.Claimed? && p == StepPump(before, p.end, events[p.end], cancels[p.end], messageId, present)
    decreases |events|
  {
    var n := |events| - 1;
    var p := Pumped(events[..n], cancels, messageId, present);
    if p.Ended? {
      EndsAfterClaim(events[..n], cancels, messageId, present);
      assert events[..n][..p.end] == events[..p.end];
    } else {
      ClaimedBefore(events[..n], cancels, messageId, present);
    }
  }

  /** When the sending pump ends at the turn's end, exactly the calls started in the turn were announced, and each
      was settled after its last announcement: once, or as often as it completed if that is more. */
  lemma NoCallLeftOpen(events: seq<StreamEvent>, cancels: seq<bool>, messageId: string, present: Presenter, id: string)
    requires |cancels| >= |events|
    requires Pumped(events, cancels, messageId, present).Ended? && Pumped(events, cancels, messageId, present).primary
    ensures var p := Pumped(events, cancels, messageId, present);
      p.at < p.end < |events| && Settled(Marks(p.notes), Since(events[..p.end], p.at), id)
  {
    var p := Pumped(events, cancels, messageId, present);
    EndsAfterClaim(events, cancels, messageId, present);
    var before := Pumped(events[..p.end], cancels, messageId, present);
    PumpMirrors(events[..p.end], cancels, messageId, present, id);
    HandleMarks(before.turn, events[p.end], cancels[p.end], present);
    MarksAppend(before.notes, Handle(before.turn, events[p.end], cancels[p.end], present).notes);
    FlushCompletes(before.turn.open, Marks(before.notes), Since(events[..p.end], p.at), [], id);
    assert Marks(p.notes) == Marks(before.notes) + CloseAll(before.turn.open) + [];
  }

  // ---------- What each note and outcome says ----------

  /** The batches that claim: a turn started or a message injected, for whichever id is in it; the first one sends. */
  lemma ClaimMeans(e: StreamEvent, messageId: string)
    ensures MatchClaim(e, messageId).Ours? <==>
      e.Framework? && (e.name == TurnStarted || e.name == InboxInjected) && e.data.messageIds.Some? && messageId in e.data.messageIds.value
    ensures MatchClaim(e, messageId).Ours? ==>
      MatchClaim(e, messageId).turnId == e.data.turnId && (MatchClaim(e, messageId).primary <==> FirstIn(e, messageId))
  {
  }

  /** The end of another turn changes nothing; its own ends the pump, and any does for a pump that knows of no turn. */
  lemma OnlyItsOwnTurnEnds(events: seq<StreamEvent>, k: nat, cancels: seq<bool>, messageId: string, present: Presenter)
    requires |cancels| >= |events| && k < |events| && Pumped(events[..k], cancels, messageId, present).Claimed?
    requires events[k].Framework? && (events[k].name == TurnCompleted || events[k].name == TurnAborted)
    ensures var before, after := Pumped(events[..k], cancels, messageId, present), Pumped(events[..k + 1], cancels, messageId, present);
      if before.turn.turnId == None || before.turn.turnId == events[k].data.turnId then after.Ended? && after.end == k else after == before
  {
    PumpedNext(events, k, cancels, messageId, present);
    var before := Pumped(events[..k], cancels, messageId, present);
    assert before.notes + [] == before.notes;
  }

  /** An abort is a cancellation if it says so or one was asked for, and otherwise what its kind says. */
  ghost predicate Classified(outcome: Outcome, d: Data, cancelRequested: bool) {
    if cancelRequested || d.errorKind == Some("cancelled") then outcome == CancelledTurn
    else if d.errorKind == Some("model_refused") then outcome == Refusal
    else if d.errorKind == Some("budget_exceeded") then outcome == MaxTokens
    else outcome == Error(if d.reason == None then "turn aborted" else d.reason.value)
  }

  lemma EndMeans(t: Turn, e: StreamEvent, cancelRequested: bool, present: Presenter)
    requires Handle(t, e, cancelRequested, present).outcome.Some?
    ensures e.Framework?
    ensures var outcome := Handle(t, e, cancelRequested, present).outcome.value;
      if e.name == TurnCompleted then outcome == EndTurn else e.name == TurnAborted && Classified(outcome, e.data, cancelRequested)
  {
  }

  /** How the turn ended: completed, cancelled, refused, out of budget, or with the reason given. */
  lemma OutcomeMeans(events: seq<StreamEvent>, cancels: seq<bool>, messageId: string, present: Presenter)
    requires |cancels| >= |events|
    ensures var p := Pumped(events, cancels, messageId, present);
      && (!p.Ended? ==> OutcomeOf(p) == CancelledTurn)
      && (p.Ended? ==> p.end < |events| && events[p.end].Framework?)
      && (p.Ended? ==>
          if events[p.end].name == TurnCompleted then p.outcome == EndTurn
          else events[p.end].name == TurnAborted && Classified(p.outcome, events[p.end].data, cancels[p.end]))
  {
    var p := Pumped(events, cancels, messageId, present);
    if p.Ended? {
      EndsAfterClaim(events, cancels, messageId, present);
      EndMeans(Pumped(events[..p.end], cancels, messageId, present).turn, events[p.end], cancels[p.end], present);
    }
  }

  /** The arguments last seen for call `id`. */
  function LastArgs(seen: seq<StreamEvent>, id: string): Option<string>
    decreases |seen|
  {
    if seen == [] then None
    else
      var e := seen[|seen| - 1];
      if e.Sdk? && e.payload.FunctionCallDone? && e.payload.callId == id then Some(e.payload.args)
      else LastArgs(seen[..|seen| - 1], id)
  }

  ghost predicate ArgsKept(args: map<string, string>, seen: seq<StreamEvent>) {
    forall id :: LastArgs(seen, id) == if id in args then Some(args[id]) else None
  }

  lemma ArgsSnoc(seen: seq<StreamEvent>, e: StreamEvent, id: string)
    ensures LastArgs(seen + [e], id) ==
      if e.Sdk? && e.payload.FunctionCallDone? && e.payload.callId == id then Some(e.payload.args) else LastArgs(seen, id)
  {
    assert (seen + [e])[..|seen|] == seen;
  }

  lemma HandleArgs(t: Turn, seen: seq<StreamEvent>, e: StreamEvent, cancelRequested: bool, present: Presenter)
    requires ArgsKept(t.args, seen)
    ensures ArgsKept(Handle(t, e, cancelRequested, present).turn.args, seen + [e])
  {
    forall id ensures LastArgs(seen + [e], id) ==
      if e.Sdk? && e.payload.FunctionCallDone? && e.payload.callId == id then Some(e.payload.args) else LastArgs(seen, id)
    {
      ArgsSnoc(seen, e, id);
    }
  }

  lemma {:induction false} ClaimedArgs(events: seq<StreamEvent>, cancels: seq<bool>, messageId: string, present: Presenter)
    requires |cancels| >= |events| && Pumped(events, cancels, messageId, present).Claimed?
    ensures var p := Pumped(events, cancels, messageId, present); p.at < |events| && ArgsKept(p.turn.args, Since(events, p.at))
    decreases |events|
  {
    var n := |events| - 1;
    var p := Pumped(events[..n], cancels, messageId, present);
    if p.Claimed? {
      ClaimedArgs(events[..n], cancels, messageId, present);
      SinceSnoc(events, p.at);
      HandleArgs(p.turn, Since(events[..n], p.at), events[n], cancels[n], present);
    }
  }

  /** A call that starts is announced under its id, with the arguments last seen for it; one that completes is reported with its
      own output, and as failed exactly if it failed. Only the sending pump says so. */
  lemma CallsAreReported(events: seq<StreamEvent>, k: nat, cancels: seq<bool>, messageId: string, present: Presenter)
    requires |cancels| >= |events| && k < |events| && Pumped(events[..k], cancels, messageId, present).Claimed?
    requires IsCall(events[k]) && (events[k].name == ToolCallStarted || events[k].name == ToolCallCompleted)
    ensures var before, after := Pumped(events[..k], cancels, messageId, present), Pumped(events[..k + 1], cancels, messageId, present);
      var d := events[k].data;
      var args := LastArgs(Since(events[..k], before.at), d.callId.value);
      && after.Claimed?
      && (!before.primary ==> after.notes == before.notes)
      && (before.primary && events[k].name == ToolCallStarted ==>
          after.notes == before.notes + [Announce(d.callId.value, present(d.name.value, d.callId.value, args), args)])
      && (before.primary && events[k].name == ToolCallCompleted && d.failed ==> after.notes == before.notes + [Update(d.callId.value, Failed, d.output)])
      && (before.primary && events[k].name == ToolCallCompleted && !d.failed ==> after.notes == before.notes + [Update(d.callId.value, Completed, d.output)])
  {
    PumpedNext(events, k, cancels, messageId, present);
    ClaimedArgs(events[..k], cancels, messageId, present);
    var before := Pumped(events[..k], cancels, messageId, present);
    assert before.notes + [] == before.notes;
  }

  /** A call still running when its turn ends is reported as the turn ended. */
  lemma OpenCallsEndAsTheTurn(events: seq<StreamEvent>, cancels: seq<bool>, messageId: string, present: Presenter, id: string)
    requires |cancels| >= |events|
    requires Pumped(events, cancels, messageId, present).Ended? && Pumped(events, cancels, messageId, present).primary
    ensures var p := Pumped(events, cancels, messageId, present);
      && p.at < p.end < |events| && events[p.end].Framework?
      && var seen := Since(events[..p.end], p.at);
        Started(seen, id) && CompletedSince(seen, id) == 0 ==>
          Update(id, if events[p.end].name == TurnCompleted then Completed else Failed, None) in p.notes
  {
    EndsAfterClaim(events, cancels, messageId, present);
    var p := Pumped(events, cancels, messageId, present);
    var before := Pumped(events[..p.end], cancels, messageId, present);
    PumpMirrors(events[..p.end], cancels, messageId, present, id);
    if id in before.turn.open {
      var i :| 0 <= i < |before.turn.open| && before.turn.open[i] == id;
      var status := if events[p.end].name == TurnCompleted then Completed else Failed;
      assert Flushed(before.turn.open, status)[i] == Update(id, status, None);
      assert p.notes == before.notes + Flushed(before.turn.open, status);
    }
  }
}
