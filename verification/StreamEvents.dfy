/** The harness's event stream as both translators read it. */
module StreamEvents {
  import opened Wrappers

  /** The fields of a framework event's data that are read, when they have the type asked for. A member of
      `messageIds` that is not a string stands as a text that is nobody's message id. */
  datatype Data = Data(messageIds: Option<seq<string>>, messageId: Option<string>, turnId: Option<string>, name: Option<string>,
    callId: Option<string>, output: Option<string>, failed: bool, errorKind: Option<string>, reason: Option<string>)

  /** What an SDK event carries, by what the readers make of it. */
  datatype Payload =
    | TextDelta(delta: string)
    | ReasoningDelta(delta: string)
    | MessageAdded
    | FunctionCallDone(callId: string, args: string)
    | NestedUpdate(update: string)
    | OtherPayload

  /** The events that are looked at, by the end of their type. */
  datatype EventName =
    TurnStarted | InboxInjected | SteerDropped | ToolCallStarted | ToolCallCompleted | TurnCompleted | TurnAborted | OtherEvent

  datatype StreamEvent = Sdk(payload: Payload) | Framework(name: EventName, data: Data)

  function NameText(n: EventName): string {
    match n
    case TurnStarted => "turn_started"
    case InboxInjected => "inbox_injected"
    case SteerDropped => "steer_dropped"
    case ToolCallStarted => "tool_call_started"
    case ToolCallCompleted => "tool_call_completed"
    case TurnCompleted => "turn_completed"
    case TurnAborted => "turn_aborted"
    case OtherEvent => ""
  }

  predicate EndsWith(text: string, end: string) {
    |end| <= |text| && text[|text| - |end|..] == end
  }

  /** Framework event types carry the harness's name in front, so only the end is compared. */
  predicate Named(eventType: string, n: EventName) {
    EndsWith(eventType, ":" + NameText(n))
  }

  function NameOf(eventType: string): EventName {
    if Named(eventType, TurnStarted) then TurnStarted
    else if Named(eventType, InboxInjected) then InboxInjected
    else if Named(eventType, SteerDropped) then SteerDropped
    else if Named(eventType, ToolCallStarted) then ToolCallStarted
    else if Named(eventType, ToolCallCompleted) then ToolCallCompleted
    else if Named(eventType, TurnCompleted) then TurnCompleted
    else if Named(eventType, TurnAborted) then TurnAborted
    else OtherEvent
  }

  /** Where the last colon stands, or -1. */
  function LastColon(text: string): int
    decreases |text|
  {
    if text == "" then -1
    else if text[|text| - 1] == ':' then |text| - 1
    else LastColon(text[..|text| - 1])
  }

  lemma {:induction false} ColonIsLast(text: string, a: string)
    requires EndsWith(text, ":" + a) && ':' !in a
    ensures LastColon(text) == |text| - |a| - 1
    decreases |a|
  {
    var tail := text[|text| - |a| - 1..];
    assert tail == ":" + a;
    if a == "" {
      assert text[|text| - 1] == tail[0];
    } else {
      assert text[|text| - 1] == tail[|a|] == a[|a| - 1];
      assert text[..|text| - 1][|text| - |a| - 1..] == tail[..|a|] == ":" + a[..|a| - 1];
      ColonIsLast(text[..|text| - 1], a[..|a| - 1]);
    }
  }

  lemma SameName(text: string, a: string, b: string)
    requires EndsWith(text, ":" + a) && EndsWith(text, ":" + b)
    requires ':' !in a && ':' !in b
    ensures a == b
  {
    ColonIsLast(text, a);
    ColonIsLast(text, b);
    assert a == (":" + a)[1..] && b == (":" + b)[1..];
  }

  lemma NoColon(n: EventName)
    ensures ':' !in NameText(n)
  {
  }

  lemma NameTextsDiffer(m: EventName, n: EventName)
    requires NameText(m) == NameText(n)
    ensures m == n
  {
    assert |NameText(m)| == |NameText(n)|;
    assert NameText(TurnStarted)[5] != NameText(TurnAborted)[5];
    assert NameText(InboxInjected)[0] != NameText(TurnCompleted)[0];
  }

  lemma NamedOnce(eventType: string, m: EventName, n: EventName)
    requires Named(eventType, m) && Named(eventType, n)
    ensures m == n
  {
    var a, b := NameText(m), NameText(n);
    NoColon(m);
    NoColon(n);
    SameName(eventType, a, b);
    NameTextsDiffer(m, n);
  }

  /** Asking for one name at a time, in any order, finds the same name: no type ends with two of them. */
  lemma NamesExclude(eventType: string, n: EventName)
    requires n != OtherEvent
    ensures NameOf(eventType) == n <==> Named(eventType, n)
  {
    var m := NameOf(eventType);
    if Named(eventType, n) {
      assert m != OtherEvent && Named(eventType, m);
      NamedOnce(eventType, m, n);
    }
  }

  predicate HasName(e: StreamEvent, name: EventName) {
    e.Framework? && e.name == name
  }

  /** A tool-call event counts only with both a name and a call id. */
  predicate IsCall(e: StreamEvent) {
    e.Framework? && e.data.name.Some? && e.data.callId.Some?
  }

  predicate Starts(e: StreamEvent, id: string) {
    HasName(e, ToolCallStarted) && IsCall(e) && e.data.callId.value == id
  }

  predicate Completes(e: StreamEvent, id: string) {
    HasName(e, ToolCallCompleted) && IsCall(e) && e.data.callId.value == id
  }

  predicate MatchesTurn(e: StreamEvent, turnId: Option<string>) {
    e.Framework? && (turnId.None? || e.data.turnId == turnId)
  }

  /** A turn's end for whoever waits for `turnId`; any turn's end for whoever waits for none. */
  predicate Boundary(e: StreamEvent, turnId: Option<string>) {
    (HasName(e, TurnCompleted) || HasName(e, TurnAborted)) && MatchesTurn(e, turnId)
  }

  predicate NoBoundary(seen: seq<StreamEvent>, turnId: Option<string>)
    decreases |seen|
  {
    seen == [] || (!Boundary(seen[|seen| - 1], turnId) && NoBoundary(seen[..|seen| - 1], turnId))
  }

  /** Some call `id` was started in `events`. */
  predicate Started(events: seq<StreamEvent>, id: string)
    decreases |events|
  {
    events != [] && (Starts(events[|events| - 1], id) || Started(events[..|events| - 1], id))
  }

  /** How often call `id` completed since it was last started. */
  function CompletedSince(events: seq<StreamEvent>, id: string): nat
    decreases |events|
  {
    if events == [] || Starts(events[|events| - 1], id) then 0
    else CompletedSince(events[..|events| - 1], id) + if Completes(events[|events| - 1], id) then 1 else 0
  }

  lemma CallSnoc(events: seq<StreamEvent>, e: StreamEvent, id: string)
    ensures Started(events + [e], id) <==> Starts(e, id) || Started(events, id)
    ensures CompletedSince(events + [e], id) ==
      if Starts(e, id) then 0 else CompletedSince(events, id) + if Completes(e, id) then 1 else 0
  {
    assert (events + [e])[..|events|] == events;
  }

  /** The events after the claim. */
  function Since(events: seq<StreamEvent>, at: nat): seq<StreamEvent> {
    if at < |events| then events[at + 1..] else []
  }

  lemma SinceSnoc(events: seq<StreamEvent>, at: nat)
    requires at + 1 < |events|
    ensures Since(events, at) == Since(events[..|events| - 1], at) + [events[|events| - 1]]
  {
  }

  /** Insertion-ordered, without repetition, as a JavaScript Set or the keys of a Map. */
  function Insert(ids: seq<string>, id: string): (r: seq<string>)
    ensures forall x :: x in r <==> x in ids || x == id
  {
    if id in ids then ids else ids + [id]
  }

  function Remove(ids: seq<string>, id: string): (r: seq<string>)
    ensures forall x :: x in r <==> x in ids && x != id
    decreases |ids|
  {
    if ids == [] then []
    else Remove(ids[..|ids| - 1], id) + if ids[|ids| - 1] == id then [] else [ids[|ids| - 1]]
  }

  predicate NoRepeats(ids: seq<string>)
    decreases |ids|
  {
    ids == [] || (ids[|ids| - 1] !in ids[..|ids| - 1] && NoRepeats(ids[..|ids| - 1]))
  }

  lemma InsertKeeps(ids: seq<string>, id: string)
    requires NoRepeats(ids)
    ensures NoRepeats(Insert(ids, id))
  {
    if id !in ids { assert (ids + [id])[..|ids|] == ids; }
  }

  lemma {:induction false} RemoveKeeps(ids: seq<string>, id: string)
    requires NoRepeats(ids)
    ensures NoRepeats(Remove(ids, id))
    decreases |ids|
  {
    if ids != [] {
      var init, last := ids[..|ids| - 1], ids[|ids| - 1];
      RemoveKeeps(init, id);
      if last != id {
        assert (Remove(init, id) + [last])[..|Remove(init, id)|] == Remove(init, id);
      } else {
        assert Remove(init, id) + [] == Remove(init, id);
      }
    }
  }
}
