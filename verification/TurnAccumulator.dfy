/** Folding one turn's session updates into its items, text and latest snapshots. */
module TurnAccumulator {
  import opened Wrappers

  /** A field of an update: left out, sent as `null` for "no change", or given a value. */
  datatype Field<+T> = Omitted | Null | Set(value: T)

  datatype Status = Pending | InProgress | Completed | Failed

  datatype Content = Block(text: string) | Diff(path: string, newText: string) | Terminal(id: string)

  /** `rawInput` and `rawOutput` stand for JSON objects, by their text. */
  datatype Update =
    | MessageChunk(text: string)
    | ThoughtChunk(text: string)
    | UserChunk
    | ToolCall(id: string, title: string, kind: Field<string>, rawInput: Field<string>, status: Field<Status>,
        content: Field<seq<Content>>, rawOutput: Field<string>)
    | ToolCallUpdate(id: string, newTitle: Field<string>, kind: Field<string>, rawInput: Field<string>,
        status: Field<Status>, content: Field<seq<Content>>, rawOutput: Field<string>)
    | PlanUpdate(entries: seq<string>)
    | CommandsUpdate(commands: seq<string>)
    | ModeUpdate(modeId: string)

  datatype Tracked = Tracked(id: string, title: string, kind: Field<string>, rawInput: Field<string>, status: Status,
    content: seq<Content>, rawOutput: Field<string>)

  datatype Entry = Text(text: string) | Call(id: string)

  datatype Turn = Turn(reasoning: string, calls: map<string, Tracked>, order: seq<Entry>,
    plan: Option<seq<string>>, commands: Option<seq<string>>, mode: Option<string>)

  function Or<T>(f: Field<T>, otherwise: T): T {
    if f.Set? then f.value else otherwise
  }

  // ---------- One update ----------

  function AppendText(order: seq<Entry>, chunk: string): seq<Entry> {
    if order != [] && order[|order| - 1].Text? then
      order[..|order| - 1] + [Text(order[|order| - 1].text + chunk)]
    else if chunk != "" then order + [Text(chunk)]
    else order
  }

  function Announced(u: Update): Tracked
    requires u.ToolCall?
  {
    Tracked(u.id, u.title, u.kind, u.rawInput, Or(u.status, Pending), Or(u.content, []), u.rawOutput)
  }

  function FirstSeen(u: Update): Tracked
    requires u.ToolCallUpdate?
  {
    Tracked(u.id, Or(u.newTitle, u.id), if u.kind.Null? then Omitted else u.kind, u.rawInput, Or(u.status, Pending),
      Or(u.content, []), u.rawOutput)
  }

  function Merged(c: Tracked, u: Update): Tracked
    requires u.ToolCallUpdate?
  {
    Tracked(c.id, Or(u.newTitle, c.title), if u.kind.Set? then u.kind else c.kind,
      if u.rawInput.Set? then u.rawInput else c.rawInput, Or(u.status, c.status), Or(u.content, c.content),
      if u.rawOutput.Set? then u.rawOutput else c.rawOutput)
  }

  predicate About(u: Update, id: string) {
    (u.ToolCall? || u.ToolCallUpdate?) && u.id == id
  }

  function Step(t: Turn, u: Update): Turn {
    match u
    case MessageChunk(text) => t.(order := AppendText(t.order, text))
    case ThoughtChunk(text) => t.(reasoning := t.reasoning + text)
    case UserChunk => t
    case ToolCall(id, _, _, _, _, _, _) =>
      t.(order := if id in t.calls then t.order else t.order + [Call(id)], calls := t.calls[id := Announced(u)])
    case ToolCallUpdate(id, _, _, _, _, _, _) =>
      if id in t.calls then t.(calls := t.calls[id := Merged(t.calls[id], u)])
      else t.(order := t.order + [Call(id)], calls := t.calls[id := FirstSeen(u)])
    case PlanUpdate(entries) => t.(plan := Some(entries))
    case CommandsUpdate(commands) => t.(commands := Some(commands))
    case ModeUpdate(modeId) => t.(mode := Some(modeId))
  }

  const EMPTY := Turn("", map[], [], None, None, None)

  function Run(us: seq<Update>): Turn
    decreases |us|
  {
    if us == [] then EMPTY else Step(Run(us[..|us| - 1]), us[|us| - 1])
  }

  // ---------- The result ----------

  datatype Item =
    | Message(text: string)
    | FunctionCall(id: string, title: string, kind: Field<string>, rawInput: Field<string>)
    | FunctionOutput(id: string, output: string, failed: bool)

  function Part(c: Content): string {
    match c
    case Block(text) => text
    case Diff(path, newText) => "[diff " + path + "]\n" + newText
    case Terminal(id) => "[terminal " + id + "]"
  }

  function JoinLines(parts: seq<string>): string {
    if parts == [] then ""
    else if |parts| == 1 then parts[0]
    else parts[0] + "\n" + JoinLines(parts[1..])
  }

  function Parts(content: seq<Content>): seq<string> {
    seq(|content|, i requires 0 <= i < |content| => Part(content[i]))
  }

  function Rendered(content: seq<Content>, rawOutput: Field<string>): string {
    if content == [] && rawOutput.Set? then rawOutput.value
    else if content == [] && rawOutput.Null? then "null"
    else JoinLines(Parts(content))
  }

  function Settled(s: Status): bool {
    s == Completed || s == Failed
  }

  function ItemsOf(e: Entry, calls: map<string, Tracked>): seq<Item> {
    match e
    case Text(text) => [Message(text)]
    case Call(id) =>
      if id !in calls then []
      else
        var c := calls[id];
        [FunctionCall(c.id, c.title, c.kind, c.rawInput)] +
        if Settled(c.status) then [FunctionOutput(c.id, Rendered(c.content, c.rawOutput), c.status == Failed)] else []
  }

  function Items(order: seq<Entry>, calls: map<string, Tracked>): seq<Item>
    decreases |order|
  {
    if order == [] then [] else Items(order[..|order| - 1], calls) + ItemsOf(order[|order| - 1], calls)
  }

  lemma ItemsNext(order: seq<Entry>, calls: map<string, Tracked>, i: nat)
    requires i < |order|
    ensures Items(order[..i + 1], calls) == Items(order[..i], calls) + ItemsOf(order[i], calls)
  {
    assert order[..i + 1][..i] == order[..i];
  }

  function FinalText(order: seq<Entry>): string {
    if order != [] && order[|order| - 1].Text? then order[|order| - 1].text else ""
  }

  datatype TurnResult = TurnResult(items: seq<Item>, text: string, plan: Option<seq<string>>,
    commands: Option<seq<string>>, mode: Option<string>)

  function ResultOf(t: Turn): TurnResult {
    TurnResult(Items(t.order, t.calls), FinalText(t.order), t.plan, t.commands, t.mode)
  }

  method RenderToolCallContent(content: seq<Content>, rawOutput: Field<string>) returns (output: string)
    ensures output == Rendered(content, rawOutput)
  {
    var parts: seq<string> := [];
    for i := 0 to |content|
      invariant parts == Parts(content[..i])
    {
      parts := parts + [Part(content[i])];
      assert Parts(content[..i + 1]) == parts;
    }
    assert content[..|content|] == content;
    if |parts| == 0 && rawOutput != Omitted {
      return if rawOutput.Set? then rawOutput.value else "null";
    }
    output := JoinLines(parts);
  }

  class AcpTurnAccumulator {
    var reasoning: string
    var toolCalls: map<string, Tracked>
    var order: seq<Entry>
    var plan: Option<seq<string>>
    var availableCommands: Option<seq<string>>
    var currentModeId: Option<string>
    ghost var pushed: seq<Update>

    ghost function View(): Turn
      reads this
    {
      Turn(reasoning, toolCalls, order, plan, availableCommands, currentModeId)
    }

    /** The fields hold what the pushed updates, in order, make of an empty turn. */
    ghost predicate Valid()
      reads this
    {
      View() == Run(pushed)
    }

    constructor ()
      ensures Valid() && pushed == []
    {
      reasoning, toolCalls, order, plan, availableCommands, currentModeId := "", map[], [], None, None, None;
      pushed := [];
    }

    method Push(update: Update)
      requires Valid()
      modifies this
      ensures Valid() && pushed == old(pushed) + [update]
    {
      Apply(update);
      pushed := pushed + [update];
      assert pushed[..|pushed| - 1] == old(pushed);
    }

    method Apply(update: Update)
      modifies this
      ensures View() == Step(old(View()), update) && pushed == old(pushed)
    {
      match update
      case MessageChunk(text) => AppendChunk(text);
      case ThoughtChunk(text) => reasoning := reasoning + text;
      case UserChunk =>
      case ToolCall(_, _, _, _, _, _, _) => TrackToolCall(update);
      case ToolCallUpdate(_, _, _, _, _, _, _) => MergeToolCall(update);
      case PlanUpdate(entries) => plan := Some(entries);
      case CommandsUpdate(commands) => availableCommands := Some(commands);
      case ModeUpdate(modeId) => currentModeId := Some(modeId);
    }

    method AppendChunk(chunk: string)
      modifies this`order
      ensures order == AppendText(old(order), chunk)
    {
      if order != [] && order[|order| - 1].Text? {
        var last := order[|order| - 1];
        order := order[|order| - 1 := Text(last.text + chunk)];
        return;
      }
      if |chunk| > 0 {
        order := order + [Text(chunk)];
      }
    }

    method TrackToolCall(update: Update)
      requires update.ToolCall?
      modifies this`order, this`toolCalls
      ensures View() == Step(old(View()), update)
    {
      if update.id !in toolCalls {
        order := order + [Call(update.id)];
      }
      toolCalls := toolCalls[update.id := Tracked(update.id, update.title, update.kind, update.rawInput,
        if update.status.Set? then update.status.value else Pending,
        if update.content.Set? then update.content.value else [], update.rawOutput)];
    }

    method MergeToolCall(update: Update)
      requires update.ToolCallUpdate?
      modifies this`order, this`toolCalls
      ensures View() == Step(old(View()), update)
    {
      if update.id !in toolCalls {
        order := order + [Call(update.id)];
        toolCalls := toolCalls[update.id := Tracked(update.id,
          if update.newTitle.Set? then update.newTitle.value else update.id,
          if update.kind.Null? then Omitted else update.kind, update.rawInput,
          if update.status.Set? then update.status.value else Pending,
          if update.content.Set? then update.content.value else [], update.rawOutput)];
        return;
      }
      var existing := toolCalls[update.id];
      if update.newTitle.Set? { existing := existing.(title := update.newTitle.value); }
      if update.kind.Set? { existing := existing.(kind := update.kind); }
      if update.rawInput.Set? { existing := existing.(rawInput := update.rawInput); }
      if update.rawOutput.Set? { existing := existing.(rawOutput := update.rawOutput); }
      if update.status.Set? { existing := existing.(status := update.status.value); }
      if update.content.Set? { existing := existing.(content := update.content.value); }
      toolCalls := toolCalls[update.id := existing];
    }

    method Result() returns (result: TurnResult)
      requires Valid()
      ensures result == ResultOf(Run(pushed))
    {
      var items: seq<Item> := [];
      for i := 0 to |order|
        invariant items == Items(order[..i], toolCalls)
      {
        ItemsNext(order, toolCalls, i);
        var entry := order[i];
        if entry.Text? {
          items := items + [Message(entry.text)];
          continue;
        }
        if entry.id !in toolCalls {
          continue;
        }
        var call := toolCalls[entry.id];
        var announced := FunctionCall(call.id, call.title, call.kind, call.rawInput);
        ghost var before := items;
        items := items + [announced];
        if call.status != Completed && call.status != Failed {
          continue;
        }
        var output := RenderToolCallContent(call.content, call.rawOutput);
        items := items + [FunctionOutput(call.id, output, call.status == Failed)];
        assert items == before + ItemsOf(entry, toolCalls);
      }
      assert order[..|order|] == order;
      var text := if |order| > 0 && order[|order| - 1].Text? then order[|order| - 1].text else "";
      result := TurnResult(items, text, plan, availableCommands, currentModeId);
    }
  }
}
