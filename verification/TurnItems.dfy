/** What the items of a turn's result say: everything that was said and called, in order, and of each call what was last heard of it. */
module TurnItems {
  import opened Wrappers
  import opened TurnAccumulator
  import opened TurnProperties

  // ---------- The items in order ----------

  function ItemAtoms(item: Item): seq<Atom> {
    match item
    case Message(text) => Chars(text)
    case FunctionCall(id, _, _, _) => [Called(id)]
    case FunctionOutput(_, _, _) => []
  }

  function ItemTrail(items: seq<Item>): seq<Atom>
    decreases |items|
  {
    if items == [] then [] else ItemTrail(items[..|items| - 1]) + ItemAtoms(items[|items| - 1])
  }

  lemma {:induction false} ItemTrailConcat(x: seq<Item>, y: seq<Item>)
    ensures ItemTrail(x + y) == ItemTrail(x) + ItemTrail(y)
    decreases |y|
  {
    if y == [] {
      assert x + y == x;
    } else {
      assert (x + y)[..|x + y| - 1] == x + y[..|y| - 1];
      ItemTrailConcat(x, y[..|y| - 1]);
      Regrouped(ItemTrail(x), ItemTrail(y[..|y| - 1]), ItemAtoms(y[|y| - 1]));
    }
  }

  lemma Regrouped<T>(a: seq<T>, b: seq<T>, c: seq<T>)
    ensures a + b + c == a + (b + c)
  {
  }

  ghost predicate AllTracked(order: seq<Entry>, calls: map<string, Tracked>) {
    && KeysAreIds(calls)
    && forall k :: 0 <= k < |order| && order[k].Call? ==> order[k].id in calls
  }

  lemma OneItemTrail(item: Item)
    ensures ItemTrail([item]) == ItemAtoms(item)
  {
    assert [item][..0] == [];
  }

  lemma EntryTrail(e: Entry, calls: map<string, Tracked>)
    requires KeysAreIds(calls) && (e.Call? ==> e.id in calls)
    ensures ItemTrail(ItemsOf(e, calls)) == EntryAtoms(e)
  {
    var items := ItemsOf(e, calls);
    OneItemTrail(items[0]);
    if |items| == 2 {
      OneItemTrail(items[1]);
      assert items == [items[0]] + [items[1]];
      ItemTrailConcat([items[0]], [items[1]]);
    } else {
      assert items == [items[0]];
    }
  }

  lemma {:induction false} OrderTrail(order: seq<Entry>, calls: map<string, Tracked>)
    requires AllTracked(order, calls)
    ensures ItemTrail(Items(order, calls)) == Atoms(order)
    decreases |order|
  {
    if order != [] {
      var init, e := order[..|order| - 1], order[|order| - 1];
      OrderTrail(init, calls);
      EntryTrail(e, calls);
      ItemTrailConcat(Items(init, calls), ItemsOf(e, calls));
    }
  }

  lemma RunTracked(us: seq<Update>)
    ensures AllTracked(Run(us).order, Run(us).calls)
  {
    var t := Run(us);
    forall k | k in t.calls ensures t.calls[k].id == k { RunCallsInOrder(us, k); }
    forall k | 0 <= k < |t.order| && t.order[k].Call? ensures t.order[k].id in t.calls {
      RunCallsInOrder(us, t.order[k].id);
      assert Call(t.order[k].id) in t.order;
    }
  }

  /** The items say and call exactly what the updates did, in that order: text and calls interleave as they came. */
  lemma ItemsTellTheTurn(us: seq<Update>)
    ensures ItemTrail(ResultOf(Run(us)).items) == Trail(us)
  {
    RunTracked(us);
    OrderTidy(us);
    OrderTrail(Run(us).order, Run(us).calls);
  }

  // ---------- Where an item comes from ----------

  lemma PrefixExtends<T>(a: seq<T>, b: seq<T>, c: seq<T>)
    requires a <= b
    ensures a <= b + c
  {
  }

  lemma {:induction false} ItemsPrefix(order: seq<Entry>, calls: map<string, Tracked>, k: nat)
    requires k <= |order|
    ensures Items(order[..k], calls) <= Items(order, calls)
    decreases |order|
  {
    var n := |order| - 1;
    if k <= n {
      ItemsPrefix(order[..n], calls, k);
      assert order[..n][..k] == order[..k];
      PrefixExtends(Items(order[..k], calls), Items(order[..n], calls), ItemsOf(order[n], calls));
    } else {
      assert order[..k] == order;
    }
  }

  /** The items of the `k`-th entry follow those of the entries before it. */
  lemma BlockAt(order: seq<Entry>, calls: map<string, Tracked>, k: nat)
    requires k < |order|
    ensures Items(order[..k], calls) + ItemsOf(order[k], calls) == Items(order[..k + 1], calls) <= Items(order, calls)
  {
    ItemsNext(order, calls, k);
    ItemsPrefix(order, calls, k + 1);
  }

  lemma Behind<T>(a: seq<T>, b: seq<T>, all: seq<T>, j: nat)
    requires a + b <= all && j < |b|
    ensures |a| + j < |all| && all[|a| + j] == b[j]
  {
    assert (a + b)[|a| + j] == b[j];
  }

  /** Item `i` is the `j`-th one of entry `k`. */
  ghost predicate Origin(order: seq<Entry>, calls: map<string, Tracked>, i: nat, k: nat, j: nat) {
    k < |order| && j < |ItemsOf(order[k], calls)| && i == |Items(order[..k], calls)| + j
  }

  lemma {:induction false} OriginOf(order: seq<Entry>, calls: map<string, Tracked>, i: nat) returns (k: nat, j: nat)
    requires i < |Items(order, calls)|
    ensures Origin(order, calls, i, k, j)
    decreases |order|
  {
    var n := |order| - 1;
    if i < |Items(order[..n], calls)| {
      k, j := OriginOf(order[..n], calls, i);
      assert order[..n][..k] == order[..k];
    } else {
      k, j := n, i - |Items(order[..n], calls)|;
    }
  }

  /** The item itself. */
  lemma ItemAt(order: seq<Entry>, calls: map<string, Tracked>, i: nat, k: nat, j: nat)
    requires Origin(order, calls, i, k, j)
    ensures i < |Items(order, calls)| && Items(order, calls)[i] == ItemsOf(order[k], calls)[j]
  {
    BlockAt(order, calls, k);
    Behind(Items(order[..k], calls), ItemsOf(order[k], calls), Items(order, calls), j);
  }

  /** Every entry has an item. */
  lemma HasItem(order: seq<Entry>, calls: map<string, Tracked>, k: nat)
    requires AllTracked(order, calls) && k < |order|
    ensures ItemsOf(order[k], calls) != []
  {
  }

  /** The second item of an entry follows the first. */
  lemma SecondItem(order: seq<Entry>, calls: map<string, Tracked>, i: nat, k: nat)
    requires Origin(order, calls, i, k, 0) && |ItemsOf(order[k], calls)| == 2
    ensures i + 1 < |Items(order, calls)| && Items(order, calls)[i + 1] == ItemsOf(order[k], calls)[1]
  {
    assert Origin(order, calls, i + 1, k, 1);
    ItemAt(order, calls, i + 1, k, 1);
  }

  /** The last item of an entry is followed by the first of the next, if there is one. */
  lemma NextItem(order: seq<Entry>, calls: map<string, Tracked>, i: nat, k: nat, j: nat)
    requires Origin(order, calls, i, k, j) && j + 1 == |ItemsOf(order[k], calls)|
    requires k + 1 < |order| ==> ItemsOf(order[k + 1], calls) != []
    ensures if k + 1 < |order| then i + 1 < |Items(order, calls)| && Items(order, calls)[i + 1] == ItemsOf(order[k + 1], calls)[0]
      else i + 1 == |Items(order, calls)|
  {
    if k + 1 == |order| {
      LastBlock(order, calls);
    } else {
      NextOrigin(order, calls, i, k, j);
      ItemAt(order, calls, i + 1, k + 1, 0);
    }
  }

  lemma LastBlock(order: seq<Entry>, calls: map<string, Tracked>)
    requires order != []
    ensures |Items(order, calls)| == |Items(order[..|order| - 1], calls)| + |ItemsOf(order[|order| - 1], calls)|
  {
  }

  lemma NextOrigin(order: seq<Entry>, calls: map<string, Tracked>, i: nat, k: nat, j: nat)
    requires Origin(order, calls, i, k, j) && j + 1 == |ItemsOf(order[k], calls)| && k + 1 < |order|
    requires ItemsOf(order[k + 1], calls) != []
    ensures Origin(order, calls, i + 1, k + 1, 0)
  {
    ItemsNext(order, calls, k);
  }

  lemma MessageOf(order: seq<Entry>, calls: map<string, Tracked>, i: nat)
    requires AllTracked(order, calls) && Tidy(order) && i < |Items(order, calls)| && Items(order, calls)[i].Message?
    ensures Items(order, calls)[i].text != "" && (i + 1 < |Items(order, calls)| ==> !Items(order, calls)[i + 1].Message?)
  {
    var k, j := OriginOf(order, calls, i);
    ItemAt(order, calls, i, k, j);
    if k + 1 < |order| { HasItem(order, calls, k + 1); }
    NextItem(order, calls, i, k, j);
    TidyAt(order, k);
  }

  /** Messages are not empty and never stand side by side. */
  lemma MessagesStandApart(us: seq<Update>, i: nat)
    requires var items := ResultOf(Run(us)).items; i < |items| && items[i].Message?
    ensures var items := ResultOf(Run(us)).items; items[i].text != "" && (i + 1 < |items| ==> !items[i + 1].Message?)
  {
    RunTracked(us);
    OrderTidy(us);
    MessageOf(Run(us).order, Run(us).calls, i);
  }

  lemma {:induction false} TidyAt(order: seq<Entry>, k: nat)
    requires Tidy(order) && k < |order| && order[k].Text?
    ensures order[k].text != "" && (k + 1 < |order| ==> order[k + 1].Call?)
    decreases |order|
  {
    var n := |order| - 1;
    if k < n { TidyAt(order[..n], k); }
  }

  lemma OutputIsSecond(e: Entry, calls: map<string, Tracked>, j: nat)
    requires j < |ItemsOf(e, calls)| && ItemsOf(e, calls)[j].FunctionOutput?
    ensures j == 1 && ItemsOf(e, calls)[0].FunctionCall? && ItemsOf(e, calls)[0].id == ItemsOf(e, calls)[1].id
  {
  }

  /** An output stands directly after the announcement of its call. */
  lemma OutputsFollowCalls(us: seq<Update>, i: nat)
    requires var items := ResultOf(Run(us)).items; i < |items| && items[i].FunctionOutput?
    ensures var items := ResultOf(Run(us)).items; i > 0 && items[i - 1].FunctionCall? && items[i - 1].id == items[i].id
  {
    var order, calls := Run(us).order, Run(us).calls;
    RunTracked(us);
    var k, j := OriginOf(order, calls, i);
    ItemAt(order, calls, i, k, j);
    OutputIsSecond(order[k], calls, j);
    assert Origin(order, calls, i - 1, k, 0);
    ItemAt(order, calls, i - 1, k, 0);
  }

  // ---------- What is said of a call ----------

  /** The fields of `c` that hold no value are as `u` left them; a `null` kind counts in an announcement only. */
  ghost predicate OtherwiseAsSent(c: Tracked, u: Update)
    requires u.ToolCall? || u.ToolCallUpdate?
  {
    && (c.rawInput.Set? || c.rawInput == u.rawInput)
    && (c.rawOutput.Set? || c.rawOutput == u.rawOutput)
    && (c.kind.Set? || c.kind == if u.kind.Null? && u.ToolCallUpdate? then Omitted else u.kind)
  }

  lemma StepAsSent(t: Turn, u: Update, id: string, start: Update)
    requires start.ToolCall? || start.ToolCallUpdate?
    requires id in t.calls && OtherwiseAsSent(t.calls[id], start) && (About(u, id) ==> u.ToolCallUpdate?)
    ensures id in Step(t, u).calls && OtherwiseAsSent(Step(t, u).calls[id], start)
  {
  }

  lemma FirstAsSent(t: Turn, u: Update, id: string)
    requires About(u, id) && (u.ToolCallUpdate? ==> id !in t.calls)
    ensures id in Step(t, u).calls && OtherwiseAsSent(Step(t, u).calls[id], u)
  {
  }

  lemma GovernsShorter(us: seq<Update>, id: string, s: nat)
    requires Governs(us, id, s) && s < |us| - 1
    ensures Governs(us[..|us| - 1], id, s)
  {
  }

  lemma NotTrackedBefore(us: seq<Update>, id: string)
    requires us != [] && Governs(us, id, |us| - 1) && us[|us| - 1].ToolCallUpdate?
    ensures id !in Run(us[..|us| - 1]).calls
  {
    Tracks(us[..|us| - 1], id);
  }

  /** What no later update gave a value stays as the governing one left it. */
  lemma {:induction false} UnsetAsSent(us: seq<Update>, id: string, s: nat)
    requires Governs(us, id, s)
    ensures id in Run(us).calls && OtherwiseAsSent(Run(us).calls[id], us[s])
    decreases |us|
  {
    var init, u := us[..|us| - 1], us[|us| - 1];
    if s < |init| {
      GovernsShorter(us, id, s);
      UnsetAsSent(init, id, s);
      StepAsSent(Run(init), u, id, us[s]);
    } else {
      if u.ToolCallUpdate? { NotTrackedBefore(us, id); }
      FirstAsSent(Run(init), u, id);
    }
  }

  /** How one piece of content reads. */
  ghost predicate Reads(part: string, c: Content) {
    match c
    case Block(text) => part == text
    case Diff(path, newText) => part == "[diff " + path + "]" + "\n" + newText
    case Terminal(id) => part == "[terminal " + id + "]"
  }

  /** One part a line, or more. */
  function Lines(parts: seq<string>): string
    requires parts != []
    decreases |parts|
  {
    if |parts| == 1 then parts[0] else Lines(parts[..|parts| - 1]) + "\n" + parts[|parts| - 1]
  }

  ghost predicate LinesRead(output: string, parts: seq<string>, content: seq<Content>) {
    && parts != [] && |parts| == |content|
    && (forall i :: 0 <= i < |parts| ==> Reads(parts[i], content[i]))
    && output == Lines(parts)
  }

  /** The output of a call is its latest content, one part for each piece and in order; without any it is the latest raw output. */
  ghost predicate Tells(output: string, us: seq<Update>, id: string, s: nat) {
    var content, raw := Latest(us, id, s, ContentIn, []), Latest(us, id, s, OutputIn, None);
    if content != [] then exists parts :: LinesRead(output, parts, content)
    else if raw.Some? then output == raw.value
    else output == if s < |us| && (us[s].ToolCall? || us[s].ToolCallUpdate?) && us[s].rawOutput.Null? then "null" else ""
  }

  lemma {:induction false} JoinsLines(parts: seq<string>)
    requires parts != []
    ensures JoinLines(parts) == Lines(parts)
    decreases |parts|
  {
    if |parts| > 1 {
      JoinsLines(parts[1..]);
      LinesFromFirst(parts);
    }
  }

  lemma {:induction false} LinesFromFirst(parts: seq<string>)
    requires |parts| > 1
    ensures Lines(parts) == parts[0] + "\n" + Lines(parts[1..])
    decreases |parts|
  {
    var n := |parts| - 1;
    if n > 1 {
      LinesFromFirst(parts[..n]);
      assert parts[..n][1..] == parts[1..][..n - 1];
      Regrouped(parts[0] + "\n", Lines(parts[1..n]), "\n" + parts[n]);
      assert parts[1..n] == parts[1..][..n - 1];
      Regrouped(Lines(parts[1..n]), "\n", parts[n]);
      Regrouped(parts[0] + "\n" + Lines(parts[1..n]), "\n", parts[n]);
    }
  }

  lemma RenderedTells(us: seq<Update>, id: string, s: nat)
    requires Governs(us, id, s)
    ensures id in Run(us).calls && Tells(Rendered(Run(us).calls[id].content, Run(us).calls[id].rawOutput), us, id, s)
  {
    FieldsAreLatest(us, id, s);
    UnsetAsSent(us, id, s);
    var c := Run(us).calls[id];
    if c.content != [] {
      var parts := Parts(c.content);
      JoinsLines(parts);
      assert forall i :: 0 <= i < |parts| ==> Reads(parts[i], c.content[i]);
      assert LinesRead(Rendered(c.content, c.rawOutput), parts, c.content);
    }
  }

  /** The announcement says what was last heard of the call, and the output after it, if there is one, how it ended. */
  ghost predicate CallTold(items: seq<Item>, i: nat, us: seq<Update>, s: nat)
    requires i < |items| && items[i].FunctionCall?
  {
    var id, status := items[i].id, Latest(us, items[i].id, s, StatusIn, Pending);
    && items[i].title == Latest(us, id, s, TitleIn, id)
    && Kept(items[i].kind) == Latest(us, id, s, KindIn, None)
    && Kept(items[i].rawInput) == Latest(us, id, s, InputIn, None)
    && (status == Completed || status == Failed <==> i + 1 < |items| && items[i + 1].FunctionOutput?)
    && (i + 1 < |items| && items[i + 1].FunctionOutput? ==>
        && items[i + 1].id == id
        && (items[i + 1].failed <==> status == Failed)
        && Tells(items[i + 1].output, us, id, s))
  }

  /** So it is of every call in the result, from its governing start on. */
  lemma CallsAreTold(us: seq<Update>, i: nat) returns (s: nat)
    requires var items := ResultOf(Run(us)).items; i < |items| && items[i].FunctionCall?
    ensures var items := ResultOf(Run(us)).items; Governs(us, items[i].id, s) && CallTold(items, i, us, s)
  {
    var order, calls := Run(us).order, Run(us).calls;
    RunTracked(us);
    var k, j := OriginOf(order, calls, i);
    ItemAt(order, calls, i, k, j);
    var id := order[k].id;
    if |ItemsOf(order[k], calls)| == 2 {
      SecondItem(order, calls, i, k);
    } else {
      if k + 1 < |order| { HasItem(order, calls, k + 1); }
      NextItem(order, calls, i, k, j);
    }
    s := GovernsExists(us, id);
    FieldsAreLatest(us, id, s);
    RenderedTells(us, id, s);
  }

  /** And every call that was mentioned is in the result. */
  lemma MentionedCallIsTold(us: seq<Update>, id: string) returns (i: nat)
    requires Mentioned(us, id)
    ensures var items := ResultOf(Run(us)).items; i < |items| && items[i].FunctionCall? && items[i].id == id
  {
    var order, calls := Run(us).order, Run(us).calls;
    RunTracked(us);
    Tracks(us, id);
    RunCallsInOrder(us, id);
    var k :| 0 <= k < |order| && order[k] == Call(id);
    i := |Items(order[..k], calls)|;
    assert Origin(order, calls, i, k, 0);
    ItemAt(order, calls, i, k, 0);
  }

  /** Snapshots that were never sent are not there. */
  lemma {:induction false} NoPlanWithoutUpdate(us: seq<Update>)
    requires forall i :: 0 <= i < |us| ==> !us[i].PlanUpdate?
    ensures Run(us).plan == None
    decreases |us|
  {
    if us != [] { NoPlanWithoutUpdate(us[..|us| - 1]); }
  }

  lemma {:induction false} NoCommandsWithoutUpdate(us: seq<Update>)
    requires forall i :: 0 <= i < |us| ==> !us[i].CommandsUpdate?
    ensures Run(us).commands == None
    decreases |us|
  {
    if us != [] { NoCommandsWithoutUpdate(us[..|us| - 1]); }
  }

  lemma {:induction false} NoModeWithoutUpdate(us: seq<Update>)
    requires forall i :: 0 <= i < |us| ==> !us[i].ModeUpdate?
    ensures Run(us).mode == None
    decreases |us|
  {
    if us != [] { NoModeWithoutUpdate(us[..|us| - 1]); }
  }
}
