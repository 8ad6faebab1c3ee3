/** What any sequence of updates leaves behind, said without following the fold. */
module TurnProperties {
  import opened Wrappers
  import opened TurnAccumulator

  // ---------- Fields: the last value wins ----------

  /** From `s` on the updates decide the fields of `id`: its latest announcement, or its first mention if it was never announced. */
  ghost predicate Governs(us: seq<Update>, id: string, s: nat) {
    && s < |us| && About(us[s], id)
    && (us[s].ToolCallUpdate? ==> forall j :: 0 <= j < s ==> !About(us[j], id))
    && forall j :: s < j < |us| && About(us[j], id) ==> us[j].ToolCallUpdate?
  }

  /** The most recent value sent for `id` at or after `s`, or `base` when none was. */
  function Latest<T>(us: seq<Update>, id: string, s: nat, pick: Update -> Field<T>, base: T): T
    decreases |us|
  {
    if |us| <= s then base
    else if About(us[|us| - 1], id) && pick(us[|us| - 1]).Set? then pick(us[|us| - 1]).value
    else Latest(us[..|us| - 1], id, s, pick, base)
  }

  ghost predicate Mentioned(us: seq<Update>, id: string) {
    exists j :: 0 <= j < |us| && About(us[j], id)
  }

  lemma Rejoin<T>(s: seq<T>)
    requires s != []
    ensures s == s[..|s| - 1] + [s[|s| - 1]]
  {
  }

  lemma MentionedSnoc(us: seq<Update>, u: Update, id: string)
    ensures Mentioned(us + [u], id) <==> Mentioned(us, id) || About(u, id)
  {
    var more := us + [u];
    if j :| 0 <= j < |us| && About(us[j], id) { assert About(more[j], id); }
    if About(u, id) { assert About(more[|us|], id); }
  }

  lemma StepTracks(t: Turn, u: Update, id: string)
    ensures id in Step(t, u).calls <==> id in t.calls || About(u, id)
  {
  }

  /** A call is tracked once it was mentioned. */
  lemma {:induction false} Tracks(us: seq<Update>, id: string)
    ensures id in Run(us).calls <==> Mentioned(us, id)
    decreases |us|
  {
    if us != [] {
      var init, u := us[..|us| - 1], us[|us| - 1];
      Tracks(init, id);
      StepTracks(Run(init), u, id);
      MentionedSnoc(init, u, id);
      Rejoin(us);
    }
  }

  function Given(f: Field<string>): Field<Option<string>> {
    if f.Set? then Set(Some(f.value)) else Omitted
  }

  function Kept(f: Field<string>): Option<string> {
    if f.Set? then Some(f.value) else None
  }

  function TitleIn(u: Update): Field<string> {
    if u.ToolCall? then Set(u.title) else if u.ToolCallUpdate? then u.newTitle else Omitted
  }

  function KindIn(u: Update): Field<Option<string>> {
    if u.ToolCall? || u.ToolCallUpdate? then Given(u.kind) else Omitted
  }

  function InputIn(u: Update): Field<Option<string>> {
    if u.ToolCall? || u.ToolCallUpdate? then Given(u.rawInput) else Omitted
  }

  function OutputIn(u: Update): Field<Option<string>> {
    if u.ToolCall? || u.ToolCallUpdate? then Given(u.rawOutput) else Omitted
  }

  function StatusIn(u: Update): Field<Status> {
    if u.ToolCall? || u.ToolCallUpdate? then u.status else Omitted
  }

  function ContentIn(u: Update): Field<seq<Content>> {
    if u.ToolCall? || u.ToolCallUpdate? then u.content else Omitted
  }

  /** Each field of `c` is the latest value sent. */
  ghost predicate HoldsLatest(c: Tracked, us: seq<Update>, id: string, s: nat) {
    && c.id == id
    && c.title == Latest(us, id, s, TitleIn, id)
    && Kept(c.kind) == Latest(us, id, s, KindIn, None)
    && Kept(c.rawInput) == Latest(us, id, s, InputIn, None)
    && Kept(c.rawOutput) == Latest(us, id, s, OutputIn, None)
    && c.status == Latest(us, id, s, StatusIn, Pending)
    && c.content == Latest(us, id, s, ContentIn, [])
  }

  lemma FirstHoldsLatest(us: seq<Update>, id: string)
    requires us != [] && About(us[|us| - 1], id)
    ensures var u := us[|us| - 1];
      HoldsLatest(if u.ToolCall? then Announced(u) else FirstSeen(u), us, id, |us| - 1)
  {
  }

  lemma MergedHoldsLatest(c: Tracked, us: seq<Update>, id: string, s: nat)
    requires s < |us| - 1 && About(us[|us| - 1], id) && us[|us| - 1].ToolCallUpdate?
    requires HoldsLatest(c, us[..|us| - 1], id, s)
    ensures HoldsLatest(Merged(c, us[|us| - 1]), us, id, s)
  {
  }

  lemma OthersHoldLatest(c: Tracked, us: seq<Update>, id: string, s: nat)
    requires s < |us| - 1 && !About(us[|us| - 1], id)
    requires HoldsLatest(c, us[..|us| - 1], id, s)
    ensures HoldsLatest(c, us, id, s)
  {
  }

  /** After any updates every field of a tracked call is the last value given since it was announced; content is replaced, never appended. */
  lemma {:induction false} FieldsAreLatest(us: seq<Update>, id: string, s: nat)
    requires Governs(us, id, s)
    ensures id in Run(us).calls && HoldsLatest(Run(us).calls[id], us, id, s)
    decreases |us|
  {
    Tracks(us, id);
    var init, u := us[..|us| - 1], us[|us| - 1];
    assert forall j :: 0 <= j < |init| ==> init[j] == us[j];
    if s < |init| {
      FieldsAreLatest(init, id, s);
      var c := Run(init).calls[id];
      if About(u, id) { MergedHoldsLatest(c, us, id, s); } else { OthersHoldLatest(c, us, id, s); }
    } else {
      if u.ToolCallUpdate? { Tracks(init, id); }
      FirstHoldsLatest(us, id);
    }
  }

  /** Every call that was mentioned has such a start, so the above is about every tracked call. */
  lemma GovernsLonger(us: seq<Update>, id: string, s: nat)
    requires us != [] && Governs(us[..|us| - 1], id, s)
    requires About(us[|us| - 1], id) ==> us[|us| - 1].ToolCallUpdate?
    ensures Governs(us, id, s)
  {
    assert forall j :: 0 <= j < |us| - 1 ==> us[..|us| - 1][j] == us[j];
  }

  lemma {:induction false} GovernsExists(us: seq<Update>, id: string) returns (s: nat)
    requires id in Run(us).calls
    ensures Governs(us, id, s)
    decreases |us|
  {
    var init, n := us[..|us| - 1], |us| - 1;
    Tracks(us, id);
    Tracks(init, id);
    if About(us[n], id) && (us[n].ToolCall? || id !in Run(init).calls) {
      s := n;
      assert forall j :: 0 <= j < n ==> us[j] == init[j];
    } else {
      assert id in Run(init).calls;
      s := GovernsExists(init, id);
      GovernsLonger(us, id, s);
    }
  }

  // ---------- Order: what was said and called, when ----------

  datatype Atom = Said(c: char) | Called(id: string)

  function Chars(s: string): (r: seq<Atom>)
    ensures |r| == |s| && forall i :: 0 <= i < |s| ==> r[i] == Said(s[i])
  {
    seq(|s|, i requires 0 <= i < |s| => Said(s[i]))
  }

  function EntryAtoms(e: Entry): seq<Atom> {
    match e
    case Text(text) => Chars(text)
    case Call(id) => [Called(id)]
  }

  function Atoms(order: seq<Entry>): seq<Atom>
    decreases |order|
  {
    if order == [] then [] else Atoms(order[..|order| - 1]) + EntryAtoms(order[|order| - 1])
  }

  /** Every character said, and every call at its first mention, as they came. */
  ghost function Trail(us: seq<Update>): seq<Atom>
    decreases |us|
  {
    if us == [] then []
    else
      var init, u := us[..|us| - 1], us[|us| - 1];
      Trail(init) +
      if u.MessageChunk? then Chars(u.text)
      else if (u.ToolCall? || u.ToolCallUpdate?) && !Mentioned(init, u.id) then [Called(u.id)]
      else []
  }

  /** Texts are non-empty and never adjacent, and each call stands once. */
  ghost predicate Tidy(order: seq<Entry>)
    decreases |order|
  {
    order == [] || (Tidy(order[..|order| - 1]) && Fits(order[..|order| - 1], order[|order| - 1]))
  }

  ghost predicate Fits(order: seq<Entry>, e: Entry) {
    match e
    case Text(text) => text != "" && (order == [] || order[|order| - 1].Call?)
    case Call(id) => Call(id) !in order
  }

  lemma TidySnoc(order: seq<Entry>, e: Entry)
    ensures Tidy(order + [e]) <==> Tidy(order) && Fits(order, e)
  {
    assert (order + [e])[..|order|] == order;
  }

  lemma AtomsSnoc(order: seq<Entry>, e: Entry)
    ensures Atoms(order + [e]) == Atoms(order) + EntryAtoms(e)
  {
    assert (order + [e])[..|order|] == order;
  }

  lemma CharsConcat(x: seq<Atom>, s: string, t: string)
    ensures x + Chars(s + t) == (x + Chars(s)) + Chars(t)
  {
    assert Chars(s + t) == Chars(s) + Chars(t);
  }

  lemma MoreTextAtoms(init: seq<Entry>, text: string, chunk: string)
    requires Tidy(init + [Text(text)])
    ensures Tidy(init + [Text(text + chunk)])
    ensures Atoms(init + [Text(text + chunk)]) == Atoms(init + [Text(text)]) + Chars(chunk)
  {
    AtomsSnoc(init, Text(text + chunk));
    AtomsSnoc(init, Text(text));
    CharsConcat(Atoms(init), text, chunk);
    TidySnoc(init, Text(text));
    TidySnoc(init, Text(text + chunk));
  }

  lemma NewTextAtoms(order: seq<Entry>, chunk: string)
    requires Tidy(order) && chunk != "" && (order == [] || order[|order| - 1].Call?)
    ensures Tidy(order + [Text(chunk)])
    ensures Atoms(order + [Text(chunk)]) == Atoms(order) + Chars(chunk)
  {
    AtomsSnoc(order, Text(chunk));
    TidySnoc(order, Text(chunk));
  }

  lemma AppendTextAtoms(order: seq<Entry>, chunk: string)
    requires Tidy(order)
    ensures Tidy(AppendText(order, chunk))
    ensures Atoms(AppendText(order, chunk)) == Atoms(order) + Chars(chunk)
    ensures forall id :: Call(id) in AppendText(order, chunk) <==> Call(id) in order
  {
    if order != [] && order[|order| - 1].Text? {
      var init, last := order[..|order| - 1], order[|order| - 1];
      Rejoin(order);
      MoreTextAtoms(init, last.text, chunk);
    } else if chunk != "" {
      NewTextAtoms(order, chunk);
    } else {
      assert Atoms(order) + Chars(chunk) == Atoms(order);
    }
  }

  lemma NewCallAtoms(order: seq<Entry>, id: string)
    requires Tidy(order) && Call(id) !in order
    ensures Tidy(order + [Call(id)])
    ensures Atoms(order + [Call(id)]) == Atoms(order) + [Called(id)]
  {
    AtomsSnoc(order, Call(id));
    TidySnoc(order, Call(id));
  }

  ghost predicate OrderOf(t: Turn, trail: seq<Atom>) {
    Tidy(t.order) && Atoms(t.order) == trail && forall id :: Call(id) in t.order <==> id in t.calls
  }

  lemma CallKeepsOrder(t: Turn, u: Update, trail: seq<Atom>)
    requires OrderOf(t, trail) && (u.ToolCall? || u.ToolCallUpdate?)
    ensures OrderOf(Step(t, u), if u.id in t.calls then trail else trail + [Called(u.id)])
  {
    if u.id !in t.calls { NewCallAtoms(t.order, u.id); }
  }

  lemma {:induction false} OrderTidy(us: seq<Update>)
    ensures OrderOf(Run(us), Trail(us))
    decreases |us|
  {
    if us != [] {
      var init, u := us[..|us| - 1], us[|us| - 1];
      OrderTidy(init);
      if u.MessageChunk? {
        AppendTextAtoms(Run(init).order, u.text);
      } else if u.ToolCall? || u.ToolCallUpdate? {
        Tracks(init, u.id);
        CallKeepsOrder(Run(init), u, Trail(init));
        assert Trail(init) + [] == Trail(init);
      } else {
        assert Trail(init) + [] == Trail(init);
      }
    }
  }

  lemma LastAtom(order: seq<Entry>)
    requires Tidy(order) && order != []
    ensures Atoms(order) != []
    ensures Atoms(order)[|Atoms(order)| - 1].Called? <==> order[|order| - 1].Call?
    ensures Tidy(order[..|order| - 1])
  {
    var e := order[|order| - 1];
    assert EntryAtoms(e) != [];
    assert Atoms(order)[|Atoms(order)| - 1] == EntryAtoms(e)[|EntryAtoms(e)| - 1];
  }

  lemma LastText(order: seq<Entry>)
    requires Tidy(order) && order != [] && order[|order| - 1].Text?
    ensures var init := order[..|order| - 1];
      && Tidy(init)
      && (Atoms(init) == [] || Atoms(init)[|Atoms(init)| - 1].Called?)
  {
    var init := order[..|order| - 1];
    if init != [] { LastAtom(init); }
  }

  lemma SameCall(x: seq<Atom>, i: string, y: seq<Atom>, j: string)
    requires x + [Called(i)] == y + [Called(j)]
    ensures x == y && i == j
  {
    var z := x + [Called(i)];
    assert x == z[..|z| - 1] && y == (y + [Called(j)])[..|z| - 1];
    assert z[|z| - 1] == Called(i);
  }

  /** A tidy order is determined by what was said and called. */
  lemma {:induction false} TidyUnique(a: seq<Entry>, b: seq<Entry>)
    requires Tidy(a) && Tidy(b) && Atoms(a) == Atoms(b)
    ensures a == b
    decreases |a|
  {
    if a == [] {
      if b != [] { LastAtom(b); }
    } else {
      LastAtom(a);
      assert b != [];
      LastAtom(b);
      var x, e := a[..|a| - 1], a[|a| - 1];
      var y, f := b[..|b| - 1], b[|b| - 1];
      if e.Text? {
        LastText(a);
        LastText(b);
        SameTail(Atoms(x), e.text, Atoms(y), f.text);
      } else {
        SameCall(Atoms(x), e.id, Atoms(y), f.id);
      }
      TidyUnique(x, y);
      Rejoin(a);
      Rejoin(b);
    }
  }

  lemma SameTail(x: seq<Atom>, s: string, y: seq<Atom>, t: string)
    requires x == [] || x[|x| - 1].Called?
    requires y == [] || y[|y| - 1].Called?
    requires x + Chars(s) == y + Chars(t)
    ensures x == y && s == t
  {
    var z := x + Chars(s);
    assert x != [] ==> z[|x| - 1] == x[|x| - 1];
    assert y != [] ==> (y + Chars(t))[|y| - 1] == y[|y| - 1];
    assert |x| == |y|;
    assert x == z[..|x|] && y == z[..|y|];
    assert Chars(s) == z[|x|..] && Chars(t) == z[|x|..];
    forall i | 0 <= i < |s|
      ensures s[i] == t[i]
    {
      assert Chars(s)[i] == Chars(t)[i];
    }
  }

  /** The order is the one tidy list of texts and calls that says and calls what the updates did, in their order. */
  lemma OrderIsDetermined(us: seq<Update>, order: seq<Entry>)
    ensures order == Run(us).order <==> Tidy(order) && Atoms(order) == Trail(us)
  {
    OrderTidy(us);
    if Tidy(order) && Atoms(order) == Trail(us) { TidyUnique(order, Run(us).order); }
  }

  // ---------- Independence ----------

  lemma {:induction false} RunOn(us: seq<Update>, vs: seq<Update>, more: seq<Update>)
    requires Run(us) == Run(vs)
    ensures Run(us + more) == Run(vs + more)
    decreases |more|
  {
    if more == [] {
      assert us + more == us && vs + more == vs;
    } else {
      var init := more[..|more| - 1];
      RunOn(us, vs, init);
      assert (us + more)[..|us + more| - 1] == us + init;
      assert (vs + more)[..|vs + more| - 1] == vs + init;
    }
  }

  lemma RunTwo(us: seq<Update>, u: Update, v: Update)
    ensures Run(us + [u, v]) == Step(Step(Run(us), u), v)
  {
    assert (us + [u, v])[..|us| + 1] == us + [u];
    assert (us + [u])[..|us|] == us;
  }

  lemma AppendTwice(order: seq<Entry>, a: string, b: string)
    ensures AppendText(AppendText(order, a), b) == AppendText(order, a + b)
  {
    if order != [] && order[|order| - 1].Text? {
      var init, last := order[..|order| - 1], order[|order| - 1].text;
      assert (init + [Text(last + a)])[..|init|] == init;
      assert (last + a) + b == last + (a + b);
    } else if a != "" {
      assert (order + [Text(a)])[..|order|] == order;
    } else {
      assert a + b == b;
    }
  }

  /** Splitting a message chunk anywhere changes nothing, whatever comes before and after. */
  lemma ChunkSplitsFreely(us: seq<Update>, a: string, b: string, more: seq<Update>)
    ensures Run(us + [MessageChunk(a), MessageChunk(b)] + more) == Run(us + [MessageChunk(a + b)] + more)
  {
    RunTwo(us, MessageChunk(a), MessageChunk(b));
    assert (us + [MessageChunk(a + b)])[..|us|] == us;
    AppendTwice(Run(us).order, a, b);
    RunOn(us + [MessageChunk(a), MessageChunk(b)], us + [MessageChunk(a + b)], more);
  }

  lemma StepsCommute(t: Turn, u: Update, v: Update)
    requires (u.ToolCall? || u.ToolCallUpdate?) && (v.ToolCall? || v.ToolCallUpdate?) && u.id != v.id
    requires u.id in t.calls && v.id in t.calls
    ensures Step(Step(t, u), v) == Step(Step(t, v), u)
  {
    var x, y := Step(t, u).calls[u.id], Step(t, v).calls[v.id];
    assert t.calls[u.id := x][v.id := y] == t.calls[v.id := y][u.id := x];
  }

  /** Updates to two different calls that are already known can change places. */
  lemma KnownCallsCommute(us: seq<Update>, u: Update, v: Update, more: seq<Update>)
    requires (u.ToolCall? || u.ToolCallUpdate?) && (v.ToolCall? || v.ToolCallUpdate?) && u.id != v.id
    requires u.id in Run(us).calls && v.id in Run(us).calls
    ensures Run(us + [u, v] + more) == Run(us + [v, u] + more)
  {
    RunTwo(us, u, v);
    RunTwo(us, v, u);
    StepsCommute(Run(us), u, v);
    RunOn(us + [u, v], us + [v, u], more);
  }

  // ---------- The result ----------

  function Messages(items: seq<Item>): string
    decreases |items|
  {
    if items == [] then ""
    else Messages(items[..|items| - 1]) + if items[|items| - 1].Message? then items[|items| - 1].text else ""
  }

  function Spoken(us: seq<Update>): string
    decreases |us|
  {
    if us == [] then ""
    else Spoken(us[..|us| - 1]) + if us[|us| - 1].MessageChunk? then us[|us| - 1].text else ""
  }

  function TextOf(trail: seq<Atom>): string
    decreases |trail|
  {
    if trail == [] then ""
    else TextOf(trail[..|trail| - 1]) + if trail[|trail| - 1].Said? then [trail[|trail| - 1].c] else ""
  }

  lemma {:induction false} TextOfConcat(x: seq<Atom>, y: seq<Atom>)
    ensures TextOf(x + y) == TextOf(x) + TextOf(y)
    decreases |y|
  {
    if y == [] {
      assert x + y == x;
    } else {
      assert (x + y)[..|x + y| - 1] == x + y[..|y| - 1];
      TextOfConcat(x, y[..|y| - 1]);
    }
  }

  lemma {:induction false} TextOfChars(s: string)
    ensures TextOf(Chars(s)) == s
    decreases |s|
  {
    if s != "" {
      assert Chars(s)[..|s| - 1] == Chars(s[..|s| - 1]);
      TextOfChars(s[..|s| - 1]);
      Rejoin(s);
    }
  }

  lemma {:induction false} TrailText(us: seq<Update>)
    ensures TextOf(Trail(us)) == Spoken(us)
    decreases |us|
  {
    if us != [] {
      var init, u := us[..|us| - 1], us[|us| - 1];
      TrailText(init);
      if u.MessageChunk? {
        TextOfConcat(Trail(init), Chars(u.text));
        TextOfChars(u.text);
      } else if (u.ToolCall? || u.ToolCallUpdate?) && !Mentioned(init, u.id) {
        TextOfConcat(Trail(init), [Called(u.id)]);
        assert [Called(u.id)][..0] == [];
        assert TextOf([Called(u.id)]) == "";
      } else {
        assert Trail(init) + [] == Trail(init);
      }
    }
  }

  lemma {:induction false} MessagesConcat(x: seq<Item>, y: seq<Item>)
    ensures Messages(x + y) == Messages(x) + Messages(y)
    decreases |y|
  {
    if y == [] {
      assert x + y == x;
    } else {
      assert (x + y)[..|x + y| - 1] == x + y[..|y| - 1];
      MessagesConcat(x, y[..|y| - 1]);
    }
  }

  lemma {:induction false} NoMessages(items: seq<Item>)
    requires forall i :: 0 <= i < |items| ==> !items[i].Message?
    ensures Messages(items) == ""
    decreases |items|
  {
    if items != [] { NoMessages(items[..|items| - 1]); }
  }

  lemma EntryMessages(e: Entry, calls: map<string, Tracked>)
    ensures Messages(ItemsOf(e, calls)) == TextOf(EntryAtoms(e))
  {
    match e
    case Text(text) =>
      TextOfChars(text);
      assert [Message(text)][..0] == [];
    case Call(id) =>
      assert TextOf([Called(id)]) == "" by { assert [Called(id)][..0] == []; }
      NoMessages(ItemsOf(e, calls));
  }

  lemma {:induction false} ItemsMessages(order: seq<Entry>, calls: map<string, Tracked>)
    ensures Messages(Items(order, calls)) == TextOf(Atoms(order))
    decreases |order|
  {
    if order != [] {
      var init, e := order[..|order| - 1], order[|order| - 1];
      ItemsMessages(init, calls);
      EntryMessages(e, calls);
      MessagesConcat(Items(init, calls), ItemsOf(e, calls));
      TextOfConcat(Atoms(init), EntryAtoms(e));
    }
  }

  /** The message items of the result hold every message chunk, in order, and nothing else. */
  lemma ResultSaysEverything(us: seq<Update>)
    ensures Messages(ResultOf(Run(us)).items) == Spoken(us)
  {
    OrderTidy(us);
    ItemsMessages(Run(us).order, Run(us).calls);
    TrailText(us);
  }

  /** What is said after the last call of a trail. */
  function AfterLastCall(trail: seq<Atom>): string
    decreases |trail|
  {
    if trail == [] || trail[|trail| - 1].Called? then ""
    else AfterLastCall(trail[..|trail| - 1]) + [trail[|trail| - 1].c]
  }

  lemma {:induction false} AfterChars(x: seq<Atom>, s: string)
    requires x == [] || x[|x| - 1].Called?
    ensures AfterLastCall(x + Chars(s)) == s
    decreases |s|
  {
    if s == "" {
      assert x + Chars(s) == x;
    } else {
      var t := x + Chars(s);
      assert t[..|t| - 1] == x + Chars(s[..|s| - 1]);
      AfterChars(x, s[..|s| - 1]);
      Rejoin(s);
    }
  }

  /** The turn's text is what was said after the last call was first mentioned. */
  lemma FinalTextIsLastMessage(us: seq<Update>)
    ensures ResultOf(Run(us)).text == AfterLastCall(Trail(us))
  {
    OrderTidy(us);
    var order := Run(us).order;
    if order != [] && order[|order| - 1].Text? {
      LastText(order);
      AfterChars(Atoms(order[..|order| - 1]), order[|order| - 1].text);
    }
  }

  // ---------- The calls in the result ----------

  function Announcements(items: seq<Item>, id: string): nat
    decreases |items|
  {
    if items == [] then 0
    else Announcements(items[..|items| - 1], id) + if items[|items| - 1].FunctionCall? && items[|items| - 1].id == id then 1 else 0
  }

  function Outputs(items: seq<Item>, id: string): nat
    decreases |items|
  {
    if items == [] then 0
    else Outputs(items[..|items| - 1], id) + if items[|items| - 1].FunctionOutput? && items[|items| - 1].id == id then 1 else 0
  }

  lemma {:induction false} CountsConcat(x: seq<Item>, y: seq<Item>, id: string)
    ensures Announcements(x + y, id) == Announcements(x, id) + Announcements(y, id)
    ensures Outputs(x + y, id) == Outputs(x, id) + Outputs(y, id)
    decreases |y|
  {
    if y == [] {
      assert x + y == x;
    } else {
      assert (x + y)[..|x + y| - 1] == x + y[..|y| - 1];
      CountsConcat(x, y[..|y| - 1], id);
    }
  }

  ghost predicate CallsInOrder(t: Turn, id: string) {
    && (Call(id) in t.order <==> id in t.calls)
    && (id in t.calls ==> t.calls[id].id == id)
  }

  lemma StepCallsInOrder(t: Turn, u: Update, id: string)
    requires CallsInOrder(t, id)
    ensures CallsInOrder(Step(t, u), id)
  {
    if u.MessageChunk? {
      AppendKeepsCalls(t.order, u.text, id);
    }
  }

  lemma AppendKeepsCalls(order: seq<Entry>, chunk: string, id: string)
    ensures Call(id) in AppendText(order, chunk) <==> Call(id) in order
  {
    if order != [] { Rejoin(order); }
  }

  lemma {:induction false} RunCallsInOrder(us: seq<Update>, id: string)
    ensures CallsInOrder(Run(us), id)
    decreases |us|
  {
    if us != [] {
      RunCallsInOrder(us[..|us| - 1], id);
      StepCallsInOrder(Run(us[..|us| - 1]), us[|us| - 1], id);
    }
  }

  ghost predicate KeysAreIds(calls: map<string, Tracked>) {
    forall k :: k in calls ==> calls[k].id == k
  }

  lemma OneCount(item: Item, id: string)
    ensures Announcements([item], id) == if item.FunctionCall? && item.id == id then 1 else 0
    ensures Outputs([item], id) == if item.FunctionOutput? && item.id == id then 1 else 0
  {
    assert [item][..0] == [];
  }

  lemma EntryCounts(e: Entry, calls: map<string, Tracked>, id: string)
    requires KeysAreIds(calls)
    ensures Announcements(ItemsOf(e, calls), id) == if e == Call(id) && id in calls then 1 else 0
    ensures Outputs(ItemsOf(e, calls), id) == if e == Call(id) && id in calls && Settled(calls[id].status) then 1 else 0
  {
    var items := ItemsOf(e, calls);
    if |items| >= 1 { OneCount(items[0], id); }
    if |items| == 1 {
      assert items == [items[0]];
    } else if |items| == 2 {
      OneCount(items[1], id);
      CountsConcat([items[0]], [items[1]], id);
      assert items == [items[0]] + [items[1]];
    }
  }

  lemma {:induction false} ItemsCount(order: seq<Entry>, calls: map<string, Tracked>, id: string)
    requires Tidy(order) && KeysAreIds(calls)
    ensures Announcements(Items(order, calls), id) == if Call(id) in order && id in calls then 1 else 0
    ensures Outputs(Items(order, calls), id) == if Call(id) in order && id in calls && Settled(calls[id].status) then 1 else 0
    decreases |order|
  {
    if order != [] {
      var init, e := order[..|order| - 1], order[|order| - 1];
      ItemsCount(init, calls, id);
      EntryCounts(e, calls, id);
      CountsConcat(Items(init, calls), ItemsOf(e, calls), id);
      Rejoin(order);
      assert Call(id) in order <==> Call(id) in init || e == Call(id);
    }
  }

  /** The result announces every call that was mentioned once, however often it was announced or updated, and reports an output for exactly those that settled. */
  lemma EveryCallReportedOnce(us: seq<Update>, id: string)
    ensures Announcements(ResultOf(Run(us)).items, id) == if Mentioned(us, id) then 1 else 0
    ensures Outputs(ResultOf(Run(us)).items, id) == if id in Run(us).calls && Settled(Run(us).calls[id].status) then 1 else 0
  {
    OrderTidy(us);
    Tracks(us, id);
    RunCallsInOrder(us, id);
    forall k | k in Run(us).calls ensures Run(us).calls[k].id == k { RunCallsInOrder(us, k); }
    ItemsCount(Run(us).order, Run(us).calls, id);
  }

  // ---------- The snapshots ----------

  function Thoughts(us: seq<Update>): string
    decreases |us|
  {
    if us == [] then ""
    else Thoughts(us[..|us| - 1]) + if us[|us| - 1].ThoughtChunk? then us[|us| - 1].text else ""
  }

  lemma {:induction false} ReasoningIsThoughts(us: seq<Update>)
    ensures Run(us).reasoning == Thoughts(us)
    decreases |us|
  {
    if us != [] { ReasoningIsThoughts(us[..|us| - 1]); }
  }

  /** The updates after which the snapshots no longer change. */
  ghost predicate LastPlan(us: seq<Update>, i: nat) {
    i < |us| && us[i].PlanUpdate? && forall j :: i < j < |us| ==> !us[j].PlanUpdate?
  }

  ghost predicate LastCommands(us: seq<Update>, i: nat) {
    i < |us| && us[i].CommandsUpdate? && forall j :: i < j < |us| ==> !us[j].CommandsUpdate?
  }

  ghost predicate LastMode(us: seq<Update>, i: nat) {
    i < |us| && us[i].ModeUpdate? && forall j :: i < j < |us| ==> !us[j].ModeUpdate?
  }

  /** Plan, commands and mode are the last ones sent. */
  lemma {:induction false} SnapshotsAreLast(us: seq<Update>, i: nat)
    ensures LastPlan(us, i) ==> Run(us).plan == Some(us[i].entries)
    ensures LastCommands(us, i) ==> Run(us).commands == Some(us[i].commands)
    ensures LastMode(us, i) ==> Run(us).mode == Some(us[i].modeId)
    decreases |us|
  {
    if us != [] && i < |us| - 1 {
      var init := us[..|us| - 1];
      SnapshotsAreLast(init, i);
      assert init[i] == us[i];
      assert forall j :: 0 <= j < |init| ==> init[j] == us[j];
      assert LastPlan(us, i) ==> LastPlan(init, i);
      assert LastCommands(us, i) ==> LastCommands(init, i);
      assert LastMode(us, i) ==> LastMode(init, i);
    }
  }
}
