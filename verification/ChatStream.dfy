/** Translating one harness turn into chat chunks: text passes through, tool calls become task cards. */
module ChatStream {
  import opened CallMarks
  import opened StreamEvents
  import opened Wrappers

  datatype CardStatus = InProgress | Complete | Failed

  datatype Chunk = Words(text: string) | Task(id: string, title: string, status: CardStatus)

  type Titler = (string, string) -> string

  /** The notice for an abort reason; `None` and the empty text both post nothing. */
  type Notifier = string -> Option<string>

  datatype Options = Options(messageId: string, separator: string, title: Titler, notice: Notifier)

  datatype Claim = Ours(turnId: Option<string>) | Foreign | Dropped | Unclaimed

  function ClaimFromIds(ids: Option<seq<string>>, messageId: string, turnId: Option<string>): Claim {
    if ids.None? || messageId !in ids.value then Unclaimed
    else if ids.value[0] != messageId then Foreign
    else Ours(turnId)
  }

  function MatchClaim(e: StreamEvent, messageId: string): Claim {
    if HasName(e, TurnStarted) then ClaimFromIds(e.data.messageIds, messageId, e.data.turnId)
    else if HasName(e, InboxInjected) then ClaimFromIds(e.data.messageIds, messageId, None)
    else if HasName(e, SteerDropped) && e.data.messageId == Some(messageId) then Dropped
    else Unclaimed
  }

  /** `open` in the order the calls were started; `names` keeps the tool name of each. */
  datatype Turn = Turn(turnId: Option<string>, emittedText: bool, pendingSeparator: bool, open: seq<string>, names: map<string, string>)

  datatype Effect = Effect(turn: Turn, chunks: seq<Chunk>, ends: bool)

  function NameIn(names: map<string, string>, id: string): string {
    if id in names then names[id] else ""
  }

  function Flushed(t: Turn, title: Titler, status: CardStatus): seq<Chunk> {
    seq(|t.open|, i requires 0 <= i < |t.open| => Task(t.open[i], title(NameIn(t.names, t.open[i]), t.open[i]), status))
  }

  function HandleSdk(t: Turn, p: Payload, o: Options): Effect {
    match p
    case TextDelta(delta) =>
      Effect(t.(emittedText := true, pendingSeparator := false), (if t.pendingSeparator then [Words(o.separator)] else []) + [Words(delta)], false)
    case MessageAdded => Effect(t.(pendingSeparator := t.emittedText), [], false)
    case _ => Effect(t, [], false)
  }

  function Notice(d: Data, o: Options): string {
    var notice := o.notice(if d.reason.Some? then d.reason.value else "aborted");
    if notice.Some? then notice.value else ""
  }

  function NoticeChunks(t: Turn, d: Data, o: Options): seq<Chunk> {
    if Notice(d, o) == "" then [] else [Words((if t.emittedText then o.separator else "") + Notice(d, o))]
  }

  function Handle(t: Turn, e: StreamEvent, o: Options): Effect {
    if e.Sdk? then HandleSdk(t, e.payload, o)
    else if HasName(e, ToolCallStarted) then
      if !IsCall(e) then Effect(t, [], false)
      else
        var id, name := e.data.callId.value, e.data.name.value;
        Effect(t.(open := Insert(t.open, id), names := t.names[id := name]), [Task(id, o.title(name, id), InProgress)], false)
    else if HasName(e, ToolCallCompleted) then
      if !IsCall(e) then Effect(t, [], false)
      else
        var id := e.data.callId.value;
        Effect(t.(open := Remove(t.open, id), names := t.names - {id}),
          [Task(id, o.title(e.data.name.value, id), if e.data.failed then Failed else Complete)], false)
    else if HasName(e, TurnCompleted) && MatchesTurn(e, t.turnId) then
      Effect(t.(open := [], names := map[]), Flushed(t, o.title, Complete), true)
    else if HasName(e, TurnAborted) && MatchesTurn(e, t.turnId) then
      Effect(t.(open := [], names := map[]), Flushed(t, o.title, Failed) + NoticeChunks(t, e.data, o), true)
    else Effect(t, [], false)
  }

  // ---------- The translator ----------

  datatype Translation =
    | Waiting
    | Refused(at: nat)
    | Claimed(at: nat, turn: Turn, chunks: seq<Chunk>)
    | Ended(at: nat, end: nat, chunks: seq<Chunk>)

  function NewTurn(turnId: Option<string>): Turn {
    Turn(turnId, false, false, [], map[])
  }

  function Step(s: Translation, n: nat, e: StreamEvent, o: Options): Translation {
    match s
    case Waiting =>
      (match MatchClaim(e, o.messageId)
       case Ours(turnId) => Claimed(n, NewTurn(turnId), [])
       case Unclaimed => Waiting
       case _ => Refused(n))
    case Claimed(at, turn, chunks) =>
      var effect := Handle(turn, e, o);
      if effect.ends then Ended(at, n, chunks + effect.chunks) else Claimed(at, effect.turn, chunks + effect.chunks)
    case _ => s
  }

  function Translated(events: seq<StreamEvent>, o: Options): Translation
    decreases |events|
  {
    if events == [] then Waiting
    else Step(Translated(events[..|events| - 1], o), |events| - 1, events[|events| - 1], o)
  }

  function Yielded(s: Translation): seq<Chunk> {
    if s.Claimed? || s.Ended? then s.chunks else []
  }

  lemma TranslatedNext(events: seq<StreamEvent>, i: nat, o: Options)
    requires i < |events|
    ensures Translated(events[..i + 1], o) == Step(Translated(events[..i], o), i, events[i], o)
  {
    assert events[..i + 1][..i] == events[..i];
  }

  method StreamToChatChunks(events: seq<StreamEvent>, o: Options) returns (chunks: seq<Chunk>)
    ensures chunks == Yielded(Translated(events, o))
  {
    var claimed := false;
    var turn := NewTurn(None);
    chunks := [];
    ghost var at: nat := 0;
    var i := 0;
    while i < |events|
      invariant 0 <= i <= |events|
      invariant !claimed ==> chunks == []
      invariant Translated(events[..i], o) == if claimed then Claimed(at, turn, chunks) else Waiting
    {
      var event := events[i];
      TranslatedNext(events, i, o);
      if !claimed {
        var claim := MatchClaim(event, o.messageId);
        if claim.Foreign? || claim.Dropped? {
          StaysOver(events, i + 1, o);
          return;
        }
        if claim.Ours? {
          claimed := true;
          turn := NewTurn(claim.turnId);
          at := i;
        }
        i := i + 1;
        continue;
      }
      var effect := Handle(turn, event, o);
      chunks := chunks + effect.chunks;
      if effect.ends {
        StaysOver(events, i + 1, o);
        return;
      }
      turn := effect.turn;
      i := i + 1;
    }
    assert events[..i] == events;
  }

  predicate IsOver(s: Translation) {
    s.Refused? || s.Ended?
  }

  lemma {:induction false} StaysOver(events: seq<StreamEvent>, k: nat, o: Options)
    requires k <= |events| && IsOver(Translated(events[..k], o))
    ensures Translated(events, o) == Translated(events[..k], o)
    decreases |events|
  {
    if k < |events| {
      assert events[..|events| - 1][..k] == events[..k];
      StaysOver(events[..|events| - 1], k, o);
    } else {
      assert events[..k] == events;
    }
  }

  // ---------- Who posts the reply ----------

  /** No event so far names this message as started, injected or dropped. */
  predicate Unnamed(events: seq<StreamEvent>, messageId: string)
    decreases |events|
  {
    events == [] || (MatchClaim(events[|events| - 1], messageId) == Unclaimed && Unnamed(events[..|events| - 1], messageId))
  }

  function At(s: Translation): nat {
    if s.Waiting? then 0 else s.at
  }

  ghost predicate DecidedByFirst(s: Translation, events: seq<StreamEvent>, messageId: string) {
    if s.Waiting? then Unnamed(events, messageId)
    else
      && s.at < |events| && Unnamed(events[..s.at], messageId)
      && (s.Refused? <==> MatchClaim(events[s.at], messageId) in {Foreign, Dropped})
      && (!s.Refused? <==> MatchClaim(events[s.at], messageId).Ours?)
  }

  /** The first event naming the message decides: a turn or injection it heads is translated, one it does not head, or a drop,
      ends the translation without a chunk. */
  lemma {:induction false} FirstNamingDecides(events: seq<StreamEvent>, o: Options)
    ensures DecidedByFirst(Translated(events, o), events, o.messageId)
    ensures Translated(events, o).Refused? || Translated(events, o).Waiting? ==> Yielded(Translated(events, o)) == []
    decreases |events|
  {
    if events != [] {
      var init := events[..|events| - 1];
      var s := Translated(init, o);
      FirstNamingDecides(init, o);
      if !s.Waiting? { assert init[..s.at] == events[..s.at]; }
    }
  }

  /** Messages that are claimed by the same event share one reply: two that both yield were claimed by different events. */
  lemma PostersAreClaimedApart(events: seq<StreamEvent>, o: Options, p: Options)
    requires o.messageId != p.messageId
    requires Yielded(Translated(events, o)) != [] && Yielded(Translated(events, p)) != []
    ensures At(Translated(events, o)) != At(Translated(events, p))
  {
    FirstNamingDecides(events, o);
    FirstNamingDecides(events, p);
  }

  /** The turn whose end the translation waits for, when event `k` claims it; none for any turn's. */
  function TurnClaimed(events: seq<StreamEvent>, k: nat, messageId: string): Option<string>
    requires k < |events|
  {
    var claim := MatchClaim(events[k], messageId);
    if claim.Ours? then claim.turnId else None
  }

  /** Event `k` is the first to name the message, the message heads it, and no turn it waits for has ended since. */
  ghost predicate Inside(events: seq<StreamEvent>, k: nat, messageId: string) {
    && k < |events|
    && Unnamed(events[..k], messageId)
    && MatchClaim(events[k], messageId).Ours?
    && NoBoundary(Since(events, k), TurnClaimed(events, k, messageId))
  }

  lemma {:induction false} UnnamedAt(events: seq<StreamEvent>, k: nat, messageId: string)
    requires Unnamed(events, messageId) && k < |events|
    ensures MatchClaim(events[k], messageId) == Unclaimed
    decreases |events|
  {
    if k < |events| - 1 { UnnamedAt(events[..|events| - 1], k, messageId); }
  }

  lemma WaitingIffUnnamed(events: seq<StreamEvent>, o: Options)
    ensures Translated(events, o).Waiting? <==> Unnamed(events, o.messageId)
  {
    FirstNamingDecides(events, o);
    var s := Translated(events, o);
    if !s.Waiting? && Unnamed(events, o.messageId) { UnnamedAt(events, s.at, o.messageId); }
  }

  lemma HandleEndsAtBoundary(t: Turn, e: StreamEvent, o: Options)
    ensures Handle(t, e, o).ends <==> Boundary(e, t.turnId)
    ensures Handle(t, e, o).turn.turnId == t.turnId
  {
  }

  lemma InsideSnoc(events: seq<StreamEvent>, k: nat, messageId: string)
    requires k + 1 < |events|
    ensures Inside(events, k, messageId) <==>
      Inside(events[..|events| - 1], k, messageId) && !Boundary(events[|events| - 1], TurnClaimed(events, k, messageId))
  {
    var init := events[..|events| - 1];
    assert init[..k] == events[..k];
    SinceSnoc(events, k);
    assert Since(events, k)[..|Since(events, k)| - 1] == Since(init, k);
  }

  ghost predicate ClaimedAt(s: Translation, k: nat) {
    s.Claimed? && s.at == k
  }

  /** A translation is inside its turn exactly when its message is. */
  lemma {:induction false} ClaimedIffInside(events: seq<StreamEvent>, o: Options, k: nat)
    ensures ClaimedAt(Translated(events, o), k) <==> Inside(events, k, o.messageId)
    ensures ClaimedAt(Translated(events, o), k) ==> Translated(events, o).turn.turnId == TurnClaimed(events, k, o.messageId)
    decreases |events|
  {
    if events != [] {
      var n := |events| - 1;
      var s := Translated(events[..n], o);
      FirstNamingDecides(events[..n], o);
      if k < n {
        ClaimedIffInside(events[..n], o, k);
        InsideSnoc(events, k, o.messageId);
        if s.Claimed? { HandleEndsAtBoundary(s.turn, events[n], o); }
      } else if k == n {
        WaitingIffUnnamed(events[..n], o);
        assert Since(events, n) == [];
      }
    }
  }

  predicate IsDelta(e: StreamEvent) {
    e.Sdk? && e.payload.TextDelta?
  }

  /** Text that arrives next is posted. */
  predicate Posts(events: seq<StreamEvent>, e: StreamEvent, o: Options) {
    |Yielded(Translated(events + [e], o))| > |Yielded(Translated(events, o))|
  }

  lemma PostsIffClaimed(events: seq<StreamEvent>, e: StreamEvent, o: Options)
    requires IsDelta(e)
    ensures Posts(events, e, o) <==> Translated(events, o).Claimed?
  {
    assert (events + [e])[..|events|] == events;
  }

  /** Text is posted for a message exactly while it is inside a turn. So it is posted for two messages exactly when both are: when
      the later was named first by an event inside the other's turn that it heads, as an injection is. */
  lemma PostedTwiceIffBothInside(events: seq<StreamEvent>, e: StreamEvent, o: Options, p: Options)
    requires IsDelta(e) && o.messageId != p.messageId
    ensures Posts(events, e, o) && Posts(events, e, p) <==>
      exists i, j :: i != j && Inside(events, i, o.messageId) && Inside(events, j, p.messageId)
  {
    PostsIffClaimed(events, e, o);
    PostsIffClaimed(events, e, p);
    var s, t := Translated(events, o), Translated(events, p);
    if s.Claimed? && t.Claimed? {
      ClaimedIffInside(events, o, s.at);
      ClaimedIffInside(events, p, t.at);
      FirstNamingDecides(events, o);
      FirstNamingDecides(events, p);
    }
    if i, j :| Inside(events, i, o.messageId) && Inside(events, j, p.messageId) {
      ClaimedIffInside(events, o, i);
      ClaimedIffInside(events, p, j);
    }
  }

  /** A turn started for one message into which another is injected posts its text twice. */
  lemma InjectedPostsAgain(o: Options, p: Options, turn: string, text: string) returns (events: seq<StreamEvent>, e: StreamEvent)
    requires o.messageId != p.messageId
    ensures |events| == 2 && HasName(events[0], TurnStarted) && HasName(events[1], InboxInjected)
    ensures IsDelta(e) && Posts(events, e, o) && Posts(events, e, p)
  {
    var none := Data(None, None, None, None, None, None, false, None, None);
    var start := Framework(TurnStarted, none.(messageIds := Some([o.messageId]), turnId := Some(turn)));
    var injected := Framework(InboxInjected, none.(messageIds := Some([p.messageId]), turnId := Some(turn)));
    events := [start, injected];
    e := Sdk(TextDelta(text));
    assert events[..0] == [] && events[..1] == [start] && [start][..0] == [];
    assert Since(events, 0) == [injected] && [injected][..0] == [] && Since(events, 1) == [];
    assert o.messageId in start.data.messageIds.value && p.messageId in injected.data.messageIds.value;
    assert MatchClaim(start, o.messageId) == Ours(Some(turn)) && MatchClaim(start, p.messageId) == Unclaimed;
    assert MatchClaim(injected, p.messageId) == Ours(None);
    assert Unnamed([start], p.messageId) && NoBoundary([injected], Some(turn));
    assert TurnClaimed(events, 0, o.messageId) == Some(turn) && Inside(events, 0, o.messageId);
    assert Inside(events, 1, p.messageId);
    PostedTwiceIffBothInside(events, e, o, p);
  }

  // ---------- The text of the reply ----------

  function Text(chunks: seq<Chunk>): string
    decreases |chunks|
  {
    if chunks == [] then ""
    else Text(chunks[..|chunks| - 1]) + if chunks[|chunks| - 1].Words? then chunks[|chunks| - 1].text else ""
  }

  /** One assistant message: the deltas it received. */
  type Message = seq<string>

  function Extended(messages: seq<Message>, delta: string): seq<Message> {
    if messages == [] then [[delta]] else messages[..|messages| - 1] + [messages[|messages| - 1] + [delta]]
  }

  /** The assistant messages of a turn, each with its deltas; a message item opens a further one. */
  function Messages(seen: seq<StreamEvent>): (r: seq<Message>)
    ensures r != []
    decreases |seen|
  {
    if seen == [] then [[]]
    else
      var before, last := Messages(seen[..|seen| - 1]), seen[|seen| - 1];
      if last.Sdk? && last.payload.MessageAdded? then before + [[]]
      else if last.Sdk? && last.payload.TextDelta? then Extended(before, last.payload.delta)
      else before
  }

  function Concat(deltas: Message): string
    decreases |deltas|
  {
    if deltas == [] then "" else Concat(deltas[..|deltas| - 1]) + deltas[|deltas| - 1]
  }

  /** The texts of the messages that had a delta. */
  function Texts(messages: seq<Message>): seq<string>
    decreases |messages|
  {
    if messages == [] then []
    else Texts(messages[..|messages| - 1]) + if messages[|messages| - 1] == [] then [] else [Concat(messages[|messages| - 1])]
  }

  function Join(separator: string, texts: seq<string>): string
    decreases |texts|
  {
    if texts == [] then ""
    else if |texts| == 1 then texts[0]
    else Join(separator, texts[..|texts| - 1]) + separator + texts[|texts| - 1]
  }

  lemma JoinSnoc(separator: string, texts: seq<string>, text: string)
    ensures Join(separator, texts + [text]) == Join(separator, texts) + (if texts == [] then "" else separator) + text
  {
    assert (texts + [text])[..|texts|] == texts;
  }

  lemma {:induction false} TextAppend(a: seq<Chunk>, b: seq<Chunk>)
    ensures Text(a + b) == Text(a) + Text(b)
    decreases |b|
  {
    if b == [] {
      assert a + b == a;
    } else {
      assert (a + b)[..|a + b| - 1] == a + b[..|b| - 1];
      TextAppend(a, b[..|b| - 1]);
    }
  }

  lemma {:induction false} CardsHaveNoText(chunks: seq<Chunk>)
    requires forall c :: c in chunks ==> c.Task?
    ensures Text(chunks) == ""
    decreases |chunks|
  {
    if chunks != [] {
      assert chunks[|chunks| - 1] in chunks;
      assert forall c :: c in chunks[..|chunks| - 1] ==> c in chunks;
      CardsHaveNoText(chunks[..|chunks| - 1]);
    }
  }

  lemma TextsSnoc(messages: seq<Message>, message: Message)
    ensures Texts(messages + [message]) == Texts(messages) + if message == [] then [] else [Concat(message)]
  {
    assert (messages + [message])[..|messages|] == messages;
  }

  lemma ConcatSnoc(message: Message, delta: string)
    ensures Concat(message + [delta]) == Concat(message) + delta
  {
    assert (message + [delta])[..|message|] == message;
  }

  /** A delta either opens the text of its message, after the separator unless it is the first text, or adds to it. */
  lemma DeltaJoins(separator: string, messages: seq<Message>, delta: string)
    requires messages != []
    ensures Texts(Extended(messages, delta)) != []
    ensures Join(separator, Texts(Extended(messages, delta))) == Join(separator, Texts(messages))
      + (if Texts(messages) != [] && messages[|messages| - 1] == [] then separator else "") + delta
  {
    var init, last := messages[..|messages| - 1], messages[|messages| - 1];
    assert messages == init + [last];
    TextsSnoc(init, last);
    TextsSnoc(init, last + [delta]);
    ConcatSnoc(last, delta);
    JoinSnoc(separator, Texts(init), Concat(last + [delta]));
    if last == [] {
      assert Concat(last) == "" && "" + delta == delta;
      assert Texts(init) + [] == Texts(init);
    } else {
      JoinSnoc(separator, Texts(init), Concat(last));
    }
  }

  lemma AddedJoins(messages: seq<Message>)
    ensures Texts(messages + [[]]) == Texts(messages)
  {
    TextsSnoc(messages, []);
  }

  /** The two flags say whether anything was said, and whether the current message is still silent after that. */
  ghost predicate Speaks(emitted: bool, pending: bool, text: string, messages: seq<Message>, separator: string) {
    && messages != []
    && (emitted <==> Texts(messages) != [])
    && (pending <==> emitted && messages[|messages| - 1] == [])
    && text == Join(separator, Texts(messages))
  }

  lemma SingleText(chunk: Chunk)
    ensures Text([chunk]) == if chunk.Words? then chunk.text else ""
  {
    assert [chunk][..0] == [];
  }

  function DeltaText(pending: bool, delta: string, separator: string): string {
    (if pending then separator else "") + delta
  }

  lemma DeltaSpeaks(emitted: bool, pending: bool, text: string, messages: seq<Message>, delta: string, separator: string)
    requires Speaks(emitted, pending, text, messages, separator)
    ensures Speaks(true, false, text + DeltaText(pending, delta, separator), Extended(messages, delta), separator)
  {
    DeltaJoins(separator, messages, delta);
    Gapped(text, pending, delta, separator);
  }

  lemma Gapped(text: string, pending: bool, delta: string, separator: string)
    ensures text + DeltaText(pending, delta, separator) == text + (if pending then separator else "") + delta
  {
  }

  lemma AddedSpeaks(emitted: bool, pending: bool, text: string, messages: seq<Message>, separator: string)
    requires Speaks(emitted, pending, text, messages, separator)
    ensures Speaks(emitted, emitted, text, messages + [[]], separator)
  {
    AddedJoins(messages);
  }

  predicate IsAdded(e: StreamEvent) {
    e.Sdk? && e.payload.MessageAdded?
  }

  lemma MessagesSnoc(seen: seq<StreamEvent>, e: StreamEvent)
    ensures Messages(seen + [e]) ==
      if IsAdded(e) then Messages(seen) + [[]] else if IsDelta(e) then Extended(Messages(seen), e.payload.delta) else Messages(seen)
  {
    assert (seen + [e])[..|seen|] == seen;
  }

  lemma DeltaIsText(t: Turn, delta: string, o: Options)
    ensures Text(HandleSdk(t, TextDelta(delta), o).chunks) == DeltaText(t.pendingSeparator, delta, o.separator)
  {
    SingleText(Words(o.separator));
    SingleText(Words(delta));
    TextAppend([Words(o.separator)], [Words(delta)]);
    if !t.pendingSeparator {
      assert [] + [Words(delta)] == [Words(delta)];
      assert "" + delta == delta;
    }
  }

  lemma OthersAreSilent(t: Turn, e: StreamEvent, o: Options)
    requires !IsDelta(e) && !Handle(t, e, o).ends
    ensures var effect := Handle(t, e, o);
      && Text(effect.chunks) == "" && effect.turn.emittedText == t.emittedText
      && effect.turn.pendingSeparator == if IsAdded(e) then t.emittedText else t.pendingSeparator
  {
    CardsHaveNoText(Handle(t, e, o).chunks);
  }

  lemma HandleSpeaks(t: Turn, text: string, messages: seq<Message>, e: StreamEvent, o: Options)
    requires Speaks(t.emittedText, t.pendingSeparator, text, messages, o.separator) && !Handle(t, e, o).ends
    ensures var effect := Handle(t, e, o);
      Speaks(effect.turn.emittedText, effect.turn.pendingSeparator, text + Text(effect.chunks),
        if IsAdded(e) then messages + [[]] else if IsDelta(e) then Extended(messages, e.payload.delta) else messages, o.separator)
  {
    if IsDelta(e) {
      DeltaIsText(t, e.payload.delta, o);
      DeltaSpeaks(t.emittedText, t.pendingSeparator, text, messages, e.payload.delta, o.separator);
    } else {
      OthersAreSilent(t, e, o);
      assert text + "" == text;
      if IsAdded(e) { AddedSpeaks(t.emittedText, t.pendingSeparator, text, messages, o.separator); }
    }
  }

  ghost predicate SpeaksSoFar(t: Turn, chunks: seq<Chunk>, seen: seq<StreamEvent>, separator: string) {
    Speaks(t.emittedText, t.pendingSeparator, Text(chunks), Messages(seen), separator)
  }

  lemma StepSpeaks(t: Turn, chunks: seq<Chunk>, seen: seq<StreamEvent>, e: StreamEvent, o: Options)
    requires SpeaksSoFar(t, chunks, seen, o.separator) && !Handle(t, e, o).ends
    ensures SpeaksSoFar(Handle(t, e, o).turn, chunks + Handle(t, e, o).chunks, seen + [e], o.separator)
  {
    MessagesSnoc(seen, e);
    TextAppend(chunks, Handle(t, e, o).chunks);
    HandleSpeaks(t, Text(chunks), Messages(seen), e, o);
  }

  /** Inside the turn the text so far is the messages so far. */
  lemma {:induction false} ClaimedSpeaks(events: seq<StreamEvent>, o: Options)
    requires Translated(events, o).Claimed?
    ensures var s := Translated(events, o);
      s.at < |events| && SpeaksSoFar(s.turn, s.chunks, Since(events, s.at), o.separator)
    decreases |events|
  {
    var n := |events| - 1;
    var s := Translated(events[..n], o);
    if s.Claimed? {
      ClaimedSpeaks(events[..n], o);
      SinceSnoc(events, s.at);
      StepSpeaks(s.turn, s.chunks, Since(events[..n], s.at), events[n], o);
    } else {
      SilentAtFirst(Translated(events, o).turn.turnId, o.separator);
    }
  }

  lemma SilentAtFirst(turnId: Option<string>, separator: string)
    ensures SpeaksSoFar(NewTurn(turnId), [], [], separator)
  {
    assert Texts([[]][..0]) == [];
  }

  lemma {:induction false} EndsAfterClaim(events: seq<StreamEvent>, o: Options)
    requires Translated(events, o).Ended?
    ensures var s := Translated(events, o);
      && s.at < s.end < |events|
      && Translated(events[..s.end], o).Claimed?
      && s == Step(Translated(events[..s.end], o), s.end, events[s.end], o)
    decreases |events|
  {
    var n := |events| - 1;
    var s := Translated(events[..n], o);
    if s.Ended? {
      EndsAfterClaim(events[..n], o);
      assert events[..n][..s.end] == events[..s.end];
    } else {
      FirstNamingDecides(events[..n], o);
    }
  }

  /** The notice the turn ends with, if it was aborted and there is one. */
  function ClosingWords(e: StreamEvent, o: Options): seq<string> {
    if HasName(e, TurnAborted) && Notice(e.data, o) != "" then [Notice(e.data, o)] else []
  }

  lemma NoticeText(t: Turn, d: Data, o: Options)
    ensures Text(NoticeChunks(t, d, o)) == if Notice(d, o) == "" then "" else DeltaText(t.emittedText, Notice(d, o), o.separator)
  {
    SingleText(Words((if t.emittedText then o.separator else "") + Notice(d, o)));
  }

  lemma EndChunks(t: Turn, e: StreamEvent, o: Options) returns (cards: seq<Chunk>)
    requires Handle(t, e, o).ends
    ensures forall c :: c in cards ==> c.Task?
    ensures Handle(t, e, o).chunks == cards + if HasName(e, TurnAborted) then NoticeChunks(t, e.data, o) else []
  {
    cards := Flushed(t, o.title, if HasName(e, TurnAborted) then Failed else Complete);
  }

  lemma EndText(t: Turn, e: StreamEvent, o: Options)
    requires Handle(t, e, o).ends
    ensures Text(Handle(t, e, o).chunks) ==
      if ClosingWords(e, o) == [] then "" else DeltaText(t.emittedText, ClosingWords(e, o)[0], o.separator)
  {
    var cards := EndChunks(t, e, o);
    CardsHaveNoText(cards);
    if HasName(e, TurnAborted) {
      TextAppend(cards, NoticeChunks(t, e.data, o));
      NoticeText(t, e.data, o);
      assert "" + Text(NoticeChunks(t, e.data, o)) == Text(NoticeChunks(t, e.data, o));
    } else {
      assert cards + [] == cards;
    }
  }

  lemma ClosingJoins(emitted: bool, pending: bool, text: string, messages: seq<Message>, closing: seq<string>, separator: string)
    requires Speaks(emitted, pending, text, messages, separator) && |closing| <= 1
    ensures Join(separator, Texts(messages) + closing) == text + if closing == [] then "" else DeltaText(emitted, closing[0], separator)
  {
    var texts := Texts(messages);
    if closing == [] {
      assert texts + closing == texts;
    } else {
      var gap := if emitted then separator else "";
      JoinSnoc(separator, texts, closing[0]);
      assert closing == [closing[0]];
      assert text + DeltaText(emitted, closing[0], separator) == text + gap + closing[0];
    }
  }

  lemma EndSpeaks(t: Turn, chunks: seq<Chunk>, seen: seq<StreamEvent>, e: StreamEvent, o: Options)
    requires SpeaksSoFar(t, chunks, seen, o.separator) && Handle(t, e, o).ends
    ensures Text(chunks + Handle(t, e, o).chunks) == Join(o.separator, Texts(Messages(seen)) + ClosingWords(e, o))
  {
    TextAppend(chunks, Handle(t, e, o).chunks);
    EndText(t, e, o);
    ClosingJoins(t.emittedText, t.pendingSeparator, Text(chunks), Messages(seen), ClosingWords(e, o), o.separator);
  }

  /** The text posted for a finished turn is its assistant messages that said anything, and the abort notice as one more, joined by the separator. */
  lemma PostedTextIsTheMessages(events: seq<StreamEvent>, o: Options)
    requires Translated(events, o).Ended?
    ensures var s := Translated(events, o);
      && s.at < s.end < |events|
      && Text(s.chunks) == Join(o.separator, Texts(Messages(Since(events[..s.end], s.at))) + ClosingWords(events[s.end], o))
  {
    var s := Translated(events, o);
    EndsAfterClaim(events, o);
    ClaimedSpeaks(events[..s.end], o);
    var before := Translated(events[..s.end], o);
    EndSpeaks(before.turn, before.chunks, Since(events[..s.end], s.at), events[s.end], o);
  }

  /** After an abort the notice for its reason, or for no reason given, is posted last, unless there is none or it is empty. */
  lemma AbortPostsItsNotice(events: seq<StreamEvent>, o: Options)
    requires Translated(events, o).Ended?
    ensures var s := Translated(events, o);
      && s.at < s.end < |events| && events[s.end].Framework?
      && var said, d := Texts(Messages(Since(events[..s.end], s.at))), events[s.end].data;
        var notice := o.notice(if d.reason == None then "aborted" else d.reason.value);
        Text(s.chunks) == Join(o.separator,
          if events[s.end].name == TurnAborted && notice != None && notice != Some("") then said + [notice.value] else said)
  {
    PostedTextIsTheMessages(events, o);
    EndsAfterClaim(events, o);
    var s := Translated(events, o);
    EndIsFramework(Translated(events[..s.end], o).turn, events[s.end], o);
    ClosingMeans(events[s.end], o, Texts(Messages(Since(events[..s.end], s.at))));
  }

  lemma EndIsFramework(t: Turn, e: StreamEvent, o: Options)
    requires Handle(t, e, o).ends
    ensures e.Framework?
  {
  }

  lemma ClosingMeans(e: StreamEvent, o: Options, said: seq<string>)
    requires e.Framework?
    ensures var notice := o.notice(if e.data.reason == None then "aborted" else e.data.reason.value);
      said + ClosingWords(e, o) == if e.name == TurnAborted && notice != None && notice != Some("") then said + [notice.value] else said
  {
    assert said + [] == said;
  }

  // ---------- The task cards ----------

  function MarkOf(chunk: Chunk): Mark {
    if chunk.Words? then Silent else if chunk.status == InProgress then Opens(chunk.id) else Closes(chunk.id)
  }

  function Marks(chunks: seq<Chunk>): seq<Mark> {
    seq(|chunks|, i requires 0 <= i < |chunks| => MarkOf(chunks[i]))
  }

  lemma MarksAppend(a: seq<Chunk>, b: seq<Chunk>)
    ensures Marks(a + b) == Marks(a) + Marks(b)
  {
  }

  lemma {:induction false} AllSilent(marks: seq<Mark>)
    requires forall i :: 0 <= i < |marks| ==> marks[i] == Silent
    ensures Quiet(marks)
    decreases |marks|
  {
    if marks != [] { AllSilent(marks[..|marks| - 1]); }
  }

  lemma HandleMarks(t: Turn, e: StreamEvent, o: Options)
    requires !Handle(t, e, o).ends
    ensures var effect := Handle(t, e, o);
      && (IsCall(e) && HasName(e, ToolCallStarted) ==>
          Marks(effect.chunks) == [Opens(e.data.callId.value)] && effect.turn.open == Insert(t.open, e.data.callId.value))
      && (IsCall(e) && HasName(e, ToolCallCompleted) ==>
          Marks(effect.chunks) == [Closes(e.data.callId.value)] && effect.turn.open == Remove(t.open, e.data.callId.value))
      && (!IsCallEvent(e) ==> Quiet(Marks(effect.chunks)) && effect.turn.open == t.open)
  {
    if !IsCallEvent(e) { AllSilent(Marks(Handle(t, e, o).chunks)); }
  }

  lemma HandleMirrors(t: Turn, chunks: seq<Chunk>, seen: seq<StreamEvent>, e: StreamEvent, effect: Effect, o: Options, id: string)
    requires Mirrors(t.open, Marks(chunks), seen, id) && !effect.ends && effect == Handle(t, e, o)
    ensures Mirrors(effect.turn.open, Marks(chunks + effect.chunks), seen + [e], id)
  {
    HandleMarks(t, e, o);
    MarksAppend(chunks, effect.chunks);
    if IsCall(e) && HasName(e, ToolCallStarted) {
      StartMirrors(t.open, Marks(chunks), seen, e, id);
    } else if IsCall(e) && HasName(e, ToolCallCompleted) {
      CompleteMirrors(t.open, Marks(chunks), seen, e, id);
    } else {
      OtherMirrors(t.open, Marks(chunks), seen, e, Marks(effect.chunks), id);
    }
  }

  lemma {:induction false} ClaimedMirrors(events: seq<StreamEvent>, o: Options, id: string)
    requires Translated(events, o).Claimed?
    ensures var s := Translated(events, o);
      s.at < |events| && Mirrors(s.turn.open, Marks(s.chunks), Since(events, s.at), id)
    decreases |events|
  {
    var n := |events| - 1;
    var s := Translated(events[..n], o);
    if s.Claimed? {
      ClaimedMirrors(events[..n], o, id);
      SinceSnoc(events, s.at);
      HandleMirrors(s.turn, s.chunks, Since(events[..n], s.at), events[n], Handle(s.turn, events[n], o), o, id);
    } else {
      NothingSeen(id);
    }
  }

  lemma EndMarks(t: Turn, e: StreamEvent, o: Options) returns (closing: seq<Mark>)
    requires Handle(t, e, o).ends
    ensures Quiet(closing) && Marks(Handle(t, e, o).chunks) == CloseAll(t.open) + closing
  {
    var words := if HasName(e, TurnCompleted) then [] else NoticeChunks(t, e.data, o);
    closing := Marks(words);
    AllSilent(closing);
    MarksAppend(Flushed(t, o.title, if HasName(e, TurnCompleted) then Complete else Failed), words);
  }

  /** When the turn ends every card was opened by a call the turn started, and each is closed after it was last opened. */
  lemma EveryCardIsClosed(events: seq<StreamEvent>, o: Options, id: string)
    requires Translated(events, o).Ended?
    ensures var s := Translated(events, o);
      s.at < s.end < |events| && Settled(Marks(s.chunks), Since(events[..s.end], s.at), id)
  {
    var s := Translated(events, o);
    EndsAfterClaim(events, o);
    var before := Translated(events[..s.end], o);
    ClaimedMirrors(events[..s.end], o, id);
    var closing := EndMarks(before.turn, events[s.end], o);
    MarksAppend(before.chunks, Handle(before.turn, events[s.end], o).chunks);
    FlushCompletes(before.turn.open, Marks(before.chunks), Since(events[..s.end], s.at), closing, id);
    assert Marks(s.chunks) == Marks(before.chunks) + CloseAll(before.turn.open) + closing;
  }

  /** The tool name call `id` was last started with. */
  function LastName(seen: seq<StreamEvent>, id: string): string
    decreases |seen|
  {
    if seen == [] then ""
    else if Starts(seen[|seen| - 1], id) then seen[|seen| - 1].data.name.value
    else LastName(seen[..|seen| - 1], id)
  }

  ghost predicate NamedAs(t: Turn, id: string, name: string) {
    id in t.open ==> id in t.names && t.names[id] == name
  }

  lemma NameSnoc(seen: seq<StreamEvent>, e: StreamEvent, id: string)
    ensures LastName(seen + [e], id) == if Starts(e, id) then e.data.name.value else LastName(seen, id)
  {
    assert (seen + [e])[..|seen|] == seen;
  }

  lemma HandleNames(t: Turn, seen: seq<StreamEvent>, e: StreamEvent, o: Options, id: string)
    requires NamedAs(t, id, LastName(seen, id)) && !Handle(t, e, o).ends
    ensures NamedAs(Handle(t, e, o).turn, id, LastName(seen + [e], id))
  {
    NameSnoc(seen, e, id);
  }

  lemma {:induction false} ClaimedNames(events: seq<StreamEvent>, o: Options, id: string)
    requires Translated(events, o).Claimed?
    ensures var s := Translated(events, o); s.at < |events| && NamedAs(s.turn, id, LastName(Since(events, s.at), id))
    decreases |events|
  {
    var n := |events| - 1;
    var s := Translated(events[..n], o);
    if s.Claimed? {
      ClaimedNames(events[..n], o, id);
      SinceSnoc(events, s.at);
      HandleNames(s.turn, Since(events[..n], s.at), events[n], o, id);
    }
  }

  lemma FlushedCard(t: Turn, title: Titler, status: CardStatus, id: string)
    requires id in t.open
    ensures Task(id, title(NameIn(t.names, id), id), status) in Flushed(t, title, status)
  {
    var i :| 0 <= i < |t.open| && t.open[i] == id;
    assert Flushed(t, title, status)[i] == Task(id, title(NameIn(t.names, id), id), status);
  }

  lemma EndCard(t: Turn, chunks: seq<Chunk>, e: StreamEvent, o: Options, id: string)
    requires Handle(t, e, o).ends && id in t.open
    ensures Task(id, o.title(NameIn(t.names, id), id), if HasName(e, TurnCompleted) then Complete else Failed) in chunks + Handle(t, e, o).chunks
  {
    FlushedCard(t, o.title, if HasName(e, TurnCompleted) then Complete else Failed, id);
  }

  /** A call still running when its turn ends is shown as the turn ended, under the name it was last started with. */
  lemma OpenCardsEndAsTheTurn(events: seq<StreamEvent>, o: Options, id: string)
    requires Translated(events, o).Ended?
    ensures var s := Translated(events, o);
      && s.at < s.end < |events|
      && var seen := Since(events[..s.end], s.at);
        Started(seen, id) && CompletedSince(seen, id) == 0 ==>
          Task(id, o.title(LastName(seen, id), id), if HasName(events[s.end], TurnCompleted) then Complete else Failed) in s.chunks
  {
    var s := Translated(events, o);
    EndsAfterClaim(events, o);
    var before := Translated(events[..s.end], o);
    ClaimedMirrors(events[..s.end], o, id);
    ClaimedNames(events[..s.end], o, id);
    if id in before.turn.open {
      EndCard(before.turn, before.chunks, events[s.end], o, id);
    }
  }

  // ---------- What each event is taken for ----------

  /** Who claims, who is refused and who is dropped. */
  lemma ClaimMeans(e: StreamEvent, messageId: string)
    ensures MatchClaim(e, messageId) in {Foreign, Dropped, Unclaimed} || MatchClaim(e, messageId).Ours?
    ensures MatchClaim(e, messageId).Ours? || MatchClaim(e, messageId) == Foreign <==>
      e.Framework? && (e.name == TurnStarted || e.name == InboxInjected) && e.data.messageIds.Some? && messageId in e.data.messageIds.value
    ensures MatchClaim(e, messageId) == Foreign ==> e.data.messageIds.value[0] != messageId
    ensures MatchClaim(e, messageId).Ours? ==>
      e.data.messageIds.value[0] == messageId
      && MatchClaim(e, messageId).turnId == if e.name == TurnStarted then e.data.turnId else None
    ensures MatchClaim(e, messageId) == Dropped <==> e.Framework? && e.name == SteerDropped && e.data.messageId == Some(messageId)
  {
  }

  /** The end of another turn changes nothing; its own ends the translation, and any does for one that waits for none. */
  lemma OnlyItsOwnTurnEnds(events: seq<StreamEvent>, k: nat, o: Options)
    requires k < |events| && Translated(events[..k], o).Claimed?
    requires events[k].Framework? && (events[k].name == TurnCompleted || events[k].name == TurnAborted)
    ensures var before, after := Translated(events[..k], o), Translated(events[..k + 1], o);
      if before.turn.turnId == None || before.turn.turnId == events[k].data.turnId then after.Ended? && after.end == k else after == before
  {
    TranslatedNext(events, k, o);
    var before := Translated(events[..k], o);
    assert before.chunks + [] == before.chunks;
  }

  /** A call that starts gets a card in progress, and one that completes a card with its own end: failed exactly if it failed. Both
      are titled by the name the event gives. */
  lemma CardsSayWhatHappened(events: seq<StreamEvent>, k: nat, o: Options)
    requires k < |events| && Translated(events[..k], o).Claimed?
    requires IsCall(events[k]) && (events[k].name == ToolCallStarted || events[k].name == ToolCallCompleted)
    ensures var before, after, d := Translated(events[..k], o), Translated(events[..k + 1], o), events[k].data;
      var title := o.title(d.name.value, d.callId.value);
      && after.Claimed?
      && (events[k].name == ToolCallStarted ==> after.chunks == before.chunks + [Task(d.callId.value, title, InProgress)])
      && (events[k].name == ToolCallCompleted && d.failed ==> after.chunks == before.chunks + [Task(d.callId.value, title, Failed)])
      && (events[k].name == ToolCallCompleted && !d.failed ==> after.chunks == before.chunks + [Task(d.callId.value, title, Complete)])
  {
    TranslatedNext(events, k, o);
  }
}
