/** What both translators owe a tool call they announced: a settling update after it. */
module CallMarks {
  import opened StreamEvents

  /** What an output says about tool calls. */
  datatype Mark = Opens(id: string) | Closes(id: string) | Silent

  predicate Announced(marks: seq<Mark>, id: string)
    decreases |marks|
  {
    marks != [] && (marks[|marks| - 1] == Opens(id) || Announced(marks[..|marks| - 1], id))
  }

  /** How many marks close call `id` after it was last opened. */
  function SettledSince(marks: seq<Mark>, id: string): nat
    decreases |marks|
  {
    if marks == [] || marks[|marks| - 1] == Opens(id) then 0
    else SettledSince(marks[..|marks| - 1], id) + if marks[|marks| - 1] == Closes(id) then 1 else 0
  }

  lemma MarksSnoc(marks: seq<Mark>, mark: Mark, id: string)
    ensures Announced(marks + [mark], id) <==> mark == Opens(id) || Announced(marks, id)
    ensures SettledSince(marks + [mark], id) ==
      if mark == Opens(id) then 0 else SettledSince(marks, id) + if mark == Closes(id) then 1 else 0
  {
    assert (marks + [mark])[..|marks|] == marks;
  }

  function CloseAll(open: seq<string>): seq<Mark> {
    seq(|open|, i requires 0 <= i < |open| => Closes(open[i]))
  }

  lemma {:induction false} FlushSettles(marks: seq<Mark>, open: seq<string>, id: string)
    requires NoRepeats(open)
    ensures Announced(marks + CloseAll(open), id) <==> Announced(marks, id)
    ensures SettledSince(marks + CloseAll(open), id) == SettledSince(marks, id) + if id in open then 1 else 0
    decreases |open|
  {
    if open == [] {
      assert marks + CloseAll(open) == marks;
    } else {
      var init, last := open[..|open| - 1], open[|open| - 1];
      FlushSettles(marks, init, id);
      assert CloseAll(open) == CloseAll(init) + [Closes(last)];
      assert marks + CloseAll(open) == (marks + CloseAll(init)) + [Closes(last)];
      MarksSnoc(marks + CloseAll(init), Closes(last), id);
    }
  }

  /** Inside the turn: what was opened and closed mirrors what started and completed, and the open calls are those not completed since. */
  ghost predicate Mirrors(open: seq<string>, marks: seq<Mark>, seen: seq<StreamEvent>, id: string) {
    && NoRepeats(open)
    && (Announced(marks, id) <==> Started(seen, id))
    && (Started(seen, id) ==> SettledSince(marks, id) == CompletedSince(seen, id))
    && (id in open <==> Started(seen, id) && CompletedSince(seen, id) == 0)
  }

  lemma NothingSeen(id: string)
    ensures Mirrors([], [], [], id)
  {
  }

  lemma StartMirrors(open: seq<string>, marks: seq<Mark>, seen: seq<StreamEvent>, e: StreamEvent, id: string)
    requires Mirrors(open, marks, seen, id) && HasName(e, ToolCallStarted) && IsCall(e)
    ensures Mirrors(Insert(open, e.data.callId.value), marks + [Opens(e.data.callId.value)], seen + [e], id)
  {
    CallSnoc(seen, e, id);
    MarksSnoc(marks, Opens(e.data.callId.value), id);
    InsertKeeps(open, e.data.callId.value);
  }

  lemma CompleteMirrors(open: seq<string>, marks: seq<Mark>, seen: seq<StreamEvent>, e: StreamEvent, id: string)
    requires Mirrors(open, marks, seen, id) && HasName(e, ToolCallCompleted) && IsCall(e)
    ensures Mirrors(Remove(open, e.data.callId.value), marks + [Closes(e.data.callId.value)], seen + [e], id)
  {
    CallSnoc(seen, e, id);
    MarksSnoc(marks, Closes(e.data.callId.value), id);
    RemoveKeeps(open, e.data.callId.value);
  }

  predicate IsCallEvent(e: StreamEvent) {
    IsCall(e) && (HasName(e, ToolCallStarted) || HasName(e, ToolCallCompleted))
  }

  predicate Quiet(marks: seq<Mark>)
    decreases |marks|
  {
    marks == [] || (marks[|marks| - 1] == Silent && Quiet(marks[..|marks| - 1]))
  }

  lemma {:induction false} QuietSaysNothing(marks: seq<Mark>, more: seq<Mark>, id: string)
    requires Quiet(more)
    ensures Announced(marks + more, id) <==> Announced(marks, id)
    ensures SettledSince(marks + more, id) == SettledSince(marks, id)
    decreases |more|
  {
    if more == [] {
      assert marks + more == marks;
    } else {
      var init := more[..|more| - 1];
      QuietSaysNothing(marks, init, id);
      assert marks + more == (marks + init) + [Silent];
      MarksSnoc(marks + init, Silent, id);
    }
  }

  lemma OtherMirrors(open: seq<string>, marks: seq<Mark>, seen: seq<StreamEvent>, e: StreamEvent, more: seq<Mark>, id: string)
    requires Mirrors(open, marks, seen, id) && !IsCallEvent(e) && Quiet(more)
    ensures Mirrors(open, marks + more, seen + [e], id)
  {
    CallSnoc(seen, e, id);
    QuietSaysNothing(marks, more, id);
  }

  function AtLeastOne(n: nat): nat {
    if n == 0 then 1 else n
  }

  /** The calls opened are those started, and each was closed after it was last opened: once, or as often as it completed if that is more. */
  ghost predicate Settled(marks: seq<Mark>, seen: seq<StreamEvent>, id: string) {
    && (Announced(marks, id) <==> Started(seen, id))
    && (Started(seen, id) ==> SettledSince(marks, id) == AtLeastOne(CompletedSince(seen, id)))
  }

  /** Closing whatever is still open at the end of the turn; nothing said after that matters. */
  lemma FlushCompletes(open: seq<string>, marks: seq<Mark>, seen: seq<StreamEvent>, more: seq<Mark>, id: string)
    requires Mirrors(open, marks, seen, id) && Quiet(more)
    ensures Settled(marks + CloseAll(open) + more, seen, id)
  {
    FlushSettles(marks, open, id);
    QuietSaysNothing(marks + CloseAll(open), more, id);
  }
}
