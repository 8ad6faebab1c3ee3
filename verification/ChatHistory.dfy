/**
 The per-thread append chain of the chat history store.

 Appends are cut at their awaits: an append waits for the one before it on its thread, reads, then
 writes. Between any two steps any other append, on this thread or another, may take one.
 */
module ChatHistory {
  import opened Wrappers

  /** A stored text: the encoding of a list of items, the mark of a seeded thread, or anything else no list of items parses from. */
  datatype Value = Encoded(items: seq<string>) | Mark | Unreadable

  datatype Phase = Waiting | Reading | Writing(items: seq<string>) | Settled(ok: bool)

  /** One call of `appendChatItem`; `previous` is the append whose tail it waits for. */
  datatype Append = Append(thread: string, item: string, previous: Option<nat>, phase: Phase)

  datatype State = State(kv: map<Key, Value>, appends: seq<Append>, chain: map<string, nat>)

  datatype Event =
    | Call(thread: string, item: string)
    | Start(i: nat)
    | GetSettled(i: nat, ok: bool)
    | SetSettled(i: nat, ok: bool)
    | CleanUp(i: nat)
    | MarkSeeded(thread: string)

  const HISTORY_PREFIX := "noetic:history:"
  const SEEDED_PREFIX := "noetic:seeded:"

  /** A key of the store; `KeyText` is the text it is stored under. */
  datatype Key = History(thread: string) | Seeded(thread: string)

  function KeyText(key: Key): string {
    match key
    case History(thread) => HISTORY_PREFIX + thread
    case Seeded(thread) => SEEDED_PREFIX + thread
  }

  /** No two keys share a text, so the store may be keyed by either. */
  lemma KeyTextsDiffer(a: Key, b: Key)
    requires KeyText(a) == KeyText(b)
    ensures a == b
  {
    assert (HISTORY_PREFIX + a.thread)[7] == 'h' && (SEEDED_PREFIX + a.thread)[7] == 's';
    assert (HISTORY_PREFIX + b.thread)[7] == 'h' && (SEEDED_PREFIX + b.thread)[7] == 's';
    var n := if a.History? then |HISTORY_PREFIX| else |SEEDED_PREFIX|;
    assert KeyText(a)[n..] == a.thread && KeyText(b)[n..] == b.thread;
  }

  /** A missing or unreadable history reads as empty. */
  function ReadItems(kv: map<Key, Value>, thread: string): seq<string> {
    var key := History(thread);
    if key in kv && kv[key].Encoded? then kv[key].items else []
  }

  predicate IsSeeded(kv: map<Key, Value>, thread: string) {
    Seeded(thread) in kv && kv[Seeded(thread)] == Mark
  }

  // ---------- The steps ----------

  function WithPhase(appends: seq<Append>, i: nat, phase: Phase): seq<Append>
    requires i < |appends|
  {
    appends[i := appends[i].(phase := phase)]
  }

  /** The append before this one, if it waits for one, has settled: a failure is caught and counts. */
  predicate CanStart(s: State, i: nat) {
    && i < |s.appends| && s.appends[i].phase.Waiting?
    && (s.appends[i].previous.Some? ==>
        s.appends[i].previous.value < |s.appends| && s.appends[s.appends[i].previous.value].phase.Settled?)
  }

  function Next(s: State, e: Event): State {
    match e
    case Call(thread, item) =>
      var previous := if thread in s.chain then Some(s.chain[thread]) else None;
      s.(appends := s.appends + [Append(thread, item, previous, Waiting)], chain := s.chain[thread := |s.appends|])
    case Start(i) =>
      if CanStart(s, i) then s.(appends := WithPhase(s.appends, i, Reading)) else s
    case GetSettled(i, ok) =>
      if i < |s.appends| && s.appends[i].phase.Reading? then
        var a := s.appends[i];
        s.(appends := WithPhase(s.appends, i, if ok then Writing(ReadItems(s.kv, a.thread) + [a.item]) else Settled(false)))
      else s
    case SetSettled(i, ok) =>
      if i < |s.appends| && s.appends[i].phase.Writing? then
        var a := s.appends[i];
        s.(kv := if ok then s.kv[History(a.thread) := Encoded(a.phase.items)] else s.kv,
           appends := WithPhase(s.appends, i, Settled(ok)))
      else s
    case CleanUp(i) =>
      if i < |s.appends| && s.appends[i].phase.Settled? then
        var t := s.appends[i].thread;
        if t in s.chain && s.chain[t] == i then s.(chain := s.chain - {t}) else s
      else s
    case MarkSeeded(thread) => s.(kv := s.kv[Seeded(thread) := Mark])
  }

  function Run(kv: map<Key, Value>, es: seq<Event>): State
    decreases |es|
  {
    if es == [] then State(kv, [], map[]) else Next(Run(kv, es[..|es| - 1]), es[|es| - 1])
  }

  // ---------- The store's map, updated in place ----------

  class ChatHistoryStore {
    var kv: map<Key, Value>
    var appendChain: map<string, nat>
    var appends: seq<Append>

    ghost function View(): State
      reads this
    {
      State(kv, appends, appendChain)
    }

    constructor (kv: map<Key, Value>)
      ensures View() == Run(kv, [])
    {
      this.kv, appendChain, appends := kv, map[], [];
    }

    method AppendChatItem(thread: string, item: string)
      modifies this
      ensures View() == Next(old(View()), Call(thread, item))
    {
      var previous := if thread in appendChain then Some(appendChain[thread]) else None;
      appendChain := appendChain[thread := |appends|];
      appends := appends + [Append(thread, item, previous, Waiting)];
    }

    /** The append this one waits for has settled, however it did, and the read is asked for. */
    method OnStart(i: nat)
      requires CanStart(View(), i)
      modifies this
      ensures View() == Next(old(View()), Start(i))
    {
      appends := WithPhase(appends, i, Reading);
    }

    /** `readItems` and the write after it, up to the awaited `set`. */
    method OnGetSettled(i: nat, ok: bool)
      requires i < |appends| && appends[i].phase.Reading?
      modifies this
      ensures View() == Next(old(View()), GetSettled(i, ok))
    {
      if !ok {
        appends := WithPhase(appends, i, Settled(false));
        return;
      }
      var items := ReadItems(kv, appends[i].thread);
      items := items + [appends[i].item];
      appends := WithPhase(appends, i, Writing(items));
    }

    /** The awaited `set` came back: the text is stored, or nothing is. */
    method OnSetSettled(i: nat, ok: bool)
      requires i < |appends| && appends[i].phase.Writing?
      modifies this
      ensures View() == Next(old(View()), SetSettled(i, ok))
    {
      if ok { kv := kv[History(appends[i].thread) := Encoded(appends[i].phase.items)]; }
      appends := WithPhase(appends, i, Settled(ok));
    }

    method OnMarkSeeded(thread: string)
      modifies this`kv
      ensures View() == Next(old(View()), MarkSeeded(thread))
    {
      kv := kv[Seeded(thread) := Mark];
    }

    method OnTailSettled(i: nat)
      requires i < |appends| && appends[i].phase.Settled?
      modifies this
      ensures View() == Next(old(View()), CleanUp(i))
    {
      var thread := appends[i].thread;
      if thread in appendChain && appendChain[thread] == i {
        appendChain := appendChain - {thread};
      }
    }
  }

  // ---------- What every interleaving keeps ----------

  predicate OnThread(a: Append, t: string) {
    a.thread == t
  }

  /** Every append on `t` among the first `k` has settled. */
  ghost predicate AllSettled(appends: seq<Append>, k: nat, t: string) {
    forall j :: 0 <= j < k && j < |appends| && OnThread(appends[j], t) ==> appends[j].phase.Settled?
  }

  /** None of the appends on `t` from `k` on has started. */
  ghost predicate NoneStarted(appends: seq<Append>, k: nat, t: string) {
    forall j :: k <= j < |appends| && OnThread(appends[j], t) ==> appends[j].phase.Waiting?
  }

  /** The items of the appends on `t` that succeeded, in call order. */
  function Succeeded(appends: seq<Append>, t: string): seq<string>
    decreases |appends|
  {
    if appends == [] then []
    else
      var a := appends[|appends| - 1];
      Succeeded(appends[..|appends| - 1], t) + if a.thread == t && a.phase == Settled(true) then [a.item] else []
  }

  /** `j` is the last of the first `k` appends that is on thread `t`. */
  ghost predicate LastOn(appends: seq<Append>, j: nat, k: nat, t: string) {
    j < k <= |appends| && OnThread(appends[j], t) && forall m :: j < m < k ==> !OnThread(appends[m], t)
  }

  /** The append `i` waits for is the last before it on its thread, unless all of those have settled. */
  ghost predicate Linked(appends: seq<Append>, i: nat)
    requires i < |appends|
  {
    match appends[i].previous
    case None => AllSettled(appends, i, appends[i].thread)
    case Some(j) => LastOn(appends, j, i, appends[i].thread)
  }

  /** Who waits for whom: an append that started has none unsettled before it, and the chain holds the last append of every thread that may have one. */
  ghost predicate Ordered(appends: seq<Append>, chain: map<string, nat>) {
    && (forall i {:trigger Linked(appends, i)} :: 0 <= i < |appends| ==> Linked(appends, i))
    && (forall i :: 0 <= i < |appends| && !appends[i].phase.Waiting? ==> AllSettled(appends, i, appends[i].thread))
    && (forall t :: t in chain ==> LastOn(appends, chain[t], |appends|, t))
    && (forall t :: t !in chain ==> AllSettled(appends, |appends|, t))
  }

  /** What is about to be written is the thread's history with the item last. */
  ghost predicate Pending(kv: map<Key, Value>, appends: seq<Append>) {
    forall i :: 0 <= i < |appends| && appends[i].phase.Writing? ==>
      appends[i].phase.items == ReadItems(kv, appends[i].thread) + [appends[i].item]
  }

  /** What is stored is what was there at first and what has been appended since. */
  ghost predicate Stored(kv0: map<Key, Value>, kv: map<Key, Value>, appends: seq<Append>) {
    forall t :: ReadItems(kv, t) == ReadItems(kv0, t) + Succeeded(appends, t)
  }

  ghost predicate Inv(kv: map<Key, Value>, s: State) {
    Ordered(s.appends, s.chain) && Pending(s.kv, s.appends) && Stored(kv, s.kv, s.appends)
  }

  lemma {:induction false} SucceededUnchanged(a: seq<Append>, b: seq<Append>, t: string)
    requires |a| == |b|
    requires forall j :: 0 <= j < |a| ==> a[j].thread == b[j].thread && a[j].item == b[j].item
    requires forall j :: 0 <= j < |a| && OnThread(a[j], t) ==> (a[j].phase == Settled(true) <==> b[j].phase == Settled(true))
    ensures Succeeded(a, t) == Succeeded(b, t)
    decreases |a|
  {
    if a != [] {
      assert OnThread(a[|a| - 1], t) <==> a[|a| - 1].thread == t;
      SucceededUnchanged(a[..|a| - 1], b[..|b| - 1], t);
    }
  }

  lemma {:induction false} NoSuccessAfter(a: seq<Append>, k: nat, t: string)
    requires k <= |a| && NoneStarted(a, k, t)
    ensures Succeeded(a, t) == Succeeded(a[..k], t)
    decreases |a|
  {
    if k < |a| {
      assert OnThread(a[|a| - 1], t) <==> a[|a| - 1].thread == t;
      NoSuccessAfter(a[..|a| - 1], k, t);
      assert a[..|a| - 1][..k] == a[..k];
    } else {
      assert a[..k] == a;
    }
  }

  /** When an append succeeds and no later one on its thread has started, its item goes last. */
  lemma SuccessGoesLast(a: seq<Append>, i: nat)
    requires i < |a| && !a[i].phase.Settled? && NoneStarted(a, i + 1, a[i].thread)
    ensures Succeeded(WithPhase(a, i, Settled(true)), a[i].thread) == Succeeded(a, a[i].thread) + [a[i].item]
  {
    var t, b := a[i].thread, WithPhase(a, i, Settled(true));
    forall j | i + 1 <= j < |b| && OnThread(b[j], t)
      ensures b[j].phase.Waiting?
    {
      assert OnThread(a[j], t);
    }
    NoSuccessAfter(a, i + 1, t);
    NoSuccessAfter(b, i + 1, t);
    SucceededSnoc(a, i, t);
    SucceededSnoc(b, i, t);
    assert b[..i] == a[..i];
    assert Succeeded(a[..i], t) + [] == Succeeded(a[..i], t);
  }

  lemma SucceededSnoc(a: seq<Append>, i: nat, t: string)
    requires i < |a|
    ensures Succeeded(a[..i + 1], t) ==
      Succeeded(a[..i], t) + if a[i].thread == t && a[i].phase == Settled(true) then [a[i].item] else []
  {
    assert a[..i + 1][..i] == a[..i];
  }

  lemma UnsettledIsLast(appends: seq<Append>, chain: map<string, nat>, i: nat)
    requires Ordered(appends, chain) && i < |appends| && !appends[i].phase.Settled?
    ensures NoneStarted(appends, i + 1, appends[i].thread)
  {
    forall j | i + 1 <= j < |appends| && OnThread(appends[j], appends[i].thread)
      ensures appends[j].phase.Waiting?
    {
      assert OnThread(appends[i], appends[j].thread);
    }
  }

  /** Starting or settling one append keeps who waits for whom. */
  lemma PhaseOrdered(a: seq<Append>, chain: map<string, nat>, i: nat, phase: Phase)
    requires Ordered(a, chain) && i < |a| && !a[i].phase.Settled? && !phase.Waiting?
    requires AllSettled(a, i, a[i].thread)
    ensures Ordered(WithPhase(a, i, phase), chain)
  {
    var b := WithPhase(a, i, phase);
    assert forall j, x :: 0 <= j < |a| ==> (OnThread(b[j], x) <==> OnThread(a[j], x));
    assert forall k: nat, x :: AllSettled(a, k, x) ==> AllSettled(b, k, x);
    assert forall j: nat, k: nat, x :: LastOn(a, j, k, x) ==> LastOn(b, j, k, x);
    forall j | 0 <= j < |b|
      ensures Linked(b, j)
    {
      assert Linked(a, j);
    }
  }

  lemma CallOrdered(a: seq<Append>, chain: map<string, nat>, one: Append)
    requires Ordered(a, chain) && one.phase.Waiting?
    requires one.previous == if one.thread in chain then Some(chain[one.thread]) else None
    ensures Ordered(a + [one], chain[one.thread := |a|])
  {
    var b := a + [one];
    assert forall j :: 0 <= j < |a| ==> b[j] == a[j];
    assert forall k: nat, x :: k <= |a| && AllSettled(a, k, x) ==> AllSettled(b, k, x);
    assert forall j: nat, k: nat, x :: LastOn(a, j, k, x) ==> LastOn(b, j, k, x);
    forall i | 0 <= i < |b|
      ensures Linked(b, i)
    {
      if i < |a| { assert Linked(a, i); }
    }
  }

  lemma CallStored(kv0: map<Key, Value>, kv: map<Key, Value>, a: seq<Append>, one: Append)
    requires Pending(kv, a) && Stored(kv0, kv, a) && one.phase.Waiting?
    ensures Pending(kv, a + [one]) && Stored(kv0, kv, a + [one])
  {
    assert (a + [one])[..|a|] == a;
    forall t
      ensures Succeeded(a + [one], t) == Succeeded(a, t)
    {
    }
  }

  lemma CallKeeps(kv: map<Key, Value>, s: State, thread: string, item: string)
    requires Inv(kv, s)
    ensures Inv(kv, Next(s, Call(thread, item)))
  {
    var one := Append(thread, item, if thread in s.chain then Some(s.chain[thread]) else None, Waiting);
    CallOrdered(s.appends, s.chain, one);
    CallStored(kv, s.kv, s.appends, one);
  }

  lemma PhaseKeeps(kv: map<Key, Value>, s: State, i: nat, phase: Phase)
    requires Inv(kv, s) && i < |s.appends| && !s.appends[i].phase.Settled? && phase != Settled(true)
    requires !phase.Waiting? && AllSettled(s.appends, i, s.appends[i].thread)
    requires phase.Writing? ==> phase.items == ReadItems(s.kv, s.appends[i].thread) + [s.appends[i].item]
    ensures Inv(kv, s.(appends := WithPhase(s.appends, i, phase)))
  {
    PhaseOrdered(s.appends, s.chain, i, phase);
    forall t
      ensures Succeeded(WithPhase(s.appends, i, phase), t) == Succeeded(s.appends, t)
    {
      SucceededUnchanged(s.appends, WithPhase(s.appends, i, phase), t);
    }
  }

  function Landed(kv: map<Key, Value>, a: Append): map<Key, Value>
    requires a.phase.Writing?
  {
    kv[History(a.thread) := Encoded(a.phase.items)]
  }

  /** A write that lands stores the thread's history with its item last, and touches no other thread's. */
  lemma WriteLands(before: seq<string>, kv: map<Key, Value>, a: seq<Append>, i: nat, t: string)
    requires i < |a| && a[i].phase.Writing? && NoneStarted(a, i + 1, a[i].thread)
    requires a[i].phase.items == ReadItems(kv, a[i].thread) + [a[i].item]
    requires ReadItems(kv, t) == before + Succeeded(a, t)
    ensures ReadItems(Landed(kv, a[i]), t) == before + Succeeded(WithPhase(a, i, Settled(true)), t)
  {
    if t == a[i].thread {
      SuccessGoesLast(a, i);
    } else {
      SucceededUnchanged(a, WithPhase(a, i, Settled(true)), t);
    }
  }

  lemma SuccessStored(kv0: map<Key, Value>, kv: map<Key, Value>, a: seq<Append>, i: nat)
    requires i < |a| && a[i].phase.Writing? && NoneStarted(a, i + 1, a[i].thread)
    requires Pending(kv, a) && Stored(kv0, kv, a)
    ensures Stored(kv0, Landed(kv, a[i]), WithPhase(a, i, Settled(true)))
  {
    forall x
      ensures ReadItems(Landed(kv, a[i]), x) == ReadItems(kv0, x) + Succeeded(WithPhase(a, i, Settled(true)), x)
    {
      WriteLands(ReadItems(kv0, x), kv, a, i, x);
    }
  }

  lemma SuccessPending(kv: map<Key, Value>, a: seq<Append>, i: nat)
    requires i < |a| && a[i].phase.Writing? && Pending(kv, a)
    requires NoneStarted(a, i + 1, a[i].thread) && AllSettled(a, i, a[i].thread)
    ensures Pending(Landed(kv, a[i]), WithPhase(a, i, Settled(true)))
  {
    var b, t := WithPhase(a, i, Settled(true)), a[i].thread;
    forall j | 0 <= j < |b| && b[j].phase.Writing?
      ensures b[j].phase.items == ReadItems(Landed(kv, a[i]), b[j].thread) + [b[j].item]
    {
      assert OnThread(a[j], t) <==> a[j].thread == t;
      assert a[j].thread != t;
    }
  }

  lemma SuccessKeeps(kv0: map<Key, Value>, kv: map<Key, Value>, a: seq<Append>, chain: map<string, nat>, i: nat)
    requires Ordered(a, chain) && Pending(kv, a) && Stored(kv0, kv, a)
    requires i < |a| && a[i].phase.Writing?
    ensures Ordered(WithPhase(a, i, Settled(true)), chain)
    ensures Pending(Landed(kv, a[i]), WithPhase(a, i, Settled(true)))
    ensures Stored(kv0, Landed(kv, a[i]), WithPhase(a, i, Settled(true)))
  {
    assert NoneStarted(a, i + 1, a[i].thread) by { UnsettledIsLast(a, chain, i); }
    assert AllSettled(a, i, a[i].thread) by { StartedAfterAll(a, chain, i); }
    PhaseOrdered(a, chain, i, Settled(true));
    SuccessStored(kv0, kv, a, i);
    SuccessPending(kv, a, i);
  }

  lemma StartedAfterAll(appends: seq<Append>, chain: map<string, nat>, i: nat)
    requires Ordered(appends, chain) && i < |appends| && !appends[i].phase.Waiting?
    ensures AllSettled(appends, i, appends[i].thread)
  {
  }

  lemma CanStartSettled(appends: seq<Append>, i: nat)
    requires i < |appends| && Linked(appends, i)
    requires appends[i].previous.Some? ==> appends[i].previous.value < |appends|
    requires appends[i].previous.Some? ==> appends[appends[i].previous.value].phase.Settled?
    requires appends[i].previous.Some? ==> AllSettled(appends, appends[i].previous.value, appends[i].thread)
    ensures AllSettled(appends, i, appends[i].thread)
  {
    if appends[i].previous.Some? {
      var j := appends[i].previous.value;
      forall m | 0 <= m < i && OnThread(appends[m], appends[i].thread)
        ensures appends[m].phase.Settled?
      {
        assert m <= j;
      }
    }
  }

  lemma StartKeeps(kv: map<Key, Value>, s: State, i: nat)
    requires Inv(kv, s) && CanStart(s, i)
    ensures Inv(kv, Next(s, Start(i)))
  {
    assert Linked(s.appends, i);
    if s.appends[i].previous.Some? {
      var j := s.appends[i].previous.value;
      assert LastOn(s.appends, j, i, s.appends[i].thread) && OnThread(s.appends[j], s.appends[i].thread);
      assert AllSettled(s.appends, j, s.appends[j].thread);
    }
    CanStartSettled(s.appends, i);
    PhaseKeeps(kv, s, i, Reading);
  }

  /** The last append on a thread has settled, and so has every one before it. */
  lemma CleanUpOrdered(appends: seq<Append>, chain: map<string, nat>, t: string)
    requires Ordered(appends, chain) && t in chain && chain[t] < |appends| && appends[chain[t]].phase.Settled?
    ensures Ordered(appends, chain - {t})
  {
    var i := chain[t];
    assert LastOn(appends, i, |appends|, t);
    assert AllSettled(appends, i, appends[i].thread);
    assert AllSettled(appends, |appends|, t);
  }

  lemma CleanUpKeeps(kv: map<Key, Value>, s: State, i: nat)
    requires Inv(kv, s)
    ensures Inv(kv, Next(s, CleanUp(i)))
  {
    if Next(s, CleanUp(i)) != s { CleanUpOrdered(s.appends, s.chain, s.appends[i].thread); }
  }

  lemma SeedKeeps(kv: map<Key, Value>, s: State, thread: string)
    requires Inv(kv, s)
    ensures Inv(kv, Next(s, MarkSeeded(thread)))
  {
    var seeded := s.kv[Seeded(thread) := Mark];
    assert forall t :: ReadItems(seeded, t) == ReadItems(s.kv, t);
    assert Stored(kv, seeded, s.appends);
  }

  lemma StepKeeps(kv: map<Key, Value>, s: State, e: Event)
    requires Inv(kv, s)
    ensures Inv(kv, Next(s, e))
  {
    match e
    case Call(thread, item) => CallKeeps(kv, s, thread, item);
    case Start(i) =>
      if CanStart(s, i) { StartKeeps(kv, s, i); }
    case GetSettled(i, ok) =>
      if i < |s.appends| && s.appends[i].phase.Reading? {
        PhaseKeeps(kv, s, i,
          if ok then Writing(ReadItems(s.kv, s.appends[i].thread) + [s.appends[i].item]) else Settled(false));
      }
    case SetSettled(i, ok) =>
      if i < |s.appends| && s.appends[i].phase.Writing? {
        if ok { SuccessKeeps(kv, s.kv, s.appends, s.chain, i); } else { PhaseKeeps(kv, s, i, Settled(false)); }
      }
    case CleanUp(i) => CleanUpKeeps(kv, s, i);
    case MarkSeeded(thread) => SeedKeeps(kv, s, thread);
  }

  lemma {:induction false} RunKeeps(kv: map<Key, Value>, es: seq<Event>)
    ensures Inv(kv, Run(kv, es))
    decreases |es|
  {
    if es == [] {
      assert forall t :: ReadItems(kv, t) == ReadItems(kv, t) + [];
    } else {
      RunKeeps(kv, es[..|es| - 1]);
      StepKeeps(kv, Run(kv, es[..|es| - 1]), es[|es| - 1]);
    }
  }

  // ---------- What that means ----------

  /** However appends, failures and clean-ups interleave, a thread's history is what it was and then the items appended successfully, in call order. */
  lemma HistoryIsAppendsInOrder(kv: map<Key, Value>, es: seq<Event>, thread: string)
    ensures ReadItems(Run(kv, es).kv, thread) == ReadItems(kv, thread) + Succeeded(Run(kv, es).appends, thread)
  {
    RunKeeps(kv, es);
  }

  /** What no list parses from counts as an empty history: the appended items are then all there is. */
  lemma CorruptStartsFresh(kv: map<Key, Value>, es: seq<Event>, thread: string)
    ensures ReadItems(Run(kv, es).kv, thread) ==
      (if History(thread) in kv && kv[History(thread)].Encoded? then kv[History(thread)].items else []) + Succeeded(Run(kv, es).appends, thread)
  {
    HistoryIsAppendsInOrder(kv, es, thread);
  }

  /** A thread counts as seeded exactly if it did at first or was marked since, whatever was appended. */
  lemma {:induction false} SeededIffMarked(kv: map<Key, Value>, es: seq<Event>, thread: string)
    ensures IsSeeded(Run(kv, es).kv, thread) <==> IsSeeded(kv, thread) || MarkSeeded(thread) in es
    decreases |es|
  {
    if es != [] {
      var init, e := es[..|es| - 1], es[|es| - 1];
      SeededIffMarked(kv, init, thread);
      assert es == init + [e];
    }
  }

  /** At most one append per thread is past its wait and not yet settled. */
  lemma OneAtATime(kv: map<Key, Value>, es: seq<Event>, i: nat, j: nat)
    requires i < |Run(kv, es).appends| && j < |Run(kv, es).appends|
    requires Run(kv, es).appends[i].thread == Run(kv, es).appends[j].thread
    requires Run(kv, es).appends[i].phase.Reading? || Run(kv, es).appends[i].phase.Writing?
    requires Run(kv, es).appends[j].phase.Reading? || Run(kv, es).appends[j].phase.Writing?
    ensures i == j
  {
    RunKeeps(kv, es);
    var s := Run(kv, es);
    assert OnThread(s.appends[i], s.appends[j].thread) && OnThread(s.appends[j], s.appends[i].thread);
  }

  lemma OnlyCleanUpDrops(s: State, e: Event, thread: string)
    requires thread in s.chain && thread !in Next(s, e).chain
    ensures Next(s, e).appends == s.appends
  {
  }

  /** A chain entry goes only when every append on its thread has settled. */
  lemma EntryOutlivesWork(kv: map<Key, Value>, es: seq<Event>, e: Event, thread: string)
    requires thread in Run(kv, es).chain && thread !in Next(Run(kv, es), e).chain
    ensures AllSettled(Run(kv, es).appends, |Run(kv, es).appends|, thread)
  {
    var s := Run(kv, es);
    RunKeeps(kv, es);
    StepKeeps(kv, s, e);
    OnlyCleanUpDrops(s, e, thread);
    assert AllSettled(Next(s, e).appends, |Next(s, e).appends|, thread);
  }

  predicate Advances(s: State, e: Event, i: nat) {
    && (e.Start? || e.GetSettled? || e.SetSettled?)
    && e.i <= i < |s.appends| && s.appends[e.i].thread == s.appends[i].thread
    && Next(s, e) != s
  }

  lemma {:induction false} SomeAdvance(s: State, i: nat, ok: bool) returns (e: Event)
    requires i < |s.appends| && !s.appends[i].phase.Settled?
    requires forall j {:trigger Linked(s.appends, j)} :: 0 <= j < |s.appends| ==> Linked(s.appends, j)
    ensures Advances(s, e, i) && (e.GetSettled? || e.SetSettled? ==> e.ok == ok)
    decreases i
  {
    match s.appends[i].phase
    case Reading =>
      e := GetSettled(i, ok);
      assert Next(s, e).appends[i].phase != Reading;
    case Writing(_) =>
      e := SetSettled(i, ok);
      assert Next(s, e).appends[i].phase == Settled(ok);
    case Waiting =>
      assert Linked(s.appends, i);
      if CanStart(s, i) {
        e := Start(i);
        assert Next(s, e).appends[i].phase == Reading;
      } else {
        e := SomeAdvance(s, s.appends[i].previous.value, ok);
      }
  }

  /** An append that has not settled is never stuck: it, or one before it on its thread, can take a step, whether reads and writes succeed or fail. */
  lemma NeverStuck(kv: map<Key, Value>, es: seq<Event>, i: nat, ok: bool) returns (e: Event)
    requires i < |Run(kv, es).appends| && !Run(kv, es).appends[i].phase.Settled?
    ensures Advances(Run(kv, es), e, i) && (e.GetSettled? || e.SetSettled? ==> e.ok == ok)
  {
    RunKeeps(kv, es);
    e := SomeAdvance(Run(kv, es), i, ok);
  }

  // ---------- Nothing is lost, and nothing is kept for ever ----------

  /** The items appended on `thread`, in call order. */
  function Called(es: seq<Event>, thread: string): seq<string>
    decreases |es|
  {
    if es == [] then []
    else
      var e := es[|es| - 1];
      Called(es[..|es| - 1], thread) + if e.Call? && e.thread == thread then [e.item] else []
  }

  function ItemsOn(appends: seq<Append>, thread: string): seq<string>
    decreases |appends|
  {
    if appends == [] then []
    else
      var a := appends[|appends| - 1];
      ItemsOn(appends[..|appends| - 1], thread) + if a.thread == thread then [a.item] else []
  }

  lemma {:induction false} SameItems(a: seq<Append>, b: seq<Append>, thread: string)
    requires |a| == |b| && forall j :: 0 <= j < |a| ==> a[j].thread == b[j].thread && a[j].item == b[j].item
    ensures ItemsOn(a, thread) == ItemsOn(b, thread)
    decreases |a|
  {
    if a != [] { SameItems(a[..|a| - 1], b[..|b| - 1], thread); }
  }

  lemma StepCalls(s: State, e: Event, thread: string)
    ensures ItemsOn(Next(s, e).appends, thread) == ItemsOn(s.appends, thread) + if e.Call? && e.thread == thread then [e.item] else []
  {
    if e.Call? {
      assert Next(s, e).appends[..|s.appends|] == s.appends;
    } else {
      SameItems(Next(s, e).appends, s.appends, thread);
    }
  }

  lemma {:induction false} AppendsAreCalls(kv: map<Key, Value>, es: seq<Event>, thread: string)
    ensures ItemsOn(Run(kv, es).appends, thread) == Called(es, thread)
    decreases |es|
  {
    if es != [] {
      AppendsAreCalls(kv, es[..|es| - 1], thread);
      StepCalls(Run(kv, es[..|es| - 1]), es[|es| - 1], thread);
    }
  }

  /** A read or a write that was reported as failed. */
  predicate Failure(e: Event) {
    (e.GetSettled? || e.SetSettled?) && !e.ok
  }

  ghost predicate NoneFailed(appends: seq<Append>) {
    forall i :: 0 <= i < |appends| ==> appends[i].phase != Settled(false)
  }

  lemma {:induction false} WithoutFailures(kv: map<Key, Value>, es: seq<Event>)
    requires forall i :: 0 <= i < |es| ==> !Failure(es[i])
    ensures NoneFailed(Run(kv, es).appends)
    decreases |es|
  {
    if es != [] {
      WithoutFailures(kv, es[..|es| - 1]);
      assert !Failure(es[|es| - 1]);
    }
  }

  lemma {:induction false} AllSucceeded(appends: seq<Append>, thread: string)
    requires NoneFailed(appends) && AllSettled(appends, |appends|, thread)
    ensures Succeeded(appends, thread) == ItemsOn(appends, thread)
    decreases |appends|
  {
    if appends != [] {
      var init := appends[..|appends| - 1];
      assert forall j :: 0 <= j < |init| ==> init[j] == appends[j];
      AllSucceeded(init, thread);
      var last := appends[|appends| - 1];
      assert OnThread(last, thread) <==> last.thread == thread;
      assert last.phase != Settled(false);
    }
  }

  /** When no read and no write fails, concurrent appends drop nothing: once those on a thread have settled, every item is stored, in call order. */
  lemma NothingIsLost(kv: map<Key, Value>, es: seq<Event>, thread: string)
    requires forall i :: 0 <= i < |es| ==> !Failure(es[i])
    requires AllSettled(Run(kv, es).appends, |Run(kv, es).appends|, thread)
    ensures ReadItems(Run(kv, es).kv, thread) == ReadItems(kv, thread) + Called(es, thread)
  {
    HistoryIsAppendsInOrder(kv, es, thread);
    WithoutFailures(kv, es);
    AllSucceeded(Run(kv, es).appends, thread);
    AppendsAreCalls(kv, es, thread);
  }

  /** How append `i` settled: its read failed, or its write ended one way or the other. */
  function Fate(kv: map<Key, Value>, es: seq<Event>, i: nat): Option<bool>
    decreases |es|
  {
    if es == [] then None
    else
      var init, e := es[..|es| - 1], es[|es| - 1];
      var before := Run(kv, init).appends;
      if Fate(kv, init, i).Some? then Fate(kv, init, i)
      else if i >= |before| then None
      else if before[i].phase.Reading? && e == GetSettled(i, false) then Some(false)
      else if before[i].phase.Writing? && e.SetSettled? && e.i == i then Some(e.ok)
      else None
  }

  /** An append settles as its read and its write were reported. */
  lemma {:induction false} SettlesAsReported(kv: map<Key, Value>, es: seq<Event>, i: nat)
    ensures i < |Run(kv, es).appends| ==>
      if Fate(kv, es, i).Some? then Run(kv, es).appends[i].phase == Settled(Fate(kv, es, i).value) else !Run(kv, es).appends[i].phase.Settled?
    ensures i >= |Run(kv, es).appends| ==> Fate(kv, es, i) == None
    decreases |es|
  {
    if es != [] { SettlesAsReported(kv, es[..|es| - 1], i); }
  }

  /** The appends whose clean-up has run. */
  function CleanedUp(kv: map<Key, Value>, es: seq<Event>): set<nat>
    decreases |es|
  {
    if es == [] then {}
    else
      var init, e := es[..|es| - 1], es[|es| - 1];
      CleanedUp(kv, init) + if e.CleanUp? && e.i < |Run(kv, init).appends| && Run(kv, init).appends[e.i].phase.Settled? then {e.i} else {}
  }

  ghost predicate NoneLeft(s: State, cleaned: set<nat>) {
    && (forall i :: i in cleaned ==> i < |s.appends|)
    && (forall t :: t in s.chain ==> s.chain[t] !in cleaned)
  }

  predicate EntryIsOn(s: State, t: string)
    requires t in s.chain
  {
    s.chain[t] < |s.appends| && s.appends[s.chain[t]].thread == t
  }

  lemma EntryOn(kv: map<Key, Value>, s: State, t: string)
    requires Inv(kv, s) && t in s.chain
    ensures EntryIsOn(s, t)
  {
    assert LastOn(s.appends, s.chain[t], |s.appends|, t);
  }

  lemma StepLeavesNone(s: State, e: Event, cleaned: set<nat>)
    requires NoneLeft(s, cleaned) && forall t :: t in s.chain ==> EntryIsOn(s, t)
    ensures NoneLeft(Next(s, e),
      cleaned + if e.CleanUp? && e.i < |s.appends| && s.appends[e.i].phase.Settled? then {e.i} else {})
  {
  }

  /** No chain entry outlives the clean-up of its append, so once all have run the chain is empty. */
  lemma {:induction false} NoEntryIsLeft(kv: map<Key, Value>, es: seq<Event>)
    ensures NoneLeft(Run(kv, es), CleanedUp(kv, es))
    decreases |es|
  {
    if es != [] {
      var init := es[..|es| - 1];
      NoEntryIsLeft(kv, init);
      RunKeeps(kv, init);
      forall t | t in Run(kv, init).chain ensures EntryIsOn(Run(kv, init), t) { EntryOn(kv, Run(kv, init), t); }
      StepLeavesNone(Run(kv, init), es[|es| - 1], CleanedUp(kv, init));
    }
  }

  lemma CleanedChainIsEmpty(kv: map<Key, Value>, es: seq<Event>)
    requires forall i :: 0 <= i < |Run(kv, es).appends| ==> i in CleanedUp(kv, es)
    ensures Run(kv, es).chain == map[]
  {
    NoEntryIsLeft(kv, es);
    RunKeeps(kv, es);
    forall t
      ensures t !in Run(kv, es).chain
    {
      if t in Run(kv, es).chain { EntryOn(kv, Run(kv, es), t); }
    }
  }
}
