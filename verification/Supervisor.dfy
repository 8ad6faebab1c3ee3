/**
 The restart supervisor of the inspector host.

 Its asynchronous functions are cut at their awaits. `pc` says which await the one running restart
 is at; each event either comes from outside (a trigger, a reset, the child exiting) or lets the
 restart run on to its next await. `log` records what happened.
 */
module Supervisor {
  import opened Wrappers

  datatype ChildState = Starting | Restarting | Ready | Error

  datatype Pc =
    | Idle
    | Aborting(inSpawn: bool)   // stopChild awaits the abort request
    | Exiting(inSpawn: bool)    // stopChild awaits the killed child's exit
    | Stopped(inSpawn: bool)    // stopChild has returned to its caller
    | Probing                   // spawnChild awaits the health poll
    | Returned                  // spawnChild has returned to the restart loop

  datatype Log = Requested(wipe: bool) | PassBegan | Wiped | Spawned(pid: nat) | Died(pid: nat)

  datatype State = State(pc: Pc, child: Option<nat>, alive: set<nat>, state: ChildState, revision: nat,
    restarting: bool, pendingTrigger: bool, pendingWipe: bool, log: seq<Log>)

  datatype Event = Trigger | Reset | ChildExit(pid: nat) | AbortSettled | ExitSeen | StopReturned | Probed(healthy: bool) | PassEnded

  // ---------- The steps ----------

  /** `stopChild` up to its first await. */
  function StopChild(s: State, inSpawn: bool): State {
    if s.child.None? || s.child.value !in s.alive then s.(child := None, pc := Stopped(inSpawn))
    else s.(pc := Aborting(inSpawn))
  }

  function BeginPass(s: State): State {
    StopChild(s.(pendingTrigger := false, state := Restarting, log := s.log + [PassBegan]), false)
  }

  function Restart(s: State): State {
    if s.restarting then s.(pendingTrigger := true) else BeginPass(s.(restarting := true))
  }

  /** The restart goes on after the old child is gone: wipe if asked to, then spawn. */
  function WipeAndSpawn(s: State): State {
    var wiped := if s.pendingWipe then s.(pendingWipe := false, log := s.log + [Wiped]) else s;
    var pid := wiped.revision + 1;
    wiped.(revision := pid, state := Starting, child := Some(pid), alive := wiped.alive + {pid},
           log := wiped.log + [Spawned(pid)], pc := Probing)
  }

  /** What an event does; one that cannot happen now changes nothing. */
  function Next(s: State, e: Event): State {
    match e
    case Trigger => Restart(s.(log := s.log + [Requested(false)]))
    case Reset => Restart(s.(log := s.log + [Requested(true)], pendingWipe := true))
    case ChildExit(pid) => if pid in s.alive then s.(alive := s.alive - {pid}, log := s.log + [Died(pid)]) else s
    case AbortSettled => if s.pc.Aborting? then s.(pc := Exiting(s.pc.inSpawn)) else s
    case ExitSeen =>
      if s.pc.Exiting? && s.child.Some? && s.child.value !in s.alive then s.(child := None, pc := Stopped(s.pc.inSpawn)) else s
    case StopReturned =>
      if s.pc == Stopped(false) then WipeAndSpawn(s)
      else if s.pc == Stopped(true) then s.(state := Error, pc := Returned)
      else s
    case Probed(healthy) =>
      if s.pc != Probing then s
      else if healthy then s.(state := Ready, pc := Returned)
      else StopChild(s, true)
    case PassEnded =>
      if s.pc != Returned then s
      else if s.pendingTrigger then BeginPass(s)
      else s.(restarting := false, pc := Idle)
  }

  /** Creating the supervisor starts the first pass. */
  function Created(): State {
    Restart(State(Idle, None, {}, Starting, 0, false, false, false, []))
  }

  function Run(es: seq<Event>): State
    decreases |es|
  {
    if es == [] then Created() else Next(Run(es[..|es| - 1]), es[|es| - 1])
  }

  // ---------- The closure's variables, updated in place ----------

  class Host {
    var pc: Pc
    var child: Option<nat>
    var alive: set<nat>
    var state: ChildState
    var revision: nat
    var restarting: bool
    var pendingTrigger: bool
    var pendingWipe: bool
    ghost var log: seq<Log>

    ghost function View(): State
      reads this
    {
      State(pc, child, alive, state, revision, restarting, pendingTrigger, pendingWipe, log)
    }

    constructor ()
      ensures View() == Created()
    {
      pc, child, alive, state, revision := Idle, None, {}, Starting, 0;
      restarting, pendingTrigger, pendingWipe, log := false, false, false, [];
      new;
      DoRestart();
    }

    method DoStopChild(inSpawn: bool)
      modifies this
      ensures View() == StopChild(old(View()), inSpawn)
    {
      if child.None? || child.value !in alive {
        child := None;
        pc := Stopped(inSpawn);
        return;
      }
      pc := Aborting(inSpawn);
    }

    method DoBeginPass()
      modifies this
      ensures View() == BeginPass(old(View()))
    {
      log := log + [PassBegan];
      pendingTrigger := false;
      state := Restarting;
      DoStopChild(false);
    }

    method DoRestart()
      modifies this
      ensures View() == Restart(old(View()))
    {
      if restarting {
        pendingTrigger := true;
        return;
      }
      restarting := true;
      DoBeginPass();
    }

    method OnTrigger()
      modifies this
      ensures View() == Next(old(View()), Trigger)
    {
      log := log + [Requested(false)];
      DoRestart();
    }

    method OnReset()
      modifies this
      ensures View() == Next(old(View()), Reset)
    {
      log := log + [Requested(true)];
      pendingWipe := true;
      DoRestart();
    }

    method OnChildExit(pid: nat)
      modifies this
      ensures View() == Next(old(View()), ChildExit(pid))
    {
      if pid in alive {
        alive := alive - {pid};
        log := log + [Died(pid)];
      }
    }

    method OnAbortSettled()
      modifies this
      ensures View() == Next(old(View()), AbortSettled)
    {
      if pc.Aborting? {
        pc := Exiting(pc.inSpawn);
      }
    }

    method OnExitSeen()
      modifies this
      ensures View() == Next(old(View()), ExitSeen)
    {
      if pc.Exiting? && child.Some? && child.value !in alive {
        child := None;
        pc := Stopped(pc.inSpawn);
      }
    }

    method OnStopReturned()
      modifies this
      ensures View() == Next(old(View()), StopReturned)
    {
      if pc == Stopped(false) {
        if pendingWipe {
          pendingWipe := false;
          log := log + [Wiped];
        }
        revision := revision + 1;
        state := Starting;
        child := Some(revision);
        alive := alive + {revision};
        log := log + [Spawned(revision)];
        pc := Probing;
      } else if pc == Stopped(true) {
        state := Error;
        pc := Returned;
      }
    }

    method OnProbed(healthy: bool)
      modifies this
      ensures View() == Next(old(View()), Probed(healthy))
    {
      if pc == Probing {
        if healthy {
          state := Ready;
          pc := Returned;
        } else {
          DoStopChild(true);
        }
      }
    }

    method OnPassEnded()
      modifies this
      ensures View() == Next(old(View()), PassEnded)
    {
      if pc == Returned {
        if pendingTrigger {
          DoBeginPass();
        } else {
          restarting := false;
          pc := Idle;
        }
      }
    }
  }

  // ---------- Reading the log ----------

  /** The children alive after what `log` records. */
  function Alive(log: seq<Log>): set<nat>
    decreases |log|
  {
    if log == [] then {}
    else
      var before := Alive(log[..|log| - 1]);
      match log[|log| - 1]
      case Spawned(pid) => before + {pid}
      case Died(pid) => before - {pid}
      case _ => before
  }

  /** A request came after the last pass began. */
  predicate Unanswered(log: seq<Log>)
    decreases |log|
  {
    log != [] && (log[|log| - 1].Requested? || (!log[|log| - 1].PassBegan? && Unanswered(log[..|log| - 1])))
  }

  /** A reset came after the last wipe. */
  predicate Unwiped(log: seq<Log>)
    decreases |log|
  {
    log != [] && (log[|log| - 1] == Requested(true) || (!log[|log| - 1].Wiped? && Unwiped(log[..|log| - 1])))
  }

  /** The last pass to begin has not spawned yet. */
  predicate Unspawned(log: seq<Log>)
    decreases |log|
  {
    log != [] && (log[|log| - 1].PassBegan? || (!log[|log| - 1].Spawned? && Unspawned(log[..|log| - 1])))
  }

  /** What may be recorded next: a spawn or a wipe only while nothing is alive and within a pass, a pass only when one is wanted and none is under way. */
  predicate Allowed(log: seq<Log>, l: Log) {
    match l
    case Spawned(pid) => Alive(log) == {} && Unspawned(log) && !Unwiped(log)
    case Wiped => Alive(log) == {} && Unspawned(log) && Unwiped(log)
    case PassBegan => log == [] || (Unanswered(log) && !Unspawned(log))
    case _ => true
  }

  predicate Orderly(log: seq<Log>)
    decreases |log|
  {
    log == [] || (Orderly(log[..|log| - 1]) && Allowed(log[..|log| - 1], log[|log| - 1]))
  }

  predicate BeforeSpawn(pc: Pc) {
    pc == Aborting(false) || pc == Exiting(false) || pc == Stopped(false)
  }

  /** What every step keeps. */
  ghost predicate Inv(s: State) {
    && Orderly(s.log) && s.log != []
    && s.alive == Alive(s.log)
    && (s.child.Some? ==> s.alive <= {s.child.value})
    && (s.child.None? ==> s.alive == {})
    && (s.restarting <==> !s.pc.Idle?)
    && s.pendingTrigger == Unanswered(s.log)
    && s.pendingWipe == Unwiped(s.log)
    && (BeforeSpawn(s.pc) <==> Unspawned(s.log))
    && (s.pc.Idle? ==> !s.pendingTrigger)
    && (s.pendingWipe ==> s.pendingTrigger || Unspawned(s.log))
    && (s.pc.Stopped? ==> s.child.None?)
    && (s.pc.Aborting? || s.pc.Exiting? || s.pc == Probing ==> s.child.Some?)
  }

  lemma LogSnoc(log: seq<Log>, l: Log)
    ensures (log + [l])[..|log + [l]| - 1] == log
  {
  }

  lemma StopKeeps(s: State, inSpawn: bool)
    requires Orderly(s.log) && s.log != [] && s.alive == Alive(s.log)
    requires (s.child.Some? ==> s.alive <= {s.child.value}) && (s.child.None? ==> s.alive == {})
    requires s.restarting && s.pendingTrigger == Unanswered(s.log) && s.pendingWipe == Unwiped(s.log)
    requires !inSpawn <==> Unspawned(s.log)
    requires s.pendingWipe ==> s.pendingTrigger || Unspawned(s.log)
    ensures Inv(StopChild(s, inSpawn))
  {
  }

  lemma BeginKeeps(s: State)
    requires Orderly(s.log) && s.alive == Alive(s.log) && s.restarting
    requires (s.child.Some? ==> s.alive <= {s.child.value}) && (s.child.None? ==> s.alive == {})
    requires s.pendingWipe == Unwiped(s.log)
    requires Allowed(s.log, PassBegan)
    ensures Inv(BeginPass(s))
  {
    LogSnoc(s.log, PassBegan);
    StopKeeps(s.(pendingTrigger := false, state := Restarting, log := s.log + [PassBegan]), false);
  }

  lemma RequestKeeps(s: State, wipe: bool)
    requires Inv(s)
    ensures Inv(Next(s, if wipe then Reset else Trigger))
  {
    var t := s.(log := s.log + [Requested(wipe)], pendingWipe := s.pendingWipe || wipe);
    LogSnoc(s.log, Requested(wipe));
    if !s.restarting { BeginKeeps(t.(restarting := true)); }
  }

  lemma SpawnKeeps(s: State)
    requires Inv(s) && s.pc == Stopped(false)
    ensures Inv(WipeAndSpawn(s))
  {
    LogSnoc(s.log, Wiped);
    var log := if s.pendingWipe then s.log + [Wiped] else s.log;
    assert Orderly(log) && Alive(log) == {} && Unspawned(log) && !Unwiped(log);
    LogSnoc(log, Spawned(s.revision + 1));
    assert {} + {s.revision + 1} == {s.revision + 1};
  }

  lemma ExitKeeps(s: State, pid: nat)
    requires Inv(s)
    ensures Inv(Next(s, ChildExit(pid)))
  {
    if pid in s.alive { LogSnoc(s.log, Died(pid)); }
  }

  /** The abort and the exit a stop waits for. */
  lemma WaitKeeps(s: State, e: Event)
    requires Inv(s) && (e == AbortSettled || e == ExitSeen)
    ensures Inv(Next(s, e))
  {
  }

  lemma StopReturnedKeeps(s: State)
    requires Inv(s)
    ensures Inv(Next(s, StopReturned))
  {
    if s.pc == Stopped(false) { SpawnKeeps(s); }
  }

  lemma ProbedKeeps(s: State, healthy: bool)
    requires Inv(s)
    ensures Inv(Next(s, Probed(healthy)))
  {
    if s.pc == Probing && !healthy { StopKeeps(s, true); }
  }

  lemma PassEndedKeeps(s: State)
    requires Inv(s)
    ensures Inv(Next(s, PassEnded))
  {
    if s.pc == Returned && s.pendingTrigger { BeginKeeps(s); }
  }

  lemma StepKeeps(s: State, e: Event)
    requires Inv(s)
    ensures Inv(Next(s, e))
  {
    match e
    case Trigger => RequestKeeps(s, false);
    case Reset => RequestKeeps(s, true);
    case ChildExit(pid) => ExitKeeps(s, pid);
    case AbortSettled => WaitKeeps(s, e);
    case ExitSeen => WaitKeeps(s, e);
    case StopReturned => StopReturnedKeeps(s);
    case Probed(healthy) => ProbedKeeps(s, healthy);
    case PassEnded => PassEndedKeeps(s);
  }

  /** The invariant holds after every interleaving of events. */
  lemma {:induction false} RunKeeps(es: seq<Event>)
    ensures Inv(Run(es))
    decreases |es|
  {
    if es == [] {
      var s := State(Idle, None, {}, Starting, 0, true, false, false, []);
      BeginKeeps(s);
    } else {
      RunKeeps(es[..|es| - 1]);
      StepKeeps(Run(es[..|es| - 1]), es[|es| - 1]);
    }
  }

  // ---------- What the supervisor reports ----------

  /** What the last health probe found. */
  function LastProbe(es: seq<Event>): Option<bool>
    decreases |es|
  {
    if es == [] then None
    else
      var init, e := es[..|es| - 1], es[|es| - 1];
      if e.Probed? && Run(init).pc == Probing then Some(e.healthy) else LastProbe(init)
  }

  /** The child spawned last. */
  function LastSpawned(log: seq<Log>): Option<nat>
    decreases |log|
  {
    if log == [] then None
    else if log[|log| - 1].Spawned? then Some(log[|log| - 1].pid)
    else LastSpawned(log[..|log| - 1])
  }

  function Spawns(log: seq<Log>): nat
    decreases |log|
  {
    if log == [] then 0 else Spawns(log[..|log| - 1]) + if log[|log| - 1].Spawned? then 1 else 0
  }

  /** Once a pass has heard from its child: ready with that child if it is healthy, and otherwise in error, with no child and nothing alive. */
  ghost predicate ReportsProbe(s: State, probe: Option<bool>) {
    && probe.Some?
    && (probe.value ==> s.state == Ready && s.child.Some? && s.child == LastSpawned(s.log))
    && (!probe.value ==> s.state == Error && s.child == None && s.alive == {})
  }

  /** What is reported at each point of a pass. */
  ghost predicate Reports(s: State, probe: Option<bool>) {
    match s.pc
    case Idle => ReportsProbe(s, probe)
    case Returned => ReportsProbe(s, probe)
    case Probing => s.state == Starting && s.child.Some? && s.child == LastSpawned(s.log)
    case Aborting(inSpawn) => if inSpawn then s.state == Starting && probe == Some(false) else s.state == Restarting
    case Exiting(inSpawn) => if inSpawn then s.state == Starting && probe == Some(false) else s.state == Restarting
    case Stopped(inSpawn) => if inSpawn then s.state == Starting && probe == Some(false) else s.state == Restarting
  }

  lemma LastSpawnedSnoc(log: seq<Log>, l: Log)
    ensures LastSpawned(log + [l]) == if l.Spawned? then Some(l.pid) else LastSpawned(log)
    ensures Spawns(log + [l]) == Spawns(log) + if l.Spawned? then 1 else 0
  {
    LogSnoc(log, l);
  }

  lemma RequestReports(s: State, wipe: bool, probe: Option<bool>)
    requires Reports(s, probe) && (s.restarting <==> !s.pc.Idle?)
    ensures Reports(Next(s, if wipe then Reset else Trigger), probe)
  {
    LastSpawnedSnoc(s.log, Requested(wipe));
  }

  lemma SpawnReports(s: State, probe: Option<bool>)
    requires s.pc == Stopped(false)
    ensures Reports(WipeAndSpawn(s), probe)
  {
    LastSpawnedSnoc(s.log, Wiped);
    LastSpawnedSnoc(if s.pendingWipe then s.log + [Wiped] else s.log, Spawned(s.revision + 1));
  }

  lemma ExitReports(s: State, pid: nat, probe: Option<bool>)
    requires Reports(s, probe)
    ensures Reports(Next(s, ChildExit(pid)), probe)
  {
    LastSpawnedSnoc(s.log, Died(pid));
  }

  lemma StepReports(s: State, e: Event, probe: Option<bool>)
    requires Inv(s) && Reports(s, probe)
    ensures Reports(Next(s, e), if e.Probed? && s.pc == Probing then Some(e.healthy) else probe)
  {
    match e
    case Trigger => RequestReports(s, false, probe);
    case Reset => RequestReports(s, true, probe);
    case ChildExit(pid) => ExitReports(s, pid, probe);
    case StopReturned => if s.pc == Stopped(false) { SpawnReports(s, probe); }
    case _ =>
  }

  /** In every run the reported state is that of the pass: restarting while the old child is stopped, starting until the probe is in and a
      failed child is gone, and then what the probe found. */
  lemma {:induction false} RunReports(es: seq<Event>)
    ensures Reports(Run(es), LastProbe(es))
    decreases |es|
  {
    if es != [] {
      var init := es[..|es| - 1];
      RunReports(init);
      RunKeeps(init);
      StepReports(Run(init), es[|es| - 1], LastProbe(init));
    }
  }

  /** An idle supervisor says what became of the last child: ready, and it is the one spawned last; or error, and none is left. */
  lemma IdleReportsLastProbe(es: seq<Event>)
    requires Run(es).pc.Idle?
    ensures LastProbe(es).Some?
    ensures LastProbe(es).value ==> Run(es).state == Ready && Run(es).child.Some? && Run(es).child == LastSpawned(Run(es).log)
    ensures !LastProbe(es).value ==> Run(es).state == Error && Run(es).child == None && Run(es).alive == {}
  {
    RunReports(es);
  }

  /** The revision counts the spawns, and each child carries its number. */
  lemma {:induction false} RevisionCounts(es: seq<Event>)
    ensures Run(es).revision == Spawns(Run(es).log)
    ensures LastSpawned(Run(es).log) == if Run(es).revision == 0 then None else Some(Run(es).revision)
    decreases |es|
  {
    if es != [] {
      var s, e := Run(es[..|es| - 1]), es[|es| - 1];
      RevisionCounts(es[..|es| - 1]);
      StepRevision(s, e);
    } else {
      assert Created().log == [PassBegan] && [PassBegan][..0] == [];
    }
  }

  ghost predicate Numbered(s: State) {
    && s.revision == Spawns(s.log)
    && LastSpawned(s.log) == if s.revision == 0 then None else Some(s.revision)
  }

  lemma NumberedOn(s: State, t: State, l: Log)
    requires Numbered(s) && !l.Spawned? && t.revision == s.revision && t.log == s.log + [l]
    ensures Numbered(t)
  {
    LastSpawnedSnoc(s.log, l);
  }

  lemma BeginNumbered(s: State)
    requires Numbered(s)
    ensures Numbered(BeginPass(s))
  {
    NumberedOn(s, BeginPass(s), PassBegan);
  }

  lemma RequestNumbered(s: State, wipe: bool)
    requires Numbered(s)
    ensures Numbered(Next(s, if wipe then Reset else Trigger))
  {
    var t := s.(log := s.log + [Requested(wipe)], pendingWipe := s.pendingWipe || wipe);
    NumberedOn(s, t, Requested(wipe));
    BeginNumbered(t.(restarting := true));
  }

  lemma SpawnNumbered(s: State)
    requires Numbered(s)
    ensures Numbered(WipeAndSpawn(s))
  {
    LastSpawnedSnoc(s.log, Wiped);
    LastSpawnedSnoc(if s.pendingWipe then s.log + [Wiped] else s.log, Spawned(s.revision + 1));
  }

  lemma StepRevision(s: State, e: Event)
    requires Numbered(s)
    ensures Numbered(Next(s, e))
  {
    match e
    case Trigger => RequestNumbered(s, false);
    case Reset => RequestNumbered(s, true);
    case ChildExit(pid) => if pid in s.alive { NumberedOn(s, Next(s, e), Died(pid)); }
    case StopReturned => SpawnNumbered(s);
    case PassEnded => BeginNumbered(s);
    case _ =>
  }

  // ---------- Stopping a child ----------

  /** Only a living child is asked to abort. */
  lemma OnlyTheLivingAbort(s: State, e: Event)
    requires Next(s, e).pc.Aborting? && !s.pc.Aborting?
    ensures Next(s, e).child.Some? && Next(s, e).child.value in Next(s, e).alive
  {
  }

  /** The kill is one step from the settled request. */
  lemma StepKills(s: State, e: Event)
    requires Next(s, e).pc.Exiting?
    ensures s.pc.Exiting? || (s.pc.Aborting? && e == AbortSettled)
    ensures Next(s, e).child == s.child
  {
  }

  /** A child is killed, and its exit waited for, only once it was asked to abort and that request has settled. */
  lemma {:induction false} KilledOnlyAfterAbort(es: seq<Event>) returns (k: nat)
    requires Run(es).pc.Exiting?
    ensures k < |es| && es[k] == AbortSettled && Run(es[..k]).pc.Aborting? && Run(es[..k]).child == Run(es).child
    decreases |es|
  {
    NotExitingAtFirst(es);
    var n := |es| - 1;
    StepKills(Run(es[..n]), es[n]);
    if Run(es[..n]).pc.Exiting? {
      k := KilledOnlyAfterAbort(es[..n]);
      assert es[..n][..k] == es[..k];
    } else {
      k := n;
    }
  }

  lemma NotExitingAtFirst(es: seq<Event>)
    requires Run(es).pc.Exiting?
    ensures es != []
  {
  }

  // ---------- What that means for every run ----------

  /** At most one child is ever alive, and each one is spawned only after all before it are gone. */
  lemma AtMostOneChild(es: seq<Event>, k: nat)
    requires k <= |Run(es).log|
    ensures Run(es).alive == Alive(Run(es).log)
    ensures forall p, q :: p in Alive(Run(es).log[..k]) && q in Alive(Run(es).log[..k]) ==> p == q
    ensures k < |Run(es).log| && (Run(es).log[k].Spawned? || Run(es).log[k].Wiped?) ==> Alive(Run(es).log[..k]) == {}
  {
    RunKeeps(es);
    OrderlyPrefix(Run(es).log, k);
    OneAlive(Run(es).log[..k]);
    if k < |Run(es).log| {
      OrderlyPrefix(Run(es).log, k + 1);
      assert Run(es).log[..k + 1][..k] == Run(es).log[..k];
    }
  }

  lemma {:induction false} OrderlyPrefix(log: seq<Log>, k: nat)
    requires Orderly(log) && k <= |log|
    ensures Orderly(log[..k])
    decreases |log|
  {
    if k < |log| {
      OrderlyPrefix(log[..|log| - 1], k);
      assert log[..|log| - 1][..k] == log[..k];
    } else {
      assert log[..k] == log;
    }
  }

  lemma {:induction false} OneAlive(log: seq<Log>)
    requires Orderly(log)
    ensures forall p, q :: p in Alive(log) && q in Alive(log) ==> p == q
    decreases |log|
  {
    if log != [] { OneAlive(log[..|log| - 1]); }
  }

  lemma {:induction false} AnsweredLater(log: seq<Log>, i: nat)
    requires i < |log| && log[i].Requested? && !Unanswered(log)
    ensures exists j :: i < j < |log| && log[j].PassBegan?
    decreases |log|
  {
    if !log[|log| - 1].PassBegan? {
      AnsweredLater(log[..|log| - 1], i);
      var j :| i < j < |log| - 1 && log[..|log| - 1][j].PassBegan?;
      assert log[j].PassBegan?;
    }
  }

  lemma {:induction false} SpawnedLater(log: seq<Log>, i: nat)
    requires i < |log| && log[i].PassBegan? && !Unspawned(log)
    ensures exists j :: i < j < |log| && log[j].Spawned?
    decreases |log|
  {
    if !log[|log| - 1].Spawned? {
      SpawnedLater(log[..|log| - 1], i);
      var j :| i < j < |log| - 1 && log[..|log| - 1][j].Spawned?;
      assert log[j].Spawned?;
    }
  }

  lemma {:induction false} WipedLater(log: seq<Log>, i: nat)
    requires i < |log| && log[i] == Requested(true) && !Unwiped(log)
    ensures exists j :: i < j < |log| && log[j].Wiped?
    decreases |log|
  {
    if !log[|log| - 1].Wiped? {
      WipedLater(log[..|log| - 1], i);
      var j :| i < j < |log| - 1 && log[..|log| - 1][j].Wiped?;
      assert log[j].Wiped?;
    }
  }

  /** The `i`-th entry is answered: a pass begins after it and spawns after that. */
  ghost predicate PassFollows(log: seq<Log>, i: nat) {
    exists j, k :: i < j < k < |log| && log[j].PassBegan? && log[k].Spawned?
  }

  ghost predicate WipeFollows(log: seq<Log>, i: nat) {
    exists j, k :: i < j < k < |log| && log[j].Wiped? && Alive(log[..j]) == {} && log[k].Spawned?
  }

  /** When a pass that began after a reset has spawned, the wipe was done after the reset and before the spawn. */
  lemma ResetWiped(log: seq<Log>, i: nat)
    requires Orderly(log) && i < |log| && log[i] == Requested(true) && PassFollows(log, i)
    ensures WipeFollows(log, i)
  {
    var j, k :| i < j < k < |log| && log[j].PassBegan? && log[k].Spawned?;
    AllowedAt(log, k);
    WipedLater(log[..k], i);
    var w :| i < w < k && log[..k][w].Wiped?;
    assert log[w].Wiped?;
    AllowedAt(log, w);
  }

  lemma AllowedAt(log: seq<Log>, k: nat)
    requires Orderly(log) && k < |log|
    ensures Allowed(log[..k], log[k])
  {
    OrderlyPrefix(log, k + 1);
    assert log[..k + 1][..k] == log[..k];
  }

  function Passes(log: seq<Log>): nat
    decreases |log|
  {
    if log == [] then 0 else Passes(log[..|log| - 1]) + if log[|log| - 1].PassBegan? then 1 else 0
  }

  /** While a pass runs, requests only mark it: any number of them leads to one further pass when it ends, and none of them to none. */
  lemma RequestsCoalesce(es: seq<Event>, e: Event)
    requires !Run(es).pc.Idle?
    ensures var s, t := Run(es), Next(Run(es), e);
      Passes(t.log) == Passes(s.log) + if e == PassEnded && s.pc == Returned && Unanswered(s.log) then 1 else 0
    ensures Run(es).pc == Returned && !Unanswered(Run(es).log) ==> Next(Run(es), PassEnded).pc.Idle?
  {
    RunKeeps(es);
    var s := Run(es);
    match e
    case Trigger => PassesSnoc(s.log, Requested(false));
    case Reset => PassesSnoc(s.log, Requested(true));
    case ChildExit(pid) => PassesSnoc(s.log, Died(pid));
    case StopReturned => SpawnCountsNoPass(s);
    case PassEnded => PassesSnoc(s.log, PassBegan);
    case _ =>
  }

  lemma PassesSnoc(log: seq<Log>, l: Log)
    ensures Passes(log + [l]) == Passes(log) + if l.PassBegan? then 1 else 0
  {
    LogSnoc(log, l);
  }

  lemma SpawnCountsNoPass(s: State)
    ensures Passes(WipeAndSpawn(s).log) == Passes(s.log)
  {
    PassesSnoc(s.log, Wiped);
    PassesSnoc(if s.pendingWipe then s.log + [Wiped] else s.log, Spawned(s.revision + 1));
  }

  /** Between any two passes there is a request: no pass runs for nothing. */
  lemma {:induction false} PassesAreWanted(log: seq<Log>, i: nat, j: nat)
    requires Orderly(log) && i < j < |log| && log[i].PassBegan? && log[j].PassBegan?
    ensures exists r :: i < r < j && log[r].Requested?
  {
    OrderlyPrefix(log, j + 1);
    assert log[..j + 1][..j] == log[..j];
    RequestedSince(log[..j], i);
    var r :| i < r < j && log[..j][r].Requested?;
    assert log[r].Requested?;
  }

  lemma {:induction false} RequestedSince(log: seq<Log>, i: nat)
    requires i < |log| && log[i].PassBegan? && Unanswered(log)
    ensures exists r :: i < r < |log| && log[r].Requested?
    decreases |log|
  {
    if !log[|log| - 1].Requested? {
      RequestedSince(log[..|log| - 1], i);
      var r :| i < r < |log| - 1 && log[..|log| - 1][r].Requested?;
      assert log[r].Requested?;
    }
  }

  // ---------- Progress ----------

  /** Steps left in the pass under way. */
  function Left(pc: Pc): nat {
    match pc
    case Idle => 0
    case Returned => 1
    case Stopped(inSpawn) => if inSpawn then 2 else 7
    case Exiting(inSpawn) => if inSpawn then 3 else 8
    case Aborting(inSpawn) => if inSpawn then 4 else 9
    case Probing => 5
  }

  function Measure(s: State): nat {
    Left(s.pc) + (if s.pendingTrigger then 10 else 0) + |s.alive|
  }

  predicate FromOutside(e: Event) {
    e.Trigger? || e.Reset?
  }

  lemma StopProgresses(s: State, inSpawn: bool)
    ensures StopChild(s, inSpawn).alive == s.alive && StopChild(s, inSpawn).pendingTrigger == s.pendingTrigger
    ensures Left(StopChild(s, inSpawn).pc) <= if inSpawn then 4 else 9
  {
  }

  lemma SpawnProgresses(s: State)
    requires Inv(s) && s.pc == Stopped(false)
    ensures Measure(WipeAndSpawn(s)) < Measure(s)
  {
    assert s.alive == {};
    assert WipeAndSpawn(s).alive == {s.revision + 1};
  }

  lemma ExitProgresses(s: State, pid: nat)
    ensures Next(s, ChildExit(pid)) == s || Measure(Next(s, ChildExit(pid))) < Measure(s)
  {
    if pid in s.alive { assert |s.alive - {pid}| < |s.alive|; }
  }

  lemma WaitProgresses(s: State, e: Event)
    requires e.AbortSettled? || e.ExitSeen? || e.Probed?
    ensures Next(s, e) == s || Measure(Next(s, e)) < Measure(s)
  {
    if e.Probed? && s.pc == Probing && !e.healthy { StopProgresses(s, true); }
  }

  lemma PassProgresses(s: State)
    ensures Next(s, PassEnded) == s || Measure(Next(s, PassEnded)) < Measure(s)
  {
    StopProgresses(s.(pendingTrigger := false, state := Restarting, log := s.log + [PassBegan]), false);
  }

  lemma StepProgresses(s: State, e: Event)
    requires Inv(s) && !FromOutside(e)
    ensures Next(s, e) == s || Measure(Next(s, e)) < Measure(s)
  {
    match e
    case ChildExit(pid) => ExitProgresses(s, pid);
    case StopReturned => if s.pc == Stopped(false) { SpawnProgresses(s); }
    case PassEnded => PassProgresses(s);
    case _ => WaitProgresses(s, e);
  }

  /** Every event that is not a new request brings the restart strictly closer to idle, or changes nothing. */
  lemma EveryStepProgresses(es: seq<Event>, e: Event)
    requires !FromOutside(e)
    ensures Next(Run(es), e) == Run(es) || Measure(Next(Run(es), e)) < Measure(Run(es))
  {
    RunKeeps(es);
    StepProgresses(Run(es), e);
  }

  /** And until it is idle some such event can happen: the child that is waited for may exit, or the restart runs on. */
  function Enabled(s: State): Event {
    match s.pc
    case Idle => PassEnded
    case Aborting(_) => AbortSettled
    case Exiting(_) => if s.child.Some? && s.child.value in s.alive then ChildExit(s.child.value) else ExitSeen
    case Stopped(_) => StopReturned
    case Probing => Probed(true)
    case Returned => PassEnded
  }

  lemma NeverStuck(es: seq<Event>)
    requires !Run(es).pc.Idle?
    ensures !FromOutside(Enabled(Run(es))) && Next(Run(es), Enabled(Run(es))) != Run(es)
  {
    RunKeeps(es);
  }

  // ---------- Every request is served, however many more arrive ----------

  ghost predicate BegunSince(log: seq<Log>, i: nat) {
    exists j :: i < j < |log| && log[j].PassBegan?
  }

  /** How far request `i` is from being served. */
  ghost function Rank(s: State, i: nat): nat {
    if PassFollows(s.log, i) then 0
    else Left(s.pc) + |s.alive| + if BegunSince(s.log, i) then 0 else 10
  }

  lemma SinceSnoc(log: seq<Log>, l: Log, i: nat)
    requires i < |log|
    ensures BegunSince(log + [l], i) <==> BegunSince(log, i) || l.PassBegan?
    ensures PassFollows(log + [l], i) <==> PassFollows(log, i) || (l.Spawned? && BegunSince(log, i))
  {
    var more := log + [l];
    assert forall j :: 0 <= j < |log| ==> more[j] == log[j];
    assert more[|log|] == l;
    if PassFollows(log, i) {
      var j, k :| i < j < k < |log| && log[j].PassBegan? && log[k].Spawned?;
      assert more[j].PassBegan? && more[k].Spawned?;
    }
    if BegunSince(log, i) {
      var j :| i < j < |log| && log[j].PassBegan?;
      assert more[j].PassBegan?;
    }
  }

  /** An unserved request is still marked, or the pass that began for it has not spawned; so the restart is under way. */
  lemma Unserved(s: State, i: nat)
    requires Inv(s) && i < |s.log| && s.log[i].Requested? && !PassFollows(s.log, i)
    ensures BegunSince(s.log, i) ==> BeforeSpawn(s.pc)
    ensures !BegunSince(s.log, i) ==> s.pendingTrigger
    ensures !s.pc.Idle? && s.restarting
  {
    if BegunSince(s.log, i) {
      var j :| i < j < |s.log| && s.log[j].PassBegan?;
      if !Unspawned(s.log) { SpawnedLater(s.log, j); }
    } else if !Unanswered(s.log) {
      AnsweredLater(s.log, i);
    }
  }

  lemma RequestRank(s: State, e: Event, i: nat)
    requires Inv(s) && i < |s.log| && s.log[i].Requested? && FromOutside(e)
    ensures Rank(Next(s, e), i) <= Rank(s, i)
  {
    SinceSnoc(s.log, Requested(e.Reset?), i);
    if PassFollows(s.log, i) {
      if !s.restarting { SinceSnoc(s.log + [Requested(e.Reset?)], PassBegan, i); }
    } else {
      Unserved(s, i);
    }
  }

  lemma SpawnRank(s: State, i: nat)
    requires Inv(s) && i < |s.log| && s.pc == Stopped(false)
    ensures Rank(WipeAndSpawn(s), i) <= Rank(s, i)
    ensures Rank(s, i) > 0 ==> Rank(WipeAndSpawn(s), i) < Rank(s, i)
  {
    var log := if s.pendingWipe then s.log + [Wiped] else s.log;
    SinceSnoc(s.log, Wiped, i);
    SinceSnoc(log, Spawned(s.revision + 1), i);
    assert s.alive == {};
    assert WipeAndSpawn(s).alive == {s.revision + 1};
  }

  lemma PassRank(s: State, i: nat)
    requires Inv(s) && i < |s.log| && s.log[i].Requested? && s.pc == Returned
    ensures Rank(Next(s, PassEnded), i) <= Rank(s, i)
    ensures Rank(s, i) > 0 ==> Rank(Next(s, PassEnded), i) < Rank(s, i)
  {
    SinceSnoc(s.log, PassBegan, i);
    StopProgresses(s.(pendingTrigger := false, state := Restarting, log := s.log + [PassBegan]), false);
    if !PassFollows(s.log, i) { Unserved(s, i); }
  }

  lemma ExitRank(s: State, pid: nat, i: nat)
    requires i < |s.log| && pid in s.alive
    ensures Rank(Next(s, ChildExit(pid)), i) <= Rank(s, i)
    ensures Rank(s, i) > 0 ==> Rank(Next(s, ChildExit(pid)), i) < Rank(s, i)
  {
    SinceSnoc(s.log, Died(pid), i);
    assert |s.alive - {pid}| < |s.alive|;
  }

  /** A wait that ends without a new child or a new pass. */
  lemma WaitRank(s: State, e: Event, i: nat)
    requires e.AbortSettled? || e.ExitSeen? || e.Probed? || (e.StopReturned? && s.pc == Stopped(true))
    requires Next(s, e) != s
    ensures Rank(Next(s, e), i) <= Rank(s, i)
    ensures Rank(s, i) > 0 ==> Rank(Next(s, e), i) < Rank(s, i)
  {
    if e.Probed? && !e.healthy { StopProgresses(s, true); }
    assert Next(s, e).log == s.log && Next(s, e).alive == s.alive;
  }

  /** No event takes a request further from being served, a new request included, and each step of the restart brings it closer. */
  lemma RankFalls(s: State, e: Event, i: nat)
    requires Inv(s) && i < |s.log| && s.log[i].Requested?
    ensures Rank(Next(s, e), i) <= Rank(s, i)
    ensures OwnStep(s, e) && Rank(s, i) > 0 ==> Rank(Next(s, e), i) < Rank(s, i)
  {
    if FromOutside(e) {
      RequestRank(s, e, i);
    } else if Next(s, e) != s {
      match e
      case ChildExit(pid) => ExitRank(s, pid, i);
      case StopReturned => if s.pc == Stopped(false) { SpawnRank(s, i); } else { WaitRank(s, e, i); }
      case PassEnded => PassRank(s, i);
      case _ => WaitRank(s, e, i);
    }
  }

  /** The restart runs on, or the child it waits for exits. */
  predicate OwnStep(s: State, e: Event) {
    !FromOutside(e) && Next(s, e) != s
  }

  /** How many of the events of `more` after `es` are such steps. */
  function OwnSteps(es: seq<Event>, more: seq<Event>): nat
    decreases |more|
  {
    if more == [] then 0
    else
      var init, e := more[..|more| - 1], more[|more| - 1];
      OwnSteps(es, init) + if OwnStep(Run(es + init), e) then 1 else 0
  }

  lemma NextExtends(s: State, e: Event)
    ensures s.log <= Next(s, e).log
  {
  }

  lemma {:induction false} RankRunsOut(es: seq<Event>, more: seq<Event>, i: nat)
    requires i < |Run(es).log| && Run(es).log[i].Requested?
    ensures Run(es).log <= Run(es + more).log
    ensures Rank(Run(es + more), i) + OwnSteps(es, more) <= Rank(Run(es), i) || Rank(Run(es + more), i) == 0
    decreases |more|
  {
    if more == [] {
      assert es + more == es;
    } else {
      var init, e := more[..|more| - 1], more[|more| - 1];
      RankRunsOut(es, init, i);
      assert (es + init) + [e] == es + more;
      RunSnoc(es + init, e);
      RunKeeps(es + init);
      NextExtends(Run(es + init), e);
      assert Run(es + init).log[i] == Run(es).log[i];
      RankFalls(Run(es + init), e, i);
    }
  }

  /** That is never more than twenty steps away. */
  lemma RankBounded(es: seq<Event>, i: nat)
    ensures Rank(Run(es), i) <= 20
  {
    RunKeeps(es);
    var s := Run(es);
    if s.child.Some? && s.alive != {} { assert s.alive == {s.child.value}; }
  }

  /** Whatever happens besides, further requests included: when the restart has taken as many more steps as a request's rank, it has been
      followed by a pass that began after it and spawned, and a reset by a wipe, done while no child was alive, and a later spawn. */
  lemma EveryRequestServed(es: seq<Event>, more: seq<Event>, i: nat)
    requires i < |Run(es).log| && Run(es).log[i].Requested?
    requires OwnSteps(es, more) >= Rank(Run(es), i)
    ensures PassFollows(Run(es + more).log, i)
    ensures Run(es).log[i].wipe ==> WipeFollows(Run(es + more).log, i)
  {
    RankRunsOut(es, more, i);
    RunKeeps(es + more);
    if !PassFollows(Run(es + more).log, i) { Unserved(Run(es + more), i); }
    if Run(es).log[i].wipe { ResetWiped(Run(es + more).log, i); }
  }

  /** And until then such a step is possible. */
  lemma UnservedCanStep(es: seq<Event>, i: nat)
    requires i < |Run(es).log| && Run(es).log[i].Requested? && !PassFollows(Run(es).log, i)
    ensures OwnStep(Run(es), Enabled(Run(es)))
  {
    RunKeeps(es);
    Unserved(Run(es), i);
    NeverStuck(es);
  }

  /** In particular an idle supervisor has served every request. */
  lemma IdleHasServedAll(es: seq<Event>, i: nat)
    requires Run(es).pc.Idle? && i < |Run(es).log| && Run(es).log[i].Requested?
    ensures PassFollows(Run(es).log, i)
    ensures Run(es).log[i].wipe ==> WipeFollows(Run(es).log, i)
  {
    RunKeeps(es);
    if !PassFollows(Run(es).log, i) { Unserved(Run(es), i); }
    if Run(es).log[i].wipe { ResetWiped(Run(es).log, i); }
  }

  // ---------- Reaching idle ----------

  lemma RunSnoc(es: seq<Event>, e: Event)
    ensures Run(es + [e]) == Next(Run(es), e)
  {
    assert (es + [e])[..|es|] == es;
  }

  lemma Regroup(es: seq<Event>, e: Event, rest: seq<Event>)
    ensures es + ([e] + rest) == (es + [e]) + rest
  {
  }

  /** So without new requests every run reaches idle, within as many steps as the measure says. */
  lemma {:induction false} ReachesIdle(es: seq<Event>) returns (more: seq<Event>)
    ensures Run(es + more).pc.Idle? && |more| <= Measure(Run(es))
    ensures forall i :: 0 <= i < |more| ==> !FromOutside(more[i])
    decreases Measure(Run(es))
  {
    if Run(es).pc.Idle? {
      more := [];
      assert es + more == es;
    } else {
      var e := Enabled(Run(es));
      NeverStuck(es);
      EveryStepProgresses(es, e);
      RunSnoc(es, e);
      var rest := ReachesIdle(es + [e]);
      more := [e] + rest;
      Regroup(es, e, rest);
    }
  }
}
