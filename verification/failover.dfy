/** The failover coordinator: critical sections under one mutex, entered by any
    number of goroutines in any order. */
module Failover {
  import opened Options

  type Server = nat

  /** The fields the mutex protects. `watching` is the server whose watch the
      stored cancel function stops. */
  datatype Slots = Slots(running: bool, promoted: Option<Server>, retired: Option<Server>, watching: Option<Server>, closed: bool)

  const FRESH := Slots(false, None, None, None, false)

  // ----- critical sections, as functions of the protected fields -----

  function Begin(s: Slots): (Slots, bool)
  {
    if s.closed || s.running || s.promoted.Some? then (s, false) else (s.(running := true), true)
  }

  function End(s: Slots): Slots { s.(running := false) }

  function Install(s: Slots, server: Server): (Slots, bool)
  {
    if s.closed then (s, false) else (s.(promoted := Some(server)), true)
  }

  function Exited(s: Slots, server: Server): Slots
  {
    var s1 := if s.promoted == Some(server) then s.(promoted := None, watching := None) else s;
    if s1.retired == Some(server) then s1.(retired := None) else s1
  }

  function Reinstate(s: Slots, server: Server): (Slots, bool)
  {
    if s.retired != Some(server) then (s, false) else (s.(retired := None, promoted := Some(server)), true)
  }

  function RollBack(s: Slots, server: Server): Slots
  {
    if s.promoted == Some(server) then s.(promoted := None, retired := Some(server)) else s
  }

  function StartWatch(s: Slots, server: Server): (Slots, bool)
  {
    if s.closed then (s, false) else (s.(watching := Some(server)), true)
  }

  function StepDown(s: Slots, server: Server): Slots
  {
    if s.promoted != Some(server) then s else s.(promoted := None, retired := Some(server), watching := None)
  }

  function Shut(s: Slots): Slots { s.(closed := true, watching := None, promoted := None, retired := None) }

  /** The coordinator object; every method is one locked section. */
  class Coordinator {
    var running: bool
    var promoted: Option<Server>
    var retired: Option<Server>
    var watching: Option<Server>
    var closed: bool

    function State(): Slots
      reads this
    {
      Slots(running, promoted, retired, watching, closed)
    }

    constructor ()
      ensures State() == FRESH
    {
      running, promoted, retired, watching, closed := false, None, None, None, false;
    }

    method BeginElection() returns (ok: bool)
      modifies this
      ensures (State(), ok) == Begin(old(State()))
      ensures ok <==> !old(closed) && !old(running) && old(promoted) == None
      ensures running == (ok || old(running)) && promoted == old(promoted) && retired == old(retired) && watching == old(watching) && closed == old(closed)
    {
      if closed || running || promoted != None { return false; }
      running := true;
      ok := true;
    }

    method EndElection()
      modifies this
      ensures State() == End(old(State()))
      ensures !running && promoted == old(promoted) && retired == old(retired) && watching == old(watching) && closed == old(closed)
    {
      running := false;
    }

    method InstallPromoted(server: Server) returns (ok: bool)
      modifies this
      ensures (State(), ok) == Install(old(State()), server)
      ensures ok <==> !old(closed)
      ensures promoted == (if ok then Some(server) else old(promoted)) && retired == old(retired) && watching == old(watching)
      ensures running == old(running) && closed == old(closed)
    {
      if closed { return false; }
      promoted := Some(server);
      ok := true;
    }

    method ServerExited(server: Server)
      modifies this
      ensures State() == Exited(old(State()), server)
      ensures promoted != Some(server) && (old(promoted) != Some(server) ==> promoted == old(promoted) && watching == old(watching))
      ensures retired != Some(server) && (old(retired) != Some(server) ==> retired == old(retired))
      ensures (old(promoted) == Some(server) ==> promoted == watching == None) && (old(retired) == Some(server) ==> retired == None)
      ensures running == old(running) && closed == old(closed)
    {
      if promoted == Some(server) {
        promoted := None;
        StopWatchLocked();
      }
      if retired == Some(server) { retired := None; }
    }

    method StopWatchLocked()
      modifies this`watching
      ensures watching == None
    {
      if watching != None { watching := None; }
    }

    method ReinstateRetired(server: Server) returns (ok: bool)
      modifies this
      ensures (State(), ok) == Reinstate(old(State()), server)
      ensures ok <==> old(retired) == Some(server)
      ensures if ok then promoted == Some(server) && retired == None else promoted == old(promoted) && retired == old(retired)
      ensures running == old(running) && watching == old(watching) && closed == old(closed)
    {
      if retired != Some(server) { return false; }
      retired := None;
      promoted := Some(server);
      ok := true;
    }

    method RollBackReinstatement(server: Server)
      modifies this
      ensures State() == RollBack(old(State()), server)
      ensures if old(promoted) == Some(server) then promoted == None && retired == Some(server) else promoted == old(promoted) && retired == old(retired)
      ensures running == old(running) && watching == old(watching) && closed == old(closed)
    {
      if promoted == Some(server) {
        promoted := None;
        retired := Some(server);
      }
    }

    method InstallWatch(server: Server) returns (ok: bool)
      modifies this
      ensures (State(), ok) == StartWatch(old(State()), server)
      ensures (ok <==> !old(closed)) && watching == (if ok then Some(server) else old(watching))
      ensures running == old(running) && promoted == old(promoted) && retired == old(retired) && closed == old(closed)
    {
      if closed { return false; }
      StopWatchLocked();
      watching := Some(server);
      ok := true;
    }

    method StepDownServer(server: Server)
      modifies this
      ensures State() == StepDown(old(State()), server)
      ensures if old(promoted) == Some(server) then promoted == watching == None && retired == Some(server)
              else promoted == old(promoted) && watching == old(watching) && retired == old(retired)
      ensures running == old(running) && closed == old(closed)
    {
      if promoted != Some(server) { return; }
      promoted := None;
      retired := Some(server);
      watching := None;
    }

    method Close() returns (servers: seq<Server>)
      modifies this
      ensures State() == Shut(old(State()))
      ensures closed && promoted == retired == watching == None && running == old(running)
      ensures forall x :: x in servers <==> Some(x) == old(promoted) || Some(x) == old(retired)
    {
      closed := true;
      StopWatchLocked();
      servers := (if promoted.Some? then [promoted.value] else []) + (if retired.Some? then [retired.value] else []);
      promoted, retired := None, None;
    }
  }

  // ----- goroutines -----

  /** Where an election goroutine is between two locked sections. */
  datatype Phase =
    | Calling                      // about to take the lock in StartElection
    | Campaigning                  // election window, winner selection
    | Configuring                  // promote read: nothing retired, not closed
    | Resuming(server: Server)     // promote read: this server is retired
    | Serving(server: Server)      // new server installed, waiting for health
    | Confirming(server: Server)   // reinstated, telling the agent
    | Undoing(server: Server)      // agent refused, about to roll back
    | Leaving                      // about to clear running
    | Done

  predicate InFlight(p: Phase) { !p.Calling? && !p.Done? }

  /** `live` servers are bound and have not returned from Run; `watched` servers
      may still have a watch goroutine about to step down, cancelled or not. */
  datatype World = World(slots: Slots, elections: map<nat, Phase>, live: set<Server>, watched: set<Server>, nextServer: Server)

  datatype Action =
    | Call(t: nat)                     // StartElection is called
    | Enter(t: nat)                    // its first locked section
    | Lose(t: nat)                     // not elected, or any failure before promote
    | ReadSlots(t: nat)                // promote reads retired and closed
    | ConfigureFails(t: nat)
    | InstallNew(t: nat)
    | TrustFails(t: nat)
    | ReinstateOld(t: nat)
    | GiveUp(t: nat)                   // unhealthy, or the agent refuses a new server
    | AgentRefuses(t: nat)
    | Undo(t: nat)
    | Watch(t: nat)
    | Leave(t: nat)
    | ServerStops(s: Server)           // Run returns
    | Reap(s: Server)                  // its goroutine takes the lock
    | WatchStepsDown(s: Server)
    | CloseAll

  function PhaseOf(w: World, t: nat): Phase { if t in w.elections then w.elections[t] else Done }

  function Move(w: World, t: nat, p: Phase): World { w.(elections := w.elections[t := p]) }

  ghost predicate Enabled(w: World, a: Action)
  {
    match a
    case Call(t) => PhaseOf(w, t).Done?
    case Enter(t) => PhaseOf(w, t).Calling?
    case Lose(t) => PhaseOf(w, t).Campaigning?
    case ReadSlots(t) => PhaseOf(w, t).Campaigning?
    case ConfigureFails(t) => PhaseOf(w, t).Configuring?
    case InstallNew(t) => PhaseOf(w, t).Configuring?
    case TrustFails(t) => PhaseOf(w, t).Resuming?
    case ReinstateOld(t) => PhaseOf(w, t).Resuming?
    case GiveUp(t) => PhaseOf(w, t).Serving?
    case AgentRefuses(t) => PhaseOf(w, t).Confirming?
    case Undo(t) => PhaseOf(w, t).Undoing?
    case Watch(t) => PhaseOf(w, t).Serving? || PhaseOf(w, t).Confirming?
    case Leave(t) => PhaseOf(w, t).Leaving?
    case ServerStops(s) => s in w.live
    case Reap(s) => s < w.nextServer && s !in w.live
    case WatchStepsDown(s) => s in w.watched
    case CloseAll => true
  }

  function Step(w: World, a: Action): World
    requires Enabled(w, a)
  {
    match a
    case Call(t) => Move(w, t, Calling)
    case Enter(t) =>
      var (slots, ok) := Begin(w.slots);
      Move(w, t, if ok then Campaigning else Done).(slots := slots)
    case Lose(t) => Move(w, t, Leaving)
    case ReadSlots(t) =>
      Move(w, t, if w.slots.closed then Leaving
                 else if w.slots.retired.Some? then Resuming(w.slots.retired.value) else Configuring)
    case ConfigureFails(t) => Move(w, t, Leaving)
    case InstallNew(t) =>
      var (slots, ok) := Install(w.slots, w.nextServer);
      if ok then Move(w, t, Serving(w.nextServer)).(slots := slots, live := w.live + {w.nextServer}, nextServer := w.nextServer + 1)
      else Move(w, t, Leaving)
    case TrustFails(t) => Move(w, t, Leaving)
    case ReinstateOld(t) =>
      var server := PhaseOf(w, t).server;
      var (slots, ok) := Reinstate(w.slots, server);
      Move(w, t, if ok then Confirming(server) else Leaving).(slots := slots)
    case GiveUp(t) => Move(w, t, Leaving)
    case AgentRefuses(t) => Move(w, t, Undoing(PhaseOf(w, t).server))
    case Undo(t) => Move(w, t, Leaving).(slots := RollBack(w.slots, PhaseOf(w, t).server))
    case Watch(t) =>
      var server := PhaseOf(w, t).server;
      var (slots, ok) := StartWatch(w.slots, server);
      Move(w, t, Leaving).(slots := slots, watched := if ok then w.watched + {server} else w.watched)
    case Leave(t) => Move(w, t, Done).(slots := End(w.slots))
    case ServerStops(s) => w.(live := w.live - {s})
    case Reap(s) => w.(slots := Exited(w.slots, s))
    case WatchStepsDown(s) => w.(slots := StepDown(w.slots, s), watched := w.watched - {s})
    case CloseAll => w.(slots := Shut(w.slots))
  }

  // ----- the invariant -----

  ghost predicate Exclusive(s: Slots)
  {
    && (s.promoted.None? || s.retired.None?)
    && (s.closed ==> s.promoted.None? && s.retired.None? && s.watching.None?)
  }

  ghost predicate OneElection(w: World)
  {
    && (forall t :: InFlight(PhaseOf(w, t)) ==> w.slots.running)
    && (forall t, u :: InFlight(PhaseOf(w, t)) && InFlight(PhaseOf(w, u)) ==> t == u)
  }

  /** Until an election installs or reinstates a server nothing is promoted,
      and one that found nothing retired still finds nothing retired. */
  ghost predicate PhasesOk(w: World)
  {
    forall t ::
      var p := PhaseOf(w, t);
      && (p.Campaigning? || p.Configuring? || p.Resuming? ==> w.slots.promoted.None?)
      && (p.Configuring? ==> w.slots.retired.None?)
  }

  /** Before Close, a bound server is the promoted or the retired one. */
  ghost predicate LiveAreHeld(w: World)
  {
    && (forall s :: s in w.live ==> s < w.nextServer)
    && (!w.slots.closed ==> forall s :: s in w.live ==> w.slots.promoted == Some(s) || w.slots.retired == Some(s))
  }

  ghost predicate Invariant(w: World)
  {
    Exclusive(w.slots) && OneElection(w) && PhasesOk(w) && LiveAreHeld(w)
  }

  ghost predicate Initial(w: World)
  {
    w == World(FRESH, map[], {}, {}, 0)
  }

  lemma MovePhase(w: World, t: nat, p: Phase)
    ensures forall u :: PhaseOf(Move(w, t, p), u) == if u == t then p else PhaseOf(w, u)
  {
  }

  lemma StepKeepsInvariant(w: World, a: Action)
    requires Invariant(w) && Enabled(w, a)
    ensures Invariant(Step(w, a))
  {
    var w' := Step(w, a);
    if a.ServerStops? || a.Reap? || a.WatchStepsDown? || a.CloseAll? {
      assert forall u :: PhaseOf(w', u) == PhaseOf(w, u);
    } else {
      MovePhase(w, a.t, PhaseOf(w', a.t));
      assert forall u :: PhaseOf(w', u) == if u == a.t then PhaseOf(w', a.t) else PhaseOf(w, u);
    }
  }

  ghost predicate Run(worlds: seq<World>, actions: seq<Action>)
  {
    && |worlds| == |actions| + 1 && Initial(worlds[0])
    && (forall i :: 0 <= i < |actions| ==> Enabled(worlds[i], actions[i]) && worlds[i + 1] == Step(worlds[i], actions[i]))
  }

  /** Under every interleaving: promoted and retired are never both set, at
      most one election is in flight, and before Close at most one server is bound. */
  lemma {:induction false} SafeUnderEveryInterleaving(worlds: seq<World>, actions: seq<Action>, i: nat)
    requires Run(worlds, actions) && i < |worlds|
    ensures var w := worlds[i];
            && !(w.slots.promoted.Some? && w.slots.retired.Some?)
            && (forall t, u :: InFlight(PhaseOf(w, t)) && InFlight(PhaseOf(w, u)) ==> t == u)
            && (!w.slots.closed ==> forall s, s' :: s in w.live && s' in w.live ==> s == s')
    ensures Invariant(worlds[i])
  {
    if i > 0 {
      SafeUnderEveryInterleaving(worlds, actions, i - 1);
      StepKeepsInvariant(worlds[i - 1], actions[i - 1]);
    }
  }

  /** Once closed, no slot is ever set and no watch installed again, whatever
      is still in flight, and no further election gets in. */
  lemma {:induction false} ClosedForGood(worlds: seq<World>, actions: seq<Action>, i: nat, j: nat)
    requires Run(worlds, actions) && i <= j < |worlds| && worlds[i].slots.closed
    ensures worlds[j].slots.closed && worlds[j].slots.promoted.None? && worlds[j].slots.retired.None? && worlds[j].slots.watching.None?
    ensures j < |actions| && actions[j].Enter? ==> PhaseOf(worlds[j + 1], actions[j].t).Done?
    decreases j - i
  {
    SafeUnderEveryInterleaving(worlds, actions, i);
    if i < j { ClosedForGood(worlds, actions, i + 1, j); }
  }

  /** A promoted server loses its slot only through its own exit, its own
      watch, its own rollback, or Close: a stale watch of an older server, even
      one whose cancellation came too late, never demotes a newer one. */
  lemma OnlyOwnEventsDemote(w: World, a: Action, s: Server)
    requires Invariant(w) && Enabled(w, a) && w.slots.promoted == Some(s) && Step(w, a).slots.promoted != Some(s)
    ensures a == Reap(s) || a == WatchStepsDown(s) || a == CloseAll || (a.Undo? && PhaseOf(w, a.t) == Undoing(s))
  {
  }

  /** A new server is only ever created when none is held, so a retired
      listener is reinstated instead of binding its port again. */
  lemma NewServerOnlyWhenNoneHeld(w: World, t: nat)
    requires Invariant(w) && Enabled(w, InstallNew(t)) && Step(w, InstallNew(t)).slots.promoted.Some?
    ensures w.slots.promoted.None? && w.slots.retired.None? && w.live == {}
  {
    assert PhaseOf(w, t).Configuring?;
    assert forall s :: s in w.live ==> false;
  }

  // ----- elections do elect -----

  /** Taking `actions` in turn leads from `w` to `w'`. */
  ghost predicate Leads(w: World, actions: seq<Action>, w': World)
    decreases |actions|
  {
    if actions == [] then w == w' else Enabled(w, actions[0]) && Leads(Step(w, actions[0]), actions[1..], w')
  }

  /** A caller in an open, idle coordinator with nothing promoted always gets
      in; one that finds it closed, busy or promoted never does. */
  lemma EnterIffFree(w: World, t: nat)
    requires Enabled(w, Enter(t))
    ensures PhaseOf(Step(w, Enter(t)), t) == Campaigning <==> !w.slots.closed && !w.slots.running && w.slots.promoted.None?
    ensures PhaseOf(Step(w, Enter(t)), t) != Campaigning ==> PhaseOf(Step(w, Enter(t)), t) == Done && Step(w, Enter(t)).slots == w.slots
  {
  }

  lemma LeadsThrough(w: World, a: Action, b: Action, c: Action, d: Action, e: Action, w': World)
    requires Enabled(w, a) && Enabled(Step(w, a), b) && Enabled(Step(Step(w, a), b), c)
    requires Enabled(Step(Step(Step(w, a), b), c), d) && Enabled(Step(Step(Step(Step(w, a), b), c), d), e)
    requires w' == Step(Step(Step(Step(Step(w, a), b), c), d), e)
    ensures Leads(w, [a, b, c, d, e], w')
  {
    var w1, w2, w3, w4 := Step(w, a), Step(Step(w, a), b), Step(Step(Step(w, a), b), c), Step(Step(Step(Step(w, a), b), c), d);
    assert [e][1..] == [] && Leads(w4, [e], w');
    assert [d, e][1..] == [e] && Leads(w3, [d, e], w');
    assert [c, d, e][1..] == [d, e] && Leads(w2, [c, d, e], w');
    assert [b, c, d, e][1..] == [c, d, e] && Leads(w1, [b, c, d, e], w');
    assert [a, b, c, d, e][1..] == [b, c, d, e];
  }

  /** Whenever the coordinator is open, idle and without a promoted server, an
      election can be called and go on to promote one: the retired server if
      there is one, a new one otherwise. It is then bound or still was, watched,
      and the coordinator is idle again. */
  lemma ElectionCanPromote(start: World, t: nat) returns (w': World)
    requires PhaseOf(start, t).Done? && !start.slots.closed && !start.slots.running && start.slots.promoted.None?
    ensures Enabled(start, Call(t))
    ensures var w := Step(start, Call(t));
            && w.slots == start.slots
            && Leads(w, [Enter(t), ReadSlots(t), if w.slots.retired.Some? then ReinstateOld(t) else InstallNew(t), Watch(t), Leave(t)], w')
            && w'.slots.promoted == (if w.slots.retired.Some? then w.slots.retired else Some(w.nextServer))
            && w'.slots.retired.None? && !w'.slots.running && w'.slots.watching == w'.slots.promoted
            && (w.slots.retired.None? ==> w.nextServer in w'.live)
  {
    var w := Step(start, Call(t));
    var w1 := Step(w, Enter(t));
    var w2 := Step(w1, ReadSlots(t));
    var install := if w.slots.retired.Some? then ReinstateOld(t) else InstallNew(t);
    var w3 := Step(w2, install);
    var w4 := Step(w3, Watch(t));
    w' := Step(w4, Leave(t));
    LeadsThrough(w, Enter(t), ReadSlots(t), install, Watch(t), Leave(t), w');
  }

  /** A promoted server whose watch steps down becomes the retired one, and a
      stopped server that is reaped is in no slot. */
  lemma StepDownRetires(w: World, s: Server)
    ensures s in w.watched && w.slots.promoted == Some(s) ==>
              Step(w, WatchStepsDown(s)).slots.promoted == None && Step(w, WatchStepsDown(s)).slots.retired == Some(s)
    ensures Enabled(w, Reap(s)) ==>
              Step(w, Reap(s)).slots.promoted != Some(s) && Step(w, Reap(s)).slots.retired != Some(s)
    ensures s in w.live && s < w.nextServer ==> Enabled(w, ServerStops(s)) && Enabled(Step(w, ServerStops(s)), Reap(s))
  {
  }

  /** Closing is always possible, closes the coordinator and empties it. */
  lemma CloseEmpties(w: World)
    ensures Enabled(w, CloseAll)
    ensures var w' := Step(w, CloseAll);
            && w'.slots.closed && w'.slots.promoted.None? && w'.slots.retired.None? && w'.slots.watching.None?
            && w'.elections == w.elections && w'.live == w.live
  {
  }

  /** When the agent refuses a reinstated server the election can go on to put
      it back as the retired one and leave the coordinator idle. */
  lemma RefusedReinstatementIsUndone(w: World, t: nat) returns (w': World)
    requires PhaseOf(w, t).Calling? && !w.slots.closed && !w.slots.running && w.slots.promoted.None? && w.slots.retired.Some?
    ensures Leads(w, [Enter(t), ReadSlots(t), ReinstateOld(t), AgentRefuses(t), Undo(t)], w')
    ensures w'.slots.promoted.None? && w'.slots.retired == w.slots.retired && w'.live == w.live
    ensures Enabled(w', Leave(t)) && !Step(w', Leave(t)).slots.running && PhaseOf(Step(w', Leave(t)), t) == Done
  {
    var w3 := Step(Step(Step(w, Enter(t)), ReadSlots(t)), ReinstateOld(t));
    w' := Step(Step(w3, AgentRefuses(t)), Undo(t));
    LeadsThrough(w, Enter(t), ReadSlots(t), ReinstateOld(t), AgentRefuses(t), Undo(t), w');
  }
}
