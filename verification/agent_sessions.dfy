/** Runs that share sessions: any number of goroutines calling the turn loop,
    interleaved between its locked sections, with interrupts at any time. */
module AgentSessions {
  import opened AgentLoop

  /** A run: in the loop with the messages it has appended, or past the loop
      with its conversation not yet marked finished. */
  datatype Phase = InLoop(session: string, own: seq<Message>) | Closing(session: string) | Gone

  /** `closed` collects, per session, the messages of runs that left the loop,
      in the order they left. */
  datatype World = World(
    active: map<string, nat>, busy: set<string>, messages: map<string, seq<Message>>,
    runs: map<nat, Phase>, closed: map<string, seq<Message>>)

  datatype Action =
    | Enter(run: nat, session: string, user: Message)
    | Append(run: nat, message: Message)
    | Leave(run: nat)
    | MarkFinished(run: nat)
    | Interrupt(session: string)

  function Of(m: map<string, seq<Message>>, s: string): seq<Message> { if s in m then m[s] else [] }

  predicate Looping(w: World, r: nat, s: string) { r in w.runs && w.runs[r].InLoop? && w.runs[r].session == s }

  predicate Enabled(w: World, a: Action)
  {
    match a
    case Enter(r, _, user) => r !in w.runs && user.User?
    case Append(r, _) => r in w.runs && w.runs[r].InLoop?
    case Leave(r) => r in w.runs && w.runs[r].InLoop?
    case MarkFinished(r) => r in w.runs && w.runs[r].Closing?
    case Interrupt(_) => true
  }

  function Step(w: World, a: Action): World
    requires Enabled(w, a)
  {
    match a
    case Enter(r, s, user) =>
      if s in w.active || s in w.busy then w.(runs := w.runs[r := Gone])
      else w.(active := w.active[s := r], busy := w.busy + {s},
              messages := w.messages[s := Of(w.messages, s) + [user]], runs := w.runs[r := InLoop(s, [user])])
    case Append(r, m) =>
      var s := w.runs[r].session;
      w.(messages := w.messages[s := Of(w.messages, s) + [m]], runs := w.runs[r := InLoop(s, w.runs[r].own + [m])])
    case Leave(r) =>
      var s := w.runs[r].session;
      w.(active := if s in w.active && w.active[s] == r then w.active - {s} else w.active,
         runs := w.runs[r := Closing(s)], closed := w.closed[s := Of(w.closed, s) + w.runs[r].own])
    case MarkFinished(r) => w.(busy := w.busy - {w.runs[r].session}, runs := w.runs[r := Gone])
    case Interrupt(s) => w.(busy := w.busy - {s})
  }

  /** The active map names exactly the runs in the loop. */
  ghost predicate ActiveMatches(w: World)
  {
    && (forall r, s :: Looping(w, r, s) ==> s in w.active && w.active[s] == r)
    && (forall s :: s in w.active ==> Looping(w, w.active[s], s))
  }

  /** A session's messages are those of the runs that left, then those of the
      run in the loop. */
  ghost predicate InOrder(w: World, s: string)
  {
    if s in w.active && w.active[s] in w.runs && w.runs[w.active[s]].InLoop?
    then Of(w.messages, s) == Of(w.closed, s) + w.runs[w.active[s]].own
    else Of(w.messages, s) == Of(w.closed, s)
  }

  ghost predicate Invariant(w: World) { ActiveMatches(w) && forall s :: InOrder(w, s) }

  lemma StepKeepsActive(w: World, a: Action)
    requires ActiveMatches(w) && Enabled(w, a)
    ensures ActiveMatches(Step(w, a))
  {
    var w' := Step(w, a);
    forall r, s | Looping(w', r, s) ensures s in w'.active && w'.active[s] == r {
      assert Looping(w, r, s) || a.Enter?;
    }
    forall s | s in w'.active ensures Looping(w', w'.active[s], s) {
      assert s in w.active ==> Looping(w, w.active[s], s);
    }
  }

  lemma StepKeepsOrder(w: World, a: Action, s: string)
    requires Invariant(w) && Enabled(w, a)
    ensures InOrder(Step(w, a), s)
  {
    assert InOrder(w, s);
    match a
    case Enter(r, t, user) => assert t == s && t !in w.active ==> Of(w.messages, s) == Of(w.closed, s);
    case Append(r, m) => assert Looping(w, r, w.runs[r].session);
    case Leave(r) => assert Looping(w, r, w.runs[r].session);
    case MarkFinished(r) =>
    case Interrupt(t) =>
  }

  ghost predicate Run(worlds: seq<World>, actions: seq<Action>)
  {
    && |worlds| == |actions| + 1 && worlds[0] == World(map[], {}, map[], map[], map[])
    && (forall i :: 0 <= i < |actions| ==> Enabled(worlds[i], actions[i]) && worlds[i + 1] == Step(worlds[i], actions[i]))
  }

  /** Whatever the interleaving and however often sessions are interrupted, at
      most one run is in the loop per session, and the session's messages are
      whole runs one after another: transcripts never mix. */
  lemma {:induction false} RunsNeverOverlap(worlds: seq<World>, actions: seq<Action>, i: nat)
    requires Run(worlds, actions) && i < |worlds|
    ensures Invariant(worlds[i])
    ensures forall q, r, s :: Looping(worlds[i], q, s) && Looping(worlds[i], r, s) ==> q == r
  {
    if i > 0 {
      RunsNeverOverlap(worlds, actions, i - 1);
      var w, a := worlds[i - 1], actions[i - 1];
      StepKeepsActive(w, a);
      forall s ensures InOrder(worlds[i], s) { StepKeepsOrder(w, a, s); }
    }
  }

  /** While a run is in the loop only it extends the session's messages. */
  lemma OnlyTheRunAppends(worlds: seq<World>, actions: seq<Action>, i: nat, r: nat, s: string)
    requires Run(worlds, actions) && i < |actions| && Looping(worlds[i], r, s)
    requires Of(worlds[i + 1].messages, s) != Of(worlds[i].messages, s)
    ensures actions[i].Append? && actions[i].run == r
  {
    RunsNeverOverlap(worlds, actions, i);
    var w, a := worlds[i], actions[i];
    if a.Append? { assert Looping(w, a.run, w.runs[a.run].session); }
  }

  /** A run gets into the loop exactly when its session has no run in the loop
      and is not busy, and then the user's message is appended; otherwise
      nothing but the run is over. */
  lemma EnterIffFree(w: World, r: nat, s: string, user: Message)
    requires r !in w.runs && user.User?
    ensures Enabled(w, Enter(r, s, user))
    ensures var w' := Step(w, Enter(r, s, user));
            if s !in w.active && s !in w.busy
            then Looping(w', r, s) && Of(w'.messages, s) == Of(w.messages, s) + [user]
            else w' == w.(runs := w.runs[r := Gone])
  {
  }

  /** `actions` are possible one after another from w and lead to w'. */
  ghost predicate Leads(w: World, actions: seq<Action>, w': World)
    decreases |actions|
  {
    if actions == [] then w == w' else Enabled(w, actions[0]) && Leads(Step(w, actions[0]), actions[1..], w')
  }

  lemma LeadsThrough(w: World, a: Action, b: Action, c: Action, d: Action, w': World)
    requires Enabled(w, a) && Enabled(Step(w, a), b) && Enabled(Step(Step(w, a), b), c) && Enabled(Step(Step(Step(w, a), b), c), d)
    requires w' == Step(Step(Step(Step(w, a), b), c), d)
    ensures Leads(w, [a, b, c, d], w')
  {
    var w1, w2, w3 := Step(w, a), Step(Step(w, a), b), Step(Step(Step(w, a), b), c);
    assert [d][1..] == [] && Leads(w3, [d], w');
    assert [c, d][1..] == [d] && Leads(w2, [c, d], w');
    assert [b, c, d][1..] == [c, d] && Leads(w1, [b, c, d], w');
    assert [a, b, c, d][1..] == [b, c, d];
  }

  /** A turn in a free session can always take place. It leaves its messages in
      order, everything else as it was and the session free. */
  lemma TurnTakesPlace(w: World, r: nat, s: string, user: Message, m: Message) returns (w': World)
    requires r !in w.runs && user.User? && s !in w.active && s !in w.busy
    ensures Leads(w, [Enter(r, s, user), Append(r, m), Leave(r), MarkFinished(r)], w')
    ensures w'.active == w.active && w'.busy == w.busy && w'.runs == w.runs[r := Gone]
    ensures w'.messages == w.messages[s := Of(w.messages, s) + [user, m]] && w'.closed == w.closed[s := Of(w.closed, s) + [user, m]]
  {
    var w1 := Step(w, Enter(r, s, user));
    var w2 := Step(w1, Append(r, m));
    assert Of(w.messages, s) + [user] + [m] == Of(w.messages, s) + [user, m] && [user] + [m] == [user, m];
    assert w2.messages == w.messages[s := Of(w.messages, s) + [user, m]] && w2.runs == w.runs[r := InLoop(s, [user, m])];
    var w3 := Step(w2, Leave(r));
    assert w3.active == w.active && w3.closed == w.closed[s := Of(w.closed, s) + [user, m]];
    w' := Step(w3, MarkFinished(r));
    LeadsThrough(w, Enter(r, s, user), Append(r, m), Leave(r), MarkFinished(r), w');
  }

  /** An interrupt is possible at any time and only frees the session. */
  lemma InterruptFrees(w: World, s: string)
    ensures Enabled(w, Interrupt(s)) && Step(w, Interrupt(s)) == w.(busy := w.busy - {s})
  {
  }

  /** Once the run in the loop has left and is marked finished, the next gets in. */
  lemma LeavingFreesSession(worlds: seq<World>, actions: seq<Action>, i: nat, r: nat, s: string, next: nat, user: Message)
    requires Run(worlds, actions) && i < |worlds| && Looping(worlds[i], r, s) && next !in worlds[i].runs && user.User?
    ensures Enabled(worlds[i], Leave(r)) && Enabled(Step(worlds[i], Leave(r)), MarkFinished(r))
    ensures var w := Step(Step(worlds[i], Leave(r)), MarkFinished(r));
            Enabled(w, Enter(next, s, user)) && Looping(Step(w, Enter(next, s, user)), next, s)
  {
    RunsNeverOverlap(worlds, actions, i);
  }
}
