/** The discovery listener's freshness check: announcements are accepted once,
    in issue order per sender, although the table that remembers them is pruned. */
module AnnouncementFreshness {

  const SKEW := 30_000_000_000 // announcementMaxClockSkew, in nanoseconds

  /** `authentic` is the outcome of the HMAC comparison under the listener's key. */
  datatype Announcement = Announcement(id: string, issuedAt: int, authentic: bool)
  datatype Peer = Peer(announcement: Announcement, lastSeen: int)
  datatype State = State(keyed: bool, excluded: set<string>, peers: map<string, Peer>, lastSeen: map<string, int>)

  predicate Verify(ann: Announcement, now: int)
  {
    ann.issuedAt != 0 && now - SKEW <= ann.issuedAt <= now + SKEW && ann.authentic
  }

  predicate Accepts(s: State, ann: Announcement, now: int)
  {
    s.keyed ==> Verify(ann, now) && (ann.id in s.lastSeen ==> s.lastSeen[ann.id] < ann.issuedAt)
  }

  function AddPeer(s: State, ann: Announcement, now: int): State
  {
    if ann.id in s.excluded then s else s.(peers := s.peers[ann.id := Peer(ann, now)])
  }

  function Pruned(seen: map<string, int>, cutoff: int): map<string, int>
  {
    map id | id in seen && seen[id] >= cutoff :: seen[id]
  }

  function Accept(s: State, ann: Announcement, now: int): State
  {
    if !Accepts(s, ann, now) then s
    else if !s.keyed then AddPeer(s, ann, now)
    else AddPeer(s.(lastSeen := Pruned(s.lastSeen[ann.id := ann.issuedAt], now - SKEW)), ann, now)
  }

  /** The reference listener: the same without deleting from the table. */
  function AcceptUnpruned(s: State, ann: Announcement, now: int): State
  {
    if !Accepts(s, ann, now) then s
    else if !s.keyed then AddPeer(s, ann, now)
    else AddPeer(s.(lastSeen := s.lastSeen[ann.id := ann.issuedAt]), ann, now)
  }

  const PEER_TTL := 15_000_000_000 // peerTTL, in nanoseconds

  function Excluded(s: State, id: string): State
  {
    if id == "" then s else s.(excluded := s.excluded + {id}, peers := s.peers - {id})
  }

  function Included(s: State, id: string): State { if id == "" then s else s.(excluded := s.excluded - {id}) }

  /** The peers a reader sees: not excluded and heard of within the lease. */
  function LivePeers(s: State, now: int): map<string, Peer>
  {
    map id | id in s.peers && id !in s.excluded && s.peers[id].lastSeen > now - PEER_TTL :: s.peers[id]
  }

  class Listener {
    const keyed: bool
    var excluded: set<string>
    var peers: map<string, Peer>
    var lastSeen: map<string, int>

    function Value(): State
      reads this
    {
      State(keyed, excluded, peers, lastSeen)
    }

    constructor (keyed: bool)
      ensures Value() == State(keyed, {}, map[], map[])
    {
      this.keyed := keyed;
      excluded, peers, lastSeen := {}, map[], map[];
    }

    method AcceptAnnouncement(ann: Announcement, now: int) returns (accepted: bool)
      modifies this
      ensures accepted == Accepts(old(Value()), ann, now)
      ensures Value() == Accept(old(Value()), ann, now)
      ensures accepted <==>
                !keyed ||
                (ann.issuedAt != 0 && now - 30_000_000_000 <= ann.issuedAt <= now + 30_000_000_000 && ann.authentic &&
                 (ann.id in old(lastSeen) ==> old(lastSeen)[ann.id] < ann.issuedAt))
      ensures !accepted ==> Value() == old(Value())
      ensures accepted ==> excluded == old(excluded) && peers == if ann.id in excluded then old(peers) else old(peers)[ann.id := Peer(ann, now)]
      ensures accepted && keyed ==> ann.id in lastSeen && lastSeen[ann.id] == ann.issuedAt
      ensures accepted && keyed ==> forall id :: id != ann.id ==> (id in lastSeen <==> id in old(lastSeen) && old(lastSeen)[id] >= now - 30_000_000_000)
      ensures forall id :: id != ann.id && id in lastSeen ==> id in old(lastSeen) && lastSeen[id] == old(lastSeen)[id]
    {
      if keyed && !Verify(ann, now) { return false; }
      if keyed {
        if ann.id in lastSeen && ann.issuedAt <= lastSeen[ann.id] { return false; }
        lastSeen := lastSeen[ann.id := ann.issuedAt];
        Prune(now - SKEW);
      }
      if ann.id !in excluded { peers := peers[ann.id := Peer(ann, now)]; }
      accepted := true;
    }

    method ExcludePeer(id: string)
      modifies this
      ensures Value() == Excluded(old(Value()), id)
      ensures id != "" ==> excluded == old(excluded) + {id} && peers == old(peers) - {id}
      ensures id == "" ==> excluded == old(excluded) && peers == old(peers)
    {
      if id == "" { return; }
      excluded := excluded + {id};
      peers := peers - {id};
    }

    method IncludePeer(id: string)
      modifies this
      ensures Value() == Included(old(Value()), id)
      ensures excluded == (if id == "" then old(excluded) else old(excluded) - {id}) && peers == old(peers)
    {
      if id == "" { return; }
      excluded := excluded - {id};
    }

    /** Returns the live peers and forgets the others. */
    method Snapshot(now: int) returns (out: map<string, Peer>)
      modifies this`peers
      ensures out == LivePeers(old(Value()), now) && Value() == old(Value()).(peers := out)
      ensures forall id :: id in out <==> id in old(peers) && id !in excluded && old(peers)[id].lastSeen > now - 15_000_000_000
      ensures forall id :: id in out ==> out[id] == old(peers)[id]
    {
      var remaining := peers.Keys;
      while remaining != {}
        invariant remaining <= peers.Keys <= old(peers).Keys
        invariant forall id :: id in peers ==> peers[id] == old(peers)[id]
        invariant forall id :: id in peers && id !in remaining ==> id !in excluded && peers[id].lastSeen > now - PEER_TTL
        invariant forall id :: id in old(peers) && id !in peers ==> id in excluded || old(peers)[id].lastSeen <= now - PEER_TTL
        decreases remaining
      {
        var id :| id in remaining;
        remaining := remaining - {id};
        if id in excluded || peers[id].lastSeen <= now - PEER_TTL { peers := peers - {id}; }
      }
      out := peers;
    }

    method Prune(cutoff: int)
      modifies this`lastSeen
      ensures lastSeen == Pruned(old(lastSeen), cutoff)
    {
      var remaining := lastSeen.Keys;
      while remaining != {}
        invariant remaining <= lastSeen.Keys <= old(lastSeen).Keys
        invariant forall id :: id in lastSeen ==> lastSeen[id] == old(lastSeen)[id]
        invariant forall id :: id in lastSeen && id !in remaining ==> lastSeen[id] >= cutoff
        invariant forall id :: id in old(lastSeen) && id !in lastSeen ==> old(lastSeen)[id] < cutoff
        decreases remaining
      {
        var id :| id in remaining;
        remaining := remaining - {id};
        if lastSeen[id] < cutoff { lastSeen := lastSeen - {id}; }
      }
    }
  }

  // ----- whole runs -----

  /** What the listener does, each with the clock it reads. */
  datatype Event =
    | Arrival(ann: Announcement, now: int)
    | Exclude(id: string, now: int)
    | Include(id: string, now: int)
    | Read(now: int)

  ghost predicate ClockMonotone(run: seq<Event>)
  {
    forall i, j :: 0 <= i <= j < |run| ==> run[i].now <= run[j].now
  }

  function Happen(s: State, e: Event): State
  {
    match e
    case Arrival(ann, now) => Accept(s, ann, now)
    case Exclude(id, _) => Excluded(s, id)
    case Include(id, _) => Included(s, id)
    case Read(now) => s.(peers := LivePeers(s, now))
  }

  function HappenUnpruned(s: State, e: Event): State
  {
    if e.Arrival? then AcceptUnpruned(s, e.ann, e.now) else Happen(s, e)
  }

  function After(s: State, run: seq<Event>): State
  {
    if run == [] then s else Happen(After(s, run[..|run| - 1]), run[|run| - 1])
  }

  function AfterUnpruned(s: State, run: seq<Event>): State
  {
    if run == [] then s else HappenUnpruned(AfterUnpruned(s, run[..|run| - 1]), run[|run| - 1])
  }

  predicate AcceptedAt(s: State, run: seq<Event>, i: nat)
    requires i < |run|
  {
    run[i].Arrival? && Accepts(After(s, run[..i]), run[i].ann, run[i].now)
  }

  ghost predicate Start(s: State) { s.peers == map[] && s.lastSeen == map[] }

  /** What pruning may forget: entries no verifiable announcement can precede. */
  ghost predicate Agree(pruned: State, full: State, now: int)
  {
    && pruned.keyed == full.keyed && pruned.excluded == full.excluded && pruned.peers == full.peers
    && (forall id :: id in pruned.lastSeen ==> id in full.lastSeen && pruned.lastSeen[id] == full.lastSeen[id])
    && (forall id :: id in full.lastSeen && id !in pruned.lastSeen ==> full.lastSeen[id] < now - SKEW)
  }

  lemma EventAgrees(pruned: State, full: State, before: int, e: Event)
    requires Agree(pruned, full, before) && before <= e.now
    ensures Agree(Happen(pruned, e), HappenUnpruned(full, e), e.now)
  {
    if e.Arrival? { StepAgrees(pruned, full, before, e.ann, e.now); }
  }

  lemma StepAgrees(pruned: State, full: State, before: int, ann: Announcement, now: int)
    requires Agree(pruned, full, before) && before <= now
    ensures Accepts(pruned, ann, now) == Accepts(full, ann, now)
    ensures Agree(Accept(pruned, ann, now), AcceptUnpruned(full, ann, now), now)
  {
  }

  /** Deleting from the table never changes a decision or the peer table: the
      pruned listener is the one that remembers everything, at every step. */
  lemma {:induction false} PruningIsInvisible(s: State, run: seq<Event>, now: int)
    requires Start(s) && ClockMonotone(run) && (run != [] ==> run[|run| - 1].now <= now)
    ensures Agree(After(s, run), AfterUnpruned(s, run), now)
    ensures forall ann :: Accepts(After(s, run), ann, now) == Accepts(AfterUnpruned(s, run), ann, now)
  {
    if run != [] {
      var last := run[|run| - 1];
      var front := run[..|run| - 1];
      assert front != [] ==> front[|front| - 1] == run[|run| - 2];
      PruningIsInvisible(s, front, last.now);
      EventAgrees(After(s, front), AfterUnpruned(s, front), last.now, last);
    }
    forall ann ensures Accepts(After(s, run), ann, now) == Accepts(AfterUnpruned(s, run), ann, now) {
      StepAgrees(After(s, run), AfterUnpruned(s, run), if run == [] then now else run[|run| - 1].now, ann, now);
    }
  }

  /** The unpruned table holds, per sender, the newest accepted issue time. */
  lemma {:induction false} TableRemembers(s: State, run: seq<Event>, i: nat)
    requires Start(s) && s.keyed && ClockMonotone(run) && i < |run| && AcceptedAt(s, run, i)
    ensures AfterUnpruned(s, run).keyed
    ensures run[i].ann.id in AfterUnpruned(s, run).lastSeen
    ensures run[i].ann.issuedAt <= AfterUnpruned(s, run).lastSeen[run[i].ann.id]
  {
    var front := run[..|run| - 1];
    var last := run[|run| - 1];
    assert front != [] ==> front[|front| - 1] == run[|run| - 2];
    PruningIsInvisible(s, front, last.now);
    KeyedStays(s, front);
    if i < |front| {
      assert front[..i] == run[..i];
      TableRemembers(s, front, i);
    } else {
      assert run[..i] == front;
    }
  }

  lemma {:induction false} KeyedStays(s: State, run: seq<Event>)
    ensures After(s, run).keyed == s.keyed && AfterUnpruned(s, run).keyed == s.keyed
  {
    if run != [] { KeyedStays(s, run[..|run| - 1]); }
  }

  /** With a key and a clock that does not go back, the issue times accepted
      from each sender strictly increase over the whole run. */
  lemma {:induction false} AcceptedTimesIncrease(s: State, run: seq<Event>, i: nat, j: nat)
    requires Start(s) && s.keyed && ClockMonotone(run) && i < j < |run|
    requires AcceptedAt(s, run, i) && AcceptedAt(s, run, j) && run[i].ann.id == run[j].ann.id
    ensures run[i].ann.issuedAt < run[j].ann.issuedAt
  {
    var front := run[..j];
    assert front[..i] == run[..i];
    TableRemembers(s, front, i);
    PruningIsInvisible(s, front, run[j].now);
  }

  /** And nothing newer is turned away: a verified announcement is refused
      exactly when one from the same sender at least as new was accepted. */
  lemma {:induction false} RefusedOnlyForNewer(s: State, run: seq<Event>, j: nat)
    requires Start(s) && s.keyed && ClockMonotone(run) && j < |run| && run[j].Arrival? && Verify(run[j].ann, run[j].now)
    ensures !AcceptedAt(s, run, j) <==>
            exists i :: 0 <= i < j && AcceptedAt(s, run, i) && run[i].ann.id == run[j].ann.id && run[j].ann.issuedAt <= run[i].ann.issuedAt
  {
    KeyedStays(s, run[..j]);
    if AcceptedAt(s, run, j) {
      forall i | 0 <= i < j && AcceptedAt(s, run, i) && run[i].ann.id == run[j].ann.id
        ensures run[i].ann.issuedAt < run[j].ann.issuedAt
      {
        AcceptedTimesIncrease(s, run, i, j);
      }
    } else {
      var i := Remembered(s, run[..j], run[j].ann.id);
      assert run[..j][..i] == run[..i];
    }
  }

  /** Every table entry was put there by an accepted announcement. */
  lemma {:induction false} Remembered(s: State, run: seq<Event>, id: string) returns (i: nat)
    requires Start(s) && s.keyed && id in After(s, run).lastSeen
    ensures i < |run| && AcceptedAt(s, run, i) && run[i].ann.id == id && run[i].ann.issuedAt == After(s, run).lastSeen[id]
  {
    var front := run[..|run| - 1];
    var last := run[|run| - 1];
    KeyedStays(s, front);
    if last.Arrival? && Accepts(After(s, front), last.ann, last.now) && last.ann.id == id {
      i := |run| - 1;
      assert run[..i] == front;
    } else {
      i := Remembered(s, front, id);
      assert front[..i] == run[..i];
    }
  }

  /** The table stays small: right after an accepted announcement it holds only
      issue times inside the verification window. */
  lemma TableStaysInWindow(s: State, ann: Announcement, now: int)
    requires s.keyed && Accepts(s, ann, now)
    ensures ann.id in Accept(s, ann, now).lastSeen
    ensures forall id :: id in Accept(s, ann, now).lastSeen ==> now - SKEW <= Accept(s, ann, now).lastSeen[id]
  {
  }

  /** An accepted sender that is not excluded is listed, with what it announced,
      to every reader within its lease and to none after it. */
  lemma AcceptedIsListed(s: State, ann: Announcement, now: int, later: int)
    requires Accepts(s, ann, now) && ann.id !in s.excluded
    ensures var live := LivePeers(Accept(s, ann, now), later);
            (ann.id in live <==> later < now + 15_000_000_000) && (ann.id in live ==> live[ann.id] == Peer(ann, now))
  {
  }
}
