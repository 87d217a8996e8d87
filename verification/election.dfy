/** Orchestrator ranking, failover elections over partial views, and the
    step-down rule of a promoted orchestrator. */
module Election {
  import opened Options
  import opened StringOrder

  const ORCHESTRATOR := "orchestrator"
  const CANDIDATE := "candidate"

  /** The announcement fields leadership depends on. Scores are compared only. */
  datatype Announcement = Announcement(role: string, id: string, peerAddr: string, score: real, members: int)

  // ----- ranking -----

  predicate Outranks(a: Announcement, b: Announcement)
  {
    a.score > b.score || (a.score == b.score && Less(a.id, b.id))
  }

  lemma OutranksIsStrictOrder(a: Announcement, b: Announcement, c: Announcement)
    ensures !Outranks(a, a)
    ensures Outranks(a, b) ==> !Outranks(b, a)
    ensures a.id != b.id ==> Outranks(a, b) || Outranks(b, a)
    ensures Outranks(a, b) && Outranks(b, c) ==> Outranks(a, c)
  {
    LessIrreflexive(a.id);
    LessTotal(a.id, b.id);
    if Less(a.id, b.id) { LessAsymmetric(a.id, b.id); }
    if Less(a.id, b.id) && Less(b.id, c.id) { LessTransitive(a.id, b.id, c.id); }
  }

  predicate IsActive(p: Announcement) { p.role == ORCHESTRATOR }
  predicate IsContender(p: Announcement) { p.role == ORCHESTRATOR || p.role == CANDIDATE }

  /** `best` is in `field` and nobody in it ranks higher. */
  ghost predicate IsBest(best: Announcement, field: set<Announcement>)
  {
    best in field && forall p :: p in field ==> !Outranks(p, best)
  }

  /** Nobody in the field has a higher score, and at an equal score nobody else
      has a smaller ID. */
  lemma BestIsHighest(best: Announcement, field: set<Announcement>)
    ensures IsBest(best, field) <==>
            && best in field
            && forall p :: p in field ==> p.score <= best.score && (p.score == best.score ==> p.id == best.id || Less(best.id, p.id))
  {
    forall p | p in field
      ensures !Outranks(p, best) <==> p.score <= best.score && (p.score == best.score ==> p.id == best.id || Less(best.id, p.id))
    {
      LessTotal(p.id, best.id);
      LessIrreflexive(p.id);
      if Less(p.id, best.id) { LessAsymmetric(p.id, best.id); }
    }
  }

  ghost predicate DistinctIDs(field: set<Announcement>)
  {
    forall p, q :: p in field && q in field && p.id == q.id ==> p == q
  }

  lemma BestIsUnique(a: Announcement, b: Announcement, field: set<Announcement>)
    requires IsBest(a, field) && IsBest(b, field) && DistinctIDs(field)
    ensures a == b
  {
    OutranksIsStrictOrder(a, b, a);
  }

  ghost function Actives(peers: seq<Announcement>): set<Announcement> { set p | p in peers && IsActive(p) }
  ghost function Contenders(peers: seq<Announcement>): set<Announcement> { set p | p in peers && IsContender(p) }

  method BestActiveOrchestrator(peers: seq<Announcement>) returns (best: Option<Announcement>)
    ensures best.None? <==> Actives(peers) == {}
    ensures best.Some? ==> IsBest(best.value, Actives(peers))
    ensures best.None? <==> forall p :: p in peers ==> p.role != "orchestrator"
    ensures best.Some? ==> best.value in peers && best.value.role == "orchestrator"
    ensures best.Some? ==> forall p :: p in peers && p.role == "orchestrator" ==>
              p.score <= best.value.score && (p.score == best.value.score ==> p.id == best.value.id || Less(best.value.id, p.id))
  {
    best := None;
    for i := 0 to |peers|
      invariant best.None? ==> forall j :: 0 <= j < i ==> !IsActive(peers[j])
      invariant best.Some? ==> best.value in Actives(peers) && forall j :: 0 <= j < i && IsActive(peers[j]) ==> !Outranks(peers[j], best.value)
    {
      var p := peers[i];
      if p.role != ORCHESTRATOR { continue; }
      if best.Some? { KeepsBest(peers, i, best.value); }
      OutranksIsStrictOrder(p, p, p);
      if best.None? || p.score > best.value.score || (p.score == best.value.score && Less(p.id, best.value.id)) {
        best := Some(p);
      }
    }
    if best.Some? {
      BestIsHighest(best.value, Actives(peers));
      assert forall p :: p in peers && p.role == "orchestrator" ==> p in Actives(peers);
    }
  }

  /** A newcomer that outranks the best so far beats everyone the best beat. */
  lemma KeepsBest(peers: seq<Announcement>, i: nat, best: Announcement)
    requires i < |peers|
    ensures Outranks(peers[i], best) ==> forall j :: 0 <= j < i && !Outranks(peers[j], best) ==> !Outranks(peers[j], peers[i])
  {
    forall j | 0 <= j < i && Outranks(peers[i], best) && !Outranks(peers[j], best) ensures !Outranks(peers[j], peers[i]) {
      OutranksIsStrictOrder(peers[j], peers[i], best);
    }
  }

  method BestOrchestratorCandidate(self: Announcement, peers: seq<Announcement>) returns (best: Announcement)
    ensures IsBest(best, {self} + Contenders(peers))
    ensures best == self || (best in peers && (best.role == "orchestrator" || best.role == "candidate"))
    ensures forall p :: p == self || (p in peers && (p.role == "orchestrator" || p.role == "candidate")) ==>
              p.score <= best.score && (p.score == best.score ==> p.id == best.id || Less(best.id, p.id))
  {
    best := self;
    OutranksIsStrictOrder(self, self, self);
    for i := 0 to |peers|
      invariant best in {self} + Contenders(peers) && !Outranks(self, best)
      invariant forall j :: 0 <= j < i && IsContender(peers[j]) ==> !Outranks(peers[j], best)
    {
      var peer := peers[i];
      if peer.role != ORCHESTRATOR && peer.role != CANDIDATE { continue; }
      KeepsBest(peers, i, best);
      OutranksIsStrictOrder(peer, peer, peer);
      OutranksIsStrictOrder(self, peer, best);
      if Outranks(peer, best) { best := peer; }
    }
    BestIsHighest(best, {self} + Contenders(peers));
    assert forall p :: p == self || (p in peers && (p.role == "orchestrator" || p.role == "candidate")) ==> p in {self} + Contenders(peers);
  }

  /** Somebody with self's ID is best of self and the field. */
  ghost predicate WinsOver(self: Announcement, field: set<Announcement>)
  {
    exists best :: IsBest(best, {self} + field) && best.id == self.id
  }

  /** Live leaders are compared first, so a candidate cannot preempt one. */
  ghost predicate Elected(self: Announcement, peers: seq<Announcement>)
  {
    if Actives(peers) != {} then WinsOver(self, Actives(peers))
    else IsActive(self) || WinsOver(self, Contenders(peers))
  }

  method IsElectedOrchestrator(self: Announcement, peers: seq<Announcement>) returns (elected: bool)
    ensures elected <==> Elected(self, peers)
    ensures (exists p :: p in peers && p.role == "orchestrator") ==>
              (elected <==>
               exists best ::
                 (best == self || (best in peers && best.role == "orchestrator")) && best.id == self.id &&
                 forall p :: p == self || (p in peers && p.role == "orchestrator") ==>
                   p.score <= best.score && (p.score == best.score ==> p.id == best.id || Less(best.id, p.id)))
    ensures !(exists p :: p in peers && p.role == "orchestrator") ==>
              (elected <==>
               self.role == "orchestrator" ||
               exists best ::
                 (best == self || (best in peers && best.role == "candidate")) && best.id == self.id &&
                 forall p :: p == self || (p in peers && p.role == "candidate") ==>
                   p.score <= best.score && (p.score == best.score ==> p.id == best.id || Less(best.id, p.id)))
  {
    var active: seq<Announcement> := [];
    for i := 0 to |peers|
      invariant forall p :: p in active <==> p in peers[..i] && IsActive(p)
    {
      if peers[i].role == ORCHESTRATOR { active := active + [peers[i]]; }
      assert peers[..i + 1] == peers[..i] + [peers[i]];
    }
    assert peers[..|peers|] == peers;
    assert Contenders(active) == Actives(peers);
    if |active| > 0 {
      assert active[0] in Actives(peers);
      var best := BestOrchestratorCandidate(self, active);
      BestDecides(self, Actives(peers), best);
      return best.id == self.id;
    }
    assert Actives(peers) == {};
    if self.role == ORCHESTRATOR { return true; }
    var best := BestOrchestratorCandidate(self, peers);
    BestDecides(self, Contenders(peers), best);
    elected := best.id == self.id;
  }

  /** All best announcements carry one ID, so any of them decides. */
  lemma BestDecides(self: Announcement, field: set<Announcement>, best: Announcement)
    requires IsBest(best, {self} + field)
    ensures best.id == self.id <==> WinsOver(self, field)
  {
    forall other | IsBest(other, {self} + field) ensures other.id == best.id { OutranksIsStrictOrder(best, other, best); }
  }

  // ----- failover elections -----

  predicate Eligible(p: Announcement, failedID: string, trusted: string -> bool)
  {
    p.id != failedID && p.peerAddr != "" && IsContender(p) && trusted(p.id)
  }

  ghost function EligibleSet(peers: seq<Announcement>, failedID: string, trusted: string -> bool): set<Announcement>
  {
    set p | p in peers && Eligible(p, failedID, trusted)
  }

  /** What failoverElectionWinner promises: a visible trusted orchestrator is
      always preferred, otherwise the best of the candidate and its peers. */
  ghost predicate IsWinner(winner: Announcement, candidate: Announcement, eligible: set<Announcement>)
  {
    var active := set p | p in eligible && IsActive(p);
    if active != {} then IsBest(winner, active) else IsBest(winner, {candidate} + eligible)
  }

  method FailoverElectionWinner(candidate: Announcement, peers: seq<Announcement>, failedID: string, trusted: string -> bool)
    returns (winner: Announcement)
    ensures IsWinner(winner, candidate, EligibleSet(peers, failedID, trusted))
    ensures (exists p :: p in peers && p.id != failedID && p.peerAddr != "" && trusted(p.id) && p.role == "orchestrator") ==>
              && winner in peers && winner.id != failedID && winner.peerAddr != "" && trusted(winner.id) && winner.role == "orchestrator"
              && forall p :: p in peers && p.id != failedID && p.peerAddr != "" && trusted(p.id) && p.role == "orchestrator" ==>
                   p.score <= winner.score && (p.score == winner.score ==> p.id == winner.id || Less(winner.id, p.id))
    ensures !(exists p :: p in peers && p.id != failedID && p.peerAddr != "" && trusted(p.id) && p.role == "orchestrator") ==>
              && (winner == candidate || (winner in peers && winner.id != failedID && winner.peerAddr != "" && trusted(winner.id) && winner.role == "candidate"))
              && forall p :: p == candidate || (p in peers && p.id != failedID && p.peerAddr != "" && trusted(p.id) && p.role == "candidate") ==>
                   p.score <= winner.score && (p.score == winner.score ==> p.id == winner.id || Less(winner.id, p.id))
  {
    var eligible: seq<Announcement> := [];
    for i := 0 to |peers|
      invariant forall p :: p in eligible <==> p in peers[..i] && Eligible(p, failedID, trusted)
    {
      assert peers[..i + 1] == peers[..i] + [peers[i]];
      var peer := peers[i];
      if peer.id == failedID || peer.peerAddr == "" { continue; }
      if peer.role != ORCHESTRATOR && peer.role != CANDIDATE { continue; }
      if !trusted(peer.id) { continue; }
      eligible := eligible + [peer];
    }
    assert peers[..|peers|] == peers;
    ghost var set' := EligibleSet(peers, failedID, trusted);
    assert Actives(eligible) == (set p | p in set' && IsActive(p)) && Contenders(eligible) == set';
    var active := BestActiveOrchestrator(eligible);
    if active.Some? { return active.value; }
    winner := BestOrchestratorCandidate(candidate, eligible);
  }

  /** The winner depends on the set of peers, not on their order. */
  lemma WinnerIsUnique(a: Announcement, b: Announcement, candidate: Announcement, eligible: set<Announcement>)
    requires IsWinner(a, candidate, eligible) && IsWinner(b, candidate, eligible) && DistinctIDs({candidate} + eligible)
    ensures a == b
  {
    var active := set p | p in eligible && IsActive(p);
    if active != {} { BestIsUnique(a, b, active); } else { BestIsUnique(a, b, {candidate} + eligible); }
  }

  /** Two candidates that see each other as eligible never both win in their
      own view, whatever else each of them sees. */
  lemma NoTwoSelfElected(a: Announcement, b: Announcement, seenByA: set<Announcement>, seenByB: set<Announcement>)
    requires a.id != b.id && b in seenByA && a in seenByB && !IsActive(a) && !IsActive(b)
    requires IsWinner(a, a, seenByA)
    ensures !IsWinner(b, b, seenByB)
  {
    OutranksIsStrictOrder(a, b, a);
  }

  /** Candidates whose views complete to the same field agree on the winner. */
  lemma SameFieldSameWinner(a: Announcement, b: Announcement, seenByA: set<Announcement>, seenByB: set<Announcement>,
                            winnerA: Announcement, winnerB: Announcement)
    requires {a} + seenByA == {b} + seenByB && DistinctIDs({a} + seenByA) && !IsActive(a) && !IsActive(b)
    requires IsWinner(winnerA, a, seenByA) && IsWinner(winnerB, b, seenByB)
    ensures winnerA == winnerB
  {
    var activeA, activeB := set p | p in seenByA && IsActive(p), set p | p in seenByB && IsActive(p);
    assert activeA == activeB by {
      forall p ensures p in activeA <==> p in activeB { assert p in {a} + seenByA <==> p in {b} + seenByB; }
    }
    if activeA != {} { BestIsUnique(winnerA, winnerB, activeA); } else { BestIsUnique(winnerA, winnerB, {a} + seenByA); }
  }

  // ----- stepping down -----

  predicate Qualifies(self: Announcement, replacedID: string, p: Announcement, trusted: string -> bool)
  {
    && p.role == ORCHESTRATOR && p.id != self.id && p.peerAddr != "" && trusted(p.id)
    && (Outranks(p, self) || (replacedID != "" && p.id == replacedID && p.members >= self.members) || p.members > self.members)
  }

  /** Most members first, then rank. */
  predicate Preferred(a: Announcement, b: Announcement)
  {
    if a.members != b.members then a.members > b.members else Outranks(a, b)
  }

  ghost predicate BestFirst(out: seq<Announcement>)
  {
    forall i, j :: 0 <= i < j < |out| ==> !Preferred(out[j], out[i])
  }

  lemma PreferredIsStrictOrder(a: Announcement, b: Announcement, c: Announcement)
    ensures Preferred(a, b) ==> !Preferred(b, a)
    ensures !Preferred(b, a) && !Preferred(c, b) ==> !Preferred(c, a)
  {
    OutranksIsStrictOrder(a, b, c);
    OutranksIsStrictOrder(c, a, b);
    OutranksIsStrictOrder(b, a, c);
    OutranksIsStrictOrder(c, b, a);
    if a.id == b.id { LessIrreflexive(a.id); }
    if b.id == c.id { LessIrreflexive(b.id); }
  }

  /** The qualifying peers, best first. */
  method StepDownCandidates(self: Announcement, replacedID: string, peers: seq<Announcement>, trusted: string -> bool)
    returns (out: seq<Announcement>)
    ensures forall p :: p in out <==> p in peers && Qualifies(self, replacedID, p, trusted)
    ensures BestFirst(out)
    ensures forall p :: p in out <==>
              && p in peers && p.role == "orchestrator" && p.id != self.id && p.peerAddr != "" && trusted(p.id)
              && (p.score > self.score || (p.score == self.score && Less(p.id, self.id)) || p.members > self.members ||
                  (p.id == replacedID && replacedID != "" && p.members >= self.members))
    ensures forall i, j :: 0 <= i < j < |out| ==>
              out[i].members >= out[j].members && (out[i].members == out[j].members ==>
                out[j].score <= out[i].score && (out[j].score == out[i].score ==> out[j].id == out[i].id || Less(out[i].id, out[j].id)))
  {
    out := [];
    for i := 0 to |peers|
      invariant forall p :: p in out <==> p in peers[..i] && Qualifies(self, replacedID, p, trusted)
      invariant BestFirst(out)
    {
      assert peers[..i + 1] == peers[..i] + [peers[i]];
      var peer := peers[i];
      if peer.role != ORCHESTRATOR || peer.id == self.id || peer.peerAddr == "" || !trusted(peer.id) { continue; }
      var original := replacedID != "" && peer.id == replacedID && peer.members >= self.members;
      if Outranks(peer, self) || original || peer.members > self.members { out := InsertPreferred(out, peer); }
    }
    assert peers[..|peers|] == peers;
    forall i, j | 0 <= i < j < |out|
      ensures out[i].members >= out[j].members && (out[i].members == out[j].members ==>
                out[j].score <= out[i].score && (out[j].score == out[i].score ==> out[j].id == out[i].id || Less(out[i].id, out[j].id)))
    {
      LessTotal(out[i].id, out[j].id);
    }
  }

  method InsertPreferred(out: seq<Announcement>, p: Announcement) returns (out': seq<Announcement>)
    requires BestFirst(out)
    ensures BestFirst(out') && forall q :: q in out' <==> q in out || q == p
  {
    var at := 0;
    while at < |out| && !Preferred(p, out[at])
      invariant 0 <= at <= |out|
      invariant forall j :: 0 <= j < at ==> !Preferred(p, out[j])
    {
      at := at + 1;
    }
    assert out == out[..at] + out[at..];
    out' := out[..at] + [p] + out[at..];
    forall j | at <= j < |out| ensures !Preferred(out[j], p) {
      PreferredIsStrictOrder(p, out[at], out[j]);
      PreferredIsStrictOrder(out[at], out[j], p);
    }
  }

  method FirstHealthyChallenger(candidates: seq<Announcement>, healthy: Announcement -> bool) returns (target: Option<Announcement>)
    ensures target.None? <==> forall p :: p in candidates ==> !healthy(p)
    ensures target.Some? ==> target.value in candidates && healthy(target.value)
    ensures target.Some? && BestFirst(candidates) ==> forall p :: p in candidates && healthy(p) ==> !Preferred(p, target.value)
  {
    for i := 0 to |candidates|
      invariant forall j :: 0 <= j < i ==> !healthy(candidates[j])
    {
      if healthy(candidates[i]) {
        PreferredIsStrictOrder(candidates[i], candidates[i], candidates[i]);
        return Some(candidates[i]);
      }
    }
    target := None;
  }

  // ----- at one instant, step-downs cannot form a ring -----

  /** Promoted orchestrators at one instant, each with its own partial view.
      Member counts in the views are arbitrary; scores are true. */
  datatype Cluster = Cluster(scores: map<string, real>, views: map<string, seq<Announcement>>,
                             members: map<string, int>, replaced: map<string, string>)

  ghost predicate Truthful(c: Cluster)
  {
    && c.views.Keys == c.scores.Keys == c.members.Keys == c.replaced.Keys
    && (forall x, p :: x in c.views && p in c.views[x] && p.id in c.scores ==> p.score == c.scores[p.id])
  }

  function SelfOf(c: Cluster, x: string): Announcement
    requires x in c.scores && x in c.members
  {
    Announcement(ORCHESTRATOR, x, "", c.scores[x], c.members[x])
  }

  /** Each node has its own trust list: `trusted(x, id)` is x's. x would step
      down to y: some announcement of y qualifies in x's view and
      y, asked directly, answers as elected in its own view. */
  ghost predicate StepsDownTo(c: Cluster, x: string, y: string, trusted: (string, string) -> bool)
    requires Truthful(c)
  {
    && x in c.views && y in c.views
    && (exists p :: p in c.views[x] && p.id == y && Qualifies(SelfOf(c, x), c.replaced[x], p, id => trusted(x, id)))
    && Elected(SelfOf(c, y), c.views[y])
  }

  /** That is what the code finds: among the qualifying candidates of x's view,
      one of y that answers as elected. */
  lemma StepsDownIffFound(c: Cluster, x: string, y: string, candidates: seq<Announcement>, healthy: Announcement -> bool, trusted: (string, string) -> bool)
    requires Truthful(c) && x in c.views
    requires forall p :: p in candidates <==> p in c.views[x] && Qualifies(SelfOf(c, x), c.replaced[x], p, id => trusted(x, id))
    requires forall p :: p in candidates ==> (healthy(p) <==> p.id in c.views && Elected(SelfOf(c, p.id), c.views[p.id]))
    ensures StepsDownTo(c, x, y, trusted) <==> exists p :: p in candidates && p.id == y && healthy(p)
  {
  }

  /** And it happens: the lower-scored of two orchestrators that see each other
      steps down to the other, which stays. */
  lemma LowerStepsDown(low: real, high: real)
    requires low < high
    ensures var c := Cluster(map["a" := low, "b" := high],
                             map["a" := [Announcement("orchestrator", "b", "b:1", high, 1)], "b" := [Announcement("orchestrator", "a", "a:1", low, 1)]],
                             map["a" := 1, "b" := 1], map["a" := "", "b" := ""]);
            && Truthful(c) && StepsDownTo(c, "a", "b", (x, id) => true)
            && !StepsDownTo(c, "b", "a", (x, id) => true) && Stays(c, {"a", "b"}, "b", (x, id) => true)
  {
    var a, b := Announcement("orchestrator", "a", "a:1", low, 1), Announcement("orchestrator", "b", "b:1", high, 1);
    var c := Cluster(map["a" := low, "b" := high], map["a" := [b], "b" := [a]], map["a" := 1, "b" := 1], map["a" := "", "b" := ""]);
    assert b in c.views["a"] && Qualifies(SelfOf(c, "a"), "", b, id => true);
    assert a in Actives([a]) && IsBest(SelfOf(c, "b"), {SelfOf(c, "b")} + Actives([a]));
  }

  /** An orchestrator that others step down to only ever steps down to a
      lower-ranked one. */
  lemma TargetsDescend(c: Cluster, x: string, y: string, z: string, trusted: (string, string) -> bool)
    requires Truthful(c) && StepsDownTo(c, x, y, trusted) && StepsDownTo(c, y, z, trusted)
    ensures y != z && Outranks(SelfOf(c, y), SelfOf(c, z))
  {
    var p :| p in c.views[y] && p.id == z && Qualifies(SelfOf(c, y), c.replaced[y], p, id => trusted(y, id));
    assert p in Actives(c.views[y]);
    var best :| IsBest(best, {SelfOf(c, y)} + Actives(c.views[y])) && best.id == y;
    assert best.score == c.scores[y] && !Outranks(p, best);
    OutranksIsStrictOrder(p, SelfOf(c, y), p);
  }

  ghost predicate Ring(c: Cluster, ring: seq<string>, trusted: (string, string) -> bool)
    requires Truthful(c)
  {
    ring != [] && (forall i :: 0 <= i < |ring| - 1 ==> StepsDownTo(c, ring[i], ring[i + 1], trusted)) &&
    StepsDownTo(c, ring[|ring| - 1], ring[0], trusted)
  }

  lemma {:induction false} ChainDescends(c: Cluster, ring: seq<string>, trusted: (string, string) -> bool, i: nat)
    requires Truthful(c) && Ring(c, ring, trusted) && 0 < i < |ring|
    ensures ring[0] in c.scores && ring[i] in c.scores
    ensures Outranks(SelfOf(c, ring[0]), SelfOf(c, ring[i]))
    decreases i
  {
    var last := ring[|ring| - 1];
    if i == 1 {
      assert StepsDownTo(c, ring[0], ring[0 + 1], trusted);
      TargetsDescend(c, last, ring[0], ring[1], trusted);
    } else {
      ChainDescends(c, ring, trusted, i - 1);
      assert StepsDownTo(c, ring[i - 2], ring[i - 2 + 1], trusted) && StepsDownTo(c, ring[i - 1], ring[i - 1 + 1], trusted);
      TargetsDescend(c, ring[i - 2], ring[i - 1], ring[i], trusted);
      OutranksIsStrictOrder(SelfOf(c, ring[0]), SelfOf(c, ring[i - 1]), SelfOf(c, ring[i]));
    }
  }

  /** No ring of promoted orchestrators in which each steps down to the next;
      in particular no two step down to each other. */
  lemma StepDownsFormNoRing(c: Cluster, ring: seq<string>, trusted: (string, string) -> bool)
    requires Truthful(c)
    ensures !Ring(c, ring, trusted)
  {
    if Ring(c, ring, trusted) {
      var last := ring[|ring| - 1];
      if |ring| == 1 {
        TargetsDescend(c, ring[0], ring[0], ring[0], trusted);
        assert false;
      } else {
        ChainDescends(c, ring, trusted, |ring| - 1);
        assert StepsDownTo(c, ring[|ring| - 2], ring[|ring| - 2 + 1], trusted);
        TargetsDescend(c, ring[|ring| - 2], last, ring[0], trusted);
        OutranksIsStrictOrder(SelfOf(c, ring[0]), SelfOf(c, last), SelfOf(c, ring[0]));
        assert false;
      }
    }
  }

  ghost predicate Stays(c: Cluster, promoted: set<string>, x: string, trusted: (string, string) -> bool)
    requires Truthful(c)
  {
    x in promoted && forall y :: y in promoted ==> !StepsDownTo(c, x, y, trusted)
  }

  ghost function LowerRanked(c: Cluster, promoted: set<string>, y: string): set<string>
    requires Truthful(c) && promoted <= c.scores.Keys && y in promoted
  {
    set z | z in promoted && Outranks(SelfOf(c, y), SelfOf(c, z))
  }

  /** Following step-downs from a target leads to one that stays. */
  lemma {:induction false} FollowStepDowns(c: Cluster, promoted: set<string>, x: string, y: string, trusted: (string, string) -> bool) returns (stays: string)
    requires Truthful(c) && promoted <= c.scores.Keys && x in promoted && y in promoted && StepsDownTo(c, x, y, trusted)
    ensures Stays(c, promoted, stays, trusted)
    decreases LowerRanked(c, promoted, y)
  {
    if Stays(c, promoted, y, trusted) { return y; }
    var z :| z in promoted && StepsDownTo(c, y, z, trusted);
    TargetsDescend(c, x, y, z, trusted);
    OutranksIsStrictOrder(SelfOf(c, z), SelfOf(c, z), SelfOf(c, z));
    assert z in LowerRanked(c, promoted, y) && z !in LowerRanked(c, promoted, z);
    forall w | w in LowerRanked(c, promoted, z) ensures w in LowerRanked(c, promoted, y) {
      OutranksIsStrictOrder(SelfOf(c, y), SelfOf(c, z), SelfOf(c, w));
    }
    stays := FollowStepDowns(c, promoted, y, z, trusted);
  }

  /** Whatever the views, in any nonempty set of promoted orchestrators some
      member steps down to nobody else in the set: leadership never vanishes
      through mutual step-downs. */
  lemma SomeoneStays(c: Cluster, promoted: set<string>, trusted: (string, string) -> bool)
    requires Truthful(c) && promoted != {} && promoted <= c.scores.Keys
    ensures exists x :: Stays(c, promoted, x, trusted)
  {
    var x :| x in promoted;
    if !Stays(c, promoted, x, trusted) {
      var y :| y in promoted && StepsDownTo(c, x, y, trusted);
      var stays := FollowStepDowns(c, promoted, x, y, trusted);
    }
  }
}
