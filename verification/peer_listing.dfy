/** Who a reader is shown, over whole runs of announcements, exclusions and
    reads. */
module PeerListing {
  import opened AnnouncementFreshness

  /** Event i is the last accepted announcement of the peer, came while it was
      not excluded, and no exclusion followed. */
  ghost predicate LastHeard(s: State, run: seq<Event>, id: string, i: int)
  {
    && 0 <= i < |run| && AcceptedAt(s, run, i) && run[i].ann.id == id && id !in After(s, run[..i]).excluded
    && forall j :: i < j < |run| ==> !ForgetsAt(s, run, id, j)
  }

  ghost predicate ForgetsAt(s: State, run: seq<Event>, id: string, j: nat)
    requires j < |run|
  {
    (run[j].Exclude? && run[j].id == id && id != "") || (AcceptedAt(s, run, j) && run[j].ann.id == id)
  }

  lemma LastHeardStep(s: State, run: seq<Event>, id: string, i: int)
    requires run != [] && i < |run| - 1
    ensures LastHeard(s, run, id, i) <==> LastHeard(s, run[..|run| - 1], id, i) && !ForgetsAt(s, run, id, |run| - 1)
  {
    var n, front := |run| - 1, run[..|run| - 1];
    forall j | 0 <= j < n ensures run[..j] == front[..j] && run[j] == front[j] {}
    assert forall j :: 0 <= j < n ==> (ForgetsAt(s, run, id, j) <==> ForgetsAt(s, front, id, j));
  }

  /** What an event does to one peer. */
  lemma HappenOnPeer(t: State, e: Event, id: string)
    ensures var t', hears, drops := Happen(t, e), e.Arrival? && Accepts(t, e.ann, e.now) && e.ann.id == id, e.Exclude? && e.id == id && id != "";
            && (drops ==> id !in t'.peers)
            && (hears && id !in t.excluded ==> id in t'.peers && t'.peers[id] == Peer(e.ann, e.now))
            && (!(hears && id !in t.excluded) && id in t'.peers ==> id in t.peers && t'.peers[id] == t.peers[id])
            && (!hears && !drops && id in t.peers && id !in t.excluded && t.peers[id].lastSeen > e.now - 15_000_000_000 ==>
                  id in t'.peers && t'.peers[id] == t.peers[id])
            && (id in t'.excluded ==> id in t.excluded || drops)
  {
  }

  lemma {:induction false} HeardIsNotExcluded(s: State, run: seq<Event>, id: string, i: int)
    requires LastHeard(s, run, id, i)
    ensures id !in After(s, run).excluded
  {
    var n := |run| - 1;
    HappenOnPeer(After(s, run[..n]), run[n], id);
    if i < n {
      LastHeardStep(s, run, id, i);
      HeardIsNotExcluded(s, run[..n], id, i);
    }
  }

  /** A peer in the table is there as it was last heard of. */
  lemma {:induction false} TableIsHeard(s: State, run: seq<Event>, id: string) returns (i: int)
    requires Start(s) && id in After(s, run).peers
    ensures LastHeard(s, run, id, i) && After(s, run).peers[id] == Peer(run[i].ann, run[i].now)
  {
    var n, front := |run| - 1, run[..|run| - 1];
    HappenOnPeer(After(s, front), run[n], id);
    if AcceptedAt(s, run, n) && run[n].ann.id == id && id !in After(s, front).excluded {
      i := n;
    } else {
      i := TableIsHeard(s, front, id);
      HeardIsNotExcluded(s, front, id, i);
      LastHeardStep(s, run, id, i);
    }
  }

  /** One last heard of within the lease is in the table. */
  lemma {:induction false} HeardIsInTable(s: State, run: seq<Event>, id: string, i: int, now: int)
    requires ClockMonotone(run) && LastHeard(s, run, id, i) && run[|run| - 1].now <= now && run[i].now > now - 15_000_000_000
    ensures id in After(s, run).peers && After(s, run).peers[id] == Peer(run[i].ann, run[i].now)
  {
    var n, front := |run| - 1, run[..|run| - 1];
    HappenOnPeer(After(s, front), run[n], id);
    if i < n {
      LastHeardStep(s, run, id, i);
      HeardIsNotExcluded(s, front, id, i);
      assert front[|front| - 1] == run[n - 1];
      HeardIsInTable(s, front, id, i, run[n].now);
    }
  }

  /** Over any run with a clock that does not go back, a reader is shown exactly
      the peers whose last accepted announcement came within 15 seconds, while
      they were not excluded and before no exclusion, each as it last announced
      itself. */
  lemma ListedIffHeard(s: State, run: seq<Event>, id: string, now: int)
    requires Start(s) && ClockMonotone(run) && (run != [] ==> run[|run| - 1].now <= now)
    ensures var live := LivePeers(After(s, run), now);
            && (id in live <==> exists i :: LastHeard(s, run, id, i) && run[i].now > now - 15_000_000_000)
            && (forall i :: id in live && LastHeard(s, run, id, i) ==> live[id] == Peer(run[i].ann, run[i].now))
  {
    if id in LivePeers(After(s, run), now) { var i := TableIsHeard(s, run, id); }
    forall i | LastHeard(s, run, id, i) ensures id !in After(s, run).excluded { HeardIsNotExcluded(s, run, id, i); }
    forall i | LastHeard(s, run, id, i) && run[i].now > now - 15_000_000_000 ensures id in LivePeers(After(s, run), now) {
      HeardIsInTable(s, run, id, i, now);
    }
    forall i, j | LastHeard(s, run, id, i) && LastHeard(s, run, id, j) ensures i == j {
      if i < j { assert ForgetsAt(s, run, id, j); }
      if j < i { assert ForgetsAt(s, run, id, i); }
    }
  }

  ghost predicate NoneIncluded(run: seq<Event>, id: string, from: nat)
  {
    forall j :: from <= j < |run| ==> !(run[j].Include? && run[j].id == id)
  }

  /** Event i excludes the peer and none after it includes it. */
  ghost predicate ExcludedAt(run: seq<Event>, id: string, i: int)
  {
    0 <= i < |run| && run[i].Exclude? && run[i].id == id && NoneIncluded(run, id, i + 1)
  }

  lemma NoneIncludedStep(run: seq<Event>, id: string, from: nat)
    requires from < |run|
    ensures var e := run[|run| - 1];
            NoneIncluded(run, id, from) <==> NoneIncluded(run[..|run| - 1], id, from) && !(e.Include? && e.id == id)
  {
    var front := run[..|run| - 1];
    assert forall j :: 0 <= j < |front| ==> front[j] == run[j];
  }

  lemma ExcludedAtStep(run: seq<Event>, id: string, i: int)
    requires run != [] && i < |run| - 1
    ensures var e := run[|run| - 1];
            ExcludedAt(run, id, i) <==> ExcludedAt(run[..|run| - 1], id, i) && !(e.Include? && e.id == id)
  {
    if i >= 0 { NoneIncludedStep(run, id, i + 1); }
  }

  /** A peer is excluded exactly from an exclusion, or from the start, to the
      next inclusion. */
  lemma {:induction false} ExcludedIff(s: State, run: seq<Event>, id: string)
    requires id != ""
    ensures id in After(s, run).excluded <==> (id in s.excluded && NoneIncluded(run, id, 0)) || exists i :: ExcludedAt(run, id, i)
  {
    if run != [] {
      var n, front := |run| - 1, run[..|run| - 1];
      ExcludedIff(s, front, id);
      NoneIncludedStep(run, id, 0);
      forall i | i < n ensures ExcludedAt(run, id, i) <==> ExcludedAt(front, id, i) && !(run[n].Include? && run[n].id == id) {
        ExcludedAtStep(run, id, i);
      }
      assert ExcludedAt(run, id, n) <==> run[n].Exclude? && run[n].id == id;
    }
  }
}
