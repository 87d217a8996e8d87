/** What the synchronisation protocol guarantees over whole runs. */
module SyncTheorems {
  import opened Options
  import opened MemoryRecords
  import opened MemoryStoreSpec
  import opened MemoryMerge
  import opened SnapshotMerge
  import opened LocalWrites
  import opened SyncProtocol
  import opened StoreContents

  // ----- watermark soundness -----

  lemma HistoryGrows(states: seq<System>, actions: seq<Action>, i: nat, j: nat)
    requires Run(states, actions) && i <= j < |states|
    ensures states[i].history <= states[j].history
    decreases j - i
  {
    if i < j { HistoryGrows(states, actions, i + 1, j); }
  }

  /** In every run, at every point: a store whose watermark for the record's
      origin has reached the record's sequence covers the record, whichever
      store held it at whatever earlier point and by whatever route it came. */
  lemma WatermarkSoundness(states: seq<System>, actions: seq<Action>, i: nat, n: nat, holder: string, r: Record, id: string)
    requires Run(states, actions) && i <= n < |states|
    requires holder in states[i].stores && Holds(states[i].stores[holder], r)
    requires id in states[n].stores && r.Sequence() <= Wm(states[n].stores[id], r.Origin())
    ensures Covers(states[n].stores[id], r)
  {
    RunInvariant(states, actions, i);
    RunInvariant(states, actions, n);
    HistoryGrows(states, actions, i, n);
    assert StoreSound(states[n].stores[id], states[n].history);
  }

  /** Two records that ever carry the same stamp are the same version. */
  lemma StampsNeverReused(states: seq<System>, actions: seq<Action>, i: nat, j: nat, q: Record, r: Record)
    requires Run(states, actions) && i <= j < |states|
    requires q in states[i].history && r in states[j].history
    requires q.Origin() == r.Origin() && q.Sequence() == r.Sequence()
    ensures KeyOf(q) == KeyOf(r) && CoreOf(q) == CoreOf(r)
  {
    HistoryGrows(states, actions, i, j);
    RunInvariant(states, actions, j);
    assert SameVersion(q, r);
  }

  /** A version first seen after some step carries a stamp above every stamp
      of its origin seen before: own stamps strictly increase. */
  lemma NewStampsIncrease(sys: System, a: Action, q: Record, r: Record)
    requires Invariant(sys) && Enabled(sys, a)
    requires r in sys.history && q in Step(sys, a).history && !Old(q, sys.history) && q.Origin() == r.Origin()
    ensures r.Sequence() < q.Sequence()
  {
    assert SameVersion(q, q);
    assert q !in sys.history;
    StepReplaces(sys, a);
    var id := if a.Deliver? then a.message.receiver else a.id;
    OldOrFresh(sys, id, Step(sys, a).stores[id], q);
    assert r.Sequence() <= Authority(sys.stores, r.Origin());
  }

  lemma StepReplaces(sys: System, a: Action)
    requires Invariant(sys) && Enabled(sys, a) && !a.Send?
    ensures var id := if a.Deliver? then a.message.receiver else a.id;
            && id in sys.stores && id in Step(sys, a).stores
            && Replaceable(sys, id, Step(sys, a).stores[id])
            && Step(sys, a).history == sys.history + Held(Step(sys, a).stores[id])
  {
    match a
    case RecordAt(id, c, now) => RecordIsLocal(sys.stores[id], c, now); LocalReplaceable(sys, id, RecordExperience(sys.stores[id], c, now));
    case PutFactAt(id, f, now) => PutFactIsLocal(sys.stores[id], f, now); LocalReplaceable(sys, id, PutFact(sys.stores[id], f, now));
    case GetFactAt(id, scope, key) => GetFactIsLocal(sys.stores[id], scope, key); LocalReplaceable(sys, id, GetFact(sys.stores[id], scope, key));
    case AppendAt(id, d, ps, topic, turns, now) =>
      AppendIsLocal(sys.stores[id], d, ps, topic, turns, now);
      LocalReplaceable(sys, id, AppendTurns(sys.stores[id], d, ps, topic, turns, now));
    case Deliver(m, now) => DeliverReplaceable(sys, m, now);
  }

  // ----- a delta refines the full snapshot -----

  lemma ListingIsSkippable(sys: System, receiver: string, sender: string, listing: Snapshot, marks: Marks)
    requires Invariant(sys) && receiver in sys.stores && sender in sys.stores
    requires IsSnapshotOf(listing, sys.stores[sender])
    requires forall o :: Get(marks, o) <= Wm(sys.stores[receiver], o)
    ensures AllWellFormed(Flatten(listing)) && Skippable(sys.stores[receiver], Flatten(listing), marks)
  {
    var s := sys.stores[receiver];
    forall r | r in Flatten(listing) ensures WellFormed(r) && r in sys.history { assert Holds(sys.stores[sender], r); }
    assert StoreSound(s, sys.history);
    forall r | r in Flatten(listing) && r.Sequence() <= Get(marks, r.Origin())
      ensures Covers(s, r) && r.Sequence() <= Wm(s, r.Origin())
    {
      assert Get(marks, r.Origin()) <= Wm(s, r.Origin());
    }
  }

  /** Whatever SnapshotForPeer decides to send for watermarks the receiver has
      reached, merging it leaves exactly the store a full snapshot would leave. */
  lemma DeltaRefinesFull(sys: System, receiver: string, sender: string, listing: Snapshot, version: int, marks: Marks, now: Time)
    requires Invariant(sys) && receiver in sys.stores && sender in sys.stores
    requires IsSnapshotOf(listing, sys.stores[sender])
    requires forall o :: Get(marks, o) <= Wm(sys.stores[receiver], o)
    ensures var s := sys.stores[receiver];
            && MergeSnapshot(s, SnapshotForPeer(listing, version, marks), sender, now) == MergeSnapshot(s, listing, sender, now)
            && MergeSnapshot(s, SnapshotSince(listing, marks), sender, now) == MergeSnapshot(s, listing, sender, now)
  {
    ListingIsSkippable(sys, receiver, sender, listing, marks);
    DeltaMergesAsFull(sys.stores[receiver], listing, marks, sender, now);
  }

  // ----- convergence -----

  lemma EqualMarksBelow(sys: System, a: string, b: string)
    requires Invariant(sys) && a in sys.stores && b in sys.stores
    requires forall o :: Wm(sys.stores[a], o) <= Wm(sys.stores[b], o)
    ensures Below(sys.stores[a], sys.stores[b])
  {
    var s, t := sys.stores[a], sys.stores[b];
    assert StoreSound(t, sys.history);
    forall k | Lookup(s, k).Some? ensures CoversCore(t, k, Lookup(s, k).value) {
      var r := HeldRecord(s, k);
      assert r in sys.history && Wm(s, r.Origin()) <= Wm(t, r.Origin());
    }
  }

  lemma BelowBothWays(s: StoreState, t: StoreState, k: Key)
    requires Below(s, t) && Below(t, s)
    ensures Lookup(s, k) == Lookup(t, k)
  {
    if Lookup(s, k).Some? || Lookup(t, k).Some? {
      assert Lookup(s, k).Some? && Lookup(t, k).Some?;
      LeqAntisymmetric(Lookup(s, k).value, Lookup(t, k).value);
    }
  }

  /** Stores of a reachable system with equal watermarks hold the same
      experiences, fact triples, attempt counts, turns and participants. */
  lemma EqualWatermarksConverge(sys: System, a: string, b: string, k: Key)
    requires Invariant(sys) && a in sys.stores && b in sys.stores
    requires forall o :: Wm(sys.stores[a], o) == Wm(sys.stores[b], o)
    ensures Lookup(sys.stores[a], k) == Lookup(sys.stores[b], k)
  {
    EqualMarksBelow(sys, a, b);
    EqualMarksBelow(sys, b, a);
    BelowBothWays(sys.stores[a], sys.stores[b], k);
  }

  /** A request and its answer, delivered at once. */
  datatype Pull = Pull(receiver: string, sender: string, listing: Snapshot, version: int, since: Marks, now: Time)

  ghost predicate CanPull(sys: System, p: Pull)
  {
    p.receiver != p.sender && Enabled(sys, Send(p.sender, p.receiver, p.listing, p.version, p.since))
  }

  function PullMessage(p: Pull): Message
  {
    Message(p.receiver, p.sender, p.since, SnapshotForPeer(p.listing, p.version, p.since))
  }

  ghost function AfterPull(sys: System, p: Pull): System
    requires CanPull(sys, p)
  {
    Step(Step(sys, Send(p.sender, p.receiver, p.listing, p.version, p.since)), Deliver(PullMessage(p), p.now))
  }

  lemma PullKeepsInvariant(sys: System, p: Pull)
    requires Invariant(sys) && CanPull(sys, p)
    ensures Invariant(AfterPull(sys, p))
    ensures AfterPull(sys, p).stores == sys.stores[p.receiver := MergeSnapshot(sys.stores[p.receiver], p.listing, p.sender, p.now).0]
  {
    var sent := Send(p.sender, p.receiver, p.listing, p.version, p.since);
    StepKeepsInvariant(sys, sent);
    StepKeepsInvariant(Step(sys, sent), Deliver(PullMessage(p), p.now));
    DeltaRefinesFull(sys, p.receiver, p.sender, p.listing, p.version, p.since, p.now);
  }

  /** What one pull leaves: the least store covering both, and watermarks at
      least as high as the sender's. */
  lemma PullEffect(sys: System, p: Pull)
    requires Invariant(sys) && CanPull(sys, p)
    ensures var s, t := sys.stores[p.receiver], sys.stores[p.sender];
            var s' := AfterPull(sys, p).stores[p.receiver];
            && Below(s, s') && Below(t, s')
            && (forall u :: Below(s, u) && Below(t, u) ==> Below(s', u))
            && (forall o :: Wm(s, o) <= Wm(s', o) && Wm(t, o) <= Wm(s', o))
  {
    PullKeepsInvariant(sys, p);
    var s, t, rs := sys.stores[p.receiver], sys.stores[p.sender], Flatten(p.listing);
    ListingIsSkippable(sys, p.receiver, p.sender, p.listing, map[]);
    EmptyOriginUnmarked(sys, p.sender);
    var m := Message(p.receiver, p.sender, p.since, p.listing);
    Delivered(s, m, p.now);
    var s1, s' := Merged(s, rs, SourceOf(p.sender), p.now), MergeSnapshot(s, p.listing, p.sender, p.now).0;
    MergeGrows(s, rs, SourceOf(p.sender), p.now);
    AdvancedKeeps(s1, s');
    assert forall o :: Wm(s, o) <= Wm(s1, o);
    SelfBelow(s);
    forall k | Lookup(t, k).Some? ensures CoversCore(s', k, Lookup(t, k).value) {
      var r := HeldRecord(t, k);
      assert r in rs && Covers(s1, r);
    }
    forall u | Below(s, u) && Below(t, u) ensures Below(s', u) {
      forall r | r in rs ensures Covers(u, r) { HeldIsLookedUp(t, r); }
      MergeBounded(s, rs, SourceOf(p.sender), p.now, u);
    }
  }

  lemma SelfBelow(s: StoreState)
    ensures Below(s, s)
  {
    forall k | Lookup(s, k).Some? ensures CoversCore(s, k, Lookup(s, k).value) { LeqReflexive(Lookup(s, k).value); }
  }

  lemma EmptyOriginUnmarked(sys: System, id: string)
    requires Invariant(sys) && id in sys.stores
    ensures Wm(sys.stores[id], "") == 0
  {
    assert Wm(sys.stores[id], "") <= Authority(sys.stores, "");
  }

  /** The store's records are those of `s`; only counters may have moved. */
  predicate SameRecords(s: StoreState, t: StoreState)
  {
    s.nextID == t.nextID && s.experiences == t.experiences && s.fingerprints == t.fingerprints &&
    s.facts == t.facts && s.performances == t.performances && s.dialogues == t.dialogues
  }

  /** Merging only covered records changes no record and issues no stamp. */
  lemma {:induction false} CoveredMerge(s: StoreState, rs: seq<Record>, source: string, now: Time, marks: Marks)
    requires Valid(s) && AllWellFormed(rs)
    requires forall r :: r in rs ==> Covers(s, r) && r.Sequence() <= Get(marks, r.Origin())
    ensures SameRecords(s, Merged(s, rs, source, now))
    ensures forall o :: Wm(Merged(s, rs, source, now), o) <= Max(Wm(s, o), Get(marks, o))
    decreases |rs|
  {
    if rs != [] {
      var r := rs[0];
      assert WellFormed(r) && Covers(s, r);
      var s1 := MergeRecord(s, r, source, now);
      MergeRecordEffect(s, r, source, now);
      ObserveKeeps(s, r.Origin(), r.Sequence());
      AdvancedKeeps(s, s1);
      assert r.Sequence() <= Get(marks, r.Origin());
      CoveredMerge(s1, rs[1..], source, now, marks);
      forall o ensures Wm(Merged(s, rs, source, now), o) <= Max(Wm(s, o), Get(marks, o)) {
        assert Wm(s1, o) <= Max(Wm(s, o), Get(marks, o));
      }
    }
  }

  lemma IdleMerge(s: StoreState, t: StoreState, m: Message, now: Time)
    requires Valid(s) && Valid(t) && IsSnapshotOf(m.snapshot, t) && Wm(t, "") == 0 && Below(t, s)
    ensures var s' := MergeSnapshot(s, m.snapshot, m.sender, now).0;
            SameRecords(s, s') && forall o :: Wm(s', o) == Max(Wm(s, o), Wm(t, o))
  {
    var rs, source := Flatten(m.snapshot), SourceOf(m.sender);
    forall r | r in rs ensures WellFormed(r) && Covers(s, r) && r.Sequence() <= Get(t.watermarks, r.Origin()) { HeldIsLookedUp(t, r); }
    Delivered(s, m, now);
    CoveredMerge(s, rs, source, now, t.watermarks);
    MergeGrows(s, rs, source, now);
    var s1, s' := Merged(s, rs, source, now), MergeSnapshot(s, m.snapshot, m.sender, now).0;
    forall o ensures Wm(s', o) == Max(Wm(s, o), Wm(t, o)) {
      assert Wm(s, o) <= Wm(s1, o) <= Max(Wm(s, o), Get(t.watermarks, o));
    }
  }

  /** Pulling from a store one already covers changes no record and raises the
      watermarks to the pointwise maximum. */
  lemma IdlePull(sys: System, p: Pull)
    requires Invariant(sys) && CanPull(sys, p) && Below(sys.stores[p.sender], sys.stores[p.receiver])
    ensures var s, t, s' := sys.stores[p.receiver], sys.stores[p.sender], AfterPull(sys, p).stores[p.receiver];
            SameRecords(s, s') && forall o :: Wm(s', o) == Max(Wm(s, o), Wm(t, o))
  {
    PullKeepsInvariant(sys, p);
    EmptyOriginUnmarked(sys, p.sender);
    IdleMerge(sys.stores[p.receiver], sys.stores[p.sender], Message(p.receiver, p.sender, p.since, p.listing), p.now);
  }

  /** With no local writes, the pulls A<-B, B<-A, A<-B make the watermarks
      equal, and the third changes no record although merging may restamp
      dialogues. */
  lemma ThreePullsConverge(sys: System, p1: Pull, p2: Pull, p3: Pull)
    requires Invariant(sys) && p2.receiver == p1.sender && p2.sender == p1.receiver
    requires p3.receiver == p1.receiver && p3.sender == p1.sender
    requires CanPull(sys, p1) && CanPull(AfterPull(sys, p1), p2) && CanPull(AfterPull(AfterPull(sys, p1), p2), p3)
    ensures var sys1 := AfterPull(sys, p1);
            var sys3 := AfterPull(AfterPull(sys1, p2), p3);
            var a, b := p1.receiver, p1.sender;
            && SameRecords(sys1.stores[a], sys3.stores[a])
            && (forall o :: Wm(sys3.stores[a], o) == Wm(sys3.stores[b], o))
            && (forall k :: Lookup(sys3.stores[a], k) == Lookup(sys3.stores[b], k))
  {
    var a, b := p1.receiver, p1.sender;
    var sys1 := AfterPull(sys, p1);
    var sys2 := AfterPull(sys1, p2);
    var sys3 := AfterPull(sys2, p3);
    PullKeepsInvariant(sys, p1);
    PullEffect(sys, p1);
    PullKeepsInvariant(sys1, p2);
    PullEffect(sys1, p2);
    SelfBelow(sys1.stores[a]);
    PullKeepsInvariant(sys2, p3);
    IdlePull(sys2, p3);
    assert sys2.stores[a] == sys1.stores[a] && sys3.stores[b] == sys2.stores[b];
    forall k ensures Lookup(sys3.stores[a], k) == Lookup(sys3.stores[b], k) { EqualWatermarksConverge(sys3, a, b, k); }
  }

  // ----- what can happen -----

  lemma {:induction false} Listed<T(!new)>(xs: set<T>) returns (q: seq<T>)
    ensures forall x :: x in q <==> x in xs
    decreases |xs|
  {
    if xs == {} {
      q := [];
    } else {
      var x :| x in xs;
      q := Listed(xs - {x});
      q := q + [x];
    }
  }

  lemma SnapshotExists(s: StoreState) returns (sn: Snapshot)
    ensures IsSnapshotOf(sn, s)
  {
    var facts := Listed(set k | k in s.facts && FactMapKey(s.facts[k]) == k :: s.facts[k]);
    var performances := Listed(set k | k in s.performances && PerformanceMapKey(s.performances[k].nodeID, s.performances[k].model, s.performances[k].taskType) == k :: s.performances[k]);
    var dialogues := Listed(set k | k in s.dialogues && s.dialogues[k].id == k :: s.dialogues[k]);
    sn := Snapshot(s.experiences, facts, performances, dialogues, s.watermarks);
    forall r ensures r in Flatten(sn) <==> Holds(s, r) { FlattenMembers(sn, r); }
  }

  lemma FlattenMembers(sn: Snapshot, r: Record)
    ensures r in Flatten(sn) <==>
            match r
            case ExperienceRecord(e) => e in sn.experiences
            case FactRecord(f) => f in sn.facts
            case PerformanceRecord(p) => p in sn.performances
            case DialogueRecord(d) => d in sn.dialogues
  {
    var es, fs, ps, ds := ExperienceRecords(sn.experiences), FactRecords(sn.facts), PerformanceRecords(sn.performances), DialogueRecords(sn.dialogues);
    assert r in Flatten(sn) <==> r in es || r in fs || r in ps || r in ds;
    match r
    case ExperienceRecord(e) => if i :| 0 <= i < |sn.experiences| && sn.experiences[i] == e { assert es[i] == r; }
    case FactRecord(f) => if i :| 0 <= i < |sn.facts| && sn.facts[i] == f { assert fs[i] == r; }
    case PerformanceRecord(p) => if i :| 0 <= i < |sn.performances| && sn.performances[i] == p { assert ps[i] == r; }
    case DialogueRecord(d) => if i :| 0 <= i < |sn.dialogues| && sn.dialogues[i] == d { assert ds[i] == r; }
  }

  /** At every moment of every run any store can pull from any other, and then
      covers what that store holds. */
  lemma PullIsPossible(states: seq<System>, actions: seq<Action>, n: nat, receiver: string, sender: string, version: int, now: Time)
    returns (p: Pull)
    requires Run(states, actions) && n < |states|
    requires receiver in states[n].stores && sender in states[n].stores && receiver != sender
    ensures p.receiver == receiver && p.sender == sender && p.version == version && p.now == now && CanPull(states[n], p)
    ensures Enabled(Step(states[n], Send(sender, receiver, p.listing, version, p.since)), Deliver(PullMessage(p), now))
    ensures Below(states[n].stores[sender], AfterPull(states[n], p).stores[receiver])
  {
    RunInvariant(states, actions, n);
    var listing := SnapshotExists(states[n].stores[sender]);
    p := Pull(receiver, sender, listing, version, map[], now);
    PullEffect(states[n], p);
  }

  /** And any store can write: record anything, put a fact not updated since,
      append to a dialogue not updated since. */
  lemma WritesArePossible(sys: System, id: string, c: Content, f: Fact, d: string, ps: seq<string>, topic: string, turns: seq<Turn>, now: Time)
    requires id in sys.stores && now > 0
    ensures Enabled(sys, RecordAt(id, c, now))
    ensures var facts, k := sys.stores[id].facts, ScopedKey(f.scope, f.key);
            f.key != "" && (k in facts ==> facts[k].updatedAt < now) ==> Enabled(sys, PutFactAt(id, f, now))
    ensures var ds := sys.stores[id].dialogues;
            d != "" && turns != [] && (d in ds ==> ds[d].updatedAt <= now) ==> Enabled(sys, AppendAt(id, d, ps, topic, turns, now))
  {
  }

  // ----- experience IDs -----

  /** In every run every store numbers its experiences from 1 in the order it
      stored them. */
  lemma {:induction false} ExperiencesAreNumbered(states: seq<System>, actions: seq<Action>, n: nat, id: string)
    requires Run(states, actions) && n < |states| && id in states[n].stores
    ensures NumberedFromOne(states[n].stores[id])
  {
    if n > 0 {
      RunInvariant(states, actions, n - 1);
      var sys, a := states[n - 1], actions[n - 1];
      ExperiencesAreNumbered(states, actions, n - 1, id);
      StepKeepsNumbers(sys, a, id);
    }
  }

  lemma StepKeepsNumbers(sys: System, a: Action, id: string)
    requires Enabled(sys, a) && id in sys.stores && NumberedFromOne(sys.stores[id]) && InStep(sys.stores[id])
    ensures id in Step(sys, a).stores && NumberedFromOne(Step(sys, a).stores[id])
  {
    var s := sys.stores[id];
    match a
    case RecordAt(_, c, now) => RecordKeepsNumbers(s, c, now);
    case PutFactAt(_, f, now) => OtherWritesKeepNumbers(s, f, "", "", now);
    case GetFactAt(_, scope, key) => OtherWritesKeepNumbers(s, Fact("", "", 0, "", "", "", 0, 0, 0), scope, key, 0);
    case AppendAt(_, d, ps, topic, turns, now) => AppendKeepsNumbers(s, d, ps, topic, turns, now);
    case Send(_, _, _, _, _) =>
    case Deliver(m, now) => SnapshotKeepsNumbers(s, m.snapshot, m.sender, now);
  }

  // ----- the clock assumptions are exactly what soundness needs -----

  /** Writing a fact keeps everything the store covered if and only if the
      replaced fact does not beat the new one. */
  lemma PutFactKeepsCoverIff(s: StoreState, f: Fact, now: Time)
    requires Valid(s) && f.key != "" && now > 0
    ensures Grown(s, PutFact(s, f, now)) <==> FactClockOk(s, f, now)
  {
    var key := FactMapKey(f);
    if FactClockOk(s, f, now) {
      PutFactIsLocal(s, f, now);
    } else {
      PutFactShape(s, f, now);
      var was := FactCoreOf(s.facts[key]);
      LeqReflexive(was);
      assert CoversCore(s, FactKey(key), was) && !CoversCore(PutFact(s, f, now), FactKey(key), was);
    }
  }

  /** The same for appended turns: nothing is appended, or the dialogue is new,
      or the clock is not behind its update time. */
  lemma AppendKeepsCoverIff(s: StoreState, id: string, participants: seq<string>, topic: string, turns: seq<Turn>, now: Time)
    requires Valid(s)
    ensures Grown(s, AppendTurns(s, id, participants, topic, turns, now))
       <==> id == "" || turns == [] || id !in s.dialogues || s.dialogues[id].updatedAt <= now
  {
    if id == "" || turns == [] {
    } else if id !in s.dialogues || s.dialogues[id].updatedAt <= now {
      AppendIsLocal(s, id, participants, topic, turns, now);
    } else {
      BackwardAppendLosesCover(s, id, participants, topic, turns, now);
    }
  }

  lemma BackwardAppendLosesCover(s: StoreState, id: string, participants: seq<string>, topic: string, turns: seq<Turn>, now: Time)
    requires Valid(s) && id != "" && turns != [] && id in s.dialogues && now < s.dialogues[id].updatedAt
    ensures !Grown(s, AppendTurns(s, id, participants, topic, turns, now))
    ensures !Covers(AppendTurns(s, id, participants, topic, turns, now), DialogueRecord(s.dialogues[id]))
  {
    assert Holds(s, DialogueRecord(s.dialogues[id]));
    AppendShape(s, id, participants, topic, turns, now);
    AppendCovers(s, id, participants, topic, turns, now);
    var was := DialogueCoreOf(s.dialogues[id]);
    LeqReflexive(was);
    assert CoversCore(s, DialogueKey(id), was);
    PutLookup(NextSequences(s, s.origin, |turns|), DialogueRecord(AppendedDialogue(s, id, participants, topic, turns, now)), DialogueKey(id));
    assert !CoversCore(AppendTurns(s, id, participants, topic, turns, now), DialogueKey(id), was);
  }

  /** A concrete one: two turns, the second with a clock that went back. */
  lemma BackwardClockLosesDialogue()
    ensures var turn := Turn("u", "", "", "hi", 0, 0);
            var s := AppendTurns(NewStore("a"), "d", [], "", [turn], 2);
            var s' := AppendTurns(s, "d", [], "", [turn], 1);
            && "d" in s.dialogues && Wm(s, "a") == 1 && Wm(s', "a") == 2
            && Covers(s, DialogueRecord(s.dialogues["d"])) && !Covers(s', DialogueRecord(s.dialogues["d"]))
  {
    var turn := Turn("u", "", "", "hi", 0, 0);
    NewStoreValid("a");
    AppendIsLocal(NewStore("a"), "d", [], "", [turn], 2);
    var s := AppendTurns(NewStore("a"), "d", [], "", [turn], 2);
    LeqReflexive(DialogueCoreOf(s.dialogues["d"]));
    BackwardAppendLosesCover(s, "d", [], "", [turn], 1);
    OneMore("a", NewStore("a"));
    OneMore("a", s);
  }

  lemma OneMore(origin: string, s: StoreState)
    ensures NextSequences(s, origin, 1) == NextSequence(s, origin)
  {
  }

  lemma NewStoreValid(origin: string)
    requires origin != ""
    ensures Valid(NewStore(origin))
  {
  }

  /** A concrete backward clock: the second write is stamped higher but covers
      less, so a peer that trusts the watermark would keep the beaten value. */
  lemma BackwardClockLosesFact()
    ensures var f := Fact("k", "", 0, "new", "", "", 0, 0, 0);
            var s := PutFact(NewStore("a"), f, 2);
            var s' := PutFact(s, f.(value := "old"), 1);
            && FactMapKey(f) in s.facts && Wm(s, "a") == 1 && Wm(s', "a") == 2
            && Covers(s, FactRecord(s.facts[FactMapKey(f)])) && !Covers(s', FactRecord(s.facts[FactMapKey(f)]))
  {
    var f := Fact("k", "", 0, "new", "", "", 0, 0, 0);
    var s := PutFact(NewStore("a"), f, 2);
    var stored := s.facts[FactMapKey(f)];
    assert FactMapKey(f.(value := "old")) == FactMapKey(f) == FactMapKey(stored);
    LeqReflexive(FactCoreOf(stored));
  }
}
