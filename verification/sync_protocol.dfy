/** Any number of stores exchanging snapshots over a network that may delay,
    duplicate, reorder or drop them. `history` is every record any store ever
    held at a step boundary. */
module SyncProtocol {
  import opened Options
  import opened MemoryRecords
  import opened MemoryStoreSpec
  import opened MemoryMerge
  import opened SnapshotMerge
  import opened LocalWrites

  /** A snapshot on its way, taken for a request that quoted `since`. */
  datatype Message = Message(receiver: string, sender: string, since: Marks, snapshot: Snapshot)

  datatype System = System(stores: map<string, StoreState>, network: set<Message>, history: iset<Record>)

  datatype Action =
    | RecordAt(id: string, content: Content, now: Time)
    | PutFactAt(id: string, fact: Fact, now: Time)
    | GetFactAt(id: string, scope: string, key: string)
    | AppendAt(id: string, dialogue: string, participants: seq<string>, topic: string, turns: seq<Turn>, now: Time)
    | Send(sender: string, receiver: string, listing: Snapshot, version: int, since: Marks)
    | Deliver(message: Message, now: Time)

  ghost predicate Initial(sys: System)
  {
    && "" !in sys.stores
    && (forall id :: id in sys.stores ==> sys.stores[id] == NewStore(id))
    && sys.network == {} && sys.history == iset{}
  }

  /** What the environment is assumed to respect: a nonzero clock that does not
      run backwards behind a replaced fact or dialogue, and requests that quote
      watermarks the receiver already has. */
  ghost predicate Enabled(sys: System, a: Action)
  {
    match a
    case RecordAt(id, _, now) => id in sys.stores && now > 0
    case PutFactAt(id, f, now) => id in sys.stores && f.key != "" && now > 0 && FactClockOk(sys.stores[id], f, now)
    case GetFactAt(id, scope, key) => id in sys.stores && ScopeOf(scope) + "|" + key in sys.stores[id].facts
    case AppendAt(id, d, _, _, turns, now) =>
      id in sys.stores && d != "" && turns != [] &&
      (d in sys.stores[id].dialogues ==> sys.stores[id].dialogues[d].updatedAt <= now)
    case Send(sender, receiver, listing, _, since) =>
      sender in sys.stores && receiver in sys.stores && IsSnapshotOf(listing, sys.stores[sender]) &&
      (forall o :: Get(since, o) <= Wm(sys.stores[receiver], o))
    case Deliver(m, _) => m in sys.network && m.receiver in sys.stores
  }

  ghost function WithStore(sys: System, id: string, s: StoreState): System
  {
    sys.(stores := sys.stores[id := s], history := sys.history + Held(s))
  }

  ghost function Step(sys: System, a: Action): System
    requires Enabled(sys, a)
  {
    match a
    case RecordAt(id, c, now) => WithStore(sys, id, RecordExperience(sys.stores[id], c, now))
    case PutFactAt(id, f, now) => WithStore(sys, id, PutFact(sys.stores[id], f, now))
    case GetFactAt(id, scope, key) => WithStore(sys, id, GetFact(sys.stores[id], scope, key))
    case AppendAt(id, d, ps, topic, turns, now) => WithStore(sys, id, AppendTurns(sys.stores[id], d, ps, topic, turns, now))
    case Send(sender, receiver, listing, version, since) =>
      sys.(network := sys.network + {Message(receiver, sender, since, SnapshotForPeer(listing, version, since))})
    case Deliver(m, now) => WithStore(sys, m.receiver, MergeSnapshot(sys.stores[m.receiver], m.snapshot, m.sender, now).0)
  }

  // ----- the invariant -----

  /** The highest sequence the origin itself has issued. */
  function Authority(stores: map<string, StoreState>, origin: string): nat
  {
    if origin in stores then Wm(stores[origin], origin) else 0
  }

  ghost predicate StoresOk(sys: System)
  {
    forall id :: id in sys.stores ==>
      && Valid(sys.stores[id]) && sys.stores[id].origin == id
      && (forall o :: Wm(sys.stores[id], o) <= Authority(sys.stores, o))
      && (forall r :: Holds(sys.stores[id], r) ==> r in sys.history)
  }

  ghost predicate HistoryOk(sys: System)
  {
    forall r :: r in sys.history ==> WellFormed(r) && r.Sequence() <= Authority(sys.stores, r.Origin())
  }

  /** No stamp ever names two different versions. */
  ghost predicate StampsUnique(history: iset<Record>)
  {
    forall q, r :: q in history && r in history && q.Origin() == r.Origin() && q.Sequence() == r.Sequence() ==> SameVersion(q, r)
  }

  /** A store whose watermark for an origin reached n covers every version
      that origin ever stamped with a sequence up to n. */
  ghost predicate StoreSound(s: StoreState, history: iset<Record>)
  {
    forall r :: r in history && r.Sequence() <= Wm(s, r.Origin()) ==> Covers(s, r)
  }

  ghost predicate Sound(sys: System)
  {
    forall id :: id in sys.stores ==> StoreSound(sys.stores[id], sys.history)
  }

  predicate Supersedes(q: Record, r: Record) { KeyOf(q) == KeyOf(r) && Leq(CoreOf(r), CoreOf(q)) }

  /** What the message carries, or left out because the receiver had it,
      supersedes everything up to the message's watermarks. */
  ghost predicate MessageSound(m: Message, history: iset<Record>)
  {
    forall r :: r in history && r.Sequence() <= Get(m.snapshot.watermarks, r.Origin()) ==> Accounted(m, history, r)
  }

  ghost predicate Accounted(m: Message, history: iset<Record>, r: Record)
  {
    exists q :: q in history && Supersedes(q, r) && (q in Flatten(m.snapshot) || q.Sequence() <= Get(m.since, q.Origin()))
  }

  ghost predicate MessageOk(sys: System, m: Message)
  {
    && m.receiver in sys.stores
    && (forall o :: Get(m.since, o) <= Wm(sys.stores[m.receiver], o))
    && (forall o :: Get(m.snapshot.watermarks, o) <= Authority(sys.stores, o))
    && (forall r :: r in Flatten(m.snapshot) ==> r in sys.history && r.Sequence() <= Get(m.snapshot.watermarks, r.Origin()))
    && MessageSound(m, sys.history)
  }

  ghost predicate Invariant(sys: System)
  {
    && "" !in sys.stores
    && StoresOk(sys) && HistoryOk(sys) && StampsUnique(sys.history) && Sound(sys)
    && (forall m :: m in sys.network ==> MessageOk(sys, m))
  }

  // ----- replacing one store -----

  /** What a store may become in one step. */
  ghost predicate Replaceable(sys: System, id: string, s': StoreState)
  {
    && id in sys.stores && Valid(s') && Grown(sys.stores[id], s')
    && StampedFrom(s', sys.history, Wm(sys.stores[id], id))
    && (forall o :: o != id ==> Wm(s', o) <= Authority(sys.stores, o))
    && StoreSound(s', sys.history)
  }

  /** A record the step added is a known version or carries a stamp above
      everything anybody has seen of this origin. */
  lemma NewRecords(sys: System, id: string, s': StoreState, r: Record)
    requires Invariant(sys) && Replaceable(sys, id, s') && Holds(s', r)
    ensures Old(r, sys.history) || (r.Origin() == id && Authority(sys.stores, id) < r.Sequence())
  {
  }

  lemma CoverSameVersion(s: StoreState, history: iset<Record>, r: Record)
    requires StoreSound(s, history) && Old(r, history) && r.Sequence() <= Wm(s, r.Origin())
    ensures Covers(s, r)
  {
    var q :| q in history && SameVersion(r, q);
  }

  lemma ReplaceSound(sys: System, id: string, s': StoreState, other: string)
    requires Invariant(sys) && Replaceable(sys, id, s') && other in sys.stores
    ensures StoreSound(WithStore(sys, id, s').stores[other], sys.history + Held(s'))
  {
    var t := WithStore(sys, id, s').stores[other];
    forall r | r in sys.history + Held(s') && r.Sequence() <= Wm(t, r.Origin()) ensures Covers(t, r) {
      if r in Held(s') {
        NewRecords(sys, id, s', r);
        if other == id {
          HeldIsLookedUp(s', r);
        } else {
          assert Wm(t, id) <= Authority(sys.stores, id);
          CoverSameVersion(t, sys.history, r);
        }
      }
    }
  }

  lemma ReplaceUnique(sys: System, id: string, s': StoreState)
    requires Invariant(sys) && Replaceable(sys, id, s')
    ensures StampsUnique(sys.history + Held(s'))
  {
    var h := sys.history;
    forall q, r | q in h + Held(s') && r in h + Held(s') && q.Origin() == r.Origin() && q.Sequence() == r.Sequence()
      ensures SameVersion(q, r)
    {
      if q in h && r in h {
      } else {
        OldOrFresh(sys, id, s', q);
        OldOrFresh(sys, id, s', r);
        if Old(q, h) && Old(r, h) {
          var q' :| q' in h && SameVersion(q, q');
          var r' :| r' in h && SameVersion(r, r');
          assert SameVersion(q', r');
        }
      }
    }
  }

  lemma OldOrFresh(sys: System, id: string, s': StoreState, r: Record)
    requires Invariant(sys) && Replaceable(sys, id, s') && r in sys.history + Held(s')
    ensures if Old(r, sys.history) then r.Sequence() <= Authority(sys.stores, r.Origin())
            else Holds(s', r) && r.Origin() == id && Authority(sys.stores, id) < r.Sequence()
  {
    if r in sys.history { assert SameVersion(r, r); assert Old(r, sys.history); }
    else { NewRecords(sys, id, s', r); }
  }

  lemma AuthorityGrows(sys: System, id: string, s': StoreState, o: string)
    requires id in sys.stores && Grown(sys.stores[id], s')
    ensures Authority(sys.stores, o) <= Authority(sys.stores[id := s'], o)
  {
    assert Wm(sys.stores[id], o) <= Wm(s', o);
  }

  lemma ReplaceMessage(sys: System, id: string, s': StoreState, m: Message)
    requires Invariant(sys) && Replaceable(sys, id, s') && m in sys.network
    ensures MessageOk(WithStore(sys, id, s'), m)
  {
    var sys' := WithStore(sys, id, s');
    assert MessageOk(sys, m);
    forall o ensures Get(m.since, o) <= Wm(sys'.stores[m.receiver], o) {
      assert Get(m.since, o) <= Wm(sys.stores[m.receiver], o);
    }
    forall o ensures Get(m.snapshot.watermarks, o) <= Authority(sys'.stores, o) {
      AuthorityGrows(sys, id, s', o);
      assert Get(m.snapshot.watermarks, o) <= Authority(sys.stores, o);
    }
    ReplaceMessageSound(sys, id, s', m);
  }

  /** Being accounted for carries over to another record of a known version
      and to a longer history. */
  lemma AccountedCarries(m: Message, h: iset<Record>, h': iset<Record>, r: Record)
    requires MessageSound(m, h) && Old(r, h) && h <= h' && r.Sequence() <= Get(m.snapshot.watermarks, r.Origin())
    ensures Accounted(m, h', r)
  {
    var v :| v in h && SameVersion(r, v);
    assert Accounted(m, h, v);
    var q :| q in h && Supersedes(q, v) && (q in Flatten(m.snapshot) || q.Sequence() <= Get(m.since, q.Origin()));
    assert q in h' && Supersedes(q, r);
  }

  lemma KnownToMessage(sys: System, id: string, s': StoreState, m: Message, r: Record)
    requires Invariant(sys) && Replaceable(sys, id, s')
    requires forall o :: Get(m.snapshot.watermarks, o) <= Authority(sys.stores, o)
    requires r in sys.history + Held(s') && r.Sequence() <= Get(m.snapshot.watermarks, r.Origin())
    ensures Old(r, sys.history)
  {
    OldOrFresh(sys, id, s', r);
    assert Get(m.snapshot.watermarks, r.Origin()) <= Authority(sys.stores, r.Origin());
  }

  lemma ReplaceMessageSound(sys: System, id: string, s': StoreState, m: Message)
    requires Invariant(sys) && Replaceable(sys, id, s') && MessageOk(sys, m)
    ensures MessageSound(m, sys.history + Held(s'))
  {
    forall r | r in sys.history + Held(s') && r.Sequence() <= Get(m.snapshot.watermarks, r.Origin())
      ensures Accounted(m, sys.history + Held(s'), r)
    {
      KnownToMessage(sys, id, s', m, r);
      AccountedCarries(m, sys.history, sys.history + Held(s'), r);
    }
  }

  lemma ReplaceStores(sys: System, id: string, s': StoreState)
    requires Invariant(sys) && Replaceable(sys, id, s')
    ensures StoresOk(WithStore(sys, id, s')) && HistoryOk(WithStore(sys, id, s'))
  {
    var sys' := WithStore(sys, id, s');
    forall o ensures Authority(sys.stores, o) <= Authority(sys'.stores, o) { AuthorityGrows(sys, id, s', o); }
    forall r | r in sys'.history ensures WellFormed(r) && r.Sequence() <= Authority(sys'.stores, r.Origin()) {
      OldOrFresh(sys, id, s', r);
    }
    forall other | other in sys'.stores
      ensures Valid(sys'.stores[other]) && sys'.stores[other].origin == other
      ensures forall o :: Wm(sys'.stores[other], o) <= Authority(sys'.stores, o)
      ensures forall r :: Holds(sys'.stores[other], r) ==> r in sys'.history
    {
      if other != id { assert forall o :: Wm(sys.stores[other], o) <= Authority(sys.stores, o); }
    }
  }

  lemma ReplaceKeepsInvariant(sys: System, id: string, s': StoreState)
    requires Invariant(sys) && Replaceable(sys, id, s')
    ensures Invariant(WithStore(sys, id, s'))
  {
    ReplaceStores(sys, id, s');
    ReplaceUnique(sys, id, s');
    forall other | other in sys.stores ensures StoreSound(WithStore(sys, id, s').stores[other], sys.history + Held(s')) {
      ReplaceSound(sys, id, s', other);
    }
    forall m | m in sys.network ensures MessageOk(WithStore(sys, id, s'), m) { ReplaceMessage(sys, id, s', m); }
  }

  // ----- every step keeps the invariant -----

  lemma LocalReplaceable(sys: System, id: string, s': StoreState)
    requires Invariant(sys) && id in sys.stores && LocalStep(sys.stores[id], s')
    ensures Replaceable(sys, id, s')
  {
    var s := sys.stores[id];
    forall q ensures Old(q, Held(s)) ==> Old(q, sys.history) {
      if Old(q, Held(s)) { var r :| r in Held(s) && SameVersion(q, r); assert r in sys.history; }
    }
    assert Valid(s);
    forall q | Holds(s', q) && !Old(q, sys.history) ensures q.Origin() == id && Wm(s, id) < q.Sequence() {}
    forall r | r in sys.history && r.Sequence() <= Wm(s', r.Origin()) ensures Covers(s', r) {
      assert r.Sequence() <= Wm(s, r.Origin()) by { assert r.Sequence() <= Authority(sys.stores, r.Origin()); }
      assert Covers(s, r);
      assert CoversCore(s, KeyOf(r), CoreOf(r));
    }
  }

  lemma ObserveMarksGet(m: Marks, marks: Marks, o: string)
    ensures Get(MergeMarks(m, marks), o) == Max(Get(m, o), Get(marks, o))
  {
  }

  /** What delivering a message leaves in the receiver. */
  lemma Delivered(s: StoreState, m: Message, now: Time)
    requires Valid(s) && AllWellFormed(Flatten(m.snapshot)) && Get(m.snapshot.watermarks, "") == 0
    ensures var s1 := Merged(s, Flatten(m.snapshot), SourceOf(m.sender), now);
            var s' := MergeSnapshot(s, m.snapshot, m.sender, now).0;
            && MergeSnapshot(s, m.snapshot, m.sender, now).1
            && Valid(s') && Advanced(s1, s')
            && (forall o :: Wm(s', o) == Max(Wm(s1, o), Get(m.snapshot.watermarks, o)))
  {
    var marks := m.snapshot.watermarks;
    var s1 := Merged(s, Flatten(m.snapshot), SourceOf(m.sender), now);
    var s' := MergeSnapshot(s, m.snapshot, m.sender, now).0;
    MergeGrows(s, Flatten(m.snapshot), SourceOf(m.sender), now);
    forall o ensures Get(s'.sequences, o) == Get(s'.watermarks, o) == Max(Wm(s1, o), Get(marks, o)) {
      ObserveMarksGet(s1.watermarks, marks - {""}, o);
      ObserveMarksGet(s1.sequences, marks - {""}, o);
      assert Get(s1.sequences, o) == Get(s1.watermarks, o);
    }
    AdvancedKeeps(s1, s');
  }

  lemma AdvancedGrown(s1: StoreState, s': StoreState)
    requires Valid(s1) && Advanced(s1, s')
    ensures Grown(s1, s')
  {
    AdvancedKeeps(s1, s');
  }

  lemma DeliverSound(sys: System, m: Message, now: Time)
    requires Invariant(sys) && m in sys.network
    ensures var s' := MergeSnapshot(sys.stores[m.receiver], m.snapshot, m.sender, now).0;
            StoreSound(s', sys.history) && forall o :: o != m.receiver ==> Wm(s', o) <= Authority(sys.stores, o)
  {
    assert MessageOk(sys, m);
    var s, rs, marks := sys.stores[m.receiver], Flatten(m.snapshot), m.snapshot.watermarks;
    assert AllWellFormed(rs);
    assert Get(marks, "") <= Authority(sys.stores, "");
    Delivered(s, m, now);
    var s1, s' := Merged(s, rs, SourceOf(m.sender), now), MergeSnapshot(s, m.snapshot, m.sender, now).0;
    MergeGrows(s, rs, SourceOf(m.sender), now);
    AdvancedGrown(s1, s');
    GrownTransitive(s, s1, s');
    forall o | o != m.receiver ensures Wm(s', o) <= Max(Wm(s, o), Get(marks, o)) && Wm(s', o) <= Authority(sys.stores, o) {
      MergeMarksBounded(s, rs, SourceOf(m.sender), now, marks, o);
      assert Wm(s, o) <= Authority(sys.stores, o) && Get(marks, o) <= Authority(sys.stores, o);
    }
    forall r | r in sys.history && r.Sequence() <= Wm(s', r.Origin()) ensures Covers(s', r) {
      DeliverCovers(sys, m, s, s', r);
    }
  }

  lemma CoveredBySuperseder(s': StoreState, q: Record, r: Record)
    requires Supersedes(q, r) && Covers(s', q)
    ensures Covers(s', r)
  {
    LeqTransitive(CoreOf(r), CoreOf(q), Lookup(s', KeyOf(q)).value);
  }

  lemma DeliverCovers(sys: System, m: Message, s: StoreState, s': StoreState, r: Record)
    requires Invariant(sys) && MessageOk(sys, m) && s == sys.stores[m.receiver] && Grown(s, s')
    requires forall o :: o != m.receiver ==> Wm(s', o) <= Max(Wm(s, o), Get(m.snapshot.watermarks, o))
    requires forall q :: q in Flatten(m.snapshot) ==> Covers(s', q)
    requires r in sys.history && r.Sequence() <= Wm(s', r.Origin())
    ensures Covers(s', r)
  {
    assert StoreSound(s, sys.history);
    assert r.Sequence() <= Authority(sys.stores, r.Origin());
    if r.Sequence() <= Wm(s, r.Origin()) {
      assert CoversCore(s, KeyOf(r), CoreOf(r));
    } else {
      assert Accounted(m, sys.history, r);
      var q :| q in sys.history && Supersedes(q, r) && (q in Flatten(m.snapshot) || q.Sequence() <= Get(m.since, q.Origin()));
      if q !in Flatten(m.snapshot) {
        assert Get(m.since, q.Origin()) <= Wm(s, q.Origin());
        assert CoversCore(s, KeyOf(q), CoreOf(q));
      }
      CoveredBySuperseder(s', q, r);
    }
  }

  lemma DeliverReplaceable(sys: System, m: Message, now: Time)
    requires Invariant(sys) && m in sys.network
    ensures Replaceable(sys, m.receiver, MergeSnapshot(sys.stores[m.receiver], m.snapshot, m.sender, now).0)
  {
    assert MessageOk(sys, m);
    var s, rs := sys.stores[m.receiver], Flatten(m.snapshot);
    assert AllWellFormed(rs);
    assert Get(m.snapshot.watermarks, "") <= Authority(sys.stores, "");
    DeliverSound(sys, m, now);
    Delivered(s, m, now);
    var s1, s' := Merged(s, rs, SourceOf(m.sender), now), MergeSnapshot(s, m.snapshot, m.sender, now).0;
    MergeGrows(s, rs, SourceOf(m.sender), now);
    AdvancedGrown(s1, s');
    GrownTransitive(s, s1, s');
    InitiallyStamped(sys, m.receiver);
    MergeStamps(s, rs, SourceOf(m.sender), now, sys.history, Wm(s, m.receiver));
    AdvancedKeeps(s1, s');
  }

  lemma InitiallyStamped(sys: System, id: string)
    requires Invariant(sys) && id in sys.stores
    ensures StampedFrom(sys.stores[id], sys.history, Wm(sys.stores[id], id))
    ensures forall x :: x in sys.history && x.Origin() == id ==> x.Sequence() <= Wm(sys.stores[id], id)
  {
    forall q | Holds(sys.stores[id], q) ensures Old(q, sys.history) {
      assert q in sys.history && SameVersion(q, q);
    }
    forall x | x in sys.history && x.Origin() == id ensures x.Sequence() <= Wm(sys.stores[id], id) {
      assert x.Sequence() <= Authority(sys.stores, x.Origin());
    }
  }

  /** A snapshot taken for a peer lists only held records, and every record
      it leaves out was at or below the quoted watermarks. */
  lemma PeerSnapshotMembers(listing: Snapshot, version: int, since: Marks, r: Record)
    requires WellFormed(r)
    ensures var sent := SnapshotForPeer(listing, version, since);
            && sent.watermarks == listing.watermarks
            && (r in Flatten(sent) ==> r in Flatten(listing))
            && (r in Flatten(listing) ==> r in Flatten(sent) || r.Sequence() <= Get(since, r.Origin()))
  {
    FlattenSince(listing, since);
    FilterMembers(Flatten(listing), since, r);
  }

  lemma SentAccounts(sys: System, m: Message, s: StoreState, r: Record)
    requires Invariant(sys) && s.origin in sys.stores && s == sys.stores[s.origin]
    requires forall q :: Holds(s, q) ==> q in Flatten(m.snapshot) || q.Sequence() <= Get(m.since, q.Origin())
    requires r in sys.history && r.Sequence() <= Wm(s, r.Origin())
    ensures Accounted(m, sys.history, r)
  {
    assert StoreSound(s, sys.history);
    assert Covers(s, r);
    var q := HeldRecord(s, KeyOf(r));
    assert q in sys.history && Supersedes(q, r);
  }

  lemma SentMessageOk(sys: System, a: Action)
    requires Invariant(sys) && a.Send? && Enabled(sys, a)
    ensures MessageOk(sys, Message(a.receiver, a.sender, a.since, SnapshotForPeer(a.listing, a.version, a.since)))
  {
    var m := Message(a.receiver, a.sender, a.since, SnapshotForPeer(a.listing, a.version, a.since));
    var s := sys.stores[a.sender];
    assert m.snapshot.watermarks == s.watermarks;
    forall q | Holds(s, q) ensures q in Flatten(m.snapshot) || q.Sequence() <= Get(m.since, q.Origin()) {
      PeerSnapshotMembers(a.listing, a.version, a.since, q);
    }
    forall r | r in Flatten(m.snapshot) ensures r in sys.history && r.Sequence() <= Get(m.snapshot.watermarks, r.Origin()) {
      FlattenSince(a.listing, a.since);
      FilterMembers(Flatten(a.listing), a.since, r);
      assert Holds(s, r);
    }
    forall r | r in sys.history && r.Sequence() <= Get(m.snapshot.watermarks, r.Origin()) ensures Accounted(m, sys.history, r) {
      SentAccounts(sys, m, s, r);
    }
  }

  lemma SendKeepsInvariant(sys: System, a: Action)
    requires Invariant(sys) && a.Send? && Enabled(sys, a)
    ensures Invariant(Step(sys, a))
  {
    SentMessageOk(sys, a);
    PostKeepsInvariant(sys, Message(a.receiver, a.sender, a.since, SnapshotForPeer(a.listing, a.version, a.since)));
  }

  lemma PostKeepsInvariant(sys: System, m: Message)
    requires Invariant(sys) && MessageOk(sys, m)
    ensures Invariant(sys.(network := sys.network + {m}))
  {
    var sys' := sys.(network := sys.network + {m});
    forall n | n in sys'.network ensures MessageOk(sys', n) { MessageStays(sys, sys', n); }
  }

  lemma MessageStays(sys: System, sys': System, n: Message)
    requires MessageOk(sys, n) && sys'.stores == sys.stores && sys'.history == sys.history
    ensures MessageOk(sys', n)
  {
  }

  lemma StepKeepsInvariant(sys: System, a: Action)
    requires Invariant(sys) && Enabled(sys, a)
    ensures Invariant(Step(sys, a))
  {
    match a
    case RecordAt(id, c, now) =>
      RecordIsLocal(sys.stores[id], c, now);
      LocalReplaceable(sys, id, RecordExperience(sys.stores[id], c, now));
      ReplaceKeepsInvariant(sys, id, RecordExperience(sys.stores[id], c, now));
    case PutFactAt(id, f, now) =>
      PutFactIsLocal(sys.stores[id], f, now);
      LocalReplaceable(sys, id, PutFact(sys.stores[id], f, now));
      ReplaceKeepsInvariant(sys, id, PutFact(sys.stores[id], f, now));
    case GetFactAt(id, scope, key) =>
      GetFactIsLocal(sys.stores[id], scope, key);
      LocalReplaceable(sys, id, GetFact(sys.stores[id], scope, key));
      ReplaceKeepsInvariant(sys, id, GetFact(sys.stores[id], scope, key));
    case AppendAt(id, d, ps, topic, turns, now) =>
      AppendIsLocal(sys.stores[id], d, ps, topic, turns, now);
      LocalReplaceable(sys, id, AppendTurns(sys.stores[id], d, ps, topic, turns, now));
      ReplaceKeepsInvariant(sys, id, AppendTurns(sys.stores[id], d, ps, topic, turns, now));
    case Send(_, _, _, _, _) => SendKeepsInvariant(sys, a);
    case Deliver(m, now) =>
      DeliverReplaceable(sys, m, now);
      ReplaceKeepsInvariant(sys, m.receiver, MergeSnapshot(sys.stores[m.receiver], m.snapshot, m.sender, now).0);
  }

  lemma InitialInvariant(sys: System)
    requires Initial(sys)
    ensures Invariant(sys)
  {
    forall id | id in sys.stores ensures Valid(sys.stores[id]) {
      assert forall r :: !Holds(NewStore(id), r);
    }
  }

  /** A run of the system from fresh stores. */
  ghost predicate Run(states: seq<System>, actions: seq<Action>)
  {
    && |states| == |actions| + 1 && Initial(states[0])
    && (forall i :: 0 <= i < |actions| ==> Enabled(states[i], actions[i]) && states[i + 1] == Step(states[i], actions[i]))
  }

  lemma {:induction false} RunInvariant(states: seq<System>, actions: seq<Action>, n: nat)
    requires Run(states, actions) && n < |states|
    ensures Invariant(states[n])
  {
    if n == 0 {
      InitialInvariant(states[0]);
    } else {
      RunInvariant(states, actions, n - 1);
      StepKeepsInvariant(states[n - 1], actions[n - 1]);
    }
  }
}
