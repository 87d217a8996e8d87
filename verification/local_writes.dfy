/** The four local writes: each stores records under fresh own stamps, and each
    keeps covering what it replaces -- for facts and dialogues exactly when the
    clock has not gone back behind the version being replaced. */
module LocalWrites {
  import opened Options
  import opened MemoryRecords
  import opened MemoryStoreSpec
  import opened MemoryMerge
  import opened SnapshotMerge

  ghost function Held(s: StoreState): iset<Record> { iset r | Holds(s, r) }

  /** One local write: only own stamps are issued, each once, and nothing the
      store covered is lost. */
  ghost predicate LocalStep(s: StoreState, s': StoreState)
  {
    && Valid(s') && Grown(s, s')
    && (forall o :: o != s.origin ==> Wm(s', o) == Wm(s, o))
    && StampedFrom(s', Held(s), Wm(s, s.origin))
  }

  lemma HeldIsOld(s: StoreState, r: Record)
    requires Holds(s, r)
    ensures Old(r, Held(s))
  {
    assert r in Held(s) && SameVersion(r, r);
  }

  lemma OldIsBelow(s: StoreState, q: Record)
    requires Valid(s) && Old(q, Held(s))
    ensures q.Origin() == s.origin ==> q.Sequence() <= Wm(s, s.origin)
  {
  }

  /** `q` carries the newest own stamp of `s1`, issued since `s`. */
  ghost predicate FreshFor(s: StoreState, s1: StoreState, q: Record)
  {
    && Advanced(s, s1)
    && (forall o :: o != s.origin ==> Wm(s1, o) == Wm(s, o))
    && WellFormed(q) && q.Origin() == s.origin && Wm(s, s.origin) < q.Sequence() == Wm(s1, s.origin)
  }

  /** Storing a fresh record is a local step when it covers its slot. */
  lemma PutFresh(s: StoreState, s1: StoreState, q: Record)
    requires Valid(s) && FreshFor(s, s1, q)
    requires var held := Lookup(s, KeyOf(q)); held.Some? ==> Leq(held.value, CoreOf(q))
    ensures LocalStep(s, Put(s1, q))
    ensures forall x :: Holds(Put(s1, q), x) ==> x == q || Holds(s, x)
    ensures forall k :: k != KeyOf(q) ==> Lookup(Put(s1, q), k) == Lookup(s, k)
  {
    var s' := Put(s1, q);
    AdvancedKeeps(s, s1);
    PutKeeps(s1, q);
    PutHolds(s1, q);
    forall k ensures Lookup(s', k) == if k == KeyOf(q) then Some(CoreOf(q)) else Lookup(s, k) { PutLookup(s1, q, k); }
    forall k, c | CoversCore(s, k, c) ensures CoversCore(s', k, c) {
      if k == KeyOf(q) { LeqTransitive(c, Lookup(s, k).value, CoreOf(q)); }
    }
    assert Grown(s, s') by { assert forall o :: Wm(s', o) == Wm(s1, o); }
    forall x | Holds(s', x) ensures x == q || Old(x, Held(s)) {
      if x != q { HeldIsOld(s, x); }
    }
  }

  /** A record of `s'` that is not the new one was there after the first step. */
  lemma FreshAgainStamps(s: StoreState, m: StoreState, s': StoreState, q: Record)
    requires Valid(m) && m.origin == s'.origin == s.origin && StampedFrom(m, Held(s), Wm(s, s.origin))
    requires q.Origin() == s.origin && Wm(m, m.origin) < q.Sequence() <= Wm(s', s.origin)
    requires forall x :: Holds(s', x) ==> x == q || Holds(m, x)
    ensures StampedFrom(s', Held(s), Wm(s, s.origin))
  {
    forall x | Holds(m, x) && x.Origin() == m.origin ensures x.Sequence() < q.Sequence() {}
  }

  /** A local step followed by one more fresh record is a local step. */
  lemma PutFreshAgain(s: StoreState, m: StoreState, s1: StoreState, q: Record)
    requires Valid(s) && LocalStep(s, m) && FreshFor(m, s1, q)
    requires var held := Lookup(m, KeyOf(q)); held.Some? ==> Leq(held.value, CoreOf(q))
    ensures LocalStep(s, Put(s1, q))
  {
    var s' := Put(s1, q);
    PutFresh(m, s1, q);
    GrownTransitive(s, m, s');
    forall o | o != s.origin ensures Wm(s', o) == Wm(s, o) { assert Wm(m, o) == Wm(s, o); }
    assert Wm(s', s.origin) == Wm(s1, s.origin);
    FreshAgainStamps(s, m, s', q);
  }

  lemma FreshAfterNext(s: StoreState)
    requires Valid(s)
    ensures var s1 := NextSequence(s, s.origin);
            Advanced(s, s1) && Wm(s1, s.origin) == Wm(s, s.origin) + 1 && forall o :: o != s.origin ==> Wm(s1, o) == Wm(s, o)
  {
    NextSequenceKeeps(s, s.origin);
  }

  lemma PerformanceKeyOfNext(s: StoreState, c: Content, key: string, p: Performance)
    requires Valid(s) && c.nodeID != "" && c.model != ""
    requires key == PerformanceMapKey(c.nodeID, c.model, c.taskType)
    requires p == PerformanceAfter(if key in s.performances then Some(s.performances[key]) else None, c)
    ensures PerformanceMapKey(p.nodeID, p.model, p.taskType) == key
    ensures p.nodeID != "" && p.model != "" && p.taskType != ""
    ensures key in s.performances ==> p.attempts == s.performances[key].attempts + 1
  {
    if key in s.performances {
      var r := PerformanceRecord(s.performances[key]);
      assert Holds(s, r) && WellFormed(r);
    } else {
      LowerTwice(TaskTypeOf(c.taskType));
    }
  }

  lemma LowerTwice(s: string)
    ensures ToLower(ToLower(s)) == ToLower(s)
  {
  }

  lemma UpdatePerformanceIsLocal(s: StoreState, m: StoreState, c: Content)
    requires Valid(s) && LocalStep(s, m) && c.nodeID != "" && c.model != ""
    ensures LocalStep(s, UpdatePerformance(m, c))
  {
    var key := PerformanceMapKey(c.nodeID, c.model, c.taskType);
    var p := PerformanceAfter(if key in m.performances then Some(m.performances[key]) else None, c);
    PerformanceKeyOfNext(m, c, key, p);
    FreshAfterNext(m);
    var m1 := NextSequence(m, m.origin);
    var q := PerformanceRecord(p.(origin := m.origin, sequence := Wm(m1, m.origin)));
    PutFreshAgain(s, m, m1, q);
    assert UpdatePerformance(m, c) == Put(m1, q);
  }

  lemma StoreExperienceShape(s: StoreState, c: Content, q: Record)
    requires q == ExperienceRecord(Experience(s.nextID + 1, s.origin, Wm(NextSequence(s, s.origin), s.origin), c))
    ensures StoreExperience(s, c) == Put(NextSequence(s, s.origin), q)
  {
  }

  lemma StoreExperienceIsLocal(s: StoreState, c: Content)
    requires Valid(s) && c.createdAt > 0
    ensures LocalStep(s, StoreExperience(s, c))
  {
    FreshAfterNext(s);
    var s1 := NextSequence(s, s.origin);
    var q := ExperienceRecord(Experience(s.nextID + 1, s.origin, Wm(s1, s.origin), c));
    StoreExperienceShape(s, c, q);
    PutFresh(s, s1, q);
  }

  lemma RecordIsLocal(s: StoreState, content: Content, now: Time)
    requires Valid(s) && now > 0
    ensures LocalStep(s, RecordExperience(s, content, now))
  {
    var c := Prepare(content, now);
    StoreExperienceIsLocal(s, c);
    if c.nodeID != "" && c.model != "" { UpdatePerformanceIsLocal(s, StoreExperience(s, c), c); }
  }

  /** The clock condition of PutFact: the previous fact does not beat the new one. */
  predicate FactClockOk(s: StoreState, f: Fact, now: Time)
  {
    var key := FactMapKey(f);
    key in s.facts ==> !Beats(FactCoreOf(s.facts[key]), FactCoreOf(NewFact(s, f, now)))
  }

  lemma PutFactShape(s: StoreState, f: Fact, now: Time)
    requires Valid(s) && f.key != "" && now > 0
    ensures var s1 := NextSequence(s, s.origin);
            var q := FactRecord(NewFact(s, f, now).(origin := s.origin, sequence := Wm(s1, s.origin)));
            PutFact(s, f, now) == Put(s1, q) && FreshFor(s, s1, q) && KeyOf(q) == FactKey(FactMapKey(f)) &&
            CoreOf(q) == FactCoreOf(NewFact(s, f, now))
  {
    FreshAfterNext(s);
  }

  lemma PutFactIsLocal(s: StoreState, f: Fact, now: Time)
    requires Valid(s) && f.key != "" && now > 0 && FactClockOk(s, f, now)
    ensures LocalStep(s, PutFact(s, f, now))
  {
    PutFactShape(s, f, now);
    var s1 := NextSequence(s, s.origin);
    PutFresh(s, s1, FactRecord(NewFact(s, f, now).(origin := s.origin, sequence := Wm(s1, s.origin))));
  }

  lemma GetFactIsLocal(s: StoreState, scope: string, key: string)
    requires Valid(s) && ScopeOf(scope) + "|" + key in s.facts
    ensures LocalStep(s, GetFact(s, scope, key))
  {
    var mapKey := ScopeOf(scope) + "|" + key;
    var current := s.facts[mapKey];
    assert Holds(s, FactRecord(current));
    FreshAfterNext(s);
    LeqReflexive(FactCoreOf(current));
    var s1 := NextSequence(s, s.origin);
    PutFresh(s, s1, FactRecord(current.(hits := current.hits + 1, origin := s.origin, sequence := Wm(s1, s.origin))));
  }

  lemma {:induction false} NextSequencesKeeps(s: StoreState, count: nat)
    requires Valid(s)
    ensures var s1 := NextSequences(s, s.origin, count);
            Advanced(s, s1) && Wm(s1, s.origin) == Wm(s, s.origin) + count && forall o :: o != s.origin ==> Wm(s1, o) == Wm(s, o)
  {
    if count > 0 {
      var m := NextSequences(s, s.origin, count - 1);
      NextSequencesKeeps(s, count - 1);
      AdvancedKeeps(s, m);
      FreshAfterNext(m);
      var s1 := NextSequence(m, s.origin);
      forall o ensures Wm(s, o) <= Wm(s1, o) { assert Wm(s, o) <= Wm(m, o) <= Wm(s1, o); }
    }
  }

  /** The dialogue AppendTurns stores. */
  function AppendedDialogue(s: StoreState, id: string, participants: seq<string>, topic: string, turns: seq<Turn>, now: Time): Dialogue
  {
    var base := if id in s.dialogues then s.dialogues[id] else Dialogue(id, "", 0, participants, topic, [], now, 0);
    base.(participants := MergeParticipants(base.participants, participants),
          turns := base.turns + FillTimes(turns, now), updatedAt := now,
          origin := s.origin, sequence := Wm(s, s.origin) + |turns|)
  }

  lemma AppendShape(s: StoreState, id: string, participants: seq<string>, topic: string, turns: seq<Turn>, now: Time)
    requires Valid(s) && id != "" && turns != []
    ensures var s1 := NextSequences(s, s.origin, |turns|);
            var q := DialogueRecord(AppendedDialogue(s, id, participants, topic, turns, now));
            AppendTurns(s, id, participants, topic, turns, now) == Put(s1, q) && FreshFor(s, s1, q) && KeyOf(q) == DialogueKey(id)
  {
    NextSequencesKeeps(s, |turns|);
    assert id in s.dialogues ==> s.dialogues[id].id == id;
    AppendIsPut(s, NextSequences(s, s.origin, |turns|), id, participants, topic, turns, now);
  }

  lemma AppendIsPut(s: StoreState, s1: StoreState, id: string, participants: seq<string>, topic: string, turns: seq<Turn>, now: Time)
    requires id != "" && turns != [] && (id in s.dialogues ==> s.dialogues[id].id == id)
    requires s1 == NextSequences(s, s.origin, |turns|) && s1.dialogues == s.dialogues
    requires Wm(s1, s.origin) == Wm(s, s.origin) + |turns|
    ensures AppendTurns(s, id, participants, topic, turns, now) == Put(s1, DialogueRecord(AppendedDialogue(s, id, participants, topic, turns, now)))
  {
  }

  /** The appended dialogue covers the old one exactly when the clock did not go back. */
  lemma AppendCovers(s: StoreState, id: string, participants: seq<string>, topic: string, turns: seq<Turn>, now: Time)
    requires id in s.dialogues
    ensures Leq(DialogueCoreOf(s.dialogues[id]), DialogueCoreOf(AppendedDialogue(s, id, participants, topic, turns, now)))
            <==> s.dialogues[id].updatedAt <= now
  {
    MergeParticipantsContents(s.dialogues[id].participants, participants);
    UtterancesOfConcat(s.dialogues[id].turns, FillTimes(turns, now));
  }

  lemma AppendIsLocal(s: StoreState, id: string, participants: seq<string>, topic: string, turns: seq<Turn>, now: Time)
    requires Valid(s) && id != "" && turns != []
    requires id in s.dialogues ==> s.dialogues[id].updatedAt <= now
    ensures LocalStep(s, AppendTurns(s, id, participants, topic, turns, now))
  {
    AppendShape(s, id, participants, topic, turns, now);
    if id in s.dialogues { AppendCovers(s, id, participants, topic, turns, now); }
    PutFresh(s, NextSequences(s, s.origin, |turns|), DialogueRecord(AppendedDialogue(s, id, participants, topic, turns, now)));
  }
}
