/** What one merge step does to a store, seen through the covering order:
    the merged record's slot becomes a least upper bound, every other slot and
    every foreign stamp is kept, and a record already covered changes nothing. */
module MemoryMerge {
  import opened Options
  import opened MemoryRecords
  import opened MemoryStoreSpec

  /** A stamped record as the local writes produce it. */
  predicate WellFormed(r: Record)
  {
    && r.Origin() != "" && r.Sequence() > 0
    && match r
       case ExperienceRecord(e) => e.content.createdAt > 0
       case FactRecord(f) => f.key != "" && f.scope != "" && f.updatedAt > 0
       case PerformanceRecord(p) => p.nodeID != "" && p.model != "" && p.taskType != ""
       case DialogueRecord(d) => d.id != ""
  }

  /** The sequence counter and the watermark of an origin never differ. */
  ghost predicate InStep(s: StoreState)
  {
    forall o :: Get(s.sequences, o) == Get(s.watermarks, o)
  }

  /** Every map entry sits under its own record's key, and the fingerprint
      index lists exactly the stored experiences. */
  ghost predicate Indexed(s: StoreState)
  {
    && (forall k :: k in s.facts ==> FactMapKey(s.facts[k]) == k)
    && (forall k :: k in s.performances ==>
          PerformanceMapKey(s.performances[k].nodeID, s.performances[k].model, s.performances[k].taskType) == k)
    && (forall k :: k in s.dialogues ==> s.dialogues[k].id == k)
    && s.fingerprints == set e | e in s.experiences :: e.content
  }

  ghost predicate Valid(s: StoreState)
  {
    && s.origin != ""
    && InStep(s)
    && Indexed(s)
    && (forall r :: Holds(s, r) ==> WellFormed(r) && r.Sequence() <= Wm(s, r.Origin()))
  }

  /** What the store holds under a key. */
  function Lookup(s: StoreState, k: Key): Option<Core>
  {
    match k
    case ExperienceKey(c) => if c in s.fingerprints then Some(ExperienceCore) else None
    case FactKey(key) => if key in s.facts then Some(FactCoreOf(s.facts[key])) else None
    case PerformanceKey(key) => if key in s.performances then Some(PerformanceCore(s.performances[key].attempts)) else None
    case DialogueKey(id) => if id in s.dialogues then Some(DialogueCoreOf(s.dialogues[id])) else None
  }

  predicate CoversCore(s: StoreState, k: Key, c: Core)
  {
    var held := Lookup(s, k);
    held.Some? && Leq(c, held.value)
  }

  predicate Covers(s: StoreState, r: Record) { CoversCore(s, KeyOf(r), CoreOf(r)) }

  /** A slot of a store always holds a record, and a held record fills its slot. */
  lemma HeldRecord(s: StoreState, k: Key) returns (r: Record)
    requires Valid(s) && Lookup(s, k).Some?
    ensures Holds(s, r) && KeyOf(r) == k && Lookup(s, k) == Some(CoreOf(r))
  {
    match k
    case ExperienceKey(c) => var e :| e in s.experiences && e.content == c; r := ExperienceRecord(e);
    case FactKey(key) => r := FactRecord(s.facts[key]);
    case PerformanceKey(key) => r := PerformanceRecord(s.performances[key]);
    case DialogueKey(id) => r := DialogueRecord(s.dialogues[id]);
  }

  lemma HeldIsLookedUp(s: StoreState, r: Record)
    requires Valid(s) && Holds(s, r)
    ensures Lookup(s, KeyOf(r)) == Some(CoreOf(r)) && Covers(s, r)
  {
    LeqReflexive(CoreOf(r));
  }

  // ----- the three primitive changes -----

  /** `s'` differs from `s` at most in its counters, which have not gone back. */
  ghost predicate Advanced(s: StoreState, s': StoreState)
  {
    && s' == s.(sequences := s'.sequences, watermarks := s'.watermarks, peerWatermarks := s'.peerWatermarks)
    && InStep(s')
    && (forall o :: Wm(s, o) <= Wm(s', o))
  }

  lemma AdvancedKeeps(s: StoreState, s': StoreState)
    requires Valid(s) && Advanced(s, s')
    ensures Valid(s')
    ensures forall r :: Holds(s', r) <==> Holds(s, r)
    ensures forall k :: Lookup(s', k) == Lookup(s, k)
  {
    assert forall r :: Holds(s', r) <==> Holds(s, r);
    assert Indexed(s');
    forall r | Holds(s', r) ensures WellFormed(r) && r.Sequence() <= Wm(s', r.Origin()) {
      assert Wm(s, r.Origin()) <= Wm(s', r.Origin());
    }
  }

  lemma RaiseGet(m: Marks, origin: string, sequence: nat, o: string)
    ensures Get(Raise(m, origin, sequence), o) == if o == origin then Max(Get(m, o), sequence) else Get(m, o)
  {
  }

  lemma ObserveKeeps(s: StoreState, origin: string, sequence: nat)
    requires Valid(s) && origin != ""
    ensures var s' := Observe(s, origin, sequence);
            Advanced(s, s') && forall o :: Wm(s', o) == if o == origin then Max(Wm(s, o), sequence) else Wm(s, o)
  {
    var s' := Observe(s, origin, sequence);
    forall o
      ensures Get(s'.sequences, o) == Get(s'.watermarks, o) == if o == origin then Max(Wm(s, o), sequence) else Wm(s, o)
    {
      assert Get(s.sequences, o) == Get(s.watermarks, o);
      RaiseGet(s.watermarks, origin, sequence, o);
      RaiseGet(s.sequences, origin, sequence, o);
    }
  }

  lemma NextSequenceKeeps(s: StoreState, origin: string)
    requires Valid(s)
    ensures var s' := NextSequence(s, origin);
            Advanced(s, s') && forall o :: Wm(s', o) == if o == origin then Wm(s, o) + 1 else Wm(s, o)
  {
    assert Get(s.sequences, origin) == Get(s.watermarks, origin);
    var s' := NextSequence(s, origin);
    forall o ensures Get(s'.sequences, o) == Get(s'.watermarks, o) {
      assert Get(s.sequences, o) == Get(s.watermarks, o);
    }
  }

  /** Stores a record in its slot. */
  function Put(s: StoreState, r: Record): StoreState
  {
    match r
    case ExperienceRecord(e) =>
      s.(nextID := e.id, experiences := s.experiences + [e], fingerprints := s.fingerprints + {Fingerprint(e)})
    case FactRecord(f) => s.(facts := s.facts[FactMapKey(f) := f])
    case PerformanceRecord(p) => s.(performances := s.performances[PerformanceMapKey(p.nodeID, p.model, p.taskType) := p])
    case DialogueRecord(d) => s.(dialogues := s.dialogues[d.id := d])
  }

  lemma PutHolds(s: StoreState, r: Record)
    ensures Holds(Put(s, r), r)
    ensures forall q :: Holds(Put(s, r), q) ==> q == r || Holds(s, q)
  {
  }

  lemma PutIndexed(s: StoreState, r: Record)
    requires Indexed(s)
    ensures Indexed(Put(s, r))
  {
    if r.ExperienceRecord? {
      assert forall e :: e in s.experiences + [r.experience] <==> e in s.experiences || e == r.experience;
    }
  }

  lemma PutLookup(s: StoreState, r: Record, k: Key)
    ensures Lookup(Put(s, r), k) == if k == KeyOf(r) then Some(CoreOf(r)) else Lookup(s, k)
  {
  }

  lemma PutKeeps(s: StoreState, r: Record)
    requires Valid(s) && WellFormed(r) && r.Sequence() <= Wm(s, r.Origin())
    ensures Valid(Put(s, r))
    ensures Put(s, r).watermarks == s.watermarks && Put(s, r).origin == s.origin
  {
    PutHolds(s, r);
    PutIndexed(s, r);
    var s' := Put(s, r);
    assert s'.sequences == s.sequences && s'.watermarks == s.watermarks;
    forall q | Holds(s', q) ensures WellFormed(q) && q.Sequence() <= Wm(s', q.Origin()) {
      assert q == r || Holds(s, q);
    }
  }

  // ----- one merge step -----

  function JoinHeld(held: Option<Core>, c: Core): Core
  {
    match held
    case None => c
    case Some(h) => Join(h, c)
  }

  /** Same stamp, slot and content; hits, IDs and creation times may differ. */
  predicate SameVersion(q: Record, r: Record)
  {
    q.Origin() == r.Origin() && q.Sequence() == r.Sequence() && KeyOf(q) == KeyOf(r) && CoreOf(q) == CoreOf(r)
  }

  /** The record a merge leaves in the slot when `r` was news. */
  predicate Lands(s: StoreState, r: Record, q: Record)
  {
    && WellFormed(q) && KeyOf(q) == KeyOf(r) && CoreOf(q) == JoinHeld(Lookup(s, KeyOf(r)), CoreOf(r))
    && (SameVersion(q, r) ||
        (q.Origin() == s.origin && q.Sequence() == Wm(Observe(s, r.Origin(), r.Sequence()), s.origin) + 1))
  }

  /** Every merge is one of three things: a watermark advance when the record
      was covered, storing it as it came, or storing a join under a fresh own stamp. */
  ghost predicate MergeShape(s: StoreState, r: Record, s': StoreState)
  {
    var s1 := Observe(s, r.Origin(), r.Sequence());
    if Covers(s, r) then s' == s1
    else exists q ::
      && Lands(s, r, q)
      && s' == Put(if SameVersion(q, r) then s1 else NextSequence(s1, s.origin), q)
  }

  lemma ExperienceShape(s: StoreState, e: Experience, source: string, now: Time)
    requires Valid(s) && WellFormed(ExperienceRecord(e))
    ensures MergeShape(s, ExperienceRecord(e), MergeExperience(s, e, source, now))
  {
    var q := ExperienceRecord(e.(id := s.nextID + 1));
    assert Covers(s, ExperienceRecord(e)) || Lands(s, ExperienceRecord(e), q);
  }

  /** Losing to the current fact is exactly being covered by it. */
  lemma FactLosesIffCovered(f: Fact, current: Fact)
    ensures FactLoses(f, current) <==> Leq(FactCoreOf(f), FactCoreOf(current))
  {
    BeatsIsStrictTotalOrder(FactCoreOf(f), FactCoreOf(current));
  }

  lemma FactShape(s: StoreState, f: Fact, source: string, now: Time)
    requires Valid(s) && WellFormed(FactRecord(f))
    ensures MergeShape(s, FactRecord(f), MergeFact(s, f, source, now))
  {
    var r := FactRecord(f);
    var g := NormalizeFact(f, now);
    var key := FactMapKey(f);
    var s1 := Observe(s, f.origin, f.sequence);
    assert Observe(s1, f.origin, f.sequence) == s1;
    if key in s.facts {
      FactLosesIffCovered(g, s.facts[key]);
      JoinIsLeastUpperBound(FactKey(key), FactCoreOf(s.facts[key]), FactCoreOf(f));
    }
    if !Covers(s, r) {
      var q := FactRecord(if key in s.facts then Inherit(g, s.facts[key]) else g);
      assert Lands(s, r, q);
      assert MergeFact(s, f, source, now) == Put(s1, q);
    }
  }

  lemma PerformanceShape(s: StoreState, p: Performance, source: string)
    requires Valid(s) && WellFormed(PerformanceRecord(p))
    ensures MergeShape(s, PerformanceRecord(p), MergePerformance(s, p, source))
  {
    assert Covers(s, PerformanceRecord(p)) || Lands(s, PerformanceRecord(p), PerformanceRecord(p));
  }

  lemma UtterancesOfConcat(a: seq<Turn>, b: seq<Turn>)
    ensures Utterances(a + b) == Utterances(a) + Utterances(b)
  {
    assert forall t :: t in a + b <==> t in a || t in b;
  }

  lemma {:induction false} MergeTurnsContents(current: seq<Turn>, incoming: seq<Turn>)
    ensures Utterances(MergeTurns(current, incoming)) == Utterances(current) + Utterances(incoming)
    ensures Utterances(incoming) <= Utterances(current) ==> MergeTurns(current, incoming) == current
    decreases |incoming|
  {
    if incoming != [] {
      var t, rest := incoming[0], incoming[1..];
      assert incoming == [t] + rest;
      UtterancesOfConcat([t], rest);
      UtterancesOfConcat(current, [t]);
      assert Utterances([t]) == {UtteranceOf(t)};
      MergeTurnsContents(if UtteranceOf(t) in Utterances(current) then current else current + [t], rest);
    }
  }

  lemma {:induction false} MergeParticipantsContents(current: seq<string>, incoming: seq<string>)
    ensures Members(MergeParticipants(current, incoming)) == Members(current) + Members(incoming)
    ensures Members(incoming) <= Members(current) ==> MergeParticipants(current, incoming) == current
    decreases |incoming|
  {
    if incoming != [] {
      var p, rest := incoming[0], incoming[1..];
      var next := if p in current then current else current + [p];
      MergeParticipantsContents(next, rest);
      assert incoming == [p] + rest;
      assert Members(incoming) == {p} + Members(rest);
      assert Members(next) == Members(current) + {p};
    }
  }

  lemma MergedDialogueCore(current: Dialogue, incoming: Dialogue)
    ensures DialogueCoreOf(MergedDialogue(current, incoming)) == Join(DialogueCoreOf(current), DialogueCoreOf(incoming))
    ensures MergedDialogue(current, incoming) == current <==> Leq(DialogueCoreOf(incoming), DialogueCoreOf(current))
  {
    MergeTurnsContents(current.turns, incoming.turns);
    MergeParticipantsContents(current.participants, incoming.participants);
    JoinIsLeastUpperBound(DialogueKey(""), DialogueCoreOf(current), DialogueCoreOf(incoming));
  }

  /** A dialogue that brings news to a known one is joined and restamped. */
  lemma RestampedDialogue(s: StoreState, d: Dialogue, source: string, q: Record)
    requires Valid(s) && WellFormed(DialogueRecord(d)) && d.id in s.dialogues && !Covers(s, DialogueRecord(d))
    requires q == DialogueRecord(MergedDialogue(s.dialogues[d.id], d).(origin := s.origin, sequence := Wm(Observe(s, d.origin, d.sequence), s.origin) + 1))
    ensures MergeDialogue(s, d, source) == Put(NextSequence(Observe(s, d.origin, d.sequence), s.origin), q)
    ensures Lands(s, DialogueRecord(d), q) && !SameVersion(q, DialogueRecord(d))
  {
    MergedDialogueCore(s.dialogues[d.id], d);
    var s1 := Observe(s, d.origin, d.sequence);
    ObserveKeeps(s, d.origin, d.sequence);
    assert Get(s1.sequences, s.origin) == Get(s1.watermarks, s.origin);
    assert Wm(s1, d.origin) >= d.sequence;
    assert s.dialogues[d.id].id == d.id;
  }

  lemma DialogueShape(s: StoreState, d: Dialogue, source: string)
    requires Valid(s) && WellFormed(DialogueRecord(d))
    ensures MergeShape(s, DialogueRecord(d), MergeDialogue(s, d, source))
  {
    var r := DialogueRecord(d);
    if d.id !in s.dialogues {
      assert Lands(s, r, r);
    } else {
      MergedDialogueCore(s.dialogues[d.id], d);
      if !Covers(s, r) {
        var merged := MergedDialogue(s.dialogues[d.id], d);
        RestampedDialogue(s, d, source,
                          DialogueRecord(merged.(origin := s.origin, sequence := Wm(Observe(s, d.origin, d.sequence), s.origin) + 1)));
      }
    }
  }

  lemma RecordShape(s: StoreState, r: Record, source: string, now: Time)
    requires Valid(s) && WellFormed(r)
    ensures MergeShape(s, r, MergeRecord(s, r, source, now))
  {
    match r
    case ExperienceRecord(e) => ExperienceShape(s, e, source, now);
    case FactRecord(f) => FactShape(s, f, source, now);
    case PerformanceRecord(p) => PerformanceShape(s, p, source);
    case DialogueRecord(d) => DialogueShape(s, d, source);
  }

  ghost predicate MarksAfter(s: StoreState, r: Record, s': StoreState)
  {
    && (forall o :: o != s.origin ==> Wm(s', o) == if o == r.Origin() then Max(Wm(s, o), r.Sequence()) else Wm(s, o))
    && Wm(s', s.origin) >= Wm(s, s.origin)
    && (r.Origin() == s.origin ==> Wm(s', s.origin) >= r.Sequence())
  }

  /** A record of the new store is an old one, the merged one, or freshly
      stamped by the store itself. */
  ghost predicate RecordsAfter(s: StoreState, r: Record, s': StoreState)
  {
    forall q :: Holds(s', q) ==>
      || Holds(s, q)
      || SameVersion(q, r)
      || (q.Origin() == s.origin && Wm(s, s.origin) < q.Sequence() <= Wm(s', s.origin) &&
          (r.Origin() == s.origin ==> r.Sequence() < q.Sequence()))
  }

  /** Storing the landed record after its stamp was observed or issued. */
  lemma LandsEffect(s: StoreState, r: Record, q: Record, s2: StoreState)
    requires Valid(s2) && s2.origin == s.origin && WellFormed(r) && WellFormed(q)
    requires MarksAfter(s, r, s2)
    requires SameVersion(q, r) ||
             (q.Origin() == s.origin && q.Sequence() == Wm(s2, s.origin) > Wm(s, s.origin) &&
              (r.Origin() == s.origin ==> r.Sequence() < q.Sequence()))
    requires forall x :: Holds(s2, x) <==> Holds(s, x)
    ensures Valid(Put(s2, q)) && MarksAfter(s, r, Put(s2, q)) && RecordsAfter(s, r, Put(s2, q))
  {
    assert q.Sequence() <= Wm(s2, q.Origin());
    PutKeeps(s2, q);
    PutHolds(s2, q);
    var s' := Put(s2, q);
    assert forall o :: Wm(s', o) == Wm(s2, o);
    forall x | Holds(s', x) && !Holds(s, x)
      ensures SameVersion(x, r) ||
              (x.Origin() == s.origin && Wm(s, s.origin) < x.Sequence() <= Wm(s', s.origin) &&
               (r.Origin() == s.origin ==> r.Sequence() < x.Sequence()))
    {
      assert x == q || Holds(s2, x);
    }
  }

  ghost predicate MergeEffect(s: StoreState, r: Record, s': StoreState)
  {
    && Valid(s') && s'.origin == s.origin
    && (forall k :: Lookup(s', k) == if k == KeyOf(r) then Some(JoinHeld(Lookup(s, k), CoreOf(r))) else Lookup(s, k))
    && MarksAfter(s, r, s') && RecordsAfter(s, r, s')
    && (Covers(s, r) ==> s' == Observe(s, r.Origin(), r.Sequence()))
  }

  lemma CoveredEffect(s: StoreState, r: Record)
    requires Valid(s) && WellFormed(r) && Covers(s, r)
    ensures MergeEffect(s, r, Observe(s, r.Origin(), r.Sequence()))
  {
    ObserveKeeps(s, r.Origin(), r.Sequence());
    AdvancedKeeps(s, Observe(s, r.Origin(), r.Sequence()));
    JoinIsLeastUpperBound(KeyOf(r), Lookup(s, KeyOf(r)).value, CoreOf(r));
  }

  lemma NewsEffect(s: StoreState, r: Record, q: Record, s2: StoreState)
    requires Valid(s) && WellFormed(r) && !Covers(s, r) && Lands(s, r, q)
    requires s2 == var s1 := Observe(s, r.Origin(), r.Sequence()); if SameVersion(q, r) then s1 else NextSequence(s1, s.origin)
    ensures MergeEffect(s, r, Put(s2, q))
  {
    var s1 := Observe(s, r.Origin(), r.Sequence());
    ObserveKeeps(s, r.Origin(), r.Sequence());
    AdvancedKeeps(s, s1);
    NextSequenceKeeps(s1, s.origin);
    AdvancedKeeps(s1, NextSequence(s1, s.origin));
    LandsEffect(s, r, q, s2);
    forall k ensures Lookup(Put(s2, q), k) == if k == KeyOf(r) then Some(JoinHeld(Lookup(s, k), CoreOf(r))) else Lookup(s, k) {
      PutLookup(s2, q, k);
    }
  }

  /** The effect of merging one well-formed record. */
  lemma MergeRecordEffect(s: StoreState, r: Record, source: string, now: Time)
    requires Valid(s) && WellFormed(r)
    ensures MergeEffect(s, r, MergeRecord(s, r, source, now))
  {
    RecordShape(s, r, source, now);
    ShapeEffect(s, r, MergeRecord(s, r, source, now));
  }

  lemma ShapeEffect(s: StoreState, r: Record, s': StoreState)
    requires Valid(s) && WellFormed(r) && MergeShape(s, r, s')
    ensures MergeEffect(s, r, s')
  {
    if Covers(s, r) {
      CoveredEffect(s, r);
    } else {
      var s1 := Observe(s, r.Origin(), r.Sequence());
      var q :| Lands(s, r, q) && s' == Put(if SameVersion(q, r) then s1 else NextSequence(s1, s.origin), q);
      NewsEffect(s, r, q, if SameVersion(q, r) then s1 else NextSequence(s1, s.origin));
    }
  }
}
