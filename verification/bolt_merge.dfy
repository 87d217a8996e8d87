/** The persistent store's merge transactions, and their agreement with the
    in-memory store. Buckets are maps; a record stands for its own encoding. */
module BoltMerge {
  import opened Options
  import opened MemoryRecords
  import opened MemoryStoreSpec
  import opened MemoryMerge

  // ----- specification: only the counters are kept differently -----

  /** updateRecordWatermark raises the watermark key and leaves the sequence key. */
  function BoltObserve(b: StoreState, origin: string, sequence: nat): StoreState
  {
    if origin == "" || sequence == 0 then b else b.(watermarks := Raise(b.watermarks, origin, sequence))
  }

  function BoltMergeExperience(b: StoreState, e: Experience, source: string, now: Time): StoreState
  {
    var b1 := BoltObserve(b, e.origin, e.sequence);
    if Fingerprint(e) in b1.fingerprints then b1
    else
      var b2 := if Unstamped(e.origin, e.sequence) then NextSequence(b1, source) else b1;
      var stamped := if Unstamped(e.origin, e.sequence) then e.(origin := source, sequence := Wm(b2, source)) else e;
      var timed := if e.content.createdAt == 0 then stamped.(content := e.content.(createdAt := now)) else stamped;
      b2.(nextID := b.nextID + 1, experiences := b2.experiences + [timed.(id := b.nextID + 1)],
          fingerprints := b2.fingerprints + {Fingerprint(e)})
  }

  function BoltMergeFact(b: StoreState, fact: Fact, source: string, now: Time): StoreState
  {
    var f := NormalizeFact(fact, now);
    var key := FactMapKey(f);
    var b1 := BoltObserve(b, f.origin, f.sequence);
    if key in b1.facts && FactLoses(f, b1.facts[key]) then b1
    else
      var g := if key in b1.facts then Inherit(f, b1.facts[key]) else f;
      var b2 := if Unstamped(f.origin, f.sequence) then NextSequence(b1, source) else b1;
      b2.(facts := b2.facts[key := if Unstamped(f.origin, f.sequence) then g.(origin := source, sequence := Wm(b2, source)) else g])
  }

  function BoltMergePerformance(b: StoreState, incoming: Performance, source: string): StoreState
  {
    if incoming.nodeID == "" || incoming.model == "" then b
    else
      var p := incoming.(taskType := TaskTypeOf(incoming.taskType));
      var key := PerformanceMapKey(p.nodeID, p.model, p.taskType);
      if key in b.performances && b.performances[key].attempts >= p.attempts then BoltObserve(b, p.origin, p.sequence)
      else
        var b1 := if Unstamped(p.origin, p.sequence) then NextSequence(b, source) else BoltObserve(b, p.origin, p.sequence);
        b1.(performances := b1.performances[key := if Unstamped(p.origin, p.sequence) then p.(origin := source, sequence := Wm(b1, source)) else p])
  }

  function BoltMergeDialogue(b: StoreState, d: Dialogue, source: string): StoreState
  {
    if d.id == "" then b
    else
      var b1 := BoltObserve(b, d.origin, d.sequence);
      if d.id !in b1.dialogues then
        if Unstamped(d.origin, d.sequence) then
          var b2 := NextSequence(b1, source);
          b2.(dialogues := b2.dialogues[d.id := d.(origin := source, sequence := Wm(b2, source))])
        else b1.(dialogues := b1.dialogues[d.id := d])
      else
        var merged := MergedDialogue(b1.dialogues[d.id], d);
        if merged == b1.dialogues[d.id] then
          if Unstamped(merged.origin, merged.sequence) then
            var b2 := NextSequence(b1, source);
            b2.(dialogues := b2.dialogues[d.id := merged.(origin := source, sequence := Wm(b2, source))])
          else b1
        else
          var b2 := NextSequence(b1, b.origin);
          b2.(dialogues := b2.dialogues[d.id := merged.(origin := b.origin, sequence := Wm(b2, b.origin))])
  }

  function BoltMergeRecord(b: StoreState, r: Record, source: string, now: Time): StoreState
  {
    match r
    case ExperienceRecord(e) => BoltMergeExperience(b, e, source, now)
    case FactRecord(f) => BoltMergeFact(b, f, source, now)
    case PerformanceRecord(p) => BoltMergePerformance(b, p, source)
    case DialogueRecord(d) => BoltMergeDialogue(b, d, source)
  }

  function BoltMergeRecords(b: StoreState, rs: seq<Record>, source: string, now: Time): StoreState
    decreases |rs|
  {
    if rs == [] then b else BoltMergeRecords(BoltMergeRecord(b, rs[0], source, now), rs[1..], source, now)
  }

  function BoltObserveMarks(b: StoreState, marks: Marks): StoreState
  {
    b.(watermarks := MergeMarks(b.watermarks, marks - {""}))
  }

  /** MergeSnapshotFrom: a fact without a key undoes the first transaction and
      ends the merge; otherwise the records in order, then the snapshot's
      watermarks and what the peer is known to have. */
  function BoltMergeSnapshot(b: StoreState, sn: Snapshot, source: string, now: Time): (StoreState, bool)
  {
    if exists i :: 0 <= i < |sn.facts| && sn.facts[i].key == "" then (b, false)
    else
      var b1 := BoltMergeRecords(b, Flatten(sn), SourceOf(source), now);
      (NotePeer(BoltObserveMarks(b1, sn.watermarks), SourceOf(source), sn.watermarks), true)
  }

  // ----- agreement -----

  /** Same records and watermarks; the bolt sequence key may lag behind. */
  ghost predicate Agree(m: StoreState, b: StoreState)
  {
    && b == m.(sequences := b.sequences)
    && InStep(m)
    && (forall o :: Get(b.sequences, o) <= Get(b.watermarks, o))
  }

  lemma ObserveAgrees(m: StoreState, b: StoreState, origin: string, sequence: nat)
    requires Agree(m, b)
    ensures Agree(Observe(m, origin, sequence), BoltObserve(b, origin, sequence))
  {
    if origin != "" && sequence != 0 {
      forall o ensures Get(Raise(m.sequences, origin, sequence), o) == Get(Raise(m.watermarks, origin, sequence), o) {
        assert Get(m.sequences, o) == Get(m.watermarks, o);
        RaiseGet(m.sequences, origin, sequence, o);
        RaiseGet(m.watermarks, origin, sequence, o);
      }
      forall o ensures Get(b.sequences, o) <= Get(Raise(b.watermarks, origin, sequence), o) {
        assert Get(b.sequences, o) <= Get(b.watermarks, o);
        RaiseGet(b.watermarks, origin, sequence, o);
      }
    }
  }

  lemma NextAgrees(m: StoreState, b: StoreState, origin: string)
    requires Agree(m, b)
    ensures Agree(NextSequence(m, origin), NextSequence(b, origin))
  {
    assert Get(m.sequences, origin) == Get(m.watermarks, origin) == Get(b.watermarks, origin) >= Get(b.sequences, origin);
    var m', b' := NextSequence(m, origin), NextSequence(b, origin);
    forall o ensures Get(m'.sequences, o) == Get(m'.watermarks, o) && Get(b'.sequences, o) <= Get(b'.watermarks, o) {
      assert Get(m.sequences, o) == Get(m.watermarks, o) && Get(b.sequences, o) <= Get(b.watermarks, o);
    }
  }

  lemma ExperienceAgrees(m: StoreState, b: StoreState, e: Experience, source: string, now: Time)
    requires Agree(m, b)
    ensures Agree(MergeExperience(m, e, source, now), BoltMergeExperience(b, e, source, now))
  {
    ObserveAgrees(m, b, e.origin, e.sequence);
    NextAgrees(Observe(m, e.origin, e.sequence), BoltObserve(b, e.origin, e.sequence), source);
  }

  lemma FactAgrees(m: StoreState, b: StoreState, f: Fact, source: string, now: Time)
    requires Agree(m, b) && f.key != ""
    ensures Agree(MergeFact(m, f, source, now), BoltMergeFact(b, f, source, now))
  {
    var m1, b1 := Observe(m, f.origin, f.sequence), BoltObserve(b, f.origin, f.sequence);
    ObserveAgrees(m, b, f.origin, f.sequence);
    NextAgrees(m1, b1, source);
    ObserveTwice(m, f.origin, f.sequence);
  }

  lemma ObserveTwice(s: StoreState, origin: string, sequence: nat)
    ensures Observe(Observe(s, origin, sequence), origin, sequence) == Observe(s, origin, sequence)
  {
  }

  lemma PerformanceAgrees(m: StoreState, b: StoreState, p: Performance, source: string)
    requires Agree(m, b)
    ensures Agree(MergePerformance(m, p, source), BoltMergePerformance(b, p, source))
  {
    ObserveAgrees(m, b, p.origin, p.sequence);
    NextAgrees(m, b, source);
  }

  /** Dialogues are stored under their own IDs. */
  ghost predicate DialoguesKeyed(m: StoreState) { forall k :: k in m.dialogues ==> m.dialogues[k].id == k }

  /** When the two stores treat a dialogue alike: it has no ID or is unknown;
      or it is news and carries a stamp or comes from the store itself; or it
      is covered and the dialogue held carries a stamp. */
  predicate DialogueAgreeable(m: StoreState, d: Dialogue, source: string)
  {
    d.id == "" || d.id !in m.dialogues ||
    var held := m.dialogues[d.id];
    if Leq(DialogueCoreOf(d), DialogueCoreOf(held)) then !Unstamped(held.origin, held.sequence)
    else !Unstamped(d.origin, d.sequence) || source == m.origin
  }

  lemma PutDialogueAgrees(m: StoreState, b: StoreState, d: Dialogue)
    requires Agree(m, b)
    ensures Agree(m.(dialogues := m.dialogues[d.id := d]), b.(dialogues := b.dialogues[d.id := d]))
  {
  }

  /** The store with `d` put under a new stamp of `origin`. */
  function Stamped(s: StoreState, d: Dialogue, origin: string): StoreState
  {
    var s2 := NextSequence(s, origin);
    s2.(dialogues := s2.dialogues[d.id := d.(origin := origin, sequence := Wm(s2, origin))])
  }

  /** Stamping the same dialogue keeps agreement exactly under the same origin. */
  lemma StampAgreesIff(m: StoreState, b: StoreState, d: Dialogue, origin: string, other: string)
    requires Agree(m, b)
    ensures Agree(Stamped(m, d, origin), Stamped(b, d, other)) <==> origin == other
  {
    NextAgrees(m, b, origin);
    PutDialogueAgrees(NextSequence(m, origin), NextSequence(b, origin), d.(origin := origin, sequence := Wm(NextSequence(m, origin), origin)));
    assert Stamped(m, d, origin).dialogues[d.id].origin == origin && Stamped(b, d, other).dialogues[d.id].origin == other;
  }

  lemma StampedParts(m: StoreState, b: StoreState, d: Dialogue, origin: string)
    requires Agree(m, b)
    ensures !Agree(m, Stamped(b, d, origin))
  {
    assert Wm(Stamped(b, d, origin), origin) > Wm(b, origin);
  }

  lemma NewDialogueAgrees(m: StoreState, b: StoreState, d: Dialogue, source: string)
    requires Agree(m, b) && (d.id == "" || d.id !in m.dialogues)
    ensures Agree(MergeDialogue(m, d, source), BoltMergeDialogue(b, d, source))
  {
    var m1, b1 := Observe(m, d.origin, d.sequence), BoltObserve(b, d.origin, d.sequence);
    ObserveAgrees(m, b, d.origin, d.sequence);
    StampAgreesIff(m1, b1, d, source, source);
    PutDialogueAgrees(m1, b1, d);
  }

  lemma KnownInMemory(m: StoreState, d: Dialogue, source: string)
    requires d.id != "" && d.id in m.dialogues && m.dialogues[d.id].id == d.id
    ensures var m1, held := Observe(m, d.origin, d.sequence), m.dialogues[d.id];
            MergeDialogue(m, d, source) ==
              if Leq(DialogueCoreOf(d), DialogueCoreOf(held)) then m1
              else Stamped(m1, MergedDialogue(held, d), if Unstamped(d.origin, d.sequence) then source else m.origin)
  {
    MergedDialogueCore(m.dialogues[d.id], d);
  }

  lemma KnownInBolt(b: StoreState, d: Dialogue, source: string)
    requires d.id != "" && d.id in b.dialogues && b.dialogues[d.id].id == d.id
    ensures var b1, held := BoltObserve(b, d.origin, d.sequence), b.dialogues[d.id];
            BoltMergeDialogue(b, d, source) ==
              if !Leq(DialogueCoreOf(d), DialogueCoreOf(held)) then Stamped(b1, MergedDialogue(held, d), b.origin)
              else if Unstamped(held.origin, held.sequence) then Stamped(b1, held, source) else b1
  {
    MergedDialogueCore(b.dialogues[d.id], d);
  }

  lemma KnownDialogueAgreesIff(m: StoreState, b: StoreState, d: Dialogue, source: string)
    requires Agree(m, b) && d.id != "" && d.id in m.dialogues && m.dialogues[d.id].id == d.id
    ensures Agree(MergeDialogue(m, d, source), BoltMergeDialogue(b, d, source)) <==> DialogueAgreeable(m, d, source)
  {
    var m1, b1, held := Observe(m, d.origin, d.sequence), BoltObserve(b, d.origin, d.sequence), m.dialogues[d.id];
    ObserveAgrees(m, b, d.origin, d.sequence);
    KnownInMemory(m, d, source);
    KnownInBolt(b, d, source);
    StampAgreesIff(m1, b1, MergedDialogue(held, d), if Unstamped(d.origin, d.sequence) then source else m.origin, m.origin);
    StampedParts(m1, b1, held, source);
  }

  /** For every dialogue, stamped or not, the stores agree after merging it
      exactly in those cases. */
  lemma DialogueAgreesIff(m: StoreState, b: StoreState, d: Dialogue, source: string)
    requires Agree(m, b) && DialoguesKeyed(m)
    ensures Agree(MergeDialogue(m, d, source), BoltMergeDialogue(b, d, source)) <==> DialogueAgreeable(m, d, source)
  {
    if d.id == "" || d.id !in m.dialogues { NewDialogueAgrees(m, b, d, source); } else { KnownDialogueAgreesIff(m, b, d, source); }
  }

  lemma RaiseBoth(origin: string, sequence: nat)
    ensures InStep(Observe(NewStore("a"), origin, sequence))
  {
  }

  /** A concrete parting: a later, unstamped version of a known dialogue
      arrives from a peer; memory stamps it as the peer's, bolt as its own. */
  lemma UnstampedNewsParts()
    ensures var d := Dialogue("d", "x", 1, [], "", [], 0, 1);
            var m := MergeDialogue(NewStore("a"), d, "p");
            var later := d.(origin := "", sequence := 0, updatedAt := 2);
            && Agree(m, m) && "d" in MergeDialogue(m, later, "p").dialogues && "d" in BoltMergeDialogue(m, later, "p").dialogues
            && MergeDialogue(m, later, "p").dialogues["d"].origin == "p" && BoltMergeDialogue(m, later, "p").dialogues["d"].origin == "a"
  {
    var d := Dialogue("d", "x", 1, [], "", [], 0, 1);
    var m := MergeDialogue(NewStore("a"), d, "p");
    assert m.dialogues["d"] == d;
    assert InStep(m) by { RaiseBoth("x", 1); }
  }

  predicate RecordAgreeable(m: StoreState, r: Record, source: string)
  {
    r.DialogueRecord? ==> DialogueAgreeable(m, r.dialogue, source)
  }

  lemma RecordAgreesIff(m: StoreState, b: StoreState, r: Record, source: string, now: Time)
    requires Agree(m, b) && DialoguesKeyed(m) && !Rejected(r)
    ensures Agree(MergeRecord(m, r, source, now), BoltMergeRecord(b, r, source, now)) <==> RecordAgreeable(m, r, source)
  {
    match r
    case ExperienceRecord(e) => ExperienceAgrees(m, b, e, source, now);
    case FactRecord(f) => FactAgrees(m, b, f, source, now);
    case PerformanceRecord(p) => PerformanceAgrees(m, b, p, source);
    case DialogueRecord(d) => DialogueAgreesIff(m, b, d, source);
  }

  /** Every record of a sequence is agreeable when its turn comes. */
  predicate Agreeable(m: StoreState, rs: seq<Record>, source: string, now: Time)
    decreases |rs|
  {
    rs == [] ||
    (!Rejected(rs[0]) && RecordAgreeable(m, rs[0], source) && Agreeable(MergeRecord(m, rs[0], source, now), rs[1..], source, now))
  }

  lemma ExperienceKeepsDialogues(m: StoreState, e: Experience, source: string, now: Time)
    ensures MergeExperience(m, e, source, now).dialogues == m.dialogues && MergeExperience(m, e, source, now).origin == m.origin
  {
    var s1 := Observe(m, e.origin, e.sequence);
    assert s1.dialogues == m.dialogues && s1.origin == m.origin;
    NextKeepsDialogues(s1, source);
  }

  lemma NextKeepsDialogues(m: StoreState, origin: string)
    ensures NextSequence(m, origin).dialogues == m.dialogues && NextSequence(m, origin).origin == m.origin
  {
  }

  lemma FactKeepsDialogues(m: StoreState, f: Fact, source: string, now: Time)
    requires f.key != ""
    ensures MergeFact(m, f, source, now).dialogues == m.dialogues && MergeFact(m, f, source, now).origin == m.origin
  {
    NormalFactKeepsDialogues(m, NormalizeFact(f, now), source);
  }

  lemma NormalFactKeepsDialogues(m: StoreState, f: Fact, source: string)
    ensures MergeNormalFact(m, f, source).dialogues == m.dialogues && MergeNormalFact(m, f, source).origin == m.origin
  {
    var s1 := Observe(m, f.origin, f.sequence);
    assert s1.dialogues == m.dialogues && s1.origin == m.origin;
    NextKeepsDialogues(s1, source);
  }

  lemma PerformanceKeepsDialogues(m: StoreState, p: Performance, source: string)
    ensures MergePerformance(m, p, source).dialogues == m.dialogues && MergePerformance(m, p, source).origin == m.origin
  {
  }

  lemma DialogueStaysKeyed(m: StoreState, d: Dialogue, source: string)
    requires DialoguesKeyed(m)
    ensures DialoguesKeyed(MergeDialogue(m, d, source))
  {
    if d.id != "" && d.id in m.dialogues { KnownInMemory(m, d, source); }
  }

  lemma StaysKeyed(m: StoreState, r: Record, source: string, now: Time)
    requires DialoguesKeyed(m) && !Rejected(r)
    ensures DialoguesKeyed(MergeRecord(m, r, source, now))
  {
    match r
    case ExperienceRecord(e) => ExperienceKeepsDialogues(m, e, source, now);
    case FactRecord(f) => FactKeepsDialogues(m, f, source, now);
    case PerformanceRecord(p) => PerformanceKeepsDialogues(m, p, source);
    case DialogueRecord(d) => DialogueStaysKeyed(m, d, source);
  }

  /** Both stores end with the same records, stamps included, and watermarks. */
  lemma {:induction false} MergesAgree(m: StoreState, b: StoreState, rs: seq<Record>, source: string, now: Time)
    requires Agree(m, b) && DialoguesKeyed(m) && Agreeable(m, rs, source, now)
    ensures MergeRecords(m, rs, source, now).1
    ensures Agree(MergeRecords(m, rs, source, now).0, BoltMergeRecords(b, rs, source, now))
    decreases |rs|
  {
    if rs != [] {
      RecordAgreesIff(m, b, rs[0], source, now);
      StaysKeyed(m, rs[0], source, now);
      MergesAgree(MergeRecord(m, rs[0], source, now), BoltMergeRecord(b, rs[0], source, now), rs[1..], source, now);
    }
  }

  ghost predicate DialoguesStamped(m: StoreState)
  {
    m.origin != "" && forall k :: k in m.dialogues ==> !Unstamped(m.dialogues[k].origin, m.dialogues[k].sequence)
  }

  predicate StampedDialogue(r: Record) { r.DialogueRecord? ==> !Unstamped(r.Origin(), r.Sequence()) }

  lemma StaysStamped(m: StoreState, r: Record, source: string, now: Time)
    requires DialoguesStamped(m) && !Rejected(r) && StampedDialogue(r)
    ensures DialoguesStamped(MergeRecord(m, r, source, now)) && RecordAgreeable(m, r, source)
  {
    match r
    case ExperienceRecord(e) => ExperienceKeepsDialogues(m, e, source, now);
    case FactRecord(f) => FactKeepsDialogues(m, f, source, now);
    case PerformanceRecord(p) => PerformanceKeepsDialogues(m, p, source);
    case DialogueRecord(d) => DialogueStaysStamped(m, d, source);
  }

  lemma DialogueStaysStamped(m: StoreState, d: Dialogue, source: string)
    requires DialoguesStamped(m) && !Unstamped(d.origin, d.sequence)
    ensures DialoguesStamped(MergeDialogue(m, d, source)) && DialogueAgreeable(m, d, source)
  {
    var s1 := Observe(m, d.origin, d.sequence);
    assert s1.dialogues == m.dialogues;
    assert Wm(NextSequence(s1, m.origin), m.origin) > 0;
  }

  /** Stamped records into a store of stamped dialogues are always agreeable. */
  lemma {:induction false} StampedIsAgreeable(m: StoreState, rs: seq<Record>, source: string, now: Time)
    requires m.origin != "" && forall k :: k in m.dialogues ==> m.dialogues[k].origin != "" && m.dialogues[k].sequence > 0
    requires forall r :: r in rs ==> !Rejected(r) && (r.DialogueRecord? ==> r.dialogue.origin != "" && r.dialogue.sequence > 0)
    ensures Agreeable(m, rs, source, now)
    decreases |rs|
  {
    if rs != [] {
      assert rs[0] in rs && forall r :: r in rs[1..] ==> r in rs;
      StaysStamped(m, rs[0], source, now);
      StampedIsAgreeable(MergeRecord(m, rs[0], source, now), rs[1..], source, now);
    }
  }

  lemma MarksAgree(m: StoreState, b: StoreState, marks: Marks)
    requires Agree(m, b)
    ensures Agree(ObserveMarks(m, marks), BoltObserveMarks(b, marks))
  {
    forall o ensures Get(ObserveMarks(m, marks).sequences, o) == Get(ObserveMarks(m, marks).watermarks, o) {
      assert Get(m.sequences, o) == Get(m.watermarks, o);
    }
    forall o ensures Get(b.sequences, o) <= Get(BoltObserveMarks(b, marks).watermarks, o) {
      assert Get(b.sequences, o) <= Get(b.watermarks, o);
    }
  }

  lemma {:induction false} MergeSucceeds(s: StoreState, rs: seq<Record>, source: string, now: Time)
    ensures MergeRecords(s, rs, source, now).1 <==> forall i :: 0 <= i < |rs| ==> !Rejected(rs[i])
    decreases |rs|
  {
    if rs != [] && !Rejected(rs[0]) {
      MergeSucceeds(MergeRecord(s, rs[0], source, now), rs[1..], source, now);
      assert forall i :: 0 < i < |rs| ==> rs[i] == rs[1..][i - 1];
    }
  }

  lemma RejectedInSnapshot(sn: Snapshot)
    ensures (exists i :: 0 <= i < |Flatten(sn)| && Rejected(Flatten(sn)[i])) <==> exists i :: 0 <= i < |sn.facts| && sn.facts[i].key == ""
  {
    var n := |sn.experiences|;
    assert forall i :: 0 <= i < |sn.facts| ==> Flatten(sn)[n + i] == FactRecord(sn.facts[i]);
    forall i | 0 <= i < |Flatten(sn)| && Rejected(Flatten(sn)[i]) ensures exists k :: 0 <= k < |sn.facts| && sn.facts[k].key == "" {
      assert sn.facts[i - n].key == "";
    }
  }

  /** Whole snapshots: both stores refuse the same ones. A refused one leaves
      bolt as it was. Any other whose records are agreeable leaves the stores in
      agreement, closing watermarks and peer watermarks included. */
  lemma SnapshotsAgree(m: StoreState, b: StoreState, sn: Snapshot, source: string, now: Time)
    requires Agree(m, b) && DialoguesKeyed(m)
    ensures BoltMergeSnapshot(b, sn, source, now).1 == MergeSnapshot(m, sn, source, now).1
    ensures !BoltMergeSnapshot(b, sn, source, now).1 ==> BoltMergeSnapshot(b, sn, source, now).0 == b
    ensures Agreeable(m, Flatten(sn), SourceOf(source), now) ==>
              Agree(MergeSnapshot(m, sn, source, now).0, BoltMergeSnapshot(b, sn, source, now).0)
  {
    MergeSucceeds(m, Flatten(sn), SourceOf(source), now);
    RejectedInSnapshot(sn);
    if Agreeable(m, Flatten(sn), SourceOf(source), now) {
      MergesAgree(m, b, Flatten(sn), SourceOf(source), now);
      MarksAgree(MergeRecords(m, Flatten(sn), SourceOf(source), now).0, BoltMergeRecords(b, Flatten(sn), SourceOf(source), now), sn.watermarks);
    }
  }
}
