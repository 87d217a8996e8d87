/** The in-memory store as the source writes it: an object whose maps and
    slices are updated in place, each method proved against MemoryStoreSpec. */
module MemoryStoreObject {
  import opened Options
  import opened MemoryRecords
  import opened MemoryStoreSpec
  import opened MemoryMerge
  import StoreContents

  /** The entries of a map whose keys are not in `keys`. */
  function Except(m: Marks, keys: set<string>): Marks { map o | o in m && o !in keys :: m[o] }

  lemma ExceptOneLess(m: Marks, keys: set<string>, o: string)
    requires o in m && o in keys
    ensures Except(m, keys - {o}) == Except(m, keys)[o := m[o]]
  {
  }

  /** Raising one entry is merging one more entry. */
  lemma RaiseOneMore(current: Marks, m: Marks, origin: string, sequence: nat)
    requires origin !in m
    ensures Raise(MergeMarks(current, m), origin, sequence) == MergeMarks(current, m[origin := sequence])
  {
    var m' := m[origin := sequence];
    var left, right := Raise(MergeMarks(current, m), origin, sequence), MergeMarks(current, m');
    assert Get(MergeMarks(current, m), origin) == Get(current, origin);
    forall o ensures (o in left <==> o in right) && (o in left ==> left[o] == right[o]) {
      MergeMarksAt(current, m, o);
      MergeMarksAt(current, m', o);
    }
  }

  lemma MergeMarksAt(current: Marks, m: Marks, o: string)
    ensures o in MergeMarks(current, m) <==> o in current || (o in m && m[o] > 0)
    ensures Get(MergeMarks(current, m), o) == Max(Get(current, o), Get(m, o))
  {
  }

  /** mergeWatermarks: a fresh map, raised entry by entry. */
  method MergeWatermarks(current: Marks, incoming: Marks) returns (merged: Marks)
    ensures merged == MergeMarks(current, incoming)
  {
    merged := current;
    var remaining := incoming.Keys;
    assert Except(incoming, remaining) == map[] && MergeMarks(current, map[]) == current;
    while remaining != {}
      invariant remaining <= incoming.Keys
      invariant merged == MergeMarks(current, Except(incoming, remaining))
      decreases remaining
    {
      var origin :| origin in remaining;
      RaiseOneMore(current, Except(incoming, remaining), origin, incoming[origin]);
      ExceptOneLess(incoming, remaining, origin);
      if incoming[origin] > Get(merged, origin) { merged := merged[origin := incoming[origin]]; }
      remaining := remaining - {origin};
    }
    assert Except(incoming, {}) == incoming;
  }

  // The four filter loops of snapshotSince.

  method ExperiencesSince(es: seq<Experience>, marks: Marks) returns (kept: seq<Experience>)
    ensures kept == FilterExperiences(es, marks)
  {
    kept := [];
    for i := 0 to |es|
      invariant kept + FilterExperiences(es[i..], marks) == FilterExperiences(es, marks)
    {
      assert es[i..][1..] == es[i + 1..];
      if IsNewer(es[i].origin, es[i].sequence, marks) { kept := kept + [es[i]]; }
    }
  }

  method FactsSince(fs: seq<Fact>, marks: Marks) returns (kept: seq<Fact>)
    ensures kept == FilterFacts(fs, marks)
  {
    kept := [];
    for i := 0 to |fs|
      invariant kept + FilterFacts(fs[i..], marks) == FilterFacts(fs, marks)
    {
      assert fs[i..][1..] == fs[i + 1..];
      if IsNewer(fs[i].origin, fs[i].sequence, marks) { kept := kept + [fs[i]]; }
    }
  }

  method PerformancesSince(ps: seq<Performance>, marks: Marks) returns (kept: seq<Performance>)
    ensures kept == FilterPerformances(ps, marks)
  {
    kept := [];
    for i := 0 to |ps|
      invariant kept + FilterPerformances(ps[i..], marks) == FilterPerformances(ps, marks)
    {
      assert ps[i..][1..] == ps[i + 1..];
      if IsNewer(ps[i].origin, ps[i].sequence, marks) { kept := kept + [ps[i]]; }
    }
  }

  method DialoguesSince(ds: seq<Dialogue>, marks: Marks) returns (kept: seq<Dialogue>)
    ensures kept == FilterDialogues(ds, marks)
  {
    kept := [];
    for i := 0 to |ds|
      invariant kept + FilterDialogues(ds[i..], marks) == FilterDialogues(ds, marks)
    {
      assert ds[i..][1..] == ds[i + 1..];
      if IsNewer(ds[i].origin, ds[i].sequence, marks) { kept := kept + [ds[i]]; }
    }
  }

  method SinceOf(snapshot: Snapshot, marks: Marks) returns (filtered: Snapshot)
    ensures filtered == SnapshotSince(snapshot, marks)
  {
    var experiences := ExperiencesSince(snapshot.experiences, marks);
    var facts := FactsSince(snapshot.facts, marks);
    var performances := PerformancesSince(snapshot.performances, marks);
    var dialogues := DialoguesSince(snapshot.dialogues, marks);
    filtered := Snapshot(experiences, facts, performances, dialogues, snapshot.watermarks);
  }

  /** Turns without a time take the clock's. */
  method FillTurnTimes(turns: seq<Turn>, now: Time) returns (filled: seq<Turn>)
    ensures filled == FillTimes(turns, now)
    ensures |filled| == |turns| && forall i :: 0 <= i < |turns| ==> filled[i] == turns[i].(at := if turns[i].at != 0 then turns[i].at else now)
  {
    filled := turns;
    for i := 0 to |turns|
      invariant |filled| == |turns|
      invariant forall j :: 0 <= j < i ==> filled[j] == turns[j].(at := if turns[j].at != 0 then turns[j].at else now)
      invariant forall j :: i <= j < |turns| ==> filled[j] == turns[j]
    {
      if filled[i].at == 0 { filled := filled[i := filled[i].(at := now)]; }
    }
  }

  /** Whether some turn is the same utterance. */
  method HasUtterance(turns: seq<Turn>, turn: Turn) returns (found: bool)
    ensures found <==> UtteranceOf(turn) in Utterances(turns)
  {
    found := false;
    for i := 0 to |turns|
      invariant !found
      invariant forall j :: 0 <= j < i ==> UtteranceOf(turns[j]) != UtteranceOf(turn)
    {
      if turns[i].at == turn.at && turns[i].speaker == turn.speaker && turns[i].content == turn.content {
        assert UtteranceOf(turns[i]) in Utterances(turns);
        return true;
      }
    }
  }

  /** The two append loops of a dialogue merge, with their changed flags. */
  method AppendNewTurns(current: seq<Turn>, incoming: seq<Turn>) returns (turns: seq<Turn>, changed: bool)
    ensures turns == MergeTurns(current, incoming)
    ensures changed <==> turns != current
  {
    turns, changed := current, false;
    for i := 0 to |incoming|
      invariant MergeTurns(turns, incoming[i..]) == MergeTurns(current, incoming)
      invariant |turns| >= |current| && (changed <==> |turns| > |current|) && (!changed ==> turns == current)
    {
      var found := HasUtterance(turns, incoming[i]);
      assert incoming[i..][0] == incoming[i] && incoming[i..][1..] == incoming[i + 1..];
      if !found { turns, changed := turns + [incoming[i]], true; }
    }
  }

  method AppendNewParticipants(current: seq<string>, incoming: seq<string>) returns (participants: seq<string>, changed: bool)
    ensures participants == MergeParticipants(current, incoming)
    ensures changed <==> participants != current
  {
    participants, changed := current, false;
    for i := 0 to |incoming|
      invariant MergeParticipants(participants, incoming[i..]) == MergeParticipants(current, incoming)
      invariant |participants| >= |current| && (changed <==> |participants| > |current|) && (!changed ==> participants == current)
    {
      assert incoming[i..][0] == incoming[i] && incoming[i..][1..] == incoming[i + 1..];
      if incoming[i] !in participants { participants, changed := participants + [incoming[i]], true; }
    }
  }

  lemma ObserveOneMore(s: StoreState, marks: Marks, origin: string, sequence: nat)
    requires origin !in marks
    ensures Observe(ObserveMarks(s, marks), origin, sequence) == ObserveMarks(s, marks[origin := sequence])
  {
    var m, m' := marks - {""}, marks[origin := sequence] - {""};
    if origin == "" {
      assert m' == m;
    } else {
      assert m' == m[origin := sequence];
      RaiseOneMore(s.watermarks, m, origin, sequence);
      RaiseOneMore(s.sequences, m, origin, sequence);
    }
  }

  lemma NoMarks(s: StoreState)
    ensures ObserveMarks(s, map[]) == s
  {
    assert MergeMarks(s.watermarks, map[]) == s.watermarks;
    assert MergeMarks(s.sequences, map[]) == s.sequences;
  }

  class MemoryStore {
    const origin: string
    var nextID: nat
    var sequences: Marks
    var watermarks: Marks
    var peerWatermarks: map<string, Marks>
    var experiences: seq<Experience>
    var fingerprints: set<Content>
    var facts: map<string, Fact>
    var performances: map<string, Performance>
    var dialogues: map<string, Dialogue>

    function State(): StoreState
      reads this
    {
      StoreState(origin, nextID, sequences, watermarks, peerWatermarks, experiences, fingerprints, facts, performances, dialogues)
    }

    constructor (origin: string)
      ensures State() == NewStore(origin)
    {
      this.origin := origin;
      nextID, sequences, watermarks, peerWatermarks := 0, map[origin := 0], map[], map[];
      experiences, fingerprints, facts, performances, dialogues := [], {}, map[], map[], map[];
    }

    method NextSequence(origin: string) returns (sequence: nat)
      modifies this
      ensures State() == MemoryStoreSpec.NextSequence(old(State()), origin)
      ensures sequence == Wm(State(), origin)
      ensures sequence > Get(old(sequences), origin) && sequence > Wm(old(State()), origin)
    {
      sequence := Get(sequences, origin);
      if Get(watermarks, origin) > sequence { sequence := Get(watermarks, origin); }
      sequence := sequence + 1;
      sequences := sequences[origin := sequence];
      watermarks := watermarks[origin := sequence];
    }

    method ObserveRecord(origin: string, sequence: nat)
      modifies this
      ensures State() == Observe(old(State()), origin, sequence)
    {
      if origin == "" || sequence == 0 { return; }
      if sequence > Get(watermarks, origin) { watermarks := watermarks[origin := sequence]; }
      if sequence > Get(sequences, origin) { sequences := sequences[origin := sequence]; }
    }

    method Record(content: Content, now: Time) returns (e: Experience)
      modifies this
      ensures State() == RecordExperience(old(State()), content, now)
      ensures e in experiences && e.content == Prepare(content, now)
    {
      var c := content;
      if c.createdAt == 0 { c := c.(createdAt := now); }
      if c.kind == "" { c := c.(kind := "task"); }
      c := c.(prompt := Truncate(c.prompt, 8 * 1024), output := Truncate(c.output, 32 * 1024));
      assert c == Prepare(content, now);
      e := Store(c);
      if c.nodeID != "" && c.model != "" { UpdatePerformance(c); }
    }

    method Store(c: Content) returns (e: Experience)
      modifies this
      ensures State() == StoreExperience(old(State()), c)
      ensures experiences == old(experiences) + [e] && e.content == c
    {
      nextID := nextID + 1;
      var sequence := NextSequence(origin);
      e := Experience(nextID, origin, sequence, c);
      experiences := experiences + [e];
      fingerprints := fingerprints + {c};
    }

    method UpdatePerformance(c: Content)
      modifies this
      ensures State() == MemoryStoreSpec.UpdatePerformance(old(State()), c)
    {
      var taskType := if c.taskType == "" then DEFAULT_TASK_TYPE else c.taskType;
      var key := PerformanceMapKey(c.nodeID, c.model, taskType);
      assert key == PerformanceMapKey(c.nodeID, c.model, c.taskType);
      var p := if key in performances then performances[key]
               else Performance(c.nodeID, "", 0, c.model, ToLower(taskType), 0, 0, 0, 0, 0, 0.0, 0.0, 0);
      p := p.(attempts := p.attempts + 1);
      if c.success { p := p.(successes := p.successes + 1); } else { p := p.(failures := p.failures + 1); }
      p := p.(totalDuration := p.totalDuration + c.durationMs);
      p := p.(avgDurationMs := TruncatedDiv(p.totalDuration, AtLeastOne(p.attempts)),
              successRate := p.successes as real / AtLeastOne(p.attempts) as real,
              ratingSum := p.ratingSum + c.rating, lastUsed := c.createdAt, origin := origin);
      var sequence := NextSequence(origin);
      performances := performances[key := p.(sequence := sequence)];
    }

    method PutFact(fact: Fact, now: Time) returns (stored: Option<Fact>)
      modifies this
      ensures State() == MemoryStoreSpec.PutFact(old(State()), fact, now)
      ensures stored.None? <==> fact.key == ""
      ensures stored.Some? ==> FactMapKey(fact) in facts && facts[FactMapKey(fact)] == stored.value
      ensures stored.Some? ==>
                && stored.value.key == fact.key && stored.value.value == fact.value && stored.value.source == fact.source
                && stored.value.scope == (if fact.scope == "" then "cluster" else fact.scope) && stored.value.updatedAt == now
      ensures forall k :: k != FactMapKey(fact) ==> (k in facts <==> k in old(facts)) && (k in facts ==> facts[k] == old(facts)[k])
    {
      if fact.key == "" { return None; }
      var f := fact;
      if f.scope == "" { f := f.(scope := DEFAULT_SCOPE); }
      var key := f.scope + "|" + f.key;
      if key in facts { f := f.(createdAt := facts[key].createdAt, hits := facts[key].hits); }
      if f.createdAt == 0 { f := f.(createdAt := now); }
      f := f.(updatedAt := now, origin := origin);
      var sequence := NextSequence(origin);
      f := f.(sequence := sequence);
      facts := facts[key := f];
      stored := Some(f);
    }

    method GetFact(scope: string, key: string) returns (found: Option<Fact>)
      modifies this
      ensures State() == MemoryStoreSpec.GetFact(old(State()), scope, key)
      ensures found.Some? <==> ScopeOf(scope) + "|" + key in old(facts)
      ensures found.Some? ==>
                var was := old(facts)[ScopeOf(scope) + "|" + key];
                found.value == was.(hits := was.hits + 1, origin := found.value.origin, sequence := found.value.sequence)
    {
      var mapKey := (if scope == "" then DEFAULT_SCOPE else scope) + "|" + key;
      if mapKey !in facts { return None; }
      var f := facts[mapKey];
      f := f.(hits := f.hits + 1, origin := origin);
      var sequence := NextSequence(origin);
      f := f.(sequence := sequence);
      facts := facts[mapKey := f];
      found := Some(f);
    }

    method AppendDialogueTurns(id: string, participants: seq<string>, topic: string, turns: seq<Turn>, now: Time) returns (ok: bool)
      requires forall k :: k in dialogues ==> dialogues[k].id == k
      modifies this
      ensures ok <==> id != ""
      ensures State() == AppendTurns(old(State()), id, participants, topic, turns, now)
      ensures id != "" && turns != [] ==>
                && id in dialogues
                && var before, after := if id in old(dialogues) then old(dialogues)[id].turns else [], dialogues[id].turns;
                   && |after| == |before| + |turns| && after[..|before|] == before
                   && forall i :: 0 <= i < |turns| ==>
                        after[|before| + i] == turns[i].(at := if turns[i].at != 0 then turns[i].at else now)
      ensures id != "" && turns != [] ==> id in dialogues && dialogues[id].updatedAt == now
      ensures forall k :: k != id ==> (k in dialogues <==> k in old(dialogues)) && (k in dialogues ==> dialogues[k] == old(dialogues)[k])
    {
      if id != "" && turns != [] { StoreContents.AppendedTurns(State(), id, participants, topic, turns, now); }
      forall k ensures var s' := AppendTurns(State(), id, participants, topic, turns, now);
                       && (id != "" && turns != [] ==> id in s'.dialogues && s'.dialogues[id].updatedAt == now)
                       && (k != id ==> (k in s'.dialogues <==> k in dialogues) && (k in dialogues ==> s'.dialogues[k] == dialogues[k]))
      {
        StoreContents.AppendLeavesOthers(State(), id, participants, topic, turns, now, k);
      }
      if id == "" { return false; }
      if turns == [] { return true; }
      var d := if id in dialogues then dialogues[id] else Dialogue("", "", 0, [], "", [], 0, 0);
      if d.id == "" { d := d.(id := id, createdAt := now, participants := participants, topic := topic); }
      var members, _ := AppendNewParticipants(d.participants, participants);
      var filled := FillTurnTimes(turns, now);
      d := d.(participants := members, turns := d.turns + filled, updatedAt := now);
      for i := 0 to |turns|
        invariant State() == NextSequences(old(State()), origin, i)
        invariant d == d.(origin := d.origin, sequence := d.sequence)
        invariant i > 0 ==> d.origin == origin && d.sequence == Wm(State(), origin)
        invariant d.(origin := "", sequence := 0) ==
                  (if id in old(dialogues) then old(dialogues)[id] else Dialogue(id, "", 0, participants, topic, [], now, 0)).(
                    participants := members, turns := d.turns, updatedAt := now, origin := "", sequence := 0)
        invariant members == MergeParticipants(if id in old(dialogues) then old(dialogues)[id].participants else participants, participants)
        invariant d.turns == (if id in old(dialogues) then old(dialogues)[id].turns else []) + FillTimes(turns, now)
      {
        var sequence := NextSequence(origin);
        d := d.(origin := origin, sequence := sequence);
      }
      dialogues := dialogues[id := d];
      ok := true;
    }

    method MergeExperienceFrom(e: Experience, source: string, now: Time)
      modifies this
      ensures State() == MergeExperience(old(State()), e, source, now)
    {
      var key := Fingerprint(e);
      ObserveRecord(e.origin, e.sequence);
      if key in fingerprints { return; }
      var x := e;
      if x.content.createdAt == 0 { x := x.(content := x.content.(createdAt := now)); }
      if x.origin == "" || x.sequence == 0 {
        var sequence := NextSequence(source);
        x := x.(origin := source, sequence := sequence);
      }
      nextID := nextID + 1;
      experiences := experiences + [x.(id := nextID)];
      fingerprints := fingerprints + {key};
    }

    method MergeFactFrom(fact: Fact, source: string, now: Time) returns (ok: bool)
      modifies this
      ensures ok <==> fact.key != ""
      ensures State() == if ok then MergeFact(old(State()), fact, source, now) else old(State())
    {
      if fact.key == "" { return false; }
      ok := true;
      var f := fact;
      if f.scope == "" { f := f.(scope := DEFAULT_SCOPE); }
      if f.updatedAt == 0 { f := f.(updatedAt := f.createdAt); }
      if f.updatedAt == 0 { f := f.(updatedAt := now); }
      if f.createdAt == 0 || f.updatedAt < f.createdAt { f := f.(createdAt := f.updatedAt); }
      assert f == NormalizeFact(fact, now);
      StoreIfWinner(f, source);
    }

    /** The part of mergeFactFrom under the lock, on normalized facts. */
    method StoreIfWinner(fact: Fact, source: string)
      requires fact.key != "" && fact.scope != ""
      modifies this
      ensures State() == MergeNormalFact(old(State()), fact, source)
    {
      var f := fact;
      var key := f.scope + "|" + f.key;
      ObserveRecord(f.origin, f.sequence);
      if key in facts {
        var current := facts[key];
        if f.updatedAt < current.updatedAt || (f.updatedAt == current.updatedAt && !FactWinsTie(f, current)) { return; }
        if current.createdAt < f.createdAt { f := f.(createdAt := current.createdAt); }
        if current.hits > f.hits { f := f.(hits := current.hits); }
      }
      if f.origin == "" || f.sequence == 0 {
        var sequence := NextSequence(source);
        f := f.(origin := source, sequence := sequence);
      } else {
        ObserveRecord(f.origin, f.sequence);
      }
      facts := facts[key := f];
    }

    method MergePerformanceFrom(incoming: Performance, source: string)
      modifies this
      ensures State() == MergePerformance(old(State()), incoming, source)
    {
      if incoming.nodeID == "" || incoming.model == "" { return; }
      var p := incoming;
      if p.taskType == "" { p := p.(taskType := DEFAULT_TASK_TYPE); }
      var key := PerformanceMapKey(p.nodeID, p.model, p.taskType);
      if key in performances && performances[key].attempts >= p.attempts {
        ObserveRecord(p.origin, p.sequence);
        return;
      }
      if p.origin == "" || p.sequence == 0 {
        var sequence := NextSequence(source);
        p := p.(origin := source, sequence := sequence);
      } else {
        ObserveRecord(p.origin, p.sequence);
      }
      performances := performances[key := p];
    }

    method MergeDialogueFrom(d: Dialogue, source: string)
      modifies this
      ensures State() == MergeDialogue(old(State()), d, source)
    {
      if d.id == "" { return; }
      ObserveRecord(d.origin, d.sequence);
      if d.id !in dialogues {
        var added := d;
        if d.origin == "" || d.sequence == 0 {
          var sequence := NextSequence(source);
          added := d.(origin := source, sequence := sequence);
        }
        dialogues := dialogues[d.id := added];
        return;
      }
      ghost var was := dialogues[d.id];
      var current := dialogues[d.id];
      var turns, turnsChanged := AppendNewTurns(current.turns, d.turns);
      var members, membersChanged := AppendNewParticipants(current.participants, d.participants);
      var changed := turnsChanged || membersChanged;
      current := current.(turns := turns, participants := members);
      if current.topic == "" {
        current := current.(topic := d.topic);
        changed := current.topic != "" || changed;
      }
      if d.updatedAt > current.updatedAt {
        current := current.(updatedAt := d.updatedAt);
        changed := true;
      }
      assert current == MergedDialogue(was, d);
      assert changed <==> current != was;
      if changed {
        var stamp := origin;
        if d.origin == "" || d.sequence == 0 { stamp := source; }
        var sequence := NextSequence(stamp);
        dialogues := dialogues[d.id := current.(origin := stamp, sequence := sequence)];
      }
    }

    method MergeOne(r: MemoryRecords.Record, source: string, now: Time) returns (ok: bool)
      modifies this
      ensures ok <==> !Rejected(r)
      ensures State() == if ok then MergeRecord(old(State()), r, source, now) else old(State())
    {
      ok := true;
      match r
      case ExperienceRecord(e) => MergeExperienceFrom(e, source, now);
      case FactRecord(f) => ok := MergeFactFrom(f, source, now);
      case PerformanceRecord(p) => MergePerformanceFrom(p, source);
      case DialogueRecord(d) => MergeDialogueFrom(d, source);
    }

    method ObserveAll(marks: Marks)
      modifies this
      ensures State() == ObserveMarks(old(State()), marks)
    {
      var remaining := marks.Keys;
      NoMarks(State());
      assert Except(marks, remaining) == map[];
      while remaining != {}
        invariant remaining <= marks.Keys
        invariant State() == ObserveMarks(old(State()), Except(marks, remaining))
        decreases remaining
      {
        var o :| o in remaining;
        ObserveOneMore(old(State()), Except(marks, remaining), o, marks[o]);
        ExceptOneLess(marks, remaining, o);
        ObserveRecord(o, marks[o]);
        remaining := remaining - {o};
      }
      assert Except(marks, {}) == marks;
    }

    /** The whole merge, stopping at a fact without a key as the source does. */
    method MergeSnapshotFrom(snapshot: Snapshot, sourceOrigin: string, now: Time) returns (ok: bool)
      modifies this
      ensures (State(), ok) == MergeSnapshot(old(State()), snapshot, sourceOrigin, now)
    {
      var source := if sourceOrigin == "" then LEGACY_ORIGIN else sourceOrigin;
      var records := Flatten(snapshot);
      for i := 0 to |records|
        invariant MergeRecords(State(), records[i..], source, now) == MergeRecords(old(State()), records, source, now)
      {
        assert records[i..][0] == records[i] && records[i..][1..] == records[i + 1..];
        ok := MergeOne(records[i], source, now);
        if !ok { return; }
      }
      ok := true;
      ObserveAll(snapshot.watermarks);
      var known := if source in peerWatermarks then peerWatermarks[source] else map[];
      var merged := MergeWatermarks(known, snapshot.watermarks);
      peerWatermarks := peerWatermarks[source := merged];
    }
  }
}
