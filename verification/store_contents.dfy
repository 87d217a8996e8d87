/** What each operation of the knowledge store leaves in the records
    themselves, field by field, beside what the covering order says of them. */
module StoreContents {
  import opened Options
  import opened StringOrder
  import opened MemoryRecords
  import opened MemoryStoreSpec
  import opened MemoryMerge
  import opened SnapshotMerge

  // ----- local writes -----

  ghost function TurnsOf(s: StoreState, id: string): seq<Turn> { if id in s.dialogues then s.dialogues[id].turns else [] }

  lemma {:induction false} ManySequences(s: StoreState, origin: string, count: nat)
    ensures var s' := NextSequences(s, origin, count);
            && s' == s.(sequences := s'.sequences, watermarks := s'.watermarks)
            && (InStep(s) ==> InStep(s') && Wm(s', origin) == Wm(s, origin) + count)
            && (forall o :: o != origin ==> Wm(s', o) == Wm(s, o))
  {
    if count > 0 {
      ManySequences(s, origin, count - 1);
      var s1 := NextSequences(s, origin, count - 1);
      var s' := NextSequence(s1, origin);
      if InStep(s) {
        assert Get(s1.sequences, origin) == Get(s1.watermarks, origin);
        forall o ensures Get(s'.sequences, o) == Get(s'.watermarks, o) { assert Get(s1.sequences, o) == Get(s1.watermarks, o); }
      }
    }
  }

  /** Appending keeps the old turns and adds every new one, in order, as it was
      given, with the clock for a missing time. */
  lemma AppendedTurns(s: StoreState, id: string, participants: seq<string>, topic: string, turns: seq<Turn>, now: Time)
    requires id != "" && turns != []
    ensures var s' := AppendTurns(s, id, participants, topic, turns, now);
            && id in s'.dialogues
            && var d, before := s'.dialogues[id], TurnsOf(s, id);
               && |d.turns| == |before| + |turns| && d.turns[..|before|] == before
               && (forall i :: 0 <= i < |turns| ==>
                     d.turns[|before| + i] ==
                     Turn(turns[i].speaker, turns[i].nodeID, turns[i].model, turns[i].content, turns[i].durationMs,
                          if turns[i].at != 0 then turns[i].at else now))
  {
  }

  lemma AppendLeavesOthers(s: StoreState, id: string, participants: seq<string>, topic: string, turns: seq<Turn>, now: Time, k: string)
    ensures var s' := AppendTurns(s, id, participants, topic, turns, now);
            && (id != "" && turns != [] ==> id in s'.dialogues && s'.dialogues[id].updatedAt == now)
            && (k != id ==> (k in s'.dialogues <==> k in s.dialogues) && (k in s.dialogues ==> s'.dialogues[k] == s.dialogues[k]))
  {
    ManySequences(s, s.origin, |turns|);
  }

  /** The rest of the dialogue, and everything else. */
  lemma DialogueAfterAppend(s: StoreState, id: string, participants: seq<string>, topic: string, turns: seq<Turn>, now: Time)
    requires id != "" && turns != [] && InStep(s)
    ensures var s' := AppendTurns(s, id, participants, topic, turns, now);
            && id in s'.dialogues
            && var d := s'.dialogues[id];
               && d.updatedAt == now && d.origin == s.origin && d.sequence == Wm(s, s.origin) + |turns| == Wm(s', s.origin)
               && (forall p :: p in d.participants <==> p in participants || (id in s.dialogues && p in s.dialogues[id].participants))
               && (id in s.dialogues ==> d.id == s.dialogues[id].id && d.topic == s.dialogues[id].topic && d.createdAt == s.dialogues[id].createdAt)
               && (id !in s.dialogues ==> d.id == id && d.topic == topic && d.createdAt == now)
    ensures var s' := AppendTurns(s, id, participants, topic, turns, now);
            && s'.dialogues.Keys == s.dialogues.Keys + {id} && (forall k :: k in s.dialogues && k != id ==> s'.dialogues[k] == s.dialogues[k])
            && s' == s.(dialogues := s'.dialogues, sequences := s'.sequences, watermarks := s'.watermarks)
  {
    ManySequences(s, s.origin, |turns|);
    var base := if id in s.dialogues then s.dialogues[id].participants else participants;
    MergeParticipantsContents(base, participants);
    var d := AppendTurns(s, id, participants, topic, turns, now).dialogues[id];
    forall p ensures p in d.participants <==> p in participants || p in base {
      assert p in d.participants <==> p in Members(d.participants);
      assert p in base <==> p in Members(base);
      assert p in participants <==> p in Members(participants);
    }
  }

  ghost function ScopedKey(scope: string, key: string): string { (if scope == "" then "cluster" else scope) + "|" + key }

  /** The fact PutFact stores: the caller's value and source under its scope and
      key, created when the replaced one was, updated now. */
  lemma StoredFact(s: StoreState, f: Fact, now: Time)
    requires f.key != "" && InStep(s)
    ensures var s', k := PutFact(s, f, now), ScopedKey(f.scope, f.key);
            && k in s'.facts
            && var g := s'.facts[k];
               && g.key == f.key && g.value == f.value && g.source == f.source && g.scope == (if f.scope == "" then "cluster" else f.scope)
               && g.updatedAt == now && g.origin == s.origin && g.sequence == Wm(s, s.origin) + 1 == Wm(s', s.origin)
               && g.hits == (if k in s.facts then s.facts[k].hits else f.hits)
               && g.createdAt == (var c := if k in s.facts then s.facts[k].createdAt else f.createdAt; if c == 0 then now else c)
    ensures var s', k := PutFact(s, f, now), ScopedKey(f.scope, f.key);
            && s'.facts.Keys == s.facts.Keys + {k} && (forall j :: j in s.facts && j != k ==> s'.facts[j] == s.facts[j])
            && s' == s.(facts := s'.facts, sequences := s'.sequences, watermarks := s'.watermarks)
  {
    assert Get(s.sequences, s.origin) == Get(s.watermarks, s.origin);
  }

  /** Reading a fact counts one more hit and restamps it, and nothing else. */
  lemma CountedFact(s: StoreState, scope: string, key: string)
    requires InStep(s)
    ensures var s', k := GetFact(s, scope, key), ScopedKey(scope, key);
            if k !in s.facts then s' == s
            else && k in s'.facts && s'.facts[k] == s.facts[k].(hits := s.facts[k].hits + 1, origin := s.origin, sequence := Wm(s, s.origin) + 1)
                 && s'.facts.Keys == s.facts.Keys && (forall j :: j in s.facts && j != k ==> s'.facts[j] == s.facts[j])
                 && s' == s.(facts := s'.facts, sequences := s'.sequences, watermarks := s'.watermarks)
  {
    assert Get(s.sequences, s.origin) == Get(s.watermarks, s.origin);
  }

  /** One scope is the other and a bar and more, and the other's key has that
      in front. */
  ghost predicate SplitElsewhere(scope: string, key: string, longer: string, shorter: string)
  {
    exists x :: longer == scope + "|" + x && key == x + "|" + shorter
  }

  /** Two scopes and keys name the same entry exactly when they are the same or
      differ only in which bar ends the scope. */
  lemma SharedKeyIff(a: string, b: string, c: string, d: string)
    ensures a + "|" + b == c + "|" + d <==> (a == c && b == d) || SplitElsewhere(a, b, c, d) || SplitElsewhere(c, d, a, b)
  {
    if a + "|" + b == c + "|" + d {
      if |a| <= |c| { BarSplits(a, b, c, d); } else { BarSplits(c, d, a, b); }
    }
    if x :| c == a + "|" + x && b == x + "|" + d { BarsAssociate(a, x, d); }
    if x :| a == c + "|" + x && d == x + "|" + b { BarsAssociate(c, x, b); }
  }

  lemma BarsAssociate(a: string, x: string, d: string)
    ensures (a + "|" + x) + "|" + d == a + "|" + (x + "|" + d)
  {
  }

  lemma BarSplits(a: string, b: string, c: string, d: string)
    requires a + "|" + b == c + "|" + d && |a| <= |c|
    ensures (a == c && b == d) || SplitElsewhere(a, b, c, d)
  {
    var s, t := a + "|" + b, c + "|" + d;
    assert a == s[..|a|] == t[..|a|] == c[..|a|];
    if |a| == |c| {
      assert b == s[|a| + 1..] && d == t[|a| + 1..];
    } else {
      var x := c[|a| + 1..];
      assert c[|a|] == t[|a|] == s[|a|] == '|';
      assert c == a + "|" + x;
      assert b == s[|a| + 1..] && x + "|" + d == t[|a| + 1..];
    }
  }

  /** What was put under a scope and key is what is found there; under every
      other one is found what was there before, unless the two differ only in
      which bar ends the scope. */
  lemma PutThenGet(s: StoreState, f: Fact, now: Time, scope: string, key: string)
    requires f.key != "" && InStep(s)
    ensures var s', k := PutFact(s, f, now), ScopedKey(scope, key);
            var put, got := if f.scope == "" then "cluster" else f.scope, if scope == "" then "cluster" else scope;
            if (got == put && key == f.key) || SplitElsewhere(put, f.key, got, key) || SplitElsewhere(got, key, put, f.key)
            then k in s'.facts && s'.facts[k].value == f.value
            else (k in s'.facts <==> k in s.facts) && (k in s.facts ==> s'.facts[k] == s.facts[k])
  {
    StoredFact(s, f, now);
    SharedKeyIff(if f.scope == "" then "cluster" else f.scope, f.key, if scope == "" then "cluster" else scope, key);
  }

  ghost predicate Shortened(given: string, kept: string, max: nat)
  {
    if |given| <= max then kept == given else kept == given[..max] + "…[truncated]"
  }

  /** What is stored of a recorded content. */
  ghost predicate IsPrepared(c: Content, now: Time, stored: Content)
  {
    && stored.createdAt == (if c.createdAt == 0 then now else c.createdAt)
    && stored.kind == (if c.kind == "" then "task" else c.kind)
    && Shortened(c.prompt, stored.prompt, 8192) && Shortened(c.output, stored.output, 32768)
    && stored == c.(createdAt := stored.createdAt, kind := stored.kind, prompt := stored.prompt, output := stored.output)
  }

  lemma PrepareFills(c: Content, now: Time)
    ensures IsPrepared(c, now, Prepare(c, now))
  {
  }

  lemma UpdateTouchesPerformances(s: StoreState, c: Content)
    ensures var s' := UpdatePerformance(s, c);
            s' == s.(performances := s'.performances, sequences := s'.sequences, watermarks := s'.watermarks)
  {
  }

  lemma StoreAppends(s: StoreState, c: Content)
    requires InStep(s)
    ensures var s' := StoreExperience(s, c);
            && s'.experiences == s.experiences + [Experience(s.nextID + 1, s.origin, Wm(s, s.origin) + 1, c)]
            && s'.fingerprints == s.fingerprints + {c} && s'.nextID == s.nextID + 1
            && s' == s.(experiences := s'.experiences, fingerprints := s'.fingerprints, nextID := s'.nextID,
                        sequences := s'.sequences, watermarks := s'.watermarks)
  {
    assert Get(s.sequences, s.origin) == Get(s.watermarks, s.origin);
  }

  /** The experience Record stores: the caller's, with the default kind and time
      and long texts cut, under the next ID and the next own stamp. */
  lemma RecordedExperience(s: StoreState, c: Content, now: Time)
    requires InStep(s)
    ensures var s' := RecordExperience(s, c, now);
            && |s'.experiences| == |s.experiences| + 1 && s'.experiences[..|s.experiences|] == s.experiences && s'.nextID == s.nextID + 1
            && var e := s'.experiences[|s.experiences|];
               && e.id == s.nextID + 1 && e.origin == s.origin && e.sequence == Wm(s, s.origin) + 1
               && IsPrepared(c, now, e.content) && s'.fingerprints == s.fingerprints + {e.content}
    ensures var s' := RecordExperience(s, c, now);
            && (c.nodeID == "" || c.model == "" ==> s'.performances == s.performances)
            && s'.facts == s.facts && s'.dialogues == s.dialogues && s'.peerWatermarks == s.peerWatermarks && s'.origin == s.origin
  {
    PrepareFills(c, now);
    var stored := Prepare(c, now);
    StoreAppends(s, stored);
    UpdateTouchesPerformances(StoreExperience(s, stored), stored);
  }

  // ----- performance aggregates -----

  /** The aggregate a node, model and task type are counted under. */
  lemma PerformanceKeyParts(nodeID: string, model: string, taskType: string)
    ensures var task, k := if taskType == "" then "general" else taskType, PerformanceMapKey(nodeID, model, taskType);
            && |k| == |nodeID| + 1 + |model| + 1 + |task| && k[..|nodeID|] == nodeID && k[|nodeID|] == '|'
            && k[|nodeID| + 1..|nodeID| + 1 + |model|] == model && k[|nodeID| + 1 + |model|] == '|'
            && forall i :: 0 <= i < |task| ==>
                 k[|nodeID| + 1 + |model| + 1 + i] == if 'A' <= task[i] <= 'Z' then task[i] + (32 as char) else task[i]
  {
  }

  datatype Input = Input(content: Content, now: Time)

  function RecordAll(s: StoreState, inputs: seq<Input>): StoreState
  {
    if inputs == [] then s
    else RecordExperience(RecordAll(s, inputs[..|inputs| - 1]), inputs[|inputs| - 1].content, inputs[|inputs| - 1].now)
  }

  predicate Counted(c: Content, key: string)
  {
    c.nodeID != "" && c.model != "" && PerformanceMapKey(c.nodeID, c.model, c.taskType) == key
  }

  function Attempts(inputs: seq<Input>, key: string): nat
  {
    if inputs == [] then 0 else Attempts(inputs[..|inputs| - 1], key) + if Counted(inputs[|inputs| - 1].content, key) then 1 else 0
  }

  function Successes(inputs: seq<Input>, key: string): nat
  {
    if inputs == [] then 0
    else Successes(inputs[..|inputs| - 1], key)
         + if Counted(inputs[|inputs| - 1].content, key) && inputs[|inputs| - 1].content.success then 1 else 0
  }

  function Durations(inputs: seq<Input>, key: string): int
  {
    if inputs == [] then 0
    else Durations(inputs[..|inputs| - 1], key)
         + if Counted(inputs[|inputs| - 1].content, key) then inputs[|inputs| - 1].content.durationMs else 0
  }

  function Ratings(inputs: seq<Input>, key: string): real
  {
    if inputs == [] then 0.0
    else Ratings(inputs[..|inputs| - 1], key)
         + if Counted(inputs[|inputs| - 1].content, key) then inputs[|inputs| - 1].content.rating else 0.0
  }

  function LastUsed(inputs: seq<Input>, key: string): Time
  {
    if inputs == [] then 0
    else
      var i := inputs[|inputs| - 1];
      if !Counted(i.content, key) then LastUsed(inputs[..|inputs| - 1], key)
      else if i.content.createdAt == 0 then i.now else i.content.createdAt
  }

  ghost predicate Aggregates(p: Performance, inputs: seq<Input>, key: string)
  {
    var n, ok, total := Attempts(inputs, key), Successes(inputs, key), Durations(inputs, key);
    && n > 0 && p.attempts == n && p.successes == ok && p.failures == n - ok
    && p.totalDuration == total && p.avgDurationMs == (if total >= 0 then total / n else -((-total) / n))
    && p.successRate == ok as real / n as real && p.ratingSum == Ratings(inputs, key) && p.lastUsed == LastUsed(inputs, key)
  }

  lemma {:induction false} SuccessesBounded(inputs: seq<Input>, key: string)
    ensures Successes(inputs, key) <= Attempts(inputs, key)
  {
    if inputs != [] { SuccessesBounded(inputs[..|inputs| - 1], key); }
  }

  lemma RecordUpdatesAggregate(s: StoreState, c: Content, now: Time, key: string)
    ensures var s', stored := RecordExperience(s, c, now), Prepare(c, now);
            if !Counted(c, key) then (key in s'.performances <==> key in s.performances) && (key in s.performances ==> s'.performances[key] == s.performances[key])
            else key in s'.performances &&
                 s'.performances[key].(origin := "", sequence := 0) ==
                 PerformanceAfter(if key in s.performances then Some(s.performances[key]) else None, stored).(origin := "", sequence := 0)
  {
    PrepareFills(c, now);
    var stored := Prepare(c, now);
    assert StoreExperience(s, stored).performances == s.performances;
  }

  /** Over any recorded experiences, each aggregate counts exactly those of its
      node, model and task type: successes and failures make up the attempts,
      and durations and ratings are their sums. */
  lemma {:induction false} PerformanceIsAggregate(s: StoreState, inputs: seq<Input>, key: string)
    requires key !in s.performances
    ensures var ps := RecordAll(s, inputs).performances;
            && (key in ps <==> Attempts(inputs, key) > 0)
            && (key in ps ==> Aggregates(ps[key], inputs, key))
  {
    if inputs != [] {
      var front, last := inputs[..|inputs| - 1], inputs[|inputs| - 1];
      PerformanceIsAggregate(s, front, key);
      RecordUpdatesAggregate(RecordAll(s, front), last.content, last.now, key);
      var ps, ps' := RecordAll(s, front).performances, RecordAll(s, inputs).performances;
      if Counted(last.content, key) {
        var held := if key in ps then Some(ps[key]) else None;
        OneMoreAttempt(held, front, last, inputs, key);
        StampIsNotCounted(PerformanceAfter(held, Prepare(last.content, last.now)), ps'[key], inputs, key);
      } else {
        NotCounted(front, last, inputs, key);
      }
    }
  }

  lemma StampIsNotCounted(p: Performance, q: Performance, inputs: seq<Input>, key: string)
    requires Aggregates(p, inputs, key) && p.(origin := "", sequence := 0) == q.(origin := "", sequence := 0)
    ensures Aggregates(q, inputs, key)
  {
  }

  lemma NotCounted(front: seq<Input>, last: Input, inputs: seq<Input>, key: string)
    requires inputs != [] && front == inputs[..|inputs| - 1] && last == inputs[|inputs| - 1] && !Counted(last.content, key)
    ensures Attempts(inputs, key) == Attempts(front, key)
    ensures forall p :: Aggregates(p, inputs, key) <==> Aggregates(p, front, key)
  {
  }

  lemma {:induction false} NoneCounted(inputs: seq<Input>, key: string)
    requires Attempts(inputs, key) == 0
    ensures Successes(inputs, key) == 0 && Durations(inputs, key) == 0 && Ratings(inputs, key) == 0.0
  {
    if inputs != [] { NoneCounted(inputs[..|inputs| - 1], key); }
  }

  lemma OneMoreAttempt(held: Option<Performance>, front: seq<Input>, last: Input, inputs: seq<Input>, key: string)
    requires inputs != [] && front == inputs[..|inputs| - 1] && last == inputs[|inputs| - 1] && Counted(last.content, key)
    requires if held.None? then Attempts(front, key) == 0 else Aggregates(held.value, front, key)
    ensures Aggregates(PerformanceAfter(held, Prepare(last.content, last.now)), inputs, key)
  {
    SuccessesBounded(front, key);
    if held.None? { NoneCounted(front, key); }
  }

  // ----- merges -----

  /** The stamp of a merged record: its own, or the next one of the source. */
  ghost predicate Stamped(origin: string, sequence: nat, source: string, s': StoreState, origin': string, sequence': nat)
  {
    if origin != "" && sequence != 0 then origin' == origin && sequence' == sequence
    else origin' == source && sequence' == Wm(s', source)
  }

  /** A received experience is appended under the next ID unless one with the
      same content is there. */
  lemma MergedExperience(s: StoreState, e: Experience, source: string, now: Time)
    ensures var s' := MergeExperience(s, e, source, now);
            if e.content in s.fingerprints then s'.experiences == s.experiences && s'.nextID == s.nextID && s'.fingerprints == s.fingerprints
            else && s'.nextID == s.nextID + 1 && s'.fingerprints == s.fingerprints + {e.content}
                 && |s'.experiences| == |s.experiences| + 1 && s'.experiences[..|s.experiences|] == s.experiences
                 && var g := s'.experiences[|s.experiences|];
                    && g.id == s.nextID + 1 && Stamped(e.origin, e.sequence, source, s', g.origin, g.sequence)
                    && g.content == (if e.content.createdAt == 0 then e.content.(createdAt := now) else e.content)
  {
    var s1 := Observe(s, e.origin, e.sequence);
    ObserveKeepsRecords(s, e.origin, e.sequence);
    NextKeepsRecords(s1, source);
    var s2 := if Unstamped(e.origin, e.sequence) then NextSequence(s1, source) else s1;
    assert s2.experiences == s.experiences && s2.fingerprints == s.fingerprints;
  }

  /** The fact a merge leaves: the held one if the received one is older, or as
      old and from no smaller source, or from the same source with no larger
      value; otherwise the received one, created no later and hit no less often
      than the held one. */
  lemma MergedFact(s: StoreState, f: Fact, source: string, now: Time)
    requires f.key != ""
    ensures var s', k := MergeFact(s, f, source, now), ScopedKey(f.scope, f.key);
            var at := if f.updatedAt != 0 then f.updatedAt else if f.createdAt != 0 then f.createdAt else now;
            var made := if f.createdAt != 0 && f.createdAt <= at then f.createdAt else at;
            if k in s.facts && (at < s.facts[k].updatedAt ||
                                (at == s.facts[k].updatedAt && f.source != s.facts[k].source && !Less(f.source, s.facts[k].source)) ||
                                (at == s.facts[k].updatedAt && f.source == s.facts[k].source && !Less(s.facts[k].value, f.value)))
            then s'.facts == s.facts
            else && s'.facts.Keys == s.facts.Keys + {k} && (forall j :: j in s.facts && j != k ==> s'.facts[j] == s.facts[j])
                 && var g := s'.facts[k];
                    && g.key == f.key && g.value == f.value && g.source == f.source && g.scope == (if f.scope == "" then "cluster" else f.scope)
                    && g.updatedAt == at && Stamped(f.origin, f.sequence, source, s', g.origin, g.sequence)
                    && g.createdAt == (if k in s.facts && s.facts[k].createdAt < made then s.facts[k].createdAt else made)
                    && g.hits == (if k in s.facts && s.facts[k].hits > f.hits then s.facts[k].hits else f.hits)
  {
    var g := NormalizeFact(f, now);
    assert FactMapKey(g) == ScopedKey(f.scope, f.key);
    MergedNormalFact(s, g, source);
  }

  lemma ObserveKeepsRecords(s: StoreState, origin: string, sequence: nat)
    ensures var s' := Observe(s, origin, sequence); s' == s.(sequences := s'.sequences, watermarks := s'.watermarks)
  {
  }

  lemma NextKeepsRecords(s: StoreState, origin: string)
    ensures var s' := NextSequence(s, origin); s' == s.(sequences := s'.sequences, watermarks := s'.watermarks)
  {
  }

  lemma MergedNormalFact(s: StoreState, f: Fact, source: string)
    ensures var s', k := MergeNormalFact(s, f, source), FactMapKey(f);
            if k in s.facts && FactLoses(f, s.facts[k]) then s'.facts == s.facts
            else && s'.facts.Keys == s.facts.Keys + {k} && (forall j :: j in s.facts && j != k ==> s'.facts[j] == s.facts[j])
                 && var g := s'.facts[k];
                    && Stamped(f.origin, f.sequence, source, s', g.origin, g.sequence)
                    && g == (if k in s.facts then Inherit(f, s.facts[k]) else f).(origin := g.origin, sequence := g.sequence)
  {
    var s1, k := Observe(s, f.origin, f.sequence), FactMapKey(f);
    ObserveKeepsRecords(s, f.origin, f.sequence);
    if !(k in s.facts && FactLoses(f, s.facts[k])) {
      var g := if k in s.facts then Inherit(f, s.facts[k]) else f;
      if Unstamped(f.origin, f.sequence) {
        NextKeepsRecords(s1, source);
        var s2 := NextSequence(s1, source);
        assert MergeNormalFact(s, f, source) == s2.(facts := s.facts[k := g.(origin := source, sequence := Wm(s2, source))]);
      } else {
        ObserveKeepsRecords(s1, f.origin, f.sequence);
        assert MergeNormalFact(s, f, source).facts == s.facts[k := g];
      }
    }
  }

  /** The aggregate a merge leaves: the one with more attempts, whole. */
  lemma MergedPerformance(s: StoreState, p: Performance, source: string)
    ensures var s', k := MergePerformance(s, p, source), PerformanceMapKey(p.nodeID, p.model, p.taskType);
            if p.nodeID == "" || p.model == "" then s' == s
            else if k in s.performances && s.performances[k].attempts >= p.attempts then s'.performances == s.performances
            else && s'.performances.Keys == s.performances.Keys + {k}
                 && (forall j :: j in s.performances && j != k ==> s'.performances[j] == s.performances[j])
                 && var q := s'.performances[k];
                    && Stamped(p.origin, p.sequence, source, s', q.origin, q.sequence)
                    && q == p.(taskType := if p.taskType == "" then "general" else p.taskType, origin := q.origin, sequence := q.sequence)
  {
    var t := TaskTypeOf(p.taskType);
    assert TaskTypeOf(t) == t && PerformanceMapKey(p.nodeID, p.model, t) == PerformanceMapKey(p.nodeID, p.model, p.taskType);
  }

  /** Turn i of `incoming` says something `current` and the turns before it do not. */
  predicate Unheard(current: seq<Turn>, incoming: seq<Turn>, i: nat)
    requires i < |incoming|
  {
    && (forall t | t in current :: !SameTurn(t, incoming[i]))
    && (forall j | 0 <= j < i :: !SameTurn(incoming[j], incoming[i]))
  }

  predicate SameTurn(a: Turn, b: Turn) { a.at == b.at && a.speaker == b.speaker && a.content == b.content }

  function UnheardTurns(current: seq<Turn>, incoming: seq<Turn>, n: nat): seq<Turn>
    requires n <= |incoming|
  {
    if n == 0 then [] else UnheardTurns(current, incoming, n - 1) + if Unheard(current, incoming, n - 1) then [incoming[n - 1]] else []
  }

  lemma {:induction false} MergeTurnsOneMore(current: seq<Turn>, incoming: seq<Turn>, t: Turn)
    ensures var m := MergeTurns(current, incoming);
            MergeTurns(current, incoming + [t]) == if UtteranceOf(t) in Utterances(m) then m else m + [t]
    decreases |incoming|
  {
    if incoming == [] {
      assert incoming + [t] == [t] && [t][1..] == [];
    } else {
      var next := if UtteranceOf(incoming[0]) in Utterances(current) then current else current + [incoming[0]];
      assert (incoming + [t])[0] == incoming[0] && (incoming + [t])[1..] == incoming[1..] + [t];
      MergeTurnsOneMore(next, incoming[1..], t);
    }
  }

  lemma UnheardIffNew(current: seq<Turn>, incoming: seq<Turn>, n: nat)
    requires n < |incoming|
    ensures Unheard(current, incoming, n) <==> UtteranceOf(incoming[n]) !in Utterances(current) + Utterances(incoming[..n])
  {
    var u := UtteranceOf(incoming[n]);
    if u in Utterances(incoming[..n]) {
      var t :| t in incoming[..n] && UtteranceOf(t) == u;
      var j :| 0 <= j < n && incoming[..n][j] == t;
      assert SameTurn(incoming[j], incoming[n]);
    }
    forall j | 0 <= j < n && SameTurn(incoming[j], incoming[n]) ensures u in Utterances(incoming[..n]) {
      assert incoming[..n][j] == incoming[j] && incoming[j] in incoming[..n];
    }
  }

  /** Merged turns are the held ones followed by the unheard ones, whole and in
      the order received. */
  lemma {:induction false} MergedTurns(current: seq<Turn>, incoming: seq<Turn>, n: nat)
    requires n <= |incoming|
    ensures MergeTurns(current, incoming[..n]) == current + UnheardTurns(current, incoming, n)
  {
    if n > 0 {
      MergedTurns(current, incoming, n - 1);
      UnheardIffNew(current, incoming, n - 1);
      assert incoming[..n] == incoming[..n - 1] + [incoming[n - 1]];
      NextTurn(current, incoming[..n - 1], UnheardTurns(current, incoming, n - 1), incoming[n - 1]);
    }
  }

  lemma NextTurn(current: seq<Turn>, front: seq<Turn>, added: seq<Turn>, t: Turn)
    requires MergeTurns(current, front) == current + added
    ensures MergeTurns(current, front + [t]) ==
            current + (added + if UtteranceOf(t) !in Utterances(current) + Utterances(front) then [t] else [])
  {
    MergeTurnsContents(current, front);
    MergeTurnsOneMore(current, front, t);
    assert current + added + [t] == current + (added + [t]) && added + [] == added;
  }

  lemma {:induction false} MergedParticipants(current: seq<string>, incoming: seq<string>)
    ensures current <= MergeParticipants(current, incoming)
    ensures forall p :: p in MergeParticipants(current, incoming) <==> p in current || p in incoming
    decreases |incoming|
  {
    if incoming != [] {
      MergedParticipants(if incoming[0] in current then current else current + [incoming[0]], incoming[1..]);
      assert incoming == [incoming[0]] + incoming[1..];
    }
  }

  /** The content of a merged dialogue. */
  ghost predicate IsMerged(held: Dialogue, d: Dialogue, g: Dialogue)
  {
    && g.turns == held.turns + UnheardTurns(held.turns, d.turns, |d.turns|)
    && held.participants <= g.participants && (forall p :: p in g.participants <==> p in held.participants || p in d.participants)
    && g.topic == (if held.topic != "" then held.topic else d.topic)
    && g.updatedAt == (if d.updatedAt > held.updatedAt then d.updatedAt else held.updatedAt)
    && g.id == held.id && g.createdAt == held.createdAt
  }

  lemma MergedIsMerged(held: Dialogue, d: Dialogue)
    ensures IsMerged(held, d, MergedDialogue(held, d))
    ensures MergedDialogue(held, d).origin == held.origin && MergedDialogue(held, d).sequence == held.sequence
  {
    assert d.turns[..|d.turns|] == d.turns;
    MergedTurns(held.turns, d.turns, |d.turns|);
    MergedParticipants(held.participants, d.participants);
  }

  /** What merges other than of experiences leave alone. */
  ghost predicate SameElsewhere(s: StoreState, s': StoreState)
  {
    && s'.experiences == s.experiences && s'.fingerprints == s.fingerprints && s'.nextID == s.nextID
    && s'.peerWatermarks == s.peerWatermarks && s'.origin == s.origin
  }

  lemma MergedUnknown(s: StoreState, d: Dialogue, source: string)
    requires d.id != "" && d.id !in s.dialogues
    ensures var s' := MergeDialogue(s, d, source);
            && d.id in s'.dialogues && s'.dialogues == s.dialogues[d.id := s'.dialogues[d.id]] && SameElsewhere(s, s')
            && var g := s'.dialogues[d.id];
               g == d.(origin := g.origin, sequence := g.sequence) && Stamped(d.origin, d.sequence, source, s', g.origin, g.sequence)
  {
    ObserveKeepsRecords(s, d.origin, d.sequence);
    NextKeepsRecords(Observe(s, d.origin, d.sequence), source);
  }

  lemma MergedKnown(s: StoreState, d: Dialogue, source: string)
    requires d.id != "" && d.id in s.dialogues
    ensures var s', merged := MergeDialogue(s, d, source), MergedDialogue(s.dialogues[d.id], d);
            && d.id in s'.dialogues && s'.dialogues == s.dialogues[d.id := s'.dialogues[d.id]] && SameElsewhere(s, s')
            && var g := s'.dialogues[d.id];
               && g == merged.(origin := g.origin, sequence := g.sequence)
               && (g == s.dialogues[d.id] ||
                   (g.origin == (if d.origin == "" || d.sequence == 0 then source else s.origin) && g.sequence == Wm(s', g.origin)))
  {
    var s1 := Observe(s, d.origin, d.sequence);
    ObserveKeepsRecords(s, d.origin, d.sequence);
    var merged, origin := MergedDialogue(s.dialogues[d.id], d), if Unstamped(d.origin, d.sequence) then source else s.origin;
    NextKeepsRecords(s1, origin);
    if merged == s.dialogues[d.id] {
      assert MergeDialogue(s, d, source) == s1 && s.dialogues == s.dialogues[d.id := s.dialogues[d.id]];
    } else {
      var s2 := NextSequence(s1, origin);
      assert MergeDialogue(s, d, source) == s2.(dialogues := s.dialogues[d.id := merged.(origin := origin, sequence := Wm(s2, origin))]);
    }
  }

  /** The dialogue a merge leaves: an unknown one as received; otherwise the
      union, restamped if it differs from the held one. */
  lemma MergedDialogueIn(s: StoreState, d: Dialogue, source: string)
    requires d.id != ""
    ensures var s' := MergeDialogue(s, d, source);
            && s'.dialogues.Keys == s.dialogues.Keys + {d.id} && (forall k :: k in s.dialogues && k != d.id ==> s'.dialogues[k] == s.dialogues[k])
            && var g := s'.dialogues[d.id];
               if d.id !in s.dialogues then
                 g == d.(origin := g.origin, sequence := g.sequence) && Stamped(d.origin, d.sequence, source, s', g.origin, g.sequence)
               else
                 && IsMerged(s.dialogues[d.id], d, g)
                 && (g == s.dialogues[d.id] ||
                     (g.origin == (if d.origin == "" || d.sequence == 0 then source else s.origin) && g.sequence == Wm(s', g.origin)))
  {
    if d.id in s.dialogues {
      MergedIsMerged(s.dialogues[d.id], d);
      MergedKnown(s, d, source);
    } else {
      MergedUnknown(s, d, source);
    }
  }

  // ----- snapshots -----

  ghost function MarkOf(marks: Marks, o: string): nat { if o in marks then marks[o] else 0 }

  /** An incremental snapshot has exactly the records the peer's marks do not
      reach, and those without a stamp. */
  lemma SinceMembers(sn: Snapshot, marks: Marks, r: Record)
    ensures r in Flatten(SnapshotSince(sn, marks)) <==>
            r in Flatten(sn) && (r.Origin() == "" || r.Sequence() == 0 || r.Sequence() > MarkOf(marks, r.Origin()))
    ensures SnapshotSince(sn, marks).watermarks == sn.watermarks
  {
    FlattenSince(sn, marks);
    FilterMembers(Flatten(sn), marks, r);
  }

  /** A peer is sent the increment exactly when it speaks protocol 1 to 3 and
      claims nothing the sender has not seen; otherwise everything. */
  lemma PeerIsSent(sn: Snapshot, version: int, marks: Marks)
    ensures SnapshotForPeer(sn, version, marks) ==
            if 1 <= version <= 3 && (forall o :: o in marks ==> marks[o] <= MarkOf(sn.watermarks, o)) then SnapshotSince(sn, marks) else sn
  {
  }

  /** A merge notes, for the peer it came from, the pointwise maximum of what
      was known and what the snapshot claims. */
  lemma PeerMarksNoted(s: StoreState, sn: Snapshot, source: string, now: Time)
    requires MergeSnapshot(s, sn, source, now).1
    ensures var s', peer := MergeSnapshot(s, sn, source, now).0, if source == "" then "legacy" else source;
            && s'.peerWatermarks.Keys == s.peerWatermarks.Keys + {peer}
            && (forall q :: q in s.peerWatermarks && q != peer ==> s'.peerWatermarks[q] == s.peerWatermarks[q])
            && forall o :: MarkOf(s'.peerWatermarks[peer], o) ==
                 Max(if peer in s.peerWatermarks then MarkOf(s.peerWatermarks[peer], o) else 0, MarkOf(sn.watermarks, o))
  {
    MergeKeepsPeerMarks(s, Flatten(sn), SourceOf(source), now);
    NotedMarks(ObserveMarks(MergeRecords(s, Flatten(sn), SourceOf(source), now).0, sn.watermarks), SourceOf(source), sn.watermarks);
  }

  lemma NotedMarks(s: StoreState, peer: string, marks: Marks)
    ensures var s' := NotePeer(s, peer, marks);
            && s'.peerWatermarks.Keys == s.peerWatermarks.Keys + {peer}
            && (forall q :: q in s.peerWatermarks && q != peer ==> s'.peerWatermarks[q] == s.peerWatermarks[q])
            && forall o :: MarkOf(s'.peerWatermarks[peer], o) ==
                 Max(if peer in s.peerWatermarks then MarkOf(s.peerWatermarks[peer], o) else 0, MarkOf(marks, o))
  {
  }

  lemma ExperienceKeepsPeerMarks(s: StoreState, e: Experience, source: string, now: Time)
    ensures MergeExperience(s, e, source, now).peerWatermarks == s.peerWatermarks
  {
    NextKeepsRecords(Observe(s, e.origin, e.sequence), source);
  }

  lemma FactKeepsOthers(s: StoreState, f: Fact, source: string)
    ensures SameElsewhere(s, MergeNormalFact(s, f, source))
  {
    var s1 := Observe(s, f.origin, f.sequence);
    ObserveKeepsRecords(s, f.origin, f.sequence);
    assert SameElsewhere(s, s1);
    ObserveKeepsRecords(s1, f.origin, f.sequence);
    NextKeepsRecords(s1, source);
    var s2 := if Unstamped(f.origin, f.sequence) then NextSequence(s1, source) else Observe(s1, f.origin, f.sequence);
    assert SameElsewhere(s, s2);
    var s' := MergeNormalFact(s, f, source);
    assert s' == s1 || s' == s2.(facts := s'.facts);
  }

  lemma PerformanceKeepsOthers(s: StoreState, p: Performance, source: string)
    ensures SameElsewhere(s, MergePerformance(s, p, source))
  {
    NextKeepsRecords(s, source);
  }

  lemma DialogueKeepsOthers(s: StoreState, d: Dialogue, source: string)
    ensures SameElsewhere(s, MergeDialogue(s, d, source))
  {
    if d.id != "" {
      if d.id in s.dialogues { MergedKnown(s, d, source); } else { MergedUnknown(s, d, source); }
    }
  }

  lemma RecordKeepsPeerMarks(s: StoreState, r: Record, source: string, now: Time)
    requires !Rejected(r)
    ensures MergeRecord(s, r, source, now).peerWatermarks == s.peerWatermarks
  {
    match r
    case ExperienceRecord(e) => ExperienceKeepsPeerMarks(s, e, source, now);
    case FactRecord(f) => FactKeepsOthers(s, NormalizeFact(f, now), source);
    case PerformanceRecord(p) => PerformanceKeepsOthers(s, p, source);
    case DialogueRecord(d) => DialogueKeepsOthers(s, d, source);
  }

  lemma {:induction false} MergeKeepsPeerMarks(s: StoreState, rs: seq<Record>, source: string, now: Time)
    ensures MergeRecords(s, rs, source, now).0.peerWatermarks == s.peerWatermarks
    decreases |rs|
  {
    if rs != [] && !Rejected(rs[0]) {
      RecordKeepsPeerMarks(s, rs[0], source, now);
      MergeKeepsPeerMarks(MergeRecord(s, rs[0], source, now), rs[1..], source, now);
    }
  }

  // ----- experience IDs -----

  /** Experiences are numbered from 1 in the order they are stored. */
  ghost predicate NumberedFromOne(s: StoreState)
  {
    s.nextID == |s.experiences| && forall i :: 0 <= i < |s.experiences| ==> s.experiences[i].id == i + 1
  }

  lemma RecordKeepsNumbers(s: StoreState, c: Content, now: Time)
    requires NumberedFromOne(s) && InStep(s)
    ensures NumberedFromOne(RecordExperience(s, c, now))
  {
    RecordedExperience(s, c, now);
    var s' := RecordExperience(s, c, now);
    assert forall i :: 0 <= i < |s.experiences| ==> s'.experiences[i] == s'.experiences[..|s.experiences|][i];
  }

  lemma OtherWritesKeepNumbers(s: StoreState, f: Fact, scope: string, key: string, now: Time)
    requires NumberedFromOne(s) && InStep(s)
    ensures f.key != "" ==> NumberedFromOne(PutFact(s, f, now))
    ensures NumberedFromOne(GetFact(s, scope, key))
  {
    if f.key != "" { StoredFact(s, f, now); }
    CountedFact(s, scope, key);
  }

  lemma AppendKeepsNumbers(s: StoreState, id: string, participants: seq<string>, topic: string, turns: seq<Turn>, now: Time)
    requires NumberedFromOne(s) && InStep(s)
    ensures NumberedFromOne(AppendTurns(s, id, participants, topic, turns, now))
  {
    if id != "" && turns != [] { DialogueAfterAppend(s, id, participants, topic, turns, now); }
  }

  lemma MergeKeepsNumbers(s: StoreState, r: Record, source: string, now: Time)
    requires NumberedFromOne(s) && !Rejected(r)
    ensures NumberedFromOne(MergeRecord(s, r, source, now))
  {
    match r
    case ExperienceRecord(e) =>
      MergedExperience(s, e, source, now);
      var s' := MergeExperience(s, e, source, now);
      assert e.content !in s.fingerprints ==> forall i :: 0 <= i < |s.experiences| ==> s'.experiences[i] == s'.experiences[..|s.experiences|][i];
    case FactRecord(f) => FactKeepsOthers(s, NormalizeFact(f, now), source);
    case PerformanceRecord(p) => PerformanceKeepsOthers(s, p, source);
    case DialogueRecord(d) => DialogueKeepsOthers(s, d, source);
  }

  lemma {:induction false} MergesKeepNumbers(s: StoreState, rs: seq<Record>, source: string, now: Time)
    requires NumberedFromOne(s)
    ensures NumberedFromOne(MergeRecords(s, rs, source, now).0)
    decreases |rs|
  {
    if rs != [] && !Rejected(rs[0]) {
      MergeKeepsNumbers(s, rs[0], source, now);
      MergesKeepNumbers(MergeRecord(s, rs[0], source, now), rs[1..], source, now);
    }
  }

  lemma SnapshotKeepsNumbers(s: StoreState, sn: Snapshot, source: string, now: Time)
    requires NumberedFromOne(s)
    ensures NumberedFromOne(MergeSnapshot(s, sn, source, now).0)
  {
    MergesKeepNumbers(s, Flatten(sn), SourceOf(source), now);
  }
}
