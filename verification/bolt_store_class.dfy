/** The merge transactions of the persistent store, writing buckets in place.
    A transaction commits as a whole, so its intermediate puts are not visible. */
module BoltStoreObject {
  import opened Options
  import opened MemoryRecords
  import opened MemoryStoreSpec
  import opened MemoryMerge
  import opened BoltMerge
  import opened MemoryStoreObject

  method FillDefaults(fact: Fact, now: Time) returns (f: Fact)
    ensures f == NormalizeFact(fact, now)
  {
    f := fact;
    if f.scope == "" { f := f.(scope := DEFAULT_SCOPE); }
    if f.updatedAt == 0 { f := f.(updatedAt := f.createdAt); }
    if f.updatedAt == 0 { f := f.(updatedAt := now); }
    if f.createdAt == 0 || f.updatedAt < f.createdAt { f := f.(createdAt := f.updatedAt); }
  }

  lemma NormalTwice(s: StoreState, fact: Fact, source: string, now: Time)
    ensures var f := NormalizeFact(fact, now);
            f.scope != "" && NormalizeFact(f, 0) == f && BoltMergeFact(s, f, source, 0) == BoltMergeFact(s, fact, source, now)
  {
  }

  class BoltStore {
    const owner: string
    var lastID: nat
    var sequenceKeys: Marks
    var watermarkKeys: Marks
    var experiences: seq<Experience>
    var fingerprintKeys: set<Content>
    var facts: map<string, Fact>
    var performances: map<string, Performance>
    var perfCache: map<string, Performance>
    var dialogues: map<string, Dialogue>

    constructor (owner: string)
      ensures State() == NewStore(owner).(sequences := map[])
      ensures perfCache == performances
    {
      this.owner := owner;
      lastID, sequenceKeys, watermarkKeys := 0, map[], map[];
      experiences, fingerprintKeys, facts, performances, perfCache, dialogues := [], {}, map[], map[], map[], map[];
    }

    function State(): StoreState
      reads this
    {
      StoreState(owner, lastID, sequenceKeys, watermarkKeys, map[], experiences, fingerprintKeys, facts, performances, dialogues)
    }

    method SaveWatermark(origin: string, sequence: nat)
      modifies this`watermarkKeys
      ensures watermarkKeys == Raise(old(watermarkKeys), origin, sequence)
    {
      if sequence <= Get(watermarkKeys, origin) { return; }
      watermarkKeys := watermarkKeys[origin := sequence];
    }

    method UpdateRecordWatermark(origin: string, sequence: nat)
      modifies this`watermarkKeys
      ensures State() == BoltObserve(old(State()), origin, sequence)
    {
      if origin == "" || sequence == 0 { return; }
      SaveWatermark(origin, sequence);
    }

    method NextOriginSequence(origin: string) returns (sequence: nat)
      modifies this`watermarkKeys, this`sequenceKeys
      ensures State() == NextSequence(old(State()), origin)
      ensures sequence == Wm(State(), origin)
    {
      sequence := Get(sequenceKeys, origin);
      if Get(watermarkKeys, origin) > sequence { sequence := Get(watermarkKeys, origin); }
      sequence := sequence + 1;
      sequenceKeys := sequenceKeys[origin := sequence];
      SaveWatermark(origin, sequence);
    }

    method MergeExperienceTx(e: Experience, source: string, now: Time) returns (added: bool)
      modifies this`watermarkKeys, this`sequenceKeys, this`lastID, this`experiences, this`fingerprintKeys
      ensures State() == BoltMergeExperience(old(State()), e, source, now)
      ensures added <==> Fingerprint(e) !in old(fingerprintKeys)
    {
      var key := Fingerprint(e);
      UpdateRecordWatermark(e.origin, e.sequence);
      if key in fingerprintKeys { return false; }
      var x := e;
      if x.origin == "" || x.sequence == 0 {
        var sequence := NextOriginSequence(source);
        x := x.(origin := source, sequence := sequence);
      }
      lastID := lastID + 1;
      x := x.(id := lastID);
      if x.content.createdAt == 0 { x := x.(content := x.content.(createdAt := now)); }
      experiences := experiences + [x];
      fingerprintKeys := fingerprintKeys + {key};
      added := true;
    }

    method MergeFactTx(fact: Fact, source: string, now: Time) returns (ok: bool)
      modifies this`watermarkKeys, this`sequenceKeys, this`facts
      ensures ok <==> fact.key != ""
      ensures State() == if ok then BoltMergeFact(old(State()), fact, source, now) else old(State())
    {
      if fact.key == "" { return false; }
      ok := true;
      var f := FillDefaults(fact, now);
      NormalTwice(State(), fact, source, now);
      PutIfWinner(f, source);
    }

    method PutIfWinner(fact: Fact, source: string)
      requires fact.key != "" && fact.scope != "" && NormalizeFact(fact, 0) == fact
      modifies this`watermarkKeys, this`sequenceKeys, this`facts
      ensures State() == BoltMergeFact(old(State()), fact, source, 0)
    {
      var f := fact;
      var key := f.scope + "|" + f.key;
      UpdateRecordWatermark(f.origin, f.sequence);
      if key in facts {
        var current := facts[key];
        if f.updatedAt < current.updatedAt || (f.updatedAt == current.updatedAt && !FactWinsTie(f, current)) { return; }
        if current.createdAt < f.createdAt { f := f.(createdAt := current.createdAt); }
        if current.hits > f.hits { f := f.(hits := current.hits); }
      }
      if f.origin == "" || f.sequence == 0 {
        var sequence := NextOriginSequence(source);
        f := f.(origin := source, sequence := sequence);
      } else {
        UpdateRecordWatermark(f.origin, f.sequence);
      }
      facts := facts[key := f];
    }

    /** The performance transaction reads the cache, not the bucket, and
        publishes what it put once the transaction has committed. */
    method MergePerformancesFrom(incoming: seq<Performance>, source: string)
      requires perfCache == performances
      modifies this`watermarkKeys, this`sequenceKeys, this`performances, this`perfCache
      ensures State() == BoltMergeRecords(old(State()), PerformanceRecords(incoming), source, 0)
      ensures perfCache == performances
    {
      var merged: map<string, Performance> := map[];
      ghost var all := PerformanceRecords(incoming);
      for i := 0 to |incoming|
        invariant perfCache == old(perfCache) && performances == perfCache + merged
        invariant BoltMergeRecords(State(), all[i..], source, 0) == BoltMergeRecords(old(State()), all, source, 0)
      {
        assert all[i..][0] == PerformanceRecord(incoming[i]) && all[i..][1..] == all[i + 1..];
        merged := MergePerformanceTx(incoming[i], source, merged);
      }
      perfCache := perfCache + merged;
    }

    /** One round of the loop; `merged` holds what this transaction has put. */
    method MergePerformanceTx(incoming: Performance, source: string, merged: map<string, Performance>)
      returns (merged': map<string, Performance>)
      requires performances == perfCache + merged
      modifies this`watermarkKeys, this`sequenceKeys, this`performances
      ensures State() == BoltMergePerformance(old(State()), incoming, source)
      ensures performances == perfCache + merged'
    {
      merged' := merged;
      if incoming.nodeID == "" || incoming.model == "" { return; }
      var p := incoming;
      if p.taskType == "" { p := p.(taskType := DEFAULT_TASK_TYPE); }
      var key := PerformanceMapKey(p.nodeID, p.model, p.taskType);
      var existing := if key in merged then Some(merged[key]) else if key in perfCache then Some(perfCache[key]) else None;
      assert existing == if key in performances then Some(performances[key]) else None;
      if existing.Some? && existing.value.attempts >= p.attempts {
        UpdateRecordWatermark(p.origin, p.sequence);
        return;
      }
      p := StampPerformance(p, source);
      performances := performances[key := p];
      merged' := merged[key := p];
    }

    method StampPerformance(p: Performance, source: string) returns (q: Performance)
      modifies this`watermarkKeys, this`sequenceKeys
      ensures State() == if Unstamped(p.origin, p.sequence) then NextSequence(old(State()), source)
                         else BoltObserve(old(State()), p.origin, p.sequence)
      ensures q == if Unstamped(p.origin, p.sequence) then p.(origin := source, sequence := Wm(State(), source)) else p
    {
      q := p;
      if p.origin == "" || p.sequence == 0 {
        var sequence := NextOriginSequence(source);
        q := p.(origin := source, sequence := sequence);
      } else {
        UpdateRecordWatermark(p.origin, p.sequence);
      }
    }

    method MergeDialogueTx(d: Dialogue, source: string)
      requires owner != ""
      requires forall k :: k in dialogues ==> dialogues[k].id == k
      modifies this`watermarkKeys, this`sequenceKeys, this`dialogues
      ensures State() == BoltMergeDialogue(old(State()), d, source)
    {
      if d.id == "" { return; }
      UpdateRecordWatermark(d.origin, d.sequence);
      var changed := d.id !in dialogues;
      var current := if d.id in dialogues then dialogues[d.id] else Dialogue("", "", 0, [], "", [], 0, 0);
      if current.id == "" {
        current, changed := d, true;
      } else {
        ghost var was := current;
        var turns, turnsChanged := AppendNewTurns(current.turns, d.turns);
        var members, membersChanged := AppendNewParticipants(current.participants, d.participants);
        changed := turnsChanged || membersChanged;
        current := current.(turns := turns, participants := members);
        if current.topic == "" {
          current := current.(topic := d.topic);
          changed := changed || current.topic != "";
        }
        if d.updatedAt > current.updatedAt { current, changed := current.(updatedAt := d.updatedAt), true; }
        assert current == MergedDialogue(was, d) && (changed <==> current != was);
        if changed {
          var sequence := NextOriginSequence(owner);
          current := current.(origin := owner, sequence := sequence);
        }
      }
      if current.origin == "" || current.sequence == 0 {
        var sequence := NextOriginSequence(source);
        current, changed := current.(origin := source, sequence := sequence), true;
      }
      if !changed { return; }
      dialogues := dialogues[current.id := current];
    }
  }
}
