/** Value-level specification of the in-memory store: its state, the local
    writes, and the merge of a snapshot received from a peer. */
module MemoryStoreSpec {
  import opened Options
  import opened StringOrder
  import opened MemoryRecords

  type Marks = map<string, nat>

  function Get(m: Marks, origin: string): nat { if origin in m then m[origin] else 0 }

  function Max(a: nat, b: nat): nat { if a < b then b else a }

  datatype StoreState = StoreState(
    origin: string,
    nextID: nat,
    sequences: Marks,
    watermarks: Marks,
    peerWatermarks: map<string, Marks>,
    experiences: seq<Experience>,
    fingerprints: set<Content>,
    facts: map<string, Fact>,
    performances: map<string, Performance>,
    dialogues: map<string, Dialogue>)

  datatype Snapshot = Snapshot(
    experiences: seq<Experience>, facts: seq<Fact>, performances: seq<Performance>, dialogues: seq<Dialogue>,
    watermarks: Marks)

  function NewStore(origin: string): StoreState
  {
    StoreState(origin, 0, map[origin := 0], map[], map[], [], {}, map[], map[], map[])
  }

  function Wm(s: StoreState, origin: string): nat { Get(s.watermarks, origin) }

  // ----- stamps and watermarks -----

  function NextSequence(s: StoreState, origin: string): StoreState
  {
    var sequence := Max(Get(s.sequences, origin), Wm(s, origin)) + 1;
    s.(sequences := s.sequences[origin := sequence], watermarks := s.watermarks[origin := sequence])
  }

  function NextSequences(s: StoreState, origin: string, count: nat): StoreState
  {
    if count == 0 then s else NextSequence(NextSequences(s, origin, count - 1), origin)
  }

  function Raise(m: Marks, origin: string, sequence: nat): Marks
  {
    if sequence > Get(m, origin) then m[origin := sequence] else m
  }

  function Observe(s: StoreState, origin: string, sequence: nat): StoreState
  {
    if origin == "" || sequence == 0 then s
    else s.(watermarks := Raise(s.watermarks, origin, sequence), sequences := Raise(s.sequences, origin, sequence))
  }

  /** Pointwise maximum of two watermark maps (mergeWatermarks). */
  function MergeMarks(current: Marks, incoming: Marks): Marks
  {
    map origin | origin in current.Keys + (set o | o in incoming && incoming[o] > 0) ::
      Max(Get(current, origin), Get(incoming, origin))
  }

  predicate Unstamped(origin: string, sequence: nat) { origin == "" || sequence == 0 }

  // ----- local writes -----

  function Truncate(s: string, max: nat): string
  {
    if |s| <= max then s else s[..max] + "…[truncated]"
  }

  /** The fields Record fills in before it stores an experience. */
  function Prepare(c: Content, now: Time): Content
  {
    c.(createdAt := if c.createdAt == 0 then now else c.createdAt,
       kind := if c.kind == "" then "task" else c.kind,
       prompt := Truncate(c.prompt, 8 * 1024),
       output := Truncate(c.output, 32 * 1024))
  }

  /** Go's integer division rounds toward zero. */
  function TruncatedDiv(a: int, b: int): int
    requires b > 0
  {
    if a >= 0 then a / b else -((-a) / b)
  }

  function AtLeastOne(n: int): (m: int)
    ensures m >= 1
  {
    if n < 1 then 1 else n
  }

  function PerformanceAfter(current: Option<Performance>, c: Content): Performance
  {
    var base := match current
      case Some(p) => p
      case None => Performance(c.nodeID, "", 0, c.model, ToLower(TaskTypeOf(c.taskType)), 0, 0, 0, 0, 0, 0.0, 0.0, 0);
    var attempts := base.attempts + 1;
    var successes := base.successes + if c.success then 1 else 0;
    var total := base.totalDuration + c.durationMs;
    base.(attempts := attempts,
          successes := successes,
          failures := base.failures + if c.success then 0 else 1,
          totalDuration := total,
          avgDurationMs := TruncatedDiv(total, AtLeastOne(attempts)),
          successRate := successes as real / AtLeastOne(attempts) as real,
          ratingSum := base.ratingSum + c.rating,
          lastUsed := c.createdAt)
  }

  function UpdatePerformance(s: StoreState, c: Content): StoreState
  {
    var key := PerformanceMapKey(c.nodeID, c.model, c.taskType);
    var next := PerformanceAfter(if key in s.performances then Some(s.performances[key]) else None, c);
    var s1 := NextSequence(s, s.origin);
    s1.(performances := s1.performances[key := next.(origin := s.origin, sequence := Wm(s1, s.origin))])
  }

  function StoreExperience(s: StoreState, c: Content): StoreState
  {
    var s1 := NextSequence(s, s.origin);
    s1.(nextID := s.nextID + 1,
        experiences := s.experiences + [Experience(s.nextID + 1, s.origin, Wm(s1, s.origin), c)],
        fingerprints := s.fingerprints + {c})
  }

  function RecordExperience(s: StoreState, content: Content, now: Time): StoreState
  {
    var c := Prepare(content, now);
    var s1 := StoreExperience(s, c);
    if c.nodeID != "" && c.model != "" then UpdatePerformance(s1, c) else s1
  }

  /** The fact PutFact stores, before it is stamped. */
  function NewFact(s: StoreState, f: Fact, now: Time): Fact
  {
    var key := FactMapKey(f);
    var carried := if key in s.facts then f.(createdAt := s.facts[key].createdAt, hits := s.facts[key].hits) else f;
    carried.(scope := ScopeOf(f.scope), createdAt := if carried.createdAt == 0 then now else carried.createdAt, updatedAt := now)
  }

  function StoreStampedFact(s: StoreState, key: string, f: Fact): StoreState
  {
    var s1 := NextSequence(s, s.origin);
    s1.(facts := s1.facts[key := f.(origin := s.origin, sequence := Wm(s1, s.origin))])
  }

  function PutFact(s: StoreState, f: Fact, now: Time): StoreState
  {
    if f.key == "" then s else StoreStampedFact(s, FactMapKey(f), NewFact(s, f, now))
  }

  function GetFact(s: StoreState, scope: string, key: string): StoreState
  {
    var mapKey := ScopeOf(scope) + "|" + key;
    if mapKey !in s.facts then s
    else StoreStampedFact(s, mapKey, s.facts[mapKey].(hits := s.facts[mapKey].hits + 1))
  }

  function FillTimes(turns: seq<Turn>, now: Time): seq<Turn>
  {
    seq(|turns|, i requires 0 <= i < |turns| => if turns[i].at == 0 then turns[i].(at := now) else turns[i])
  }

  function AppendTurns(s: StoreState, id: string, participants: seq<string>, topic: string, turns: seq<Turn>, now: Time): StoreState
  {
    if id == "" || turns == [] then s
    else
      var base := if id in s.dialogues then s.dialogues[id] else Dialogue(id, "", 0, participants, topic, [], now, 0);
      var s1 := NextSequences(s, s.origin, |turns|);
      s1.(dialogues := s1.dialogues[id := base.(
        participants := MergeParticipants(base.participants, participants),
        turns := base.turns + FillTimes(turns, now),
        updatedAt := now,
        origin := s.origin,
        sequence := Wm(s1, s.origin))])
  }

  // ----- merging one record -----

  function MergeExperience(s: StoreState, e: Experience, source: string, now: Time): StoreState
  {
    var s1 := Observe(s, e.origin, e.sequence);
    if Fingerprint(e) in s1.fingerprints then s1
    else
      var s2 := if Unstamped(e.origin, e.sequence) then NextSequence(s1, source) else s1;
      var stamped := if Unstamped(e.origin, e.sequence) then e.(origin := source, sequence := Wm(s2, source)) else e;
      var timed := if e.content.createdAt == 0 then stamped.(content := e.content.(createdAt := now)) else stamped;
      s2.(nextID := s.nextID + 1,
          experiences := s2.experiences + [timed.(id := s.nextID + 1)],
          fingerprints := s2.fingerprints + {Fingerprint(e)})
  }

  /** Default scope and times of a received fact. */
  function NormalizeFact(f: Fact, now: Time): Fact
  {
    var updated := if f.updatedAt != 0 then f.updatedAt else if f.createdAt != 0 then f.createdAt else now;
    f.(scope := ScopeOf(f.scope), updatedAt := updated,
       createdAt := if f.createdAt == 0 || updated < f.createdAt then updated else f.createdAt)
  }

  function FactWinsTie(incoming: Fact, current: Fact): bool
  {
    if incoming.source != current.source then Less(incoming.source, current.source)
    else Less(current.value, incoming.value)
  }

  predicate FactLoses(incoming: Fact, current: Fact)
  {
    incoming.updatedAt < current.updatedAt ||
    (incoming.updatedAt == current.updatedAt && !FactWinsTie(incoming, current))
  }

  /** The winning incoming fact keeps the earliest creation and the most hits. */
  function Inherit(incoming: Fact, current: Fact): Fact
  {
    incoming.(createdAt := if current.createdAt < incoming.createdAt then current.createdAt else incoming.createdAt,
              hits := if current.hits > incoming.hits then current.hits else incoming.hits)
  }

  function MergeFact(s: StoreState, fact: Fact, source: string, now: Time): StoreState
    requires fact.key != ""
  {
    MergeNormalFact(s, NormalizeFact(fact, now), source)
  }

  function MergeNormalFact(s: StoreState, f: Fact, source: string): StoreState
  {
    var key := FactMapKey(f);
    var s1 := Observe(s, f.origin, f.sequence);
    if key in s1.facts && FactLoses(f, s1.facts[key]) then s1
    else
      var g := if key in s1.facts then Inherit(f, s1.facts[key]) else f;
      var s2 := if Unstamped(f.origin, f.sequence) then NextSequence(s1, source) else Observe(s1, f.origin, f.sequence);
      var h := if Unstamped(f.origin, f.sequence) then g.(origin := source, sequence := Wm(s2, source)) else g;
      s2.(facts := s2.facts[key := h])
  }

  function MergePerformance(s: StoreState, incoming: Performance, source: string): StoreState
  {
    if incoming.nodeID == "" || incoming.model == "" then s
    else
      var p := incoming.(taskType := TaskTypeOf(incoming.taskType));
      var key := PerformanceMapKey(p.nodeID, p.model, p.taskType);
      if key in s.performances && s.performances[key].attempts >= p.attempts then Observe(s, p.origin, p.sequence)
      else
        var s1 := if Unstamped(p.origin, p.sequence) then NextSequence(s, source) else Observe(s, p.origin, p.sequence);
        var q := if Unstamped(p.origin, p.sequence) then p.(origin := source, sequence := Wm(s1, source)) else p;
        s1.(performances := s1.performances[key := q])
  }

  function MergeTurns(current: seq<Turn>, incoming: seq<Turn>): seq<Turn>
    decreases |incoming|
  {
    if incoming == [] then current
    else
      var t := incoming[0];
      MergeTurns(if UtteranceOf(t) in Utterances(current) then current else current + [t], incoming[1..])
  }

  function MergeParticipants(current: seq<string>, incoming: seq<string>): seq<string>
    decreases |incoming|
  {
    if incoming == [] then current
    else MergeParticipants(if incoming[0] in current then current else current + [incoming[0]], incoming[1..])
  }

  function MergedDialogue(current: Dialogue, incoming: Dialogue): Dialogue
  {
    current.(turns := MergeTurns(current.turns, incoming.turns),
             participants := MergeParticipants(current.participants, incoming.participants),
             topic := if current.topic == "" then incoming.topic else current.topic,
             updatedAt := if incoming.updatedAt > current.updatedAt then incoming.updatedAt else current.updatedAt)
  }

  function MergeDialogue(s: StoreState, d: Dialogue, source: string): StoreState
  {
    if d.id == "" then s
    else
      var s1 := Observe(s, d.origin, d.sequence);
      var unstamped := Unstamped(d.origin, d.sequence);
      if d.id !in s1.dialogues then
        if unstamped then
          var s2 := NextSequence(s1, source);
          s2.(dialogues := s2.dialogues[d.id := d.(origin := source, sequence := Wm(s2, source))])
        else s1.(dialogues := s1.dialogues[d.id := d])
      else
        var merged := MergedDialogue(s1.dialogues[d.id], d);
        if merged == s1.dialogues[d.id] then s1
        else
          var origin := if unstamped then source else s.origin;
          var s2 := NextSequence(s1, origin);
          s2.(dialogues := s2.dialogues[d.id := merged.(origin := origin, sequence := Wm(s2, origin))])
  }

  predicate Rejected(r: Record) { r.FactRecord? && r.fact.key == "" }

  function MergeRecord(s: StoreState, r: Record, source: string, now: Time): StoreState
    requires !Rejected(r)
  {
    match r
    case ExperienceRecord(e) => MergeExperience(s, e, source, now)
    case FactRecord(f) => MergeFact(s, f, source, now)
    case PerformanceRecord(p) => MergePerformance(s, p, source)
    case DialogueRecord(d) => MergeDialogue(s, d, source)
  }

  // ----- merging a snapshot -----

  /** Merges records in order; stops, reporting false, at a fact without a key. */
  function MergeRecords(s: StoreState, rs: seq<Record>, source: string, now: Time): (StoreState, bool)
    decreases |rs|
  {
    if rs == [] then (s, true)
    else if Rejected(rs[0]) then (s, false)
    else MergeRecords(MergeRecord(s, rs[0], source, now), rs[1..], source, now)
  }

  function ExperienceRecords(es: seq<Experience>): seq<Record> { seq(|es|, i requires 0 <= i < |es| => ExperienceRecord(es[i])) }
  function FactRecords(fs: seq<Fact>): seq<Record> { seq(|fs|, i requires 0 <= i < |fs| => FactRecord(fs[i])) }
  function PerformanceRecords(ps: seq<Performance>): seq<Record> { seq(|ps|, i requires 0 <= i < |ps| => PerformanceRecord(ps[i])) }
  function DialogueRecords(ds: seq<Dialogue>): seq<Record> { seq(|ds|, i requires 0 <= i < |ds| => DialogueRecord(ds[i])) }

  /** The order in which MergeSnapshotFrom visits the records of a snapshot. */
  function Flatten(sn: Snapshot): seq<Record>
  {
    ExperienceRecords(sn.experiences) + FactRecords(sn.facts) + PerformanceRecords(sn.performances) + DialogueRecords(sn.dialogues)
  }

  /** observeRecordLocked for every entry of a watermark map. */
  function ObserveMarks(s: StoreState, marks: Marks): StoreState
  {
    s.(watermarks := MergeMarks(s.watermarks, marks - {""}), sequences := MergeMarks(s.sequences, marks - {""}))
  }

  function SourceOf(source: string): string { if source == "" then LEGACY_ORIGIN else source }

  function NotePeer(s: StoreState, source: string, marks: Marks): StoreState
  {
    var known := if source in s.peerWatermarks then s.peerWatermarks[source] else map[];
    s.(peerWatermarks := s.peerWatermarks[source := MergeMarks(known, marks)])
  }

  function MergeSnapshot(s: StoreState, sn: Snapshot, source: string, now: Time): (StoreState, bool)
  {
    var (s1, ok) := MergeRecords(s, Flatten(sn), SourceOf(source), now);
    if ok then (NotePeer(ObserveMarks(s1, sn.watermarks), SourceOf(source), sn.watermarks), true) else (s1, false)
  }

  // ----- snapshots -----

  /** The store currently keeps exactly this record. */
  predicate Holds(s: StoreState, r: Record)
  {
    match r
    case ExperienceRecord(e) => e in s.experiences
    case FactRecord(f) => FactMapKey(f) in s.facts && s.facts[FactMapKey(f)] == f
    case PerformanceRecord(p) =>
      var key := PerformanceMapKey(p.nodeID, p.model, p.taskType);
      key in s.performances && s.performances[key] == p
    case DialogueRecord(d) => d.id in s.dialogues && s.dialogues[d.id] == d
  }

  /** `sn` lists the records of `s`, in any order within each map-backed kind. */
  ghost predicate IsSnapshotOf(sn: Snapshot, s: StoreState)
  {
    && sn.watermarks == s.watermarks
    && (forall r :: r in Flatten(sn) <==> Holds(s, r))
  }

  predicate IsNewer(origin: string, sequence: nat, marks: Marks)
  {
    Unstamped(origin, sequence) || sequence > Get(marks, origin)
  }

  function FilterExperiences(es: seq<Experience>, marks: Marks): seq<Experience>
  {
    if es == [] then []
    else (if IsNewer(es[0].origin, es[0].sequence, marks) then [es[0]] else []) + FilterExperiences(es[1..], marks)
  }

  function FilterFacts(fs: seq<Fact>, marks: Marks): seq<Fact>
  {
    if fs == [] then []
    else (if IsNewer(fs[0].origin, fs[0].sequence, marks) then [fs[0]] else []) + FilterFacts(fs[1..], marks)
  }

  function FilterPerformances(ps: seq<Performance>, marks: Marks): seq<Performance>
  {
    if ps == [] then []
    else (if IsNewer(ps[0].origin, ps[0].sequence, marks) then [ps[0]] else []) + FilterPerformances(ps[1..], marks)
  }

  function FilterDialogues(ds: seq<Dialogue>, marks: Marks): seq<Dialogue>
  {
    if ds == [] then []
    else (if IsNewer(ds[0].origin, ds[0].sequence, marks) then [ds[0]] else []) + FilterDialogues(ds[1..], marks)
  }

  function SnapshotSince(sn: Snapshot, marks: Marks): Snapshot
  {
    Snapshot(FilterExperiences(sn.experiences, marks), FilterFacts(sn.facts, marks),
             FilterPerformances(sn.performances, marks), FilterDialogues(sn.dialogues, marks), sn.watermarks)
  }

  const FIRST_SYNC_VERSION := 1
  const SYNC_VERSION := 3

  predicate SupportsIncrementalSync(version: int) { FIRST_SYNC_VERSION <= version <= SYNC_VERSION }

  /** Full when the peer is too old or claims more than this store has seen. */
  function SnapshotForPeer(sn: Snapshot, version: int, marks: Marks): Snapshot
  {
    if SupportsIncrementalSync(version) && forall origin | origin in marks :: marks[origin] <= Get(sn.watermarks, origin)
    then SnapshotSince(sn, marks)
    else sn
  }
}
