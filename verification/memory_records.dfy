/** The four record kinds of the knowledge store and the order in which one
    version of a record covers another. */
module MemoryRecords {
  import opened Options
  import opened StringOrder

  /** Instants; 0 is the zero time. */
  type Time = nat

  const LEGACY_ORIGIN := "legacy"
  const DEFAULT_SCOPE := "cluster"
  const DEFAULT_TASK_TYPE := "general"

  /** Everything of an experience except ID, Origin and Sequence. This is what
      the fingerprint hashes, so it stands for the fingerprint itself. */
  datatype Content = Content(
    kind: string, taskType: string, description: string, prompt: string, output: string,
    nodeID: string, model: string, tool: string, sessionID: string,
    success: bool, error: string, durationMs: int, rating: real, tags: seq<string>, createdAt: Time)

  datatype Experience = Experience(id: nat, origin: string, sequence: nat, content: Content)

  datatype Fact = Fact(
    key: string, origin: string, sequence: nat, value: string, scope: string, source: string,
    hits: int, createdAt: Time, updatedAt: Time)

  datatype Performance = Performance(
    nodeID: string, origin: string, sequence: nat, model: string, taskType: string,
    attempts: int, successes: int, failures: int, totalDuration: int, avgDurationMs: int,
    successRate: real, ratingSum: real, lastUsed: Time)

  datatype Turn = Turn(speaker: string, nodeID: string, model: string, content: string, durationMs: int, at: Time)

  datatype Dialogue = Dialogue(
    id: string, origin: string, sequence: nat, participants: seq<string>, topic: string,
    turns: seq<Turn>, createdAt: Time, updatedAt: Time)

  datatype Record =
    | ExperienceRecord(experience: Experience)
    | FactRecord(fact: Fact)
    | PerformanceRecord(performance: Performance)
    | DialogueRecord(dialogue: Dialogue)
  {
    function Origin(): string
    {
      match this
      case ExperienceRecord(e) => e.origin
      case FactRecord(f) => f.origin
      case PerformanceRecord(p) => p.origin
      case DialogueRecord(d) => d.origin
    }

    function Sequence(): nat
    {
      match this
      case ExperienceRecord(e) => e.sequence
      case FactRecord(f) => f.sequence
      case PerformanceRecord(p) => p.sequence
      case DialogueRecord(d) => d.sequence
    }
  }

  function Fingerprint(e: Experience): Content { e.content }

  function ScopeOf(scope: string): string { if scope == "" then DEFAULT_SCOPE else scope }

  function FactMapKey(f: Fact): string { ScopeOf(f.scope) + "|" + f.key }

  function TaskTypeOf(taskType: string): string { if taskType == "" then DEFAULT_TASK_TYPE else taskType }

  function LowerChar(c: char): char { if 'A' <= c <= 'Z' then c - 'A' + 'a' else c }

  function ToLower(s: string): string { seq(|s|, i requires 0 <= i < |s| => LowerChar(s[i])) }

  function PerformanceMapKey(nodeID: string, model: string, taskType: string): string
  {
    nodeID + "|" + model + "|" + ToLower(TaskTypeOf(taskType))
  }

  /** Two turns are the same utterance when these three fields agree. */
  datatype Utterance = Utterance(at: Time, speaker: string, content: string)

  function UtteranceOf(t: Turn): Utterance { Utterance(t.at, t.speaker, t.content) }

  function Utterances(turns: seq<Turn>): set<Utterance> { set t | t in turns :: UtteranceOf(t) }

  function Members(list: seq<string>): set<string> { set p | p in list }

  // ----- identity and content of a record, as far as merging is concerned -----

  datatype Key =
    | ExperienceKey(content: Content)
    | FactKey(key: string)
    | PerformanceKey(key: string)
    | DialogueKey(id: string)

  datatype Core =
    | ExperienceCore
    | FactCore(updatedAt: Time, source: string, value: string)
    | PerformanceCore(attempts: int)
    | DialogueCore(turns: set<Utterance>, participants: set<string>, latest: Time, hasTopic: bool)

  function KeyOf(r: Record): Key
  {
    match r
    case ExperienceRecord(e) => ExperienceKey(Fingerprint(e))
    case FactRecord(f) => FactKey(FactMapKey(f))
    case PerformanceRecord(p) => PerformanceKey(PerformanceMapKey(p.nodeID, p.model, p.taskType))
    case DialogueRecord(d) => DialogueKey(d.id)
  }

  function FactCoreOf(f: Fact): Core { FactCore(f.updatedAt, f.source, f.value) }

  function DialogueCoreOf(d: Dialogue): Core
  {
    DialogueCore(Utterances(d.turns), Members(d.participants), d.updatedAt, d.topic != "")
  }

  function CoreOf(r: Record): Core
  {
    match r
    case ExperienceRecord(_) => ExperienceCore
    case FactRecord(f) => FactCoreOf(f)
    case PerformanceRecord(p) => PerformanceCore(p.attempts)
    case DialogueRecord(d) => DialogueCoreOf(d)
  }

  predicate SameKind(k: Key, c: Core)
  {
    match k
    case ExperienceKey(_) => c.ExperienceCore?
    case FactKey(_) => c.FactCore?
    case PerformanceKey(_) => c.PerformanceCore?
    case DialogueKey(_) => c.DialogueCore?
  }

  /** The fact order: later update, then smaller source, then larger value. */
  predicate Beats(a: Core, b: Core)
    requires a.FactCore? && b.FactCore?
  {
    || a.updatedAt > b.updatedAt
    || (a.updatedAt == b.updatedAt && a.source != b.source && Less(a.source, b.source))
    || (a.updatedAt == b.updatedAt && a.source == b.source && Less(b.value, a.value))
  }

  lemma BeatsIsStrictTotalOrder(a: Core, b: Core)
    requires a.FactCore? && b.FactCore?
    ensures !Beats(a, a)
    ensures Beats(a, b) ==> !Beats(b, a)
    ensures a == b || Beats(a, b) || Beats(b, a)
  {
    LessIrreflexive(a.value);
    LessTotal(a.source, b.source);
    LessTotal(a.value, b.value);
    if Less(a.source, b.source) { LessAsymmetric(a.source, b.source); }
    if Less(b.source, a.source) { LessAsymmetric(b.source, a.source); }
    if Less(a.value, b.value) { LessAsymmetric(a.value, b.value); }
    if Less(b.value, a.value) { LessAsymmetric(b.value, a.value); }
  }

  lemma BeatsTransitive(a: Core, b: Core, c: Core)
    requires a.FactCore? && b.FactCore? && c.FactCore?
    requires Beats(a, b) && Beats(b, c)
    ensures Beats(a, c)
  {
    BeatsIsStrictTotalOrder(a, b);
    BeatsIsStrictTotalOrder(b, c);
    LessIrreflexive(a.source);
    if a.updatedAt == b.updatedAt == c.updatedAt {
      if Less(a.source, b.source) && Less(b.source, c.source) {
        LessTransitive(a.source, b.source, c.source);
        LessIrreflexive(c.source);
      }
      if Less(c.value, b.value) && Less(b.value, a.value) {
        LessTransitive(c.value, b.value, a.value);
      }
    }
  }

  /** `b` covers `a`: nothing in `a` is news to a store that holds `b`. */
  predicate Leq(a: Core, b: Core)
  {
    match (a, b)
    case (ExperienceCore, ExperienceCore) => true
    case (FactCore(_, _, _), FactCore(_, _, _)) => !Beats(a, b)
    case (PerformanceCore(m), PerformanceCore(n)) => m <= n
    case (DialogueCore(t, p, u, h), DialogueCore(t', p', u', h')) => t <= t' && p <= p' && u <= u' && (h ==> h')
    case _ => false
  }

  /** What merging leaves: the winner of two facts, the larger attempt count,
      the union of two dialogues. */
  function Join(a: Core, b: Core): Core
  {
    match (a, b)
    case (FactCore(_, _, _), FactCore(_, _, _)) => if Beats(b, a) then b else a
    case (PerformanceCore(m), PerformanceCore(n)) => if n > m then b else a
    case (DialogueCore(t, p, u, h), DialogueCore(t', p', u', h')) =>
      DialogueCore(t + t', p + p', if u' > u then u' else u, h || h')
    case _ => a
  }

  lemma LeqReflexive(a: Core)
    ensures Leq(a, a)
  {
    if a.FactCore? { BeatsIsStrictTotalOrder(a, a); }
  }

  lemma LeqTransitive(a: Core, b: Core, c: Core)
    requires Leq(a, b) && Leq(b, c)
    ensures Leq(a, c)
  {
    if a.FactCore? {
      BeatsIsStrictTotalOrder(a, b);
      BeatsIsStrictTotalOrder(b, c);
      if Beats(a, c) && Beats(c, b) { BeatsTransitive(a, c, b); }
    }
  }

  lemma LeqAntisymmetric(a: Core, b: Core)
    requires Leq(a, b) && Leq(b, a)
    ensures a == b
  {
    if a.FactCore? { BeatsIsStrictTotalOrder(a, b); }
  }

  /** Join is the least upper bound of Leq, for two cores of one kind. */
  lemma JoinIsLeastUpperBound(k: Key, a: Core, b: Core)
    requires SameKind(k, a) && SameKind(k, b)
    ensures SameKind(k, Join(a, b))
    ensures Leq(a, Join(a, b)) && Leq(b, Join(a, b))
    ensures forall c :: Leq(a, c) && Leq(b, c) ==> Leq(Join(a, b), c)
    ensures Leq(b, a) <==> Join(a, b) == a
  {
    LeqReflexive(a);
    LeqReflexive(b);
    if a.FactCore? { BeatsIsStrictTotalOrder(a, b); BeatsIsStrictTotalOrder(b, a); }
    if a.DialogueCore? && Join(a, b) == a {
      assert b.turns <= a.turns && b.participants <= a.participants;
    }
  }
}
