/** One node over its whole life: storing, committing, delivering, taking and
    losing snapshots, compacting, crashing and restarting, in any order. */
module ConsensusLifecycle {
  import opened Options
  import opened ConsensusFsm
  import opened ConsensusRecovery

  /** `position` is how far the log counts as delivered; `reached` is how far
      the in-memory state is taken to have got. A restart resumes delivery
      wherever Raft says, which may be behind or ahead of what was restored. */
  datatype Node = Node(
    committed: seq<Entry>, logs: map<nat, Entry>, applied: nat, snapshots: seq<SnapshotFile>,
    up: bool, state: State, failed: bool, position: nat, reached: nat)

  datatype Action =
    | StoreEntry(e: Entry)
    | Commit
    | Deliver(persisted: bool)
    | CrashWhileDelivering
    | TakeSnapshot
    | LoseSnapshot(at: nat, opens: bool, decodes: bool)
    | DropSnapshot(at: nat)
    | Compact(upTo: nat)
    | Crash
    | Restart(base: Option<SnapshotFile>, last: nat, stuck: Option<nat>, resume: nat)

  const NEW_NODE := Node([], map[], 0, [], true, EMPTY, false, 0, 0)

  function NextEntry(n: Node): Entry
    requires n.position < |n.committed|
  {
    n.committed[n.position]
  }

  ghost predicate Enabled(n: Node, a: Action)
  {
    match a
    case StoreEntry(e) => e.index > |n.committed|
    case Commit => |n.committed| + 1 in n.logs && n.logs[|n.committed| + 1].index == |n.committed| + 1
    case Deliver(_) => n.up && n.position < |n.committed|
    case CrashWhileDelivering => n.up && !n.failed && n.position < |n.committed| && ValidEntry(NextEntry(n))
    case TakeSnapshot => n.up
    case LoseSnapshot(at, _, _) => at < |n.snapshots|
    case DropSnapshot(at) => at < |n.snapshots|
    case Compact(upTo) => exists f :: f in n.snapshots && upTo <= f.index
    case Crash => n.up
    case Restart(base, last, stuck, resume) =>
      && !n.up && IsBase(n.snapshots, base) && IsLast(n.logs, last)
      && (forall i :: BaseIndex(base) < i <= Min(n.applied, last) ==> i in n.logs)
      && StuckAt(n.committed, BaseIndex(base), Min(n.applied, last), stuck)
      && resume <= |n.committed|
  }

  /** How far a restart replays. */
  function ReplayedTo(n: Node, base: Option<SnapshotFile>, last: nat, stuck: Option<nat>): nat
  {
    Max(BaseThrough(base), ReplayEnd(Min(n.applied, last), stuck))
  }

  /** The state after a restart, as RestoreApplicationState computes it. */
  function Restored(n: Node, base: Option<SnapshotFile>, end: nat): State
    requires forall i :: BaseIndex(base) < i <= end ==> i in n.logs
  {
    var from := BaseIndex(base);
    Replay(BaseState(base), if from <= end then seq(end - from, i requires 0 <= i < end - from => n.logs[from + 1 + i]) else [])
  }

  ghost function Step(n: Node, a: Action): Node
    requires Enabled(n, a)
  {
    match a
    case StoreEntry(e) => n.(logs := n.logs[e.index := e])
    case Commit => n.(committed := n.committed + [n.logs[|n.committed| + 1]])
    case Deliver(persisted) =>
      var e := NextEntry(n);
      var failed := n.failed || (ValidEntry(e) && !persisted);
      n.(position := n.position + 1,
         failed := failed,
         applied := if failed || !ValidEntry(e) then n.applied else Max(n.applied, e.index),
         state := if failed then n.state else ApplyEntry(n.state, e),
         reached := if failed then n.reached else Max(n.reached, n.position + 1))
    case CrashWhileDelivering => n.(applied := Max(n.applied, NextEntry(n).index), up := false)
    case TakeSnapshot =>
      n.(snapshots := n.snapshots + [SnapshotFile(n.position, Max(n.position, n.reached), true, true, n.state)])
    case LoseSnapshot(at, opens, decodes) => n.(snapshots := n.snapshots[at := n.snapshots[at].(opens := opens, decodes := decodes)])
    case DropSnapshot(at) => n.(snapshots := n.snapshots[..at] + n.snapshots[at + 1..])
    case Compact(upTo) => n.(logs := map i | i in n.logs && i > upTo :: n.logs[i])
    case Crash => n.(up := false)
    case Restart(base, last, stuck, resume) =>
      var r := ReplayedTo(n, base, last, stuck);
      n.(up := true, failed := stuck.Some?, state := Restored(n, base, ReplayEnd(Min(n.applied, last), stuck)),
         position := resume, reached := if stuck.Some? then r else Max(r, resume))
  }

  ghost predicate Invariant(n: Node)
  {
    && Numbered(n.committed)
    && LogOk(n.logs, n.committed)
    && n.applied <= |n.committed|
    && SnapshotsOk(n.snapshots, n.committed)
    && n.reached <= |n.committed| && n.position <= |n.committed|
    && (!n.failed ==> n.position <= n.reached)
    && n.state == Replay(EMPTY, n.committed[..n.reached])
  }

  /** A snapshot is taken, and delivery resumes after a restart, only when
      everything the node passes over is invalid or a repeat. Without a persist
      failure a snapshot passes over nothing. */
  ghost predicate Careful(n: Node, a: Action)
  {
    && (a.TakeSnapshot? ==> NoFirst(n.committed, n.reached, n.position))
    && (a.Restart? && a.stuck.None? ==> NoFirst(n.committed, ReplayedTo(n, a.base, a.last, None), a.resume))
  }

  lemma DeliverKeeps(n: Node, persisted: bool)
    requires Invariant(n) && Enabled(n, Deliver(persisted))
    ensures Invariant(Step(n, Deliver(persisted)))
  {
    var e := NextEntry(n);
    if !(n.failed || (ValidEntry(e) && !persisted)) {
      if n.position < n.reached {
        var again := [e];
        assert e in n.committed[..n.reached];
        RedeliveryIsHarmless(n.committed[..n.reached], again);
        assert again[..0] == [] && Replay(n.state, again) == ApplyEntry(n.state, e);
      } else {
        var next := n.committed[..n.position + 1];
        assert next[..|next| - 1] == n.committed[..n.position] && next[|next| - 1] == e;
      }
    }
  }

  lemma CommitKeeps(n: Node)
    requires Invariant(n) && Enabled(n, Commit)
    ensures Invariant(Step(n, Commit))
  {
    var n' := Step(n, Commit);
    forall k | 0 <= k <= |n.committed| ensures n'.committed[..k] == n.committed[..k] {}
  }

  lemma StoredIsCommitted(n: Node, from: nat, end: nat)
    requires LogOk(n.logs, n.committed) && from <= end <= |n.committed| && forall i :: from < i <= end ==> i in n.logs
    ensures seq(end - from, i requires 0 <= i < end - from => n.logs[from + 1 + i]) == n.committed[from..end]
  {
  }

  ghost predicate BaseOk(base: Option<SnapshotFile>, committed: seq<Entry>)
  {
    base.Some? ==> SnapshotOk(base.value, committed)
  }

  lemma RestoredFromBase(n: Node, base: Option<SnapshotFile>, end: nat)
    requires LogOk(n.logs, n.committed) && BaseOk(base, n.committed) && end <= |n.committed|
    requires forall i :: BaseIndex(base) < i <= end ==> i in n.logs
    ensures Restored(n, base, end) == Replay(EMPTY, n.committed[..Max(BaseThrough(base), end)])
  {
    var from := BaseIndex(base);
    if from <= end { StoredIsCommitted(n, from, end); }
    assert BaseState(base) == Replay(EMPTY, n.committed[..BaseThrough(base)]);
    ResumeEqualsReplay(n.committed, from, BaseThrough(base), end);
  }

  /** What recovery restores: the replay of a prefix of the committed log. */
  lemma RestoredIsReplay(n: Node, a: Action)
    requires Invariant(n) && a.Restart? && Enabled(n, a)
    ensures var r := ReplayedTo(n, a.base, a.last, a.stuck);
            r <= |n.committed| && Step(n, a).state == Replay(EMPTY, n.committed[..r])
  {
    assert BaseOk(a.base, n.committed);
    RestoredFromBase(n, a.base, ReplayEnd(Min(n.applied, a.last), a.stuck));
  }

  /** Wherever delivery resumes, the restored state contains everything before
      that point if and only if each entry passed over is invalid or a repeat;
      and exactly then, unless persisting failed again, the node is sound. */
  lemma RestartSoundIff(n: Node, a: Action)
    requires Invariant(n) && a.Restart? && Enabled(n, a)
    ensures var r := ReplayedTo(n, a.base, a.last, a.stuck);
            && (Contains(Step(n, a).state, n.committed, a.resume) <==> NoFirst(n.committed, r, a.resume))
            && (Invariant(Step(n, a)) <==> (a.stuck.None? ==> NoFirst(n.committed, r, a.resume)))
  {
    var r := ReplayedTo(n, a.base, a.last, a.stuck);
    RestoredIsReplay(n, a);
    ContainsIff(n.committed, r, a.resume);
    if r <= a.resume { SameStateIff(n.committed, r, a.resume); }
  }

  lemma SnapshotListKeeps(n: Node, a: Action)
    requires Invariant(n) && Enabled(n, a) && (a.LoseSnapshot? || a.DropSnapshot?)
    ensures Invariant(Step(n, a))
  {
    forall f | f in Step(n, a).snapshots ensures SnapshotOk(f, n.committed) {
      if a.LoseSnapshot? { assert SnapshotOk(n.snapshots[a.at], n.committed); }
    }
  }

  /** A snapshot taken at any moment, also after a persist failure, contains
      every entry up to the index it is filed under if and only if no entry
      delivered but not followed was the first of its operation; and exactly
      then recovery from the node's snapshots stays exact. */
  lemma SnapshotSoundIff(n: Node)
    requires Invariant(n) && Enabled(n, TakeSnapshot)
    ensures Contains(n.state, n.committed, n.position) <==> NoFirst(n.committed, n.reached, n.position)
    ensures Invariant(Step(n, TakeSnapshot)) <==> NoFirst(n.committed, n.reached, n.position)
  {
    ContainsIff(n.committed, n.reached, n.position);
    if n.reached <= n.position { SameStateIff(n.committed, n.reached, n.position); }
    var f := SnapshotFile(n.position, Max(n.position, n.reached), true, true, n.state);
    var n' := Step(n, TakeSnapshot);
    assert n'.snapshots[|n.snapshots|] == f && f in n'.snapshots;
    if SnapshotOk(f, n.committed) {
      forall g | g in n'.snapshots ensures SnapshotOk(g, n.committed) {}
    }
  }

  lemma StepKeepsInvariant(n: Node, a: Action)
    requires Invariant(n) && Enabled(n, a) && Careful(n, a)
    ensures Invariant(Step(n, a))
  {
    match a
    case StoreEntry(_) =>
    case Commit => CommitKeeps(n);
    case Deliver(persisted) => DeliverKeeps(n, persisted);
    case CrashWhileDelivering =>
    case TakeSnapshot => SnapshotSoundIff(n);
    case LoseSnapshot(_, _, _) => SnapshotListKeeps(n, a);
    case DropSnapshot(_) => SnapshotListKeeps(n, a);
    case Compact(_) =>
    case Crash =>
    case Restart(_, _, _, _) => RestartSoundIff(n, a);
  }

  ghost predicate Run(nodes: seq<Node>, actions: seq<Action>)
  {
    && |nodes| == |actions| + 1 && nodes[0] == NEW_NODE
    && (forall i :: 0 <= i < |actions| ==>
          Enabled(nodes[i], actions[i]) && nodes[i + 1] == Step(nodes[i], actions[i]))
  }

  ghost predicate CarefulUntil(nodes: seq<Node>, actions: seq<Action>, k: nat)
    requires k <= |actions| <= |nodes|
  {
    forall i :: 0 <= i < k ==> Careful(nodes[i], actions[i])
  }

  /** Through every sequence of crashes, lost snapshots, compactions and
      restarts the in-memory state is the plain replay of a prefix of the
      committed log; without a storage failure that prefix includes everything
      delivered since the last start. */
  lemma {:induction false} StateIsAlwaysAReplay(nodes: seq<Node>, actions: seq<Action>, i: nat)
    requires Run(nodes, actions) && i < |nodes| && CarefulUntil(nodes, actions, i)
    ensures var n := nodes[i];
            && n.reached <= |n.committed| && n.state == Replay(EMPTY, n.committed[..n.reached])
            && (!n.failed ==> n.position <= n.reached)
    ensures Invariant(nodes[i])
  {
    if i > 0 {
      StateIsAlwaysAReplay(nodes, actions, i - 1);
      StepKeepsInvariant(nodes[i - 1], actions[i - 1]);
    } else {
      assert NEW_NODE.committed[..0] == [];
    }
  }

  /** The condition is exact over whole runs: every state is sound if and only
      if every snapshot and every restart was careful. */
  lemma RunSoundIff(nodes: seq<Node>, actions: seq<Action>)
    requires Run(nodes, actions)
    ensures (forall i :: 0 <= i < |nodes| ==> Invariant(nodes[i])) <==> CarefulUntil(nodes, actions, |actions|)
  {
    if CarefulUntil(nodes, actions, |actions|) {
      forall i | 0 <= i < |nodes| ensures Invariant(nodes[i]) { StateIsAlwaysAReplay(nodes, actions, i); }
    } else {
      var i :| 0 <= i < |actions| && !Careful(nodes[i], actions[i]);
      assert nodes[i + 1] == Step(nodes[i], actions[i]);
      if Invariant(nodes[i]) {
        if actions[i].TakeSnapshot? { SnapshotSoundIff(nodes[i]); } else { RestartSoundIff(nodes[i], actions[i]); }
      }
    }
  }

  /** A restart gets back every entry whose index was persisted exactly when
      each one that neither the replay nor the chosen snapshot reaches is
      invalid or a repeat. The replay ends at the capped index, or before the
      entry at which persisting failed again. */
  lemma RestartRestoresAppliedIff(n: Node, a: Action)
    requires Invariant(n) && a.Restart? && Enabled(n, a)
    ensures var r := ReplayedTo(n, a.base, a.last, a.stuck);
            && (Contains(Step(n, a).state, n.committed, n.applied) <==> NoFirst(n.committed, r, n.applied))
            && (r <= n.applied ==> (Step(n, a).state == Replay(EMPTY, n.committed[..n.applied]) <==> NoFirst(n.committed, r, n.applied)))
  {
    RestoredIsReplay(n, a);
    var r := ReplayedTo(n, a.base, a.last, a.stuck);
    ContainsIff(n.committed, r, n.applied);
    if r <= n.applied { SameStateIff(n.committed, r, n.applied); }
  }

  // ----- concrete runs -----

  const FIRST := Mutation("a", PUT, "k", [1])
  const SECOND := Mutation("b", PUT, "k", [2])
  const ENTRY1 := Entry(1, true, Some(FIRST))
  const ENTRY2 := Entry(2, true, Some(SECOND))
  const STATE1 := State(map["k" := [1]], map["a" := Applied(FIRST, 1)])
  const STATE2 := State(map["k" := [2]], map["a" := Applied(FIRST, 1), "b" := Applied(SECOND, 2)])
  const FILE1 := SnapshotFile(1, 1, true, true, STATE1)
  const FILE2 := SnapshotFile(2, 2, true, true, STATE2)

  lemma EntriesApply()
    ensures ValidEntry(ENTRY1) && ValidEntry(ENTRY2)
    ensures ApplyEntry(EMPTY, ENTRY1) == STATE1 && ApplyEntry(STATE1, ENTRY2) == STATE2
    ensures Replay(EMPTY, [ENTRY1]) == STATE1 && Replay(EMPTY, [ENTRY1, ENTRY2]) == STATE2
  {
    assert ByteLength("a") == 1 by { assert "a"[1..] == ""; }
    assert ByteLength("b") == 1 by { assert "b"[1..] == ""; }
    assert ByteLength("k") == 1 by { assert "k"[1..] == ""; }
    assert [ENTRY1][..0] == [] && [ENTRY1, ENTRY2][..1] == [ENTRY1];
  }

  /** Two entries are applied and persisted, each followed by a snapshot; the
      log is compacted; the newer snapshot becomes unreadable; the node restarts
      from the older one and resumes at the index of the newer one. */
  const LOSS_ACTIONS: seq<Action> :=
    [StoreEntry(ENTRY1), Commit, Deliver(true), TakeSnapshot, StoreEntry(ENTRY2), Commit, Deliver(true), TakeSnapshot,
     Compact(2), LoseSnapshot(1, false, false), Crash, Restart(Some(FILE1), 0, None, 2)]

  const LOSS_NODES: seq<Node> :=
    [NEW_NODE,
     Node([], map[1 := ENTRY1], 0, [], true, EMPTY, false, 0, 0),
     Node([ENTRY1], map[1 := ENTRY1], 0, [], true, EMPTY, false, 0, 0),
     Node([ENTRY1], map[1 := ENTRY1], 1, [], true, STATE1, false, 1, 1),
     Node([ENTRY1], map[1 := ENTRY1], 1, [FILE1], true, STATE1, false, 1, 1),
     Node([ENTRY1], map[1 := ENTRY1, 2 := ENTRY2], 1, [FILE1], true, STATE1, false, 1, 1),
     Node([ENTRY1, ENTRY2], map[1 := ENTRY1, 2 := ENTRY2], 1, [FILE1], true, STATE1, false, 1, 1),
     Node([ENTRY1, ENTRY2], map[1 := ENTRY1, 2 := ENTRY2], 2, [FILE1], true, STATE2, false, 2, 2),
     Node([ENTRY1, ENTRY2], map[1 := ENTRY1, 2 := ENTRY2], 2, [FILE1, FILE2], true, STATE2, false, 2, 2),
     Node([ENTRY1, ENTRY2], map[], 2, [FILE1, FILE2], true, STATE2, false, 2, 2),
     Node([ENTRY1, ENTRY2], map[], 2, [FILE1, FILE2.(opens := false, decodes := false)], true, STATE2, false, 2, 2),
     Node([ENTRY1, ENTRY2], map[], 2, [FILE1, FILE2.(opens := false, decodes := false)], false, STATE2, false, 2, 2),
     Node([ENTRY1, ENTRY2], map[], 2, [FILE1, FILE2.(opens := false, decodes := false)], true, STATE1, false, 2, 2)]

  ghost predicate StepTaken(nodes: seq<Node>, actions: seq<Action>, i: nat)
    requires i < |actions| < |nodes|
  {
    Enabled(nodes[i], actions[i]) && nodes[i + 1] == Step(nodes[i], actions[i])
  }

  lemma LossFirstStored()
    ensures forall i :: 0 <= i < 2 ==> StepTaken(LOSS_NODES, LOSS_ACTIONS, i)
  {
    assert StepTaken(LOSS_NODES, LOSS_ACTIONS, 0);
    assert StepTaken(LOSS_NODES, LOSS_ACTIONS, 1);
  }

  lemma LossFirstApplied()
    ensures forall i :: 2 <= i < 3 ==> StepTaken(LOSS_NODES, LOSS_ACTIONS, i)
  {
    EntriesApply();
    assert StepTaken(LOSS_NODES, LOSS_ACTIONS, 2);
  }

  lemma LossSecondStored()
    ensures forall i :: 3 <= i < 6 ==> StepTaken(LOSS_NODES, LOSS_ACTIONS, i)
  {
    assert StepTaken(LOSS_NODES, LOSS_ACTIONS, 3);
    assert StepTaken(LOSS_NODES, LOSS_ACTIONS, 4);
    assert StepTaken(LOSS_NODES, LOSS_ACTIONS, 5);
  }

  lemma LossSecondApplied()
    ensures forall i :: 6 <= i < 8 ==> StepTaken(LOSS_NODES, LOSS_ACTIONS, i)
  {
    EntriesApply();
    assert StepTaken(LOSS_NODES, LOSS_ACTIONS, 6);
    assert StepTaken(LOSS_NODES, LOSS_ACTIONS, 7);
  }

  lemma LossCompacted()
    ensures forall i :: 8 <= i < 11 ==> StepTaken(LOSS_NODES, LOSS_ACTIONS, i)
  {
    var n := LOSS_NODES[8];
    assert FILE2 == n.snapshots[1] && FILE2 in n.snapshots;
    assert Step(n, Compact(2)).logs == map[];
    assert StepTaken(LOSS_NODES, LOSS_ACTIONS, 8);
    assert StepTaken(LOSS_NODES, LOSS_ACTIONS, 9);
    assert StepTaken(LOSS_NODES, LOSS_ACTIONS, 10);
  }

  lemma LossRestart()
    ensures StepTaken(LOSS_NODES, LOSS_ACTIONS, 11)
  {
    var n := LOSS_NODES[11];
    assert FILE1 == n.snapshots[0] && IsBase(n.snapshots, Some(FILE1)) && IsLast(n.logs, 0);
  }

  /** The cap on the applied index can bite: every snapshot in this run was
      sound, and at its end recovery has succeeded, from the older snapshot,
      without an entry whose index was persisted and which is not delivered again. */
  lemma CompactedLogLosesPersistedEntry()
    ensures Run(LOSS_NODES, LOSS_ACTIONS) && CarefulUntil(LOSS_NODES, LOSS_ACTIONS, 11) && !Careful(LOSS_NODES[11], LOSS_ACTIONS[11])
    ensures LostSecond(LOSS_NODES[12])
  {
    LossIsRun();
    LossSnapshotsAreSound();
    LossSkipsFirst();
    LossEnds();
  }

  lemma LossIsRun()
    ensures Run(LOSS_NODES, LOSS_ACTIONS)
  {
    LossFirstStored();
    LossFirstApplied();
    LossSecondStored();
    LossSecondApplied();
    LossCompacted();
    LossRestart();
    TakenIsRun(LOSS_NODES, LOSS_ACTIONS);
  }

  lemma TakenIsRun(nodes: seq<Node>, actions: seq<Action>)
    requires |nodes| == |actions| + 1 && nodes[0] == NEW_NODE && forall i :: 0 <= i < |actions| ==> StepTaken(nodes, actions, i)
    ensures Run(nodes, actions)
  {
    forall i | 0 <= i < |actions| ensures Enabled(nodes[i], actions[i]) && nodes[i + 1] == Step(nodes[i], actions[i]) {
      assert StepTaken(nodes, actions, i);
    }
  }

  lemma LossSnapshotsAreSound()
    ensures CarefulUntil(LOSS_NODES, LOSS_ACTIONS, 11)
  {
    assert LOSS_NODES[3].reached == LOSS_NODES[3].position && LOSS_NODES[7].reached == LOSS_NODES[7].position;
  }

  lemma LossSkipsFirst()
    ensures !Careful(LOSS_NODES[11], LOSS_ACTIONS[11])
  {
    EntriesApply();
    assert FirstOfItsID([ENTRY1, ENTRY2], 1);
  }

  ghost predicate LostSecond(n: Node)
  {
    && n.up && !n.failed && n.applied == n.position == |n.committed| == 2
    && n.state == STATE1 && Replay(EMPTY, n.committed) == STATE2 != STATE1
  }

  lemma LossEnds()
    ensures LostSecond(LOSS_NODES[12])
  {
    EntriesApply();
    var n := LOSS_NODES[12];
    assert n.committed == [ENTRY1, ENTRY2];
    assert "b" in STATE2.operations && "b" !in STATE1.operations;
  }

  /** The index of the only entry cannot be persisted; a snapshot follows. */
  const FAILED_ACTIONS: seq<Action> :=
    [StoreEntry(ENTRY1), Commit, Deliver(false), TakeSnapshot, Crash, Restart(Some(SnapshotFile(1, 1, true, true, EMPTY)), 1, None, 1)]

  const FAILED_NODES: seq<Node> :=
    [NEW_NODE,
     Node([], map[1 := ENTRY1], 0, [], true, EMPTY, false, 0, 0),
     Node([ENTRY1], map[1 := ENTRY1], 0, [], true, EMPTY, false, 0, 0),
     Node([ENTRY1], map[1 := ENTRY1], 0, [], true, EMPTY, true, 1, 0),
     Node([ENTRY1], map[1 := ENTRY1], 0, [SnapshotFile(1, 1, true, true, EMPTY)], true, EMPTY, true, 1, 0),
     Node([ENTRY1], map[1 := ENTRY1], 0, [SnapshotFile(1, 1, true, true, EMPTY)], false, EMPTY, true, 1, 0),
     Node([ENTRY1], map[1 := ENTRY1], 0, [SnapshotFile(1, 1, true, true, EMPTY)], true, EMPTY, false, 1, 1)]

  lemma FailedDelivery()
    ensures forall i :: 0 <= i < 3 ==> StepTaken(FAILED_NODES, FAILED_ACTIONS, i)
  {
    EntriesApply();
    assert StepTaken(FAILED_NODES, FAILED_ACTIONS, 0);
    assert StepTaken(FAILED_NODES, FAILED_ACTIONS, 1);
    assert StepTaken(FAILED_NODES, FAILED_ACTIONS, 2);
  }

  lemma FailedRestart()
    ensures forall i :: 3 <= i < 6 ==> StepTaken(FAILED_NODES, FAILED_ACTIONS, i)
  {
    assert StepTaken(FAILED_NODES, FAILED_ACTIONS, 3);
    assert StepTaken(FAILED_NODES, FAILED_ACTIONS, 4);
    var n := FAILED_NODES[5];
    var f := SnapshotFile(1, 1, true, true, EMPTY);
    assert f == n.snapshots[0] && IsBase(n.snapshots, Some(f)) && IsLast(n.logs, 1);
    assert StepTaken(FAILED_NODES, FAILED_ACTIONS, 5);
  }

  /** At the end of this run a snapshot filed under index 1 holds nothing, and
      the restart from it has skipped the committed entry. */
  lemma SnapshotAfterFailureLosesEntry()
    ensures Run(FAILED_NODES, FAILED_ACTIONS) && !Careful(FAILED_NODES[3], FAILED_ACTIONS[3])
    ensures var n := FAILED_NODES[6];
            && n.up && !n.failed && n.position == |n.committed| == 1
            && n.state == EMPTY && Replay(EMPTY, n.committed) == STATE1 != EMPTY
  {
    FailedDelivery();
    FailedRestart();
    TakenIsRun(FAILED_NODES, FAILED_ACTIONS);
    EntriesApply();
    assert FirstOfItsID(FAILED_NODES[3].committed, 0);
  }
}
