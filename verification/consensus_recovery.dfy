/** Restoring the state machine after a crash: newest readable snapshot, then
    the stored log up to the index persisted ahead of each change. */
module ConsensusRecovery {
  import opened Options
  import opened ConsensusFsm

  function Max(a: nat, b: nat): nat { if a < b then b else a }
  function Min(a: nat, b: nat): nat { if a < b then a else b }

  /** The log and metadata buckets, keyed by the decoded index (the byte keys
      sort the same way, see IndexKeys). */
  class LogStore {
    var logs: map<nat, Entry>
    var applied: nat

    /** Each entry sits under its own index. */
    ghost predicate Valid()
      reads this
    {
      forall i :: i in logs ==> logs[i].index == i
    }

    constructor ()
      ensures Valid() && logs == map[] && applied == 0
    {
      logs, applied := map[], 0;
    }

    method LastIndex() returns (index: nat)
      ensures IsLast(logs, index)
    {
      index := 0;
      var remaining := logs.Keys;
      while remaining != {}
        invariant remaining <= logs.Keys
        invariant index in logs || index == 0
        invariant forall i :: i in logs && i !in remaining ==> i <= index
        decreases remaining
      {
        var i :| i in remaining;
        if i > index { index := i; }
        remaining := remaining - {i};
      }
    }

    method StoreLog(e: Entry)
      requires Valid()
      modifies this`logs
      ensures Valid() && logs == old(logs)[e.index := e]
    {
      logs := logs[e.index := e];
    }

    /** Never lowers the recorded index; `written` is the outcome of the transaction. */
    method RecordAppliedIndex(index: nat, written: bool) returns (ok: bool)
      modifies this`applied
      ensures ok == written
      ensures applied == if ok then Max(old(applied), index) else old(applied)
    {
      if !written { return false; }
      if applied < index { applied := index; }
      ok := true;
    }

    /** Capped by the last stored index. */
    method GetAppliedIndex() returns (index: nat, ghost last: nat)
      ensures IsLast(logs, last) && index == Min(applied, last)
      ensures forall l :: IsLast(logs, l) ==> index == Min(applied, l)
    {
      index := applied;
      var lastIndex := LastIndex();
      last := lastIndex;
      if index > lastIndex { index := lastIndex; }
    }

    method GetLog(index: nat) returns (e: Option<Entry>)
      ensures e.None? <==> index !in logs
      ensures e.Some? ==> e.value == logs[index] && (Valid() ==> e.value.index == index)
    {
      e := if index in logs then Some(logs[index]) else None;
    }
  }

  /** The greatest stored index, 0 when nothing is stored. */
  ghost predicate IsLast(logs: map<nat, Entry>, index: nat)
  {
    (index in logs || index == 0) && forall i :: i in logs ==> i <= index
  }

  // ----- snapshots -----

  /** A listed snapshot: it may fail to open or to decode. `through` is the
      committed entry its contents reach; it is not stored anywhere. */
  datatype SnapshotFile = SnapshotFile(index: nat, through: nat, opens: bool, decodes: bool, contents: State)

  predicate Readable(f: SnapshotFile) { f.opens && f.decodes }

  ghost predicate NewestFirst(fs: seq<SnapshotFile>)
  {
    forall i, j :: 0 <= i < j < |fs| ==> fs[i].index >= fs[j].index
  }

  /** Inserts behind every newer snapshot. */
  method InsertNewestFirst(fs: seq<SnapshotFile>, f: SnapshotFile) returns (out: seq<SnapshotFile>)
    requires NewestFirst(fs)
    ensures NewestFirst(out) && multiset(out) == multiset(fs) + multiset{f}
  {
    var at := 0;
    while at < |fs| && fs[at].index > f.index
      invariant 0 <= at <= |fs|
      invariant forall j :: 0 <= j < at ==> fs[j].index > f.index
    {
      at := at + 1;
    }
    assert fs == fs[..at] + fs[at..];
    out := fs[..at] + [f] + fs[at..];
  }

  method SortNewestFirst(listed: seq<SnapshotFile>) returns (sorted: seq<SnapshotFile>)
    ensures NewestFirst(sorted) && multiset(sorted) == multiset(listed)
  {
    sorted := [];
    for i := 0 to |listed|
      invariant NewestFirst(sorted) && multiset(sorted) == multiset(listed[..i])
    {
      assert listed[..i + 1] == listed[..i] + [listed[i]];
      sorted := InsertNewestFirst(sorted, listed[i]);
    }
    assert listed[..|listed|] == listed;
  }

  /** The snapshot recovery starts from: none when there are none, otherwise
      the newest that can be read. */
  ghost predicate IsBase(listed: seq<SnapshotFile>, base: Option<SnapshotFile>)
  {
    match base
    case None => listed == []
    case Some(f) => f in listed && Readable(f) && forall g :: g in listed && Readable(g) ==> g.index <= f.index
  }

  function BaseState(base: Option<SnapshotFile>): State { if base.Some? then base.value.contents else EMPTY }
  function BaseIndex(base: Option<SnapshotFile>): nat { if base.Some? then base.value.index else 0 }
  function BaseThrough(base: Option<SnapshotFile>): nat { if base.Some? then base.value.through else 0 }

  // ----- what is durable agrees with the committed log -----

  ghost predicate Numbered(committed: seq<Entry>)
  {
    forall i :: 0 <= i < |committed| ==> committed[i].index == i + 1
  }

  /** The contents reach at least the snapshot's own index. */
  ghost predicate SnapshotOk(f: SnapshotFile, committed: seq<Entry>)
  {
    f.index <= f.through <= |committed| && f.contents == Replay(EMPTY, committed[..f.through])
  }

  ghost predicate SnapshotsOk(listed: seq<SnapshotFile>, committed: seq<Entry>)
  {
    forall f :: f in listed ==> SnapshotOk(f, committed)
  }

  /** Continuing from a base that already covers part of the entries gives the
      plain replay: what the base has seen is re-delivery. */
  lemma ResumeEqualsReplay(committed: seq<Entry>, start: nat, through: nat, end: nat)
    requires start <= through <= |committed| && end <= |committed|
    ensures Replay(Replay(EMPTY, committed[..through]), if start <= end then committed[start..end] else []) ==
            Replay(EMPTY, committed[..Max(through, end)])
  {
    if start <= end {
      if end <= through {
        assert forall e :: e in committed[start..end] ==> e in committed[..through];
        RedeliveryIsHarmless(committed[..through], committed[start..end]);
      } else {
        assert committed[start..end] == committed[start..through] + committed[through..end];
        assert committed[..end] == committed[..through] + committed[through..end];
        assert forall e :: e in committed[start..through] ==> e in committed[..through];
        SeenThenNew(committed[..through], committed[start..through], committed[through..end]);
      }
    }
  }

  lemma SeenThenNew(log: seq<Entry>, seen: seq<Entry>, more: seq<Entry>)
    requires forall e :: e in seen ==> e in log
    ensures Replay(Replay(EMPTY, log), seen + more) == Replay(EMPTY, log + more)
  {
    ReplayConcat(Replay(EMPTY, log), seen, more);
    RedeliveryIsHarmless(log, seen);
    ReplayConcat(EMPTY, log, more);
  }

  /** The first loop: the newest snapshot that opens and decodes. */
  method RestoreNewestReadable(fsm: StateMachine, listed: seq<SnapshotFile>) returns (ok: bool, index: nat, ghost base: Option<SnapshotFile>)
    requires fsm.Abstract() == EMPTY && !fsm.storageFailed
    modifies fsm
    ensures !fsm.storageFailed
    ensures ok <==> listed == [] || exists f :: f in listed && Readable(f)
    ensures ok ==> IsBase(listed, base) && index == BaseIndex(base) && fsm.Abstract() == BaseState(base)
  {
    var sorted := SortNewestFirst(listed);
    SameMembers(listed, sorted);
    assert listed != [] ==> listed[0] in sorted;
    assert sorted != [] ==> sorted[0] in listed;
    ok, index, base := |sorted| == 0, 0, None;
    for i := 0 to |sorted|
      invariant ok == (|sorted| == 0) && fsm.Abstract() == EMPTY && !fsm.storageFailed
      invariant forall j :: 0 <= j < i ==> !Readable(sorted[j])
    {
      if sorted[i].opens && sorted[i].decodes {
        fsm.Restore(sorted[i].contents);
        assert sorted[i] in sorted && Readable(sorted[i]);
        NewestReadable(listed, sorted, i);
        return true, sorted[i].index, Some(sorted[i]);
      }
    }
  }

  lemma SameMembers(a: seq<SnapshotFile>, b: seq<SnapshotFile>)
    requires multiset(a) == multiset(b)
    ensures forall f :: f in a <==> f in b
  {
    forall f ensures f in a <==> f in b {
      assert f in a <==> f in multiset(a);
      assert f in b <==> f in multiset(b);
    }
  }

  lemma NewestReadable(listed: seq<SnapshotFile>, sorted: seq<SnapshotFile>, i: nat)
    requires NewestFirst(sorted) && (forall f :: f in listed <==> f in sorted)
    requires i < |sorted| && Readable(sorted[i]) && forall j :: 0 <= j < i ==> !Readable(sorted[j])
    ensures IsBase(listed, Some(sorted[i]))
  {
    forall g | g in listed && Readable(g) ensures g.index <= sorted[i].index {
      var j :| 0 <= j < |sorted| && sorted[j] == g;
    }
  }

  ghost predicate LogOk(logs: map<nat, Entry>, committed: seq<Entry>)
  {
    forall i :: i in logs && 1 <= i <= |committed| ==> logs[i] == committed[i - 1]
  }

  /** How far a replay gets that is meant to go to `to`: all the way, or up to
      the entry before the one whose index could not be persisted. */
  function ReplayEnd(to: nat, stuck: Option<nat>): nat { if stuck.Some? && stuck.value > 0 then stuck.value - 1 else to }

  ghost predicate StuckAt(committed: seq<Entry>, from: nat, to: nat, stuck: Option<nat>)
  {
    stuck.Some? ==> from < stuck.value <= to <= |committed| && ValidEntry(committed[stuck.value - 1])
  }

  /** One entry of the second loop; its response is ignored. */
  method ReplayOne(fsm: StateMachine, log: LogStore, e: Entry, written: bool)
    requires e.index <= log.applied
    modifies fsm, log`applied
    ensures log.applied == old(log.applied)
    ensures fsm.storageFailed == (old(fsm.storageFailed) || (ValidEntry(e) && !written))
    ensures fsm.Abstract() == if fsm.storageFailed then old(fsm.Abstract()) else ApplyEntry(old(fsm.Abstract()), e)
  {
    var persisted := true;
    if ValidEntry(e) && !fsm.storageFailed { persisted := log.RecordAppliedIndex(e.index, written); }
    var _ := fsm.Apply(e, persisted);
  }

  lemma ReplayStep(st: State, committed: seq<Entry>, from: nat, k: nat)
    requires from <= k < |committed|
    ensures ApplyEntry(Replay(st, committed[from..k]), committed[k]) == Replay(st, committed[from..k + 1])
  {
    var es := committed[from..k + 1];
    assert es[..|es| - 1] == committed[from..k] && es[|es| - 1] == committed[k];
  }

  /** The second loop: apply stored entries after the snapshot. Once an index
      cannot be persisted the remaining entries change nothing; `unwritten`
      are the indices whose transaction would fail. */
  method ReplayLog(fsm: StateMachine, log: LogStore, snapshotIndex: nat, appliedIndex: nat, unwritten: set<nat>, ghost committed: seq<Entry>)
    returns (ok: bool, ghost stuck: Option<nat>)
    requires !fsm.storageFailed && log.Valid() && LogOk(log.logs, committed) && appliedIndex <= log.applied && appliedIndex <= |committed|
    modifies fsm, log`applied
    ensures log.applied == old(log.applied)
    ensures ok <==> forall i :: snapshotIndex < i <= appliedIndex ==> i in log.logs
    ensures fsm.storageFailed <==> stuck.Some?
    ensures StuckAt(committed, snapshotIndex, appliedIndex, stuck) && (stuck.Some? ==> stuck.value in unwritten)
    ensures ok ==> var end := ReplayEnd(appliedIndex, stuck);
              fsm.Abstract() == Replay(old(fsm.Abstract()), if snapshotIndex <= end then committed[snapshotIndex..end] else [])
  {
    stuck := None;
    if snapshotIndex > appliedIndex { return true, None; }
    var index := snapshotIndex + 1;
    ghost var start, done := fsm.Abstract(), snapshotIndex;
    assert committed[snapshotIndex..snapshotIndex] == [];
    while index <= appliedIndex
      invariant snapshotIndex + 1 <= index <= appliedIndex + 1 && snapshotIndex <= done < index
      invariant log.applied == old(log.applied)
      invariant forall i :: snapshotIndex < i < index ==> i in log.logs
      invariant fsm.storageFailed <==> stuck.Some?
      invariant done == ReplayEnd(index - 1, stuck)
      invariant StuckAt(committed, snapshotIndex, index - 1, stuck) && (stuck.Some? ==> stuck.value in unwritten)
      invariant fsm.Abstract() == Replay(start, committed[snapshotIndex..done])
    {
      var entry := log.GetLog(index);
      if entry.None? { return false, stuck; }
      assert entry.value == committed[index - 1];
      if stuck.None? { ReplayStep(start, committed, snapshotIndex, index - 1); }
      ReplayOne(fsm, log, entry.value, index !in unwritten);
      if !fsm.storageFailed { done := index; } else if stuck.None? { stuck := Some(index); }
      index := index + 1;
    }
    ok := true;
  }

  /** restoreApplicationState. On success the state is the replay of the
      committed log up to the later of what the snapshot covers and the applied
      index the stored log still reaches, or up to the entry before the one
      whose index could not be persisted; the machine then refuses all others. */
  method RestoreApplicationState(fsm: StateMachine, log: LogStore, listed: seq<SnapshotFile>, unwritten: set<nat>, ghost committed: seq<Entry>)
    returns (ok: bool, ghost base: Option<SnapshotFile>, ghost last: nat, ghost stuck: Option<nat>)
    requires fsm.Abstract() == EMPTY && !fsm.storageFailed && log.Valid() && LogOk(log.logs, committed)
    requires SnapshotsOk(listed, committed) && log.applied <= |committed|
    modifies fsm, log`applied
    ensures log.applied == old(log.applied)
    ensures ok ==> IsBase(listed, base) && IsLast(log.logs, last)
    ensures ok ==> (fsm.storageFailed <==> stuck.Some?) && StuckAt(committed, BaseIndex(base), Min(log.applied, last), stuck)
    ensures ok ==> fsm.Abstract() == Replay(EMPTY, committed[..Max(BaseThrough(base), ReplayEnd(Min(log.applied, last), stuck))])
  {
    last, stuck := 0, None;
    var snapshotIndex;
    ok, snapshotIndex, base := RestoreNewestReadable(fsm, listed);
    if !ok { return; }
    var appliedIndex;
    appliedIndex, last := log.GetAppliedIndex();
    ok, stuck := ReplayLog(fsm, log, snapshotIndex, appliedIndex, unwritten, committed);
    assert BaseState(base) == Replay(EMPTY, committed[..BaseThrough(base)]);
    ResumeEqualsReplay(committed, snapshotIndex, BaseThrough(base), ReplayEnd(appliedIndex, stuck));
  }
}
