/** The single-flight idempotency cache for generation requests. */
module IdempotencyCache {

  const TTL := 600_000_000_000 // ten minutes, in nanoseconds
  const MAX_ENTRIES := 512
  const MAX_RESULT_BYTES := 1_048_576
  const MAX_TOTAL_BYTES := 8_388_608

  /** `call` identifies the request that created the entry, as the entry's
      address does. */
  datatype Entry = Entry(call: nat, fingerprint: nat, completed: bool, expiresAt: int, cacheBytes: nat)

  type Entries = map<string, Entry>

  datatype Verdict = Joined(target: nat) | Conflict | Busy | Started

  function Pending(call: nat, fingerprint: nat): Entry { Entry(call, fingerprint, false, 0, 0) }

  // ----- byte accounting -----

  ghost function Sum(es: Entries): nat
    decreases |es|
  {
    if es == map[] then 0 else
      var k :| k in es;
      es[k].cacheBytes + Sum(es - {k})
  }

  lemma {:induction false} SumRemove(es: Entries, k: string)
    requires k in es
    ensures Sum(es) == es[k].cacheBytes + Sum(es - {k})
    decreases |es|
  {
    var j :| j in es && Sum(es) == es[j].cacheBytes + Sum(es - {j});
    if j != k {
      SumRemove(es - {j}, k);
      SumRemove(es - {k}, j);
      assert es - {j} - {k} == es - {k} - {j};
    }
  }

  lemma SumUpdate(es: Entries, k: string, e: Entry)
    ensures Sum(es[k := e]) == Sum(es - {k}) + e.cacheBytes
  {
    SumRemove(es[k := e], k);
    assert es[k := e] - {k} == es - {k};
  }

  lemma {:induction false} SumZero(es: Entries)
    requires forall k :: k in es ==> es[k].cacheBytes == 0
    ensures Sum(es) == 0
    decreases |es|
  {
    if es != map[] {
      var k :| k in es;
      SumRemove(es, k);
      SumZero(es - {k});
    }
  }

  // ----- what each locked section does -----

  predicate Expired(e: Entry, now: int) { e.completed && e.expiresAt <= now }

  function Live(es: Entries, now: int): Entries { map k | k in es && !Expired(es[k], now) :: es[k] }

  ghost predicate Oldest(es: Entries, k: string)
  {
    k in es && es[k].completed && forall j :: j in es && es[j].completed ==> es[k].expiresAt <= es[j].expiresAt
  }

  ghost predicate NoneCompleted(es: Entries) { forall k :: k in es ==> !es[k].completed }

  /** Admission: join the entry under the key, refuse another request under the
      key, make room by evicting one oldest completed entry, or report the
      cache busy exactly when it is full of pending entries. */
  ghost predicate Admits(es: Entries, es': Entries, key: string, fingerprint: nat, now: int, call: nat, v: Verdict)
  {
    var live := Live(es, now);
    match v
    case Joined(target) => es' == live && key in live && live[key].fingerprint == fingerprint && live[key].call == target
    case Conflict => es' == live && key in live && live[key].fingerprint != fingerprint
    case Busy => es' == live && key !in live && |live| >= MAX_ENTRIES && NoneCompleted(live)
    case Started =>
      && key !in live
      && if |live| < MAX_ENTRIES then es' == live[key := Pending(call, fingerprint)]
         else exists k :: Oldest(live, k) && es' == (live - {k})[key := Pending(call, fingerprint)]
  }

  /** Room for `size` more bytes was made by evicting `gone`: completed entries
      only, those expiring first, and none more than needed. */
  ghost predicate Evicts(es: Entries, gone: set<string>, size: nat)
  {
    Evicting(es, gone, size) && Sum(es - gone) + size <= MAX_TOTAL_BYTES
  }

  ghost predicate Evicting(es: Entries, gone: set<string>, size: nat)
  {
    && gone <= es.Keys
    && (forall k :: k in gone ==> es[k].completed)
    && (forall k, j :: k in gone && j in es && j !in gone && es[j].completed ==> es[k].expiresAt <= es[j].expiresAt)
    && (gone != {} ==> exists k :: k in gone && Sum(es - gone) + es[k].cacheBytes + size > MAX_TOTAL_BYTES)
  }

  /** Completion: a success of at most 1 MiB is cached, always; anything else
      frees the key. */
  ghost predicate Completes(es: Entries, es': Entries, key: string, success: bool, size: nat, now: int)
    requires key in es
  {
    if success && size <= MAX_RESULT_BYTES then
      exists gone :: Evicts(es, gone, size) && es' == (es - gone)[key := es[key].(completed := true, expiresAt := now + TTL, cacheBytes := size)]
    else es' == es - {key}
  }

  ghost predicate Sizes(es: Entries)
  {
    && "" !in es
    && forall k :: k in es ==> (if es[k].completed then es[k].cacheBytes <= MAX_RESULT_BYTES else es[k].cacheBytes == 0)
  }

  ghost predicate CacheOk(es: Entries)
  {
    Sizes(es) && |es| <= MAX_ENTRIES && Sum(es) <= MAX_TOTAL_BYTES
  }

  lemma DropKeepsOk(es: Entries, k: string)
    requires CacheOk(es) && k in es
    ensures CacheOk(es - {k}) && |es - {k}| == |es| - 1
  {
    SumRemove(es, k);
    assert (es - {k}).Keys == es.Keys - {k};
  }

  lemma AddPendingKeepsOk(es: Entries, key: string, call: nat, fingerprint: nat)
    requires CacheOk(es) && |es| < MAX_ENTRIES && key !in es && key != ""
    ensures CacheOk(es[key := Pending(call, fingerprint)]) && Sum(es[key := Pending(call, fingerprint)]) == Sum(es)
  {
    var es' := es[key := Pending(call, fingerprint)];
    SumUpdate(es, key, Pending(call, fingerprint));
    assert es - {key} == es;
    AddedKey(es, key, Pending(call, fingerprint));
    assert Sizes(es');
  }

  lemma AddedKey(es: Entries, key: string, e: Entry)
    requires key !in es
    ensures |es[key := e]| == |es| + 1
  {
    assert es[key := e].Keys == es.Keys + {key};
    assert |es[key := e]| == |es[key := e].Keys|;
  }

  lemma CompleteKeepsOk(es: Entries, key: string, expiresAt: int, size: nat)
    requires CacheOk(es) && key in es && !es[key].completed && size <= MAX_RESULT_BYTES && Sum(es) + size <= MAX_TOTAL_BYTES
    ensures var es' := es[key := es[key].(completed := true, expiresAt := expiresAt, cacheBytes := size)];
            CacheOk(es') && Sum(es') == Sum(es) + size
  {
    var e := es[key].(completed := true, expiresAt := expiresAt, cacheBytes := size);
    SumUpdate(es, key, e);
    SumRemove(es, key);
    assert es[key := e].Keys == es.Keys;
  }

  lemma EvictOneMore(es: Entries, gone: set<string>, k: string, size: nat)
    requires Evicting(es, gone, size) && Oldest(es - gone, k) && Sum(es - gone) + size > MAX_TOTAL_BYTES
    ensures Evicting(es, gone + {k}, size) && es - gone - {k} == es - (gone + {k})
  {
    SumRemove(es - gone, k);
    assert es - gone - {k} == es - (gone + {k});
    var more := gone + {k};
    assert k in more && Sum(es - more) + es[k].cacheBytes + size > MAX_TOTAL_BYTES;
    forall x, j | x in more && j in es && j !in more && es[j].completed ensures es[x].expiresAt <= es[j].expiresAt {
      assert j in es - gone;
    }
  }

  class Cache {
    var entries: Entries
    var resultBytes: int

    ghost predicate Valid()
      reads this
    {
      CacheOk(entries) && resultBytes == Sum(entries)
    }

    constructor ()
      ensures Valid() && entries == map[]
    {
      entries, resultBytes := map[], 0;
    }

    /** Deletes one entry and its bytes. */
    method Drop(k: string)
      requires k in entries
      modifies this
      ensures entries == old(entries) - {k} && resultBytes == old(resultBytes) - old(entries)[k].cacheBytes
      ensures old(resultBytes == Sum(entries)) ==> resultBytes == Sum(entries)
      ensures |entries| == |old(entries)| - 1
    {
      SumRemove(entries, k);
      resultBytes := resultBytes - entries[k].cacheBytes;
      assert (entries - {k}).Keys == entries.Keys - {k};
      entries := entries - {k};
    }

    method SweepExpired(now: int)
      requires Valid()
      modifies this
      ensures Valid() && entries == Live(old(entries), now)
    {
      var keys := entries.Keys;
      while keys != {}
        invariant keys <= entries.Keys <= old(entries).Keys
        invariant resultBytes == Sum(entries) <= Sum(old(entries)) && |entries| <= |old(entries)|
        invariant forall k :: k in entries ==> entries[k] == old(entries)[k]
        invariant forall k :: k in entries && k !in keys ==> !Expired(entries[k], now)
        invariant forall k :: k in old(entries) && k !in entries ==> Expired(old(entries)[k], now)
        decreases keys
      {
        var k :| k in keys;
        keys := keys - {k};
        if Expired(entries[k], now) {
          SumRemove(entries, k);
          Drop(k);
        }
      }
    }

    /** The completed entry expiring first; "" when none is completed. */
    method OldestCompleted() returns (oldest: string)
      requires "" !in entries
      ensures oldest == "" <==> NoneCompleted(entries)
      ensures oldest != "" ==> Oldest(entries, oldest)
    {
      oldest := "";
      var expiry := 0;
      var keys := entries.Keys;
      while keys != {}
        invariant keys <= entries.Keys
        invariant oldest == "" <==> forall k :: k in entries && k !in keys ==> !entries[k].completed
        invariant oldest != "" ==> oldest in entries && entries[oldest].completed && entries[oldest].expiresAt == expiry
        invariant oldest != "" ==> forall k :: k in entries && k !in keys && entries[k].completed ==> expiry <= entries[k].expiresAt
        decreases keys
      {
        var k :| k in keys;
        keys := keys - {k};
        if entries[k].completed && (oldest == "" || entries[k].expiresAt < expiry) {
          oldest, expiry := k, entries[k].expiresAt;
        }
      }
    }

    /** The first locked section of `do`. */
    method Admit(key: string, fingerprint: nat, now: int, call: nat) returns (v: Verdict)
      requires Valid() && key != ""
      modifies this
      ensures Valid() && Admits(old(entries), entries, key, fingerprint, now, call, v)
    {
      SweepExpired(now);
      if key in entries {
        if entries[key].fingerprint != fingerprint { return Conflict; }
        return Joined(entries[key].call);
      }
      if |entries| >= MAX_ENTRIES {
        var oldest := OldestCompleted();
        if oldest == "" { return Busy; }
        DropKeepsOk(entries, oldest);
        Drop(oldest);
      }
      AddPendingKeepsOk(entries, key, call, fingerprint);
      entries := entries[key := Pending(call, fingerprint)];
      v := Started;
    }

    /** The eviction loop of the second section. Its way out without enough
        room is never taken: with nothing completed no bytes are held. */
    method MakeRoom(size: nat) returns (ghost gone: set<string>)
      requires Valid() && size <= MAX_RESULT_BYTES
      modifies this
      ensures Valid() && Evicts(old(entries), gone, size) && entries == old(entries) - gone
    {
      gone := {};
      assert entries - gone == entries;
      while resultBytes + size > MAX_TOTAL_BYTES
        invariant Valid() && Evicting(old(entries), gone, size) && entries == old(entries) - gone
        decreases |entries|
      {
        var oldest := OldestCompleted();
        if oldest == "" {
          SumZero(entries);
          assert false;
        }
        EvictOneMore(old(entries), gone, oldest, size);
        DropKeepsOk(entries, oldest);
        gone := gone + {oldest};
        Drop(oldest);
      }
    }

    /** The second locked section of `do`, entered by the call whose pending
        entry is under the key. */
    method Complete(key: string, call: nat, success: bool, size: nat, now: int) returns (cached: bool)
      requires Valid() && key in entries && entries[key].call == call && !entries[key].completed
      modifies this
      ensures Valid() && Completes(old(entries), entries, key, success, size, now)
      ensures cached <==> success && size <= MAX_RESULT_BYTES
    {
      if success && size <= MAX_RESULT_BYTES {
        ghost var gone := MakeRoom(size);
        CompleteKeepsOk(entries, key, now + TTL, size);
        entries := entries[key := entries[key].(completed := true, expiresAt := now + TTL, cacheBytes := size)];
        resultBytes := resultBytes + size;
        cached := true;
      } else {
        DropKeepsOk(entries, key);
        Drop(key);
        cached := false;
      }
    }
  }

  // ----- interleaved requests -----

  datatype Outcome = Outcome(success: bool, output: string)

  /** A request between locked sections. */
  datatype Request =
    | Running(key: string, fingerprint: nat)               // generating
    | Waiting(key: string, fingerprint: nat, target: nat)  // on another call's done channel
    | Answered(key: string, fingerprint: nat, from: nat)   // returned that call's outcome
    | Refused

  /** `runs` remembers what each call that ever ran was for, `outcomes` what
      it produced. */
  datatype World = World(entries: Entries, requests: map<nat, Request>, runs: map<nat, (string, nat)>, outcomes: map<nat, Outcome>)

  /** Steps carry the resulting entries, since ties in expiry may fall either way. */
  datatype Action =
    | Arrive(call: nat, key: string, fingerprint: nat, now: int, entries': Entries, verdict: Verdict)
    | Generated(call: nat, outcome: Outcome, now: int, entries': Entries)
    | Receive(call: nat)
    | GiveUp(call: nat)

  ghost predicate Enabled(w: World, a: Action)
  {
    match a
    case Arrive(call, key, fingerprint, now, es, v) =>
      call !in w.requests && call !in w.runs && key != "" && Admits(w.entries, es, key, fingerprint, now, call, v)
    case Generated(call, outcome, now, es) =>
      && call in w.requests && w.requests[call].Running? && w.requests[call].key in w.entries
      && Completes(w.entries, es, w.requests[call].key, outcome.success, |outcome.output|, now)
    case Receive(call) => call in w.requests && w.requests[call].Waiting? && w.requests[call].target in w.outcomes
    case GiveUp(call) => call in w.requests && w.requests[call].Waiting?
  }

  function Arrival(w: World, es: Entries, call: nat, key: string, fingerprint: nat, v: Verdict): World
  {
    var w1 := w.(entries := es);
    match v
    case Joined(target) => w1.(requests := w.requests[call := Waiting(key, fingerprint, target)])
    case Conflict => w1.(requests := w.requests[call := Refused])
    case Busy => w1.(requests := w.requests[call := Refused])
    case Started => w1.(requests := w.requests[call := Running(key, fingerprint)], runs := w.runs[call := (key, fingerprint)])
  }

  function Completion(w: World, es: Entries, call: nat, outcome: Outcome): World
    requires call in w.requests && w.requests[call].Running?
  {
    var r := w.requests[call];
    w.(entries := es, outcomes := w.outcomes[call := outcome], requests := w.requests[call := Answered(r.key, r.fingerprint, call)])
  }

  function Step(w: World, a: Action): World
    requires Enabled(w, a)
  {
    match a
    case Arrive(call, key, fingerprint, now, es, v) => Arrival(w, es, call, key, fingerprint, v)
    case Generated(call, outcome, now, es) => Completion(w, es, call, outcome)
    case Receive(call) =>
      var r := w.requests[call];
      w.(requests := w.requests[call := Answered(r.key, r.fingerprint, r.target)])
    case GiveUp(call) => w.(requests := w.requests[call := Refused])
  }

  /** Pending entries and running calls match one to one. */
  ghost predicate PendingMatch(w: World)
  {
    && (forall c :: c in w.requests && w.requests[c].Running? ==> PendingUnder(w, c, w.requests[c].key))
    && (forall k :: k in w.entries && !w.entries[k].completed ==>
          var c := w.entries[k].call;
          c in w.requests && w.requests[c] == Running(k, w.entries[k].fingerprint))
  }

  ghost predicate PendingUnder(w: World, c: nat, key: string)
  {
    key in w.entries && w.entries[key].call == c && !w.entries[key].completed
  }

  ghost predicate EntryOk(w: World, k: string)
    requires k in w.entries
  {
    var e := w.entries[k];
    && e.call in w.runs && w.runs[e.call] == (k, e.fingerprint)
    && (e.completed ==> e.call in w.outcomes && w.outcomes[e.call].success && |w.outcomes[e.call].output| == e.cacheBytes)
  }

  ghost predicate RequestOk(w: World, c: nat)
    requires c in w.requests
  {
    match w.requests[c]
    case Running(k, f) => c in w.runs && w.runs[c] == (k, f)
    case Waiting(k, f, target) => target in w.runs && w.runs[target] == (k, f)
    case Answered(k, f, from) => from in w.runs && w.runs[from] == (k, f) && from in w.outcomes
    case Refused => true
  }

  ghost predicate RecordsOk(w: World)
  {
    && (forall k :: k in w.entries ==> EntryOk(w, k))
    && (forall c :: c in w.requests ==> RequestOk(w, c))
  }

  ghost predicate Invariant(w: World)
  {
    CacheOk(w.entries) && PendingMatch(w) && RecordsOk(w)
  }

  lemma {:induction false} SumSubmap(a: Entries, b: Entries)
    requires a.Keys <= b.Keys && forall k :: k in a ==> a[k] == b[k]
    ensures Sum(a) <= Sum(b)
    decreases |b|
  {
    if b != map[] {
      var k :| k in b;
      SumRemove(b, k);
      if k in a { SumRemove(a, k); } else { assert a - {k} == a; }
      SumSubmap(a - {k}, b - {k});
    }
  }

  lemma SubsetSmaller(a: set<string>, b: set<string>)
    requires a <= b
    ensures |a| <= |b|
  {
    assert b == a + (b - a);
  }

  lemma SubmapOk(a: Entries, b: Entries)
    requires CacheOk(b) && a.Keys <= b.Keys && forall k :: k in a ==> a[k] == b[k]
    ensures CacheOk(a)
  {
    SumSubmap(a, b);
    SubsetSmaller(a.Keys, b.Keys);
    assert |a| == |a.Keys| && |b| == |b.Keys|;
  }

  lemma AdmitKeepsOk(es: Entries, es': Entries, key: string, fingerprint: nat, now: int, call: nat, v: Verdict)
    requires CacheOk(es) && key != "" && Admits(es, es', key, fingerprint, now, call, v)
    ensures CacheOk(es')
  {
    var live := Live(es, now);
    SubmapOk(live, es);
    if v.Started? {
      if |live| < MAX_ENTRIES {
        AddPendingKeepsOk(live, key, call, fingerprint);
      } else {
        var k :| Oldest(live, k) && es' == (live - {k})[key := Pending(call, fingerprint)];
        DropKeepsOk(live, k);
        AddPendingKeepsOk(live - {k}, key, call, fingerprint);
      }
    }
  }

  /** Entries under other keys are unchanged or, if completed, gone. */
  ghost predicate OthersKept(es: Entries, es': Entries, key: string)
  {
    && (forall k :: k in es && k != key && !es[k].completed ==> k in es' && es'[k] == es[k])
    && (forall k :: k in es' && k != key ==> k in es && es'[k] == es[k])
  }

  ghost predicate Admitted(es: Entries, es': Entries, key: string, fingerprint: nat, call: nat, v: Verdict)
  {
    && OthersKept(es, es', key)
    && (v.Started? ==> key in es' && es'[key] == Pending(call, fingerprint) && (key in es ==> es[key].completed))
    && (!v.Started? && key in es' ==> key in es && es'[key] == es[key])
    && (!v.Started? && key in es && !es[key].completed ==> key in es')
    && (v.Joined? ==> key in es && es[key].call == v.target && es[key].fingerprint == fingerprint)
  }

  lemma AdmitContents(es: Entries, es': Entries, key: string, fingerprint: nat, now: int, call: nat, v: Verdict)
    requires Admits(es, es', key, fingerprint, now, call, v)
    ensures Admitted(es, es', key, fingerprint, call, v)
  {
  }

  lemma CompleteKeepsAll(es: Entries, es': Entries, key: string, success: bool, size: nat, now: int)
    requires CacheOk(es) && key in es && !es[key].completed && Completes(es, es', key, success, size, now)
    ensures CacheOk(es')
  {
    if success && size <= MAX_RESULT_BYTES {
      var gone :| Evicts(es, gone, size)
        && es' == (es - gone)[key := es[key].(completed := true, expiresAt := now + TTL, cacheBytes := size)];
      assert key !in gone;
      SubmapOk(es - gone, es);
      assert (es - gone)[key] == es[key];
      CompleteKeepsOk(es - gone, key, now + TTL, size);
    } else {
      DropKeepsOk(es, key);
    }
  }

  /** The caller's entry is completed with `size` bytes, or gone. */
  ghost predicate Finished(es: Entries, es': Entries, key: string, size: nat)
  {
    && OthersKept(es, es', key)
    && (key in es' ==> key in es && es'[key].call == es[key].call && es'[key].fingerprint == es[key].fingerprint
                       && es'[key].completed && es'[key].cacheBytes == size)
  }

  lemma CompleteContents(es: Entries, es': Entries, key: string, success: bool, size: nat, now: int)
    requires key in es && !es[key].completed && Completes(es, es', key, success, size, now)
    ensures Finished(es, es', key, size)
    ensures key in es' <==> success && size <= MAX_RESULT_BYTES
  {
    if success && size <= MAX_RESULT_BYTES {
      var gone :| Evicts(es, gone, size)
        && es' == (es - gone)[key := es[key].(completed := true, expiresAt := now + TTL, cacheBytes := size)];
      assert key !in gone;
      assert forall k :: k in gone ==> es[k].completed;
    }
  }

  lemma ArriveKeepsPending(w: World, w': World, call: nat, key: string, fingerprint: nat, v: Verdict)
    requires PendingMatch(w) && call !in w.requests && w' == Arrival(w, w'.entries, call, key, fingerprint, v)
    requires Admitted(w.entries, w'.entries, key, fingerprint, call, v)
    ensures PendingMatch(w')
  {
    forall c | c in w'.requests && w'.requests[c].Running? ensures PendingUnder(w', c, w'.requests[c].key) {
      if c != call { assert PendingUnder(w, c, w.requests[c].key); }
    }
    forall k | k in w'.entries && !w'.entries[k].completed
      ensures var c := w'.entries[k].call; c in w'.requests && w'.requests[c] == Running(k, w'.entries[k].fingerprint)
    {
      if k != key || !v.Started? { assert w.entries[k] == w'.entries[k]; }
    }
  }

  lemma ArriveKeepsRecords(w: World, w': World, call: nat, key: string, fingerprint: nat, v: Verdict)
    requires RecordsOk(w) && call !in w.requests && call !in w.runs && w' == Arrival(w, w'.entries, call, key, fingerprint, v)
    requires Admitted(w.entries, w'.entries, key, fingerprint, call, v)
    ensures RecordsOk(w')
  {
    forall k | k in w'.entries ensures EntryOk(w', k) {
      if k != key || !v.Started? { assert EntryOk(w, k); }
    }
    forall c | c in w'.requests ensures RequestOk(w', c) {
      if c != call { assert RequestOk(w, c); } else if v.Joined? { assert EntryOk(w, key); }
    }
  }

  lemma ArriveKeepsInvariant(w: World, a: Action)
    requires Invariant(w) && Enabled(w, a) && a.Arrive?
    ensures Invariant(Step(w, a))
  {
    AdmitKeepsOk(w.entries, a.entries', a.key, a.fingerprint, a.now, a.call, a.verdict);
    AdmitContents(w.entries, a.entries', a.key, a.fingerprint, a.now, a.call, a.verdict);
    ArriveKeepsPending(w, Step(w, a), a.call, a.key, a.fingerprint, a.verdict);
    ArriveKeepsRecords(w, Step(w, a), a.call, a.key, a.fingerprint, a.verdict);
  }

  lemma GeneratedKeepsPending(w: World, w': World, call: nat, outcome: Outcome)
    requires PendingMatch(w) && call in w.requests && w.requests[call].Running? && w' == Completion(w, w'.entries, call, outcome)
    requires Finished(w.entries, w'.entries, w.requests[call].key, |outcome.output|)
    ensures PendingMatch(w')
  {
    assert PendingUnder(w, call, w.requests[call].key);
    forall c | c in w'.requests && w'.requests[c].Running? ensures PendingUnder(w', c, w'.requests[c].key) {
      assert PendingUnder(w, c, w.requests[c].key);
    }
  }

  lemma GeneratedKeepsRecords(w: World, w': World, call: nat, outcome: Outcome)
    requires PendingMatch(w) && RecordsOk(w) && call in w.requests && w.requests[call].Running? && w' == Completion(w, w'.entries, call, outcome)
    requires Finished(w.entries, w'.entries, w.requests[call].key, |outcome.output|)
    requires w.requests[call].key in w'.entries ==> outcome.success
    ensures RecordsOk(w')
  {
    assert PendingUnder(w, call, w.requests[call].key) && RequestOk(w, call);
    forall k | k in w'.entries ensures EntryOk(w', k) { assert EntryOk(w, k); }
    forall c | c in w'.requests ensures RequestOk(w', c) { assert RequestOk(w, c); }
  }

  lemma GeneratedKeepsInvariant(w: World, a: Action)
    requires Invariant(w) && Enabled(w, a) && a.Generated?
    ensures Invariant(Step(w, a))
  {
    var key := w.requests[a.call].key;
    assert PendingUnder(w, a.call, key);
    CompleteKeepsAll(w.entries, a.entries', key, a.outcome.success, |a.outcome.output|, a.now);
    CompleteContents(w.entries, a.entries', key, a.outcome.success, |a.outcome.output|, a.now);
    GeneratedKeepsPending(w, Step(w, a), a.call, a.outcome);
    GeneratedKeepsRecords(w, Step(w, a), a.call, a.outcome);
  }

  lemma AnswerKeepsInvariant(w: World, a: Action)
    requires Invariant(w) && Enabled(w, a) && (a.Receive? || a.GiveUp?)
    ensures Invariant(Step(w, a))
  {
    var w' := Step(w, a);
    forall c | c in w'.requests && w'.requests[c].Running? ensures PendingUnder(w', c, w'.requests[c].key) {
      assert PendingUnder(w, c, w.requests[c].key);
    }
    forall k | k in w'.entries ensures EntryOk(w', k) { assert EntryOk(w, k); }
    forall c | c in w'.requests ensures RequestOk(w', c) { assert RequestOk(w, c); }
  }

  ghost predicate Run(worlds: seq<World>, actions: seq<Action>)
  {
    && |worlds| == |actions| + 1 && worlds[0] == World(map[], map[], map[], map[])
    && (forall i :: 0 <= i < |actions| ==> Enabled(worlds[i], actions[i]) && worlds[i + 1] == Step(worlds[i], actions[i]))
  }

  lemma {:induction false} RunInvariant(worlds: seq<World>, actions: seq<Action>, i: nat)
    requires Run(worlds, actions) && i < |worlds|
    ensures Invariant(worlds[i])
  {
    if i > 0 {
      RunInvariant(worlds, actions, i - 1);
      var w, a := worlds[i - 1], actions[i - 1];
      if a.Arrive? {
        ArriveKeepsInvariant(w, a);
      } else if a.Generated? {
        GeneratedKeepsInvariant(w, a);
      } else {
        AnswerKeepsInvariant(w, a);
      }
    }
  }

  /** Over every interleaving the cache holds at most 512 entries and 8 MiB,
      no two calls generate for one key at the same time, and a running call's
      entry is never evicted. */
  lemma BoundedAndSingleFlight(worlds: seq<World>, actions: seq<Action>, i: nat)
    requires Run(worlds, actions) && i < |worlds|
    ensures var w := worlds[i];
            && |w.entries| <= 512 && Sum(w.entries) <= 8_388_608
            && (forall c, d :: c in w.requests && d in w.requests && w.requests[c].Running? && w.requests[d].Running? && w.requests[c].key == w.requests[d].key ==> c == d)
            && (forall c :: c in w.requests && w.requests[c].Running? ==> PendingUnder(w, c, w.requests[c].key))
  {
    RunInvariant(worlds, actions, i);
  }

  /** A success of at most 1 MiB is always in the cache once its call
      completes, under its key and fingerprint, for ten minutes. */
  lemma SuccessIsAlwaysCached(worlds: seq<World>, actions: seq<Action>, i: nat)
    requires Run(worlds, actions) && i < |actions| && actions[i].Generated?
    requires actions[i].outcome.success && |actions[i].outcome.output| <= 1_048_576
    ensures var r, es := worlds[i].requests[actions[i].call], worlds[i + 1].entries;
            && r.key in es && es[r.key].completed && es[r.key].call == actions[i].call && es[r.key].fingerprint == r.fingerprint
            && es[r.key].cacheBytes == |actions[i].outcome.output|
            && es[r.key].expiresAt == actions[i].now + 600_000_000_000
  {
    RunInvariant(worlds, actions, i);
    var w, a := worlds[i], actions[i];
    var key := w.requests[a.call].key;
    assert PendingUnder(w, a.call, key) && EntryOk(w, key) && RequestOk(w, a.call);
    CompleteContents(w.entries, a.entries', key, true, |a.outcome.output|, a.now);
    CachedUntil(w.entries, a.entries', key, |a.outcome.output|, a.now);
  }

  lemma CachedUntil(es: Entries, es': Entries, key: string, size: nat, now: int)
    requires key in es && Completes(es, es', key, true, size, now) && size <= MAX_RESULT_BYTES
    ensures key in es' && es'[key].expiresAt == now + TTL
  {
  }

  /** What an arriving request is told. While an entry under its key is
      pending, or completed and not yet expired, it joins that entry's call if
      the request is the same and is refused if it is another; otherwise
      neither, and it starts unless the cache is full of pending entries. */
  lemma ArrivalVerdict(worlds: seq<World>, actions: seq<Action>, i: nat)
    requires Run(worlds, actions) && i < |actions| && actions[i].Arrive?
    ensures var es, es', a := worlds[i].entries, worlds[i + 1].entries, actions[i];
            if a.key in es && (!es[a.key].completed || a.now < es[a.key].expiresAt) then
              a.verdict == (if es[a.key].fingerprint == a.fingerprint then Joined(es[a.key].call) else Conflict)
            else
              && (a.verdict == Started || a.verdict == Busy)
              && (a.verdict == Busy ==> |es'| == 512 && forall k :: k in es' ==> !es'[k].completed)
              && (a.verdict == Started ==> a.key in es' && es'[a.key] == Entry(a.call, a.fingerprint, false, 0, 0))
    ensures var a, r := actions[i], worlds[i + 1].requests[actions[i].call];
            match a.verdict
            case Joined(target) => r == Waiting(a.key, a.fingerprint, target)
            case Started => r == Running(a.key, a.fingerprint)
            case Conflict => r == Refused
            case Busy => r == Refused
  {
    RunInvariant(worlds, actions, i);
    RunInvariant(worlds, actions, i + 1);
    var w, a := worlds[i], actions[i];
    assert worlds[i + 1].entries == a.entries';
  }

  /** A request that joins a completed call can be answered at once, with that
      call's outcome. */
  lemma CachedAnswerIsReady(worlds: seq<World>, actions: seq<Action>, i: nat)
    requires Run(worlds, actions) && i < |actions| && actions[i].Arrive? && actions[i].verdict.Joined?
    requires actions[i].key in worlds[i].entries && worlds[i].entries[actions[i].key].completed
    ensures var a, w := actions[i], worlds[i + 1];
            && Enabled(w, Receive(a.call)) && a.verdict.target in w.outcomes && w.outcomes[a.verdict.target].success
            && Step(w, Receive(a.call)).requests[a.call] == Answered(a.key, a.fingerprint, a.verdict.target)
  {
    RunInvariant(worlds, actions, i);
    assert EntryOk(worlds[i], actions[i].key);
  }

  /** A waiting request may give up at any time, which concerns no other. */
  lemma GivingUpIsPrivate(w: World, call: nat)
    requires call in w.requests && w.requests[call].Waiting?
    ensures Enabled(w, GiveUp(call)) && Step(w, GiveUp(call)) == w.(requests := w.requests[call := Refused])
  {
  }

  ghost predicate Next(w: World, a: Action, w': World) { Enabled(w, a) && w' == Step(w, a) }

  lemma FirstArrives(key: string, fingerprint: nat, now: int)
    requires key != ""
    ensures var es := map[key := Pending(0, fingerprint)];
            Next(World(map[], map[], map[], map[]), Arrive(0, key, fingerprint, now, es, Started),
                 World(es, map[0 := Running(key, fingerprint)], map[0 := (key, fingerprint)], map[]))
  {
    var none: Entries := map[];
    assert Live(none, now) == none;
    assert none[key := Pending(0, fingerprint)] == map[key := Pending(0, fingerprint)];
  }

  lemma FirstCompletes(key: string, fingerprint: nat, output: string, now: int)
    requires |output| <= MAX_RESULT_BYTES
    ensures var e, runs := Pending(0, fingerprint), map[0 := (key, fingerprint)];
            var es := map[key := e.(completed := true, expiresAt := now + TTL, cacheBytes := |output|)];
            Next(World(map[key := e], map[0 := Running(key, fingerprint)], runs, map[]), Generated(0, Outcome(true, output), now, es),
                 World(es, map[0 := Answered(key, fingerprint, 0)], runs, map[0 := Outcome(true, output)]))
  {
    var es := map[key := Pending(0, fingerprint)];
    assert es - {} == es;
    SumZero(es);
    assert Evicts(es, {}, |output|);
  }

  /** A repeated request joins the cached entry and is answered from it. */
  lemma RepeatJoins(w: World, key: string, call: nat, now: int)
    requires w.entries.Keys == {key} && key != "" && call !in w.requests && call !in w.runs
    requires w.entries[key].completed && now < w.entries[key].expiresAt && w.entries[key].call in w.outcomes
    ensures var e := w.entries[key];
            var w' := w.(requests := w.requests[call := Waiting(key, e.fingerprint, e.call)]);
            && Next(w, Arrive(call, key, e.fingerprint, now, w.entries, Joined(e.call)), w')
            && Next(w', Receive(call), w.(requests := w.requests[call := Answered(key, e.fingerprint, e.call)]))
  {
    assert Live(w.entries, now) == w.entries;
  }

  /** A repeated request is served from the cache: for every key, request and
      output of at most 1 MiB there is the run in which call 0 generates the
      output and call 1, arriving within ten minutes of that, is answered with
      it without generating. */
  lemma RepeatIsServed(key: string, fingerprint: nat, output: string, first: int, done: int, again: int)
    returns (worlds: seq<World>, actions: seq<Action>)
    requires key != "" && |output| <= 1_048_576 && again < done + 600_000_000_000
    ensures Run(worlds, actions) && |actions| == 4
    ensures actions[2].Arrive? && actions[2].key == key && actions[2].fingerprint == fingerprint && actions[2].now == again
    ensures worlds[4].requests == map[0 := Answered(key, fingerprint, 0), 1 := Answered(key, fingerprint, 0)]
    ensures worlds[4].outcomes == map[0 := Outcome(true, output)] && worlds[4].runs == map[0 := (key, fingerprint)]
  {
    var e, runs := Pending(0, fingerprint), map[0 := (key, fingerprint)];
    var es := map[key := e.(completed := true, expiresAt := done + TTL, cacheBytes := |output|)];
    var w0, w1 := World(map[], map[], map[], map[]), World(map[key := e], map[0 := Running(key, fingerprint)], runs, map[]);
    var w2 := World(es, map[0 := Answered(key, fingerprint, 0)], runs, map[0 := Outcome(true, output)]);
    var w3 := w2.(requests := w2.requests[1 := Waiting(key, fingerprint, 0)]);
    var w4 := w2.(requests := w2.requests[1 := Answered(key, fingerprint, 0)]);
    FirstArrives(key, fingerprint, first);
    FirstCompletes(key, fingerprint, output, done);
    RepeatJoins(w2, key, 1, again);
    var a0, a1 := Arrive(0, key, fingerprint, first, map[key := e], Started), Generated(0, Outcome(true, output), done, es);
    var a2 := Arrive(1, key, fingerprint, again, es, Joined(0));
    worlds, actions := [w0, w1, w2, w3, w4], [a0, a1, a2, Receive(1)];
    FourStepsRun(worlds, actions);
  }

  lemma FourStepsRun(worlds: seq<World>, actions: seq<Action>)
    requires |worlds| == 5 && |actions| == 4 && worlds[0] == World(map[], map[], map[], map[])
    requires Next(worlds[0], actions[0], worlds[1]) && Next(worlds[1], actions[1], worlds[2])
    requires Next(worlds[2], actions[2], worlds[3]) && Next(worlds[3], actions[3], worlds[4])
    ensures Run(worlds, actions)
  {
    forall i | 0 <= i < |actions| ensures Next(worlds[i], actions[i], worlds[i + 1]) {
      assert i == 0 || i == 1 || i == 2 || i == 3;
    }
  }

  /** Entries not yet expired at `now`. */
  ghost function Unexpired(es: Entries, now: int): set<string> { set k | k in es && (!es[k].completed || now < es[k].expiresAt) }

  /** A pending entry never leaves. A completed one is only ever unchanged or
      gone, and gone only because it expired, or as the first to expire when 512
      unexpired entries leave no place for a new one, or as one expiring no later
      than those kept when a result needs its bytes. */
  lemma EntriesLeaveOnlyForCause(worlds: seq<World>, actions: seq<Action>, i: nat, k: string)
    requires Run(worlds, actions) && i < |actions| && k in worlds[i].entries
    requires !(k in worlds[i + 1].entries && worlds[i + 1].entries[k] == worlds[i].entries[k])
    ensures var es, es', a := worlds[i].entries, worlds[i + 1].entries, actions[i];
            if !es[k].completed then a.Generated? && worlds[i].requests[a.call].key == k
            else if a.Arrive? then
              es[k].expiresAt <= a.now ||
              (a.verdict.Started? && |Unexpired(es, a.now)| >= 512 && forall j :: j in es' && es'[j].completed ==> es[k].expiresAt <= es'[j].expiresAt)
            else
              && a.Generated? && a.outcome.success && Sum(es) + |a.outcome.output| > 8_388_608
              && forall j :: j in es' && j in es && es[j].completed ==> es[k].expiresAt <= es[j].expiresAt
  {
    RunInvariant(worlds, actions, i);
    var w, a := worlds[i], actions[i];
    if a.Arrive? {
      AdmitContents(w.entries, a.entries', a.key, a.fingerprint, a.now, a.call, a.verdict);
      if w.entries[k].completed && a.now < w.entries[k].expiresAt {
        GoneOnArrival(w.entries, a.entries', a, k);
      }
    } else if a.Generated? {
      var key := w.requests[a.call].key;
      assert PendingUnder(w, a.call, key);
      CompleteContents(w.entries, a.entries', key, a.outcome.success, |a.outcome.output|, a.now);
      if k != key { GoneOnCompletion(w.entries, a.entries', key, a.outcome.success, |a.outcome.output|, a.now, k); }
    }
  }

  lemma GoneOnArrival(es: Entries, es': Entries, a: Action, k: string)
    requires a.Arrive? && Admits(es, es', a.key, a.fingerprint, a.now, a.call, a.verdict)
    requires k in es && es[k].completed && a.now < es[k].expiresAt && !(k in es' && es'[k] == es[k])
    ensures a.verdict.Started? && |Unexpired(es, a.now)| >= 512 && forall j :: j in es' && es'[j].completed ==> es[k].expiresAt <= es'[j].expiresAt
  {
    var live := Live(es, a.now);
    assert live.Keys == Unexpired(es, a.now) && |live| == |live.Keys|;
    assert k in live;
    assert |live| >= MAX_ENTRIES;
    var gone :| Oldest(live, gone) && es' == (live - {gone})[a.key := Pending(a.call, a.fingerprint)];
    assert gone == k;
  }

  lemma GoneOnCompletion(es: Entries, es': Entries, key: string, success: bool, size: nat, now: int, k: string)
    requires key in es && !es[key].completed && Completes(es, es', key, success, size, now)
    requires k in es && k != key && !(k in es' && es'[k] == es[k])
    ensures es[k].completed && success && Sum(es) + size > 8_388_608
    ensures forall j :: j in es' && j in es && es[j].completed ==> es[k].expiresAt <= es[j].expiresAt
  {
    assert success && size <= MAX_RESULT_BYTES;
    var gone :| Evicts(es, gone, size)
      && es' == (es - gone)[key := es[key].(completed := true, expiresAt := now + TTL, cacheBytes := size)];
    assert k in gone;
    EvictedForRoom(es, gone, size);
  }

  lemma EvictedForRoom(es: Entries, gone: set<string>, size: nat)
    requires Evicting(es, gone, size) && gone != {}
    ensures Sum(es) + size > MAX_TOTAL_BYTES
  {
    var last :| last in gone && Sum(es - gone) + es[last].cacheBytes + size > MAX_TOTAL_BYTES;
    SumSubmap((es - gone)[last := es[last]], es);
    SumUpdate(es - gone, last, es[last]);
    assert es - gone - {last} == es - gone;
  }

  /** An answer always comes from a run for the same key and the same request. */
  lemma AnswersMatchRequest(worlds: seq<World>, actions: seq<Action>, i: nat, c: nat)
    requires Run(worlds, actions) && i < |worlds| && c in worlds[i].requests && worlds[i].requests[c].Answered?
    ensures var r := worlds[i].requests[c];
            r.from in worlds[i].outcomes && r.from in worlds[i].runs && worlds[i].runs[r.from] == (r.key, r.fingerprint)
  {
    RunInvariant(worlds, actions, i);
    assert RequestOk(worlds[i], c);
  }
}
