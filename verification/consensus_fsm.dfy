/** The replicated key/value state machine: operation IDs make re-delivery and
    retries harmless, so the state is that of a deduplicated log. */
module ConsensusFsm {
  import opened Options

  type Bytes = seq<bv8>

  datatype Mutation = Mutation(operationID: string, kind: string, key: string, value: Bytes)

  /** A committed log entry; `payload` is None when its bytes do not decode. */
  datatype Entry = Entry(index: nat, isCommand: bool, payload: Option<Mutation>)

  /** The fingerprint hashes the whole mutation, so it is the mutation itself. */
  datatype Applied = Applied(fingerprint: Mutation, index: nat)

  datatype State = State(values: map<string, Bytes>, operations: map<string, Applied>)

  datatype Response =
    | NoResponse
    | Rejected
    | StorageFailed
    | IDReused
    | Result(operationID: string, index: nat, duplicate: bool)

  const EMPTY := State(map[], map[])
  const PUT := "put"
  const DELETE := "delete"

  // ----- validation -----

  predicate IsSpace(c: char)
  {
    var n := c as int;
    9 <= n <= 13 || n == 0x20 || n == 0x85 || n == 0xA0 || n == 0x1680 || 0x2000 <= n <= 0x200A ||
    n == 0x2028 || n == 0x2029 || n == 0x202F || n == 0x205F || n == 0x3000
  }

  function ByteLength(s: string): nat
  {
    if s == [] then 0
    else
      var n := s[0] as int;
      (if n < 0x80 then 1 else if n < 0x800 then 2 else if n < 0x10000 then 3 else 4) + ByteLength(s[1..])
  }

  /** Non-empty, trimmed, at most 256 bytes. */
  predicate ValidIdentifier(s: string)
  {
    s != "" && !IsSpace(s[0]) && !IsSpace(s[|s| - 1]) && ByteLength(s) <= 256
  }

  predicate ValidMutation(m: Mutation)
  {
    && ValidIdentifier(m.operationID) && ValidIdentifier(m.key)
    && (m.kind == PUT || (m.kind == DELETE && m.value == []))
  }

  predicate ValidEntry(e: Entry) { e.isCommand && e.payload.Some? && ValidMutation(e.payload.value) }

  function Repeated(c: char, n: nat): string { seq(n, i => c) }

  lemma {:induction false} AsciiLength(s: string)
    requires forall i :: 0 <= i < |s| ==> s[i] as int < 0x80
    ensures ByteLength(s) == |s|
  {
    if s != [] { AsciiLength(s[1..]); }
  }

  /** Where validation draws its lines: identifiers of 1 to 256 bytes without
      surrounding space, and deletes without a value. */
  lemma ValidationLimits(n: nat, value: Bytes)
    ensures ValidIdentifier(Repeated('a', n)) <==> 1 <= n <= 256
    ensures !ValidIdentifier(" a") && !ValidIdentifier("a\n") && ValidIdentifier("a b")
    ensures ValidMutation(Mutation("o", "put", "k", value)) && (ValidMutation(Mutation("o", "delete", "k", value)) <==> value == [])
    ensures !ValidMutation(Mutation("o", "set", "k", value)) && !ValidMutation(Mutation("", "put", "k", value)) && !ValidMutation(Mutation("o", "put", "", value))
  {
    AsciiLength(Repeated('a', n));
    AsciiLength("a b");
    AsciiLength("o");
    AsciiLength("k");
  }

  /** Bytes are counted in UTF-8, by the value of each character. */
  lemma CharacterBytes(c: char, s: string)
    ensures ByteLength([c] + s) == ByteLength(s) + if c <= '\U{7f}' then 1 else if c <= '\U{7ff}' then 2 else if c <= '\U{ffff}' then 3 else 4
  {
    assert ([c] + s)[1..] == s;
  }

  /** The characters trimmed. */
  lemma SpacesAre(c: char)
    ensures IsSpace(c) <==> c in {'\t', '\n', '\U{0b}', '\U{0c}', '\r', ' ', '\U{85}', '\U{a0}', '\U{1680}', '\U{2000}', '\U{2001}', '\U{2002}',
                                  '\U{2003}', '\U{2004}', '\U{2005}', '\U{2006}', '\U{2007}', '\U{2008}', '\U{2009}', '\U{200a}', '\U{2028}',
                                  '\U{2029}', '\U{202f}', '\U{205f}', '\U{3000}'}
  {
  }

  // ----- specification -----

  function Effect(values: map<string, Bytes>, m: Mutation): map<string, Bytes>
  {
    if m.kind == PUT then values[m.key := m.value] else values - {m.key}
  }

  function ApplyEntry(st: State, e: Entry): State
  {
    if !ValidEntry(e) || e.payload.value.operationID in st.operations then st
    else
      var m := e.payload.value;
      State(Effect(st.values, m), st.operations[m.operationID := Applied(m, e.index)])
  }

  function ResponseTo(st: State, e: Entry): Response
  {
    if !e.isCommand then NoResponse
    else if !ValidEntry(e) then Rejected
    else
      var m := e.payload.value;
      if m.operationID in st.operations then
        if st.operations[m.operationID].fingerprint != m then IDReused
        else Result(m.operationID, st.operations[m.operationID].index, true)
      else Result(m.operationID, e.index, false)
  }

  function Replay(st: State, es: seq<Entry>): State
  {
    if es == [] then st else ApplyEntry(Replay(st, es[..|es| - 1]), es[|es| - 1])
  }

  // ----- the machine as an object -----

  class StateMachine {
    var values: map<string, Bytes>
    var operations: map<string, Applied>
    var storageFailed: bool

    ghost function Abstract(): State
      reads this
    {
      State(values, operations)
    }

    constructor ()
      ensures Abstract() == EMPTY && !storageFailed
    {
      values, operations, storageFailed := map[], map[], false;
    }

    /** `persisted` is the outcome of writing the applied index ahead of the
        change; a failure is remembered and blocks every later entry. */
    method Apply(e: Entry, persisted: bool) returns (r: Response)
      modifies this
      ensures old(storageFailed) ==> Abstract() == old(Abstract()) && storageFailed
      ensures !old(storageFailed) ==> storageFailed == (ValidEntry(e) && !persisted)
      ensures Abstract() == if old(storageFailed) || (ValidEntry(e) && !persisted) then old(Abstract()) else ApplyEntry(old(Abstract()), e)
      ensures r == if ValidEntry(e) && storageFailed then StorageFailed else ResponseTo(old(Abstract()), e)
      ensures !ValidEntry(e) || storageFailed || e.payload.value.operationID in old(operations) ==>
                values == old(values) && operations == old(operations)
      ensures ValidEntry(e) && !storageFailed && e.payload.value.operationID !in old(operations) ==>
                var m := e.payload.value;
                && (m.kind == "put" ==> m.key in values && values[m.key] == m.value)
                && (m.kind == "delete" ==> m.key !in values)
                && (forall k :: k != m.key ==> (k in values <==> k in old(values)) && (k in values ==> values[k] == old(values)[k]))
                && operations == old(operations)[m.operationID := Applied(m, e.index)]
                && r == Result(m.operationID, e.index, false)
      ensures ValidEntry(e) && !storageFailed && e.payload.value.operationID in old(operations) ==>
                var was := old(operations)[e.payload.value.operationID];
                r == if was.fingerprint == e.payload.value then Result(e.payload.value.operationID, was.index, true) else IDReused
      ensures !e.isCommand ==> r == NoResponse
      ensures e.isCommand && !ValidEntry(e) ==> r == Rejected
    {
      if !e.isCommand { return NoResponse; }
      if e.payload.None? { return Rejected; }
      var m := e.payload.value;
      if !ValidMutation(m) { return Rejected; }
      if storageFailed { return StorageFailed; }
      if !persisted {
        storageFailed := true;
        return StorageFailed;
      }
      if m.operationID in operations {
        var previous := operations[m.operationID];
        if previous.fingerprint != m { return IDReused; }
        return Result(m.operationID, previous.index, true);
      }
      if m.kind == PUT { values := values[m.key := m.value]; }
      else if m.kind == DELETE { values := values - {m.key}; }
      operations := operations[m.operationID := Applied(m, e.index)];
      r := Result(m.operationID, e.index, false);
    }

    method Restore(snapshot: State)
      modifies this`values, this`operations
      ensures Abstract() == snapshot
    {
      values, operations := snapshot.values, snapshot.operations;
    }
  }

  // ----- the state of a deduplicated log -----

  predicate SameOperation(a: Entry, b: Entry)
  {
    ValidEntry(a) && ValidEntry(b) && a.payload.value.operationID == b.payload.value.operationID
  }

  /** The first valid entry of its operation ID. */
  ghost predicate FirstOfItsID(es: seq<Entry>, i: int)
  {
    0 <= i < |es| && ValidEntry(es[i]) && forall j :: 0 <= j < i ==> !SameOperation(es[j], es[i])
  }

  /** The log with everything but first valid entries removed. */
  ghost function Deduplicated(es: seq<Entry>): seq<Entry>
  {
    if es == [] then []
    else Deduplicated(es[..|es| - 1]) + if FirstOfItsID(es, |es| - 1) then [es[|es| - 1]] else []
  }

  /** A plain map with no notion of operation IDs. */
  function PlainRun(es: seq<Entry>): map<string, Bytes>
    requires forall e :: e in es ==> ValidEntry(e)
  {
    if es == [] then map[]
    else
      assert ValidEntry(es[|es| - 1]);
      Effect(PlainRun(es[..|es| - 1]), es[|es| - 1].payload.value)
  }

  lemma {:induction false} DeduplicatedIsValid(es: seq<Entry>)
    ensures forall e :: e in Deduplicated(es) ==> ValidEntry(e) && e in es
  {
    if es != [] {
      DeduplicatedIsValid(es[..|es| - 1]);
      assert es == es[..|es| - 1] + [es[|es| - 1]];
    }
  }

  lemma PlainRunAppend(es: seq<Entry>, e: Entry)
    requires (forall x :: x in es ==> ValidEntry(x)) && ValidEntry(e)
    ensures PlainRun(es + [e]) == Effect(PlainRun(es), e.payload.value)
  {
    assert (es + [e])[..|es|] == es;
  }

  /** The recorded operations are exactly the first entries of their IDs. */
  ghost predicate OperationsMatch(ops: map<string, Applied>, es: seq<Entry>)
  {
    && (forall i :: FirstOfItsID(es, i) ==>
          var m := es[i].payload.value;
          m.operationID in ops && ops[m.operationID] == Applied(m, es[i].index))
    && (forall id :: id in ops ==> exists i :: FirstOfItsID(es, i) && es[i].payload.value.operationID == id)
  }

  lemma FirstExists(es: seq<Entry>, i: int)
    requires 0 <= i < |es| && ValidEntry(es[i])
    ensures exists f :: 0 <= f <= i && FirstOfItsID(es, f) && SameOperation(es[f], es[i])
    decreases i
  {
    if FirstOfItsID(es, i) {
      assert SameOperation(es[i], es[i]);
    } else {
      var j :| 0 <= j < i && SameOperation(es[j], es[i]);
      FirstExists(es, j);
    }
  }

  lemma FirstOfPrefix(es: seq<Entry>, i: int)
    requires es != [] && i < |es| - 1
    ensures FirstOfItsID(es, i) <==> FirstOfItsID(es[..|es| - 1], i)
  {
  }

  /** After any entries: values are those of a plain map run over the first
      valid entry of each operation ID, and each recorded operation carries
      that entry's payload and index. */
  lemma {:induction false} RefinesDeduplicatedLog(es: seq<Entry>)
    ensures forall e :: e in Deduplicated(es) ==> ValidEntry(e)
    ensures Replay(EMPTY, es).values == PlainRun(Deduplicated(es))
    ensures OperationsMatch(Replay(EMPTY, es).operations, es)
  {
    DeduplicatedIsValid(es);
    if es != [] {
      var pre, last := es[..|es| - 1], es[|es| - 1];
      RefinesDeduplicatedLog(pre);
      DeduplicatedIsValid(pre);
      var ops := Replay(EMPTY, pre).operations;
      KnownIffNotFirst(es, ops);
      if FirstOfItsID(es, |es| - 1) { PlainRunAppend(Deduplicated(pre), last); }
      else { assert Deduplicated(es) == Deduplicated(pre); }
      OperationsExtend(es, ops);
    }
  }

  /** Entry i is the last effective one for key k. */
  ghost predicate LastFor(es: seq<Entry>, k: string, i: int)
  {
    && FirstOfItsID(es, i) && es[i].payload.value.key == k
    && forall j :: i < j < |es| && FirstOfItsID(es, j) ==> es[j].payload.value.key != k
  }

  /** A key is present exactly when the last first entry of an operation on it
      is a put, and then it holds that entry's value. */
  lemma {:induction false} ValueIsLastPut(es: seq<Entry>, k: string)
    ensures var values := Replay(EMPTY, es).values;
            && (k in values <==> exists i :: LastFor(es, k, i) && es[i].payload.value.kind == "put")
            && (forall i :: LastFor(es, k, i) && es[i].payload.value.kind == "put" ==> k in values && values[k] == es[i].payload.value.value)
  {
    if es != [] {
      var n, pre, last := |es| - 1, es[..|es| - 1], es[|es| - 1];
      ValueIsLastPut(pre, k);
      RefinesDeduplicatedLog(pre);
      KnownIffNotFirst(es, Replay(EMPTY, pre).operations);
      forall i | 0 <= i < n ensures FirstOfItsID(es, i) <==> FirstOfItsID(pre, i) { FirstOfPrefix(es, i); }
      if FirstOfItsID(es, n) && last.payload.value.key == k {
        assert LastFor(es, k, n) && forall i :: LastFor(es, k, i) ==> i == n;
      } else {
        forall i ensures LastFor(es, k, i) <==> LastFor(pre, k, i) { LastForStep(es, k, i); }
        if k in Replay(EMPTY, pre).values {
          var i :| LastFor(pre, k, i) && pre[i].payload.value.kind == "put";
          assert LastFor(es, k, i) && es[i].payload.value.kind == "put";
        }
      }
    }
  }

  lemma LastForStep(es: seq<Entry>, k: string, i: int)
    requires es != [] && !(FirstOfItsID(es, |es| - 1) && es[|es| - 1].payload.value.key == k)
    ensures LastFor(es, k, i) <==> LastFor(es[..|es| - 1], k, i)
  {
    forall j | j < |es| - 1 ensures FirstOfItsID(es, j) <==> FirstOfItsID(es[..|es| - 1], j) { FirstOfPrefix(es, j); }
  }

  lemma KnownIffNotFirst(es: seq<Entry>, ops: map<string, Applied>)
    requires es != [] && OperationsMatch(ops, es[..|es| - 1])
    ensures ValidEntry(es[|es| - 1]) ==>
              (es[|es| - 1].payload.value.operationID in ops <==> !FirstOfItsID(es, |es| - 1))
  {
    var pre, last := es[..|es| - 1], es[|es| - 1];
    if ValidEntry(last) {
      if last.payload.value.operationID in ops {
        var i :| FirstOfItsID(pre, i) && pre[i].payload.value.operationID == last.payload.value.operationID;
        assert SameOperation(es[i], last);
      } else if !FirstOfItsID(es, |es| - 1) {
        var j :| 0 <= j < |es| - 1 && SameOperation(es[j], last);
        FirstExists(pre, j);
        assert false;
      }
    }
  }

  lemma OperationsExtend(es: seq<Entry>, ops: map<string, Applied>)
    requires es != [] && OperationsMatch(ops, es[..|es| - 1])
    ensures OperationsMatch(ApplyEntry(State(map[], ops), es[|es| - 1]).operations, es)
  {
    var pre, last := es[..|es| - 1], es[|es| - 1];
    var ops' := ApplyEntry(State(map[], ops), last).operations;
    KnownIffNotFirst(es, ops);
    forall i | FirstOfItsID(es, i)
      ensures var m := es[i].payload.value; m.operationID in ops' && ops'[m.operationID] == Applied(m, es[i].index)
    {
      if i < |es| - 1 {
        FirstOfPrefix(es, i);
        assert FirstOfItsID(pre, i);
        if FirstOfItsID(es, |es| - 1) { assert !SameOperation(es[i], last); }
      }
    }
    forall id | id in ops' ensures exists i :: FirstOfItsID(es, i) && es[i].payload.value.operationID == id {
      if id in ops {
        var i :| FirstOfItsID(pre, i) && pre[i].payload.value.operationID == id;
        FirstOfPrefix(es, i);
        assert FirstOfItsID(es, i);
      } else {
        assert FirstOfItsID(es, |es| - 1);
      }
    }
  }

  /** A reused ID with a different payload is answered with an error and
      changes nothing; with the same payload it is answered with the first index. */
  lemma ReusedIDChangesNothing(es: seq<Entry>, i: int, e: Entry)
    requires FirstOfItsID(es, i) && SameOperation(es[i], e)
    ensures ApplyEntry(Replay(EMPTY, es), e) == Replay(EMPTY, es)
    ensures ResponseTo(Replay(EMPTY, es), e) ==
            if es[i].payload.value != e.payload.value then IDReused else Result(e.payload.value.operationID, es[i].index, true)
  {
    RefinesDeduplicatedLog(es);
  }

  // ----- re-delivery -----

  lemma {:induction false} ReplayConcat(st: State, a: seq<Entry>, b: seq<Entry>)
    ensures Replay(st, a + b) == Replay(Replay(st, a), b)
  {
    if b == [] {
      assert a + b == a;
    } else {
      assert (a + b)[..|a + b| - 1] == a + b[..|b| - 1];
      ReplayConcat(st, a, b[..|b| - 1]);
    }
  }

  /** Applying again, in any order and any number of times, entries that were
      already applied changes neither values nor operations. */
  lemma {:induction false} RedeliveryIsHarmless(es: seq<Entry>, again: seq<Entry>)
    requires forall e :: e in again ==> e in es
    ensures Replay(Replay(EMPTY, es), again) == Replay(EMPTY, es)
  {
    if again != [] {
      var e := again[|again| - 1];
      assert forall x :: x in again[..|again| - 1] ==> x in again;
      RedeliveryIsHarmless(es, again[..|again| - 1]);
      assert e in again;
      var i :| 0 <= i < |es| && es[i] == e;
      if ValidEntry(e) {
        FirstExists(es, i);
        var f :| 0 <= f <= i && FirstOfItsID(es, f) && SameOperation(es[f], es[i]);
        ReusedIDChangesNothing(es, f, e);
      }
    }
  }

  // ----- when two prefixes of a log leave the same state -----

  /** Entries r to k - 1 are all invalid or repeats of an earlier operation. */
  ghost predicate NoFirst(es: seq<Entry>, r: nat, k: nat) { forall i :: r <= i < k ==> !FirstOfItsID(es, i) }

  /** Re-delivering the first k entries would change nothing: they are all in. */
  predicate Contains(st: State, es: seq<Entry>, k: nat)
    requires k <= |es|
  {
    Replay(st, es[..k]) == st
  }

  lemma FirstInPrefix(es: seq<Entry>, k: nat, i: nat)
    requires i < k <= |es|
    ensures FirstOfItsID(es[..k], i) <==> FirstOfItsID(es, i)
  {
  }

  lemma RepeatIsNoOp(es: seq<Entry>, k: nat)
    requires k < |es| && !FirstOfItsID(es, k)
    ensures Replay(EMPTY, es[..k + 1]) == Replay(EMPTY, es[..k])
  {
    assert es[..k + 1][..k] == es[..k];
    RefinesDeduplicatedLog(es[..k]);
    FirstInPrefix(es, k + 1, k);
    KnownIffNotFirst(es[..k + 1], Replay(EMPTY, es[..k]).operations);
  }

  lemma {:induction false} RepeatsChangeNothing(es: seq<Entry>, r: nat, k: nat)
    requires r <= k <= |es| && NoFirst(es, r, k)
    ensures Replay(EMPTY, es[..k]) == Replay(EMPTY, es[..r])
    decreases k
  {
    if r < k {
      RepeatIsNoOp(es, k - 1);
      RepeatsChangeNothing(es, r, k - 1);
    }
  }

  lemma FirstIsRecorded(es: seq<Entry>, r: nat, k: nat, i: nat)
    requires r <= i < k <= |es| && FirstOfItsID(es, i)
    ensures es[i].payload.value.operationID in Replay(EMPTY, es[..k]).operations
    ensures es[i].payload.value.operationID !in Replay(EMPTY, es[..r]).operations
  {
    RefinesDeduplicatedLog(es[..k]);
    FirstInPrefix(es, k, i);
    RefinesDeduplicatedLog(es[..r]);
    assert forall j :: FirstOfItsID(es[..r], j) ==> !SameOperation(es[j], es[i]);
  }

  /** Two prefixes leave the same state exactly when everything between them
      is invalid or a repeat. */
  lemma SameStateIff(es: seq<Entry>, r: nat, k: nat)
    requires r <= k <= |es|
    ensures Replay(EMPTY, es[..r]) == Replay(EMPTY, es[..k]) <==> NoFirst(es, r, k)
  {
    if NoFirst(es, r, k) {
      RepeatsChangeNothing(es, r, k);
    } else {
      var i :| r <= i < k && FirstOfItsID(es, i);
      FirstIsRecorded(es, r, k, i);
    }
  }

  /** The state after r entries contains the first k exactly when no entry
      from r to k - 1 is the first of its operation. */
  lemma ContainsIff(es: seq<Entry>, r: nat, k: nat)
    requires r <= |es| && k <= |es|
    ensures Contains(Replay(EMPTY, es[..r]), es, k) <==> NoFirst(es, r, k)
  {
    if k <= r {
      RedeliveryIsHarmless(es[..r], es[..k]);
    } else {
      assert es[..k] == es[..r] + es[r..k];
      ReplayConcat(Replay(EMPTY, es[..r]), es[..r], es[r..k]);
      RedeliveryIsHarmless(es[..r], es[..r]);
      ReplayConcat(EMPTY, es[..r], es[r..k]);
      SameStateIff(es, r, k);
    }
  }
}
