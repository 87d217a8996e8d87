/** The recent-experience cache of the bolt store against the cursor scan it
    replaces. */
module RecentCache {
  import opened Options

  const CACHE_LIMIT := 128
  const DEFAULT_LIMIT := 50

  datatype Row = Row(id: nat, createdAt: int, body: string)

  /** The experiences bucket; its keys sort as the row IDs do. */
  type Rows = map<nat, Row>

  ghost predicate Keyed(rows: Rows) { forall id :: id in rows ==> rows[id].id == id }

  /** The cursor from the last row below ID `bound` backwards, `limit` rows at most. */
  function Scan(rows: Rows, bound: nat, limit: nat): seq<Row>
    decreases bound
  {
    if bound == 0 || limit == 0 then []
    else if bound - 1 in rows then [rows[bound - 1]] + Scan(rows, bound - 1, limit - 1)
    else Scan(rows, bound - 1, limit)
  }

  ghost predicate Descending(s: seq<Row>) { forall i, j :: 0 <= i < j < |s| ==> s[i].id > s[j].id }

  /** Sorted insertion, replacing a row with the same ID. */
  function Inserted(s: seq<Row>, e: Row): seq<Row>
  {
    if s == [] || s[0].id < e.id then [e] + s
    else if s[0].id == e.id then [e] + s[1..]
    else [s[0]] + Inserted(s[1..], e)
  }

  function Truncated(s: seq<Row>, limit: nat): seq<Row> { if |s| > limit then s[..limit] else s }

  function Kept(s: seq<Row>, cutoff: int): seq<Row>
  {
    if s == [] then [] else (if s[0].createdAt < cutoff then [] else [s[0]]) + Kept(s[1..], cutoff)
  }

  function KeptRows(rows: Rows, cutoff: int): Rows
  {
    map id | id in rows && rows[id].createdAt >= cutoff :: rows[id]
  }

  // ----- what the scan returns -----

  lemma {:induction false} ScanMembers(rows: Rows, bound: nat, limit: nat)
    requires Keyed(rows)
    ensures |Scan(rows, bound, limit)| <= limit
    ensures forall r :: r in Scan(rows, bound, limit) ==> r.id < bound && r.id in rows && rows[r.id] == r
    decreases bound
  {
    if bound > 0 && limit > 0 { ScanMembers(rows, bound - 1, if bound - 1 in rows then limit - 1 else limit); }
  }

  lemma ConsDescends(x: Row, s: seq<Row>)
    requires Descending(s) && forall r :: r in s ==> r.id < x.id
    ensures Descending([x] + s)
  {
    forall i, j | 0 <= i < j < |[x] + s| ensures ([x] + s)[i].id > ([x] + s)[j].id {
      assert s[j - 1] in s;
    }
  }

  lemma {:induction false} ScanDescends(rows: Rows, bound: nat, limit: nat)
    requires Keyed(rows)
    ensures Descending(Scan(rows, bound, limit))
    decreases bound
  {
    if bound > 0 && limit > 0 {
      if bound - 1 in rows {
        var rest := Scan(rows, bound - 1, limit - 1);
        ScanMembers(rows, bound - 1, limit - 1);
        ScanDescends(rows, bound - 1, limit - 1);
        ConsDescends(rows[bound - 1], rest);
      } else {
        ScanDescends(rows, bound - 1, limit);
      }
    }
  }

  lemma {:induction false} ScanLeavesOut(rows: Rows, bound: nat, limit: nat, id: nat)
    requires Keyed(rows) && id in rows && id < bound && rows[id] !in Scan(rows, bound, limit)
    ensures |Scan(rows, bound, limit)| == limit && forall r :: r in Scan(rows, bound, limit) ==> id < r.id
    decreases bound
  {
    if limit > 0 {
      if bound - 1 in rows {
        var rest := Scan(rows, bound - 1, limit - 1);
        assert Scan(rows, bound, limit)[0] == rows[bound - 1];
        assert rows[id] !in rest;
        ScanLeavesOut(rows, bound - 1, limit - 1, id);
      } else {
        ScanLeavesOut(rows, bound - 1, limit, id);
      }
    }
  }

  /** The scan is the newest rows: strictly descending, all of them rows below
      the bound, and a row it leaves out is older than every row it returns and
      left out only because the limit was reached. */
  lemma ScanIsNewest(rows: Rows, bound: nat, limit: nat)
    requires Keyed(rows)
    ensures var s := Scan(rows, bound, limit);
            && Descending(s) && |s| <= limit
            && (forall r :: r in s ==> r.id < bound && r.id in rows && rows[r.id] == r)
            && (forall id :: id in rows && id < bound && rows[id] !in s ==> |s| == limit && forall r :: r in s ==> id < r.id)
  {
    ScanMembers(rows, bound, limit);
    ScanDescends(rows, bound, limit);
    var s := Scan(rows, bound, limit);
    forall id | id in rows && id < bound && rows[id] !in s ensures |s| == limit && forall r :: r in s ==> id < r.id {
      ScanLeavesOut(rows, bound, limit, id);
    }
  }

  /** A shorter limit returns a prefix. */
  lemma {:induction false} ScanPrefix(rows: Rows, bound: nat, limit: nat, fewer: nat)
    requires fewer <= limit
    ensures Scan(rows, bound, fewer) == Truncated(Scan(rows, bound, limit), fewer)
    decreases bound
  {
    if bound > 0 && limit > 0 {
      if bound - 1 in rows {
        if fewer > 0 { ScanPrefix(rows, bound - 1, limit - 1, fewer - 1); }
      } else {
        ScanPrefix(rows, bound - 1, limit, fewer);
      }
    }
  }

  lemma {:induction false} ScanFrame(rows: Rows, other: Rows, bound: nat, limit: nat)
    requires forall id :: id < bound ==> (id in rows <==> id in other) && (id in rows ==> rows[id] == other[id])
    ensures Scan(rows, bound, limit) == Scan(other, bound, limit)
    decreases bound
  {
    if bound > 0 && limit > 0 { ScanFrame(rows, other, bound - 1, if bound - 1 in rows then limit - 1 else limit); }
  }

  lemma {:induction false} ScanPastBound(rows: Rows, bound: nat, more: nat, limit: nat)
    requires bound <= more && forall id :: id in rows ==> id < bound
    ensures Scan(rows, more, limit) == Scan(rows, bound, limit)
    decreases more
  {
    if bound < more { ScanPastBound(rows, bound, more - 1, limit); }
  }

  // ----- insertion -----

  lemma TruncatedCons(x: Row, s: seq<Row>, limit: nat)
    requires limit > 0
    ensures Truncated([x] + s, limit) == [x] + Truncated(s, limit - 1)
  {
  }

  /** Inserting any new row, in whatever order rows arrive, keeps the cache the
      newest `limit` rows. */
  lemma {:induction false} InsertKeepsNewest(rows: Rows, e: Row, bound: nat, limit: nat)
    requires Keyed(rows) && e.id !in rows && e.id < bound
    ensures Truncated(Inserted(Scan(rows, bound, limit), e), limit) == Scan(rows[e.id := e], bound, limit)
    decreases bound
  {
    if limit > 0 {
      var s := Scan(rows, bound - 1, limit);
      if e.id == bound - 1 {
        ScanFrame(rows, rows[e.id := e], bound - 1, limit - 1);
        ScanPrefix(rows, bound - 1, limit, limit - 1);
        ScanMembers(rows, bound - 1, limit);
        assert s != [] ==> s[0] in s;
        TruncatedCons(e, s, limit);
      } else if bound - 1 in rows {
        InsertKeepsNewest(rows, e, bound - 1, limit - 1);
        var rest := Scan(rows, bound - 1, limit - 1);
        assert ([rows[bound - 1]] + rest)[1..] == rest;
        TruncatedCons(rows[bound - 1], Inserted(rest, e), limit);
      } else {
        InsertKeepsNewest(rows, e, bound - 1, limit);
      }
    }
  }

  // ----- pruning -----

  /** Every row pruning would leave is among the newest `limit`. */
  ghost predicate SurvivorsWithin(rows: Rows, cutoff: int, bound: nat, limit: nat)
  {
    forall id :: id in rows && id < bound && rows[id].createdAt >= cutoff ==> rows[id] in Scan(rows, bound, limit)
  }

  ghost predicate AllSurvive(s: seq<Row>, cutoff: int) { forall r :: r in s ==> r.createdAt >= cutoff }

  lemma SurvivorsStep(rows: Rows, cutoff: int, bound: nat, limit: nat)
    requires Keyed(rows) && bound > 0 && limit > 0 && bound - 1 in rows
    ensures SurvivorsWithin(rows, cutoff, bound, limit) <==> SurvivorsWithin(rows, cutoff, bound - 1, limit - 1)
  {
    var rest := Scan(rows, bound - 1, limit - 1);
    var s := [rows[bound - 1]] + rest;
    assert s == Scan(rows, bound, limit);
    forall id | id in rows && id < bound - 1 ensures rows[id] in s <==> rows[id] in rest {
      assert rows[id] != rows[bound - 1];
    }
    assert s[0] in s;
  }

  lemma AllSurviveStep(x: Row, s: seq<Row>, cutoff: int)
    ensures AllSurvive([x] + s, cutoff) <==> x.createdAt >= cutoff && AllSurvive(s, cutoff)
  {
    assert ([x] + s)[0] in [x] + s;
  }

  lemma {:induction false} KeptShort(s: seq<Row>, cutoff: int)
    ensures |Kept(s, cutoff)| <= |s|
  {
    if s != [] { KeptShort(s[1..], cutoff); }
  }

  lemma KeptCons(x: Row, s: seq<Row>, cutoff: int)
    ensures Kept([x] + s, cutoff) == (if x.createdAt < cutoff then [] else [x]) + Kept(s, cutoff)
  {
    assert ([x] + s)[1..] == s;
  }

  lemma ConsInjective(x: Row, s: seq<Row>, t: seq<Row>)
    ensures [x] + s == [x] + t <==> s == t
  {
    assert ([x] + s)[1..] == s && ([x] + t)[1..] == t;
  }

  /** Filtering the newest `few` of the rows against scanning `limit` of the
      rows that survive. */
  lemma {:induction false} KeptEqualsScanIff(rows: Rows, cutoff: int, bound: nat, few: nat, limit: nat)
    requires Keyed(rows) && few <= limit
    ensures Kept(Scan(rows, bound, few), cutoff) == Scan(KeptRows(rows, cutoff), bound, limit)
       <==> SurvivorsWithin(rows, cutoff, bound, few) || (few == limit && AllSurvive(Scan(rows, bound, few), cutoff))
    decreases bound
  {
    if bound > 0 {
      var kept := KeptRows(rows, cutoff);
      if bound - 1 !in rows {
        KeptEqualsScanIff(rows, cutoff, bound - 1, few, limit);
        assert Scan(rows, bound, few) == Scan(rows, bound - 1, few);
        assert Scan(kept, bound, limit) == Scan(kept, bound - 1, limit);
      } else if few == 0 {
        FewZero(rows, cutoff, bound, limit);
      } else {
        var x, rest := rows[bound - 1], Scan(rows, bound - 1, few - 1);
        SurvivorsStep(rows, cutoff, bound, few);
        AllSurviveStep(x, rest, cutoff);
        KeptCons(x, rest, cutoff);
        if x.createdAt < cutoff {
          KeptEqualsScanIff(rows, cutoff, bound - 1, few - 1, limit);
          assert Scan(kept, bound, limit) == Scan(kept, bound - 1, limit);
        } else {
          KeptEqualsScanIff(rows, cutoff, bound - 1, few - 1, limit - 1);
          ConsInjective(x, Kept(rest, cutoff), Scan(kept, bound - 1, limit - 1));
        }
      }
    }
  }

  lemma {:induction false} FewZero(rows: Rows, cutoff: int, bound: nat, limit: nat)
    requires Keyed(rows)
    ensures Scan(KeptRows(rows, cutoff), bound, limit) == [] <==> SurvivorsWithin(rows, cutoff, bound, 0) || limit == 0
    decreases bound
  {
    if bound > 0 && limit > 0 {
      FewZero(rows, cutoff, bound - 1, limit);
      if bound - 1 in rows && rows[bound - 1].createdAt >= cutoff {
        assert rows[bound - 1] !in Scan(rows, bound, 0);
      }
    }
  }

  /** Pruning the database and filtering the cache agree exactly when every
      cached row survives or no uncached row does. */
  lemma PruneAgreesIff(rows: Rows, cutoff: int, bound: nat)
    requires Keyed(rows)
    ensures Kept(Scan(rows, bound, CACHE_LIMIT), cutoff) == Scan(KeptRows(rows, cutoff), bound, CACHE_LIMIT)
       <==> AllSurvive(Scan(rows, bound, CACHE_LIMIT), cutoff) || SurvivorsWithin(rows, cutoff, bound, CACHE_LIMIT)
  {
    KeptEqualsScanIff(rows, cutoff, bound, CACHE_LIMIT, CACHE_LIMIT);
  }

  lemma KeptRowsStay(rows: Rows, cutoff: int, sequence: nat)
    requires Keyed(rows) && forall id :: id in rows ==> 0 < id <= sequence
    ensures var kept := KeptRows(rows, cutoff);
            && Keyed(kept) && (forall id :: id in kept ==> 0 < id <= sequence)
            && (forall id :: id in kept <==> id in rows && rows[id].createdAt >= cutoff) && (forall id :: id in kept ==> kept[id] == rows[id])
  {
  }

  ghost predicate CreatedInOrder(rows: Rows)
  {
    forall a, b :: a in rows && b in rows && a < b ==> rows[a].createdAt <= rows[b].createdAt
  }

  /** Rows created in ID order, as local recording creates them, prune safely. */
  lemma OrderedRowsPruneSafely(rows: Rows, cutoff: int, bound: nat)
    requires Keyed(rows) && CreatedInOrder(rows)
    ensures Kept(Scan(rows, bound, CACHE_LIMIT), cutoff) == Scan(KeptRows(rows, cutoff), bound, CACHE_LIMIT)
  {
    PruneAgreesIff(rows, cutoff, bound);
    ScanIsNewest(rows, bound, CACHE_LIMIT);
    var s := Scan(rows, bound, CACHE_LIMIT);
    if r :| r in s && r.createdAt < cutoff {
      forall id | id in rows && id < bound && rows[id].createdAt >= cutoff ensures rows[id] in s {
        assert id > r.id ==> rows[id].createdAt >= rows[r.id].createdAt;
        assert id < r.id ==> rows[id].createdAt <= rows[r.id].createdAt;
      }
    }
  }

  /** `n` rows with IDs 1 to n; row 1 is newer than all the others, as after a
      merge of an old experience. */
  function OneNewRow(n: nat): (rows: Rows)
    ensures forall id :: id in rows <==> 1 <= id <= n
    ensures forall id :: id in rows ==> rows[id] == Row(id, if id == 1 then 1 else 0, "")
  {
    if n == 0 then map[] else OneNewRow(n - 1)[n := Row(n, if n == 1 then 1 else 0, "")]
  }

  /** Without that order the cache can lose sight of a surviving row. */
  lemma PruneCanLeaveCacheShort()
    ensures var rows := OneNewRow(CACHE_LIMIT + 1);
            Kept(Scan(rows, CACHE_LIMIT + 2, CACHE_LIMIT), 1) != Scan(KeptRows(rows, 1), CACHE_LIMIT + 2, CACHE_LIMIT)
  {
    var n := CACHE_LIMIT;
    var rows := OneNewRow(n + 1);
    OneNewRowScan(n + 1, n + 2, n);
    ScanIsNewest(rows, n + 2, n);
    var s := Scan(rows, n + 2, n);
    assert s[0] in s;
    assert rows[1] !in s;
    PruneAgreesIff(rows, 1, n + 2);
  }

  lemma {:induction false} OneNewRowScan(n: nat, bound: nat, limit: nat)
    requires limit + 2 <= bound <= n + 1
    ensures |Scan(OneNewRow(n), bound, limit)| == limit
    ensures forall r :: r in Scan(OneNewRow(n), bound, limit) ==> r.id > 1 && r.createdAt == 0
    decreases bound
  {
    if limit > 0 { OneNewRowScan(n, bound - 1, limit - 1); }
  }

  // ----- the store's methods -----

  lemma {:induction false} InsertedAt(s: seq<Row>, e: Row, i: nat)
    requires i <= |s| && (forall j :: 0 <= j < i ==> s[j].id > e.id) && (i < |s| ==> s[i].id <= e.id)
    ensures Inserted(s, e) == if i < |s| && s[i].id == e.id then s[i := e] else s[..i] + [e] + s[i..]
  {
    if i > 0 {
      InsertedAt(s[1..], e, i - 1);
      assert s == [s[0]] + s[1..];
    }
  }

  lemma {:induction false} KeptAppend(s: seq<Row>, x: Row, cutoff: int)
    ensures Kept(s + [x], cutoff) == Kept(s, cutoff) + (if x.createdAt < cutoff then [] else [x])
  {
    if s == [] {
      assert [] + [x] == [x];
    } else {
      KeptAppend(s[1..], x, cutoff);
      assert (s + [x])[1..] == s[1..] + [x];
    }
  }

  lemma {:induction false} KeptMembers(s: seq<Row>, cutoff: int)
    ensures forall r :: r in Kept(s, cutoff) <==> r in s && r.createdAt >= cutoff
  {
    if s != [] {
      KeptMembers(s[1..], cutoff);
      assert s == [s[0]] + s[1..];
    }
  }

  /** Binary search for the first row whose ID is at most `id`. */
  method SearchIndex(s: seq<Row>, id: nat) returns (i: nat)
    requires Descending(s)
    ensures i <= |s|
    ensures forall j :: 0 <= j < i ==> s[j].id > id
    ensures forall j :: i <= j < |s| ==> s[j].id <= id
  {
    i := 0;
    var k := |s|;
    while i < k
      invariant 0 <= i <= k <= |s|
      invariant forall j :: 0 <= j < i ==> s[j].id > id
      invariant forall j :: k <= j < |s| ==> s[j].id <= id
    {
      var mid := (i + k) / 2;
      if s[mid].id <= id { k := mid; } else { i := mid + 1; }
    }
  }

  method CursorScan(rows: Rows, bound: nat, limit: nat) returns (out: seq<Row>)
    ensures out == Scan(rows, bound, limit)
  {
    out := [];
    var below := bound;
    while below > 0 && |out| < limit
      invariant |out| <= limit
      invariant out + Scan(rows, below, limit - |out|) == Scan(rows, bound, limit)
    {
      below := below - 1;
      if below in rows { out := out + [rows[below]]; }
    }
  }

  class ExperienceStore {
    var rows: Rows
    var sequence: nat
    var recent: seq<Row>
    var loaded: bool

    ghost predicate Valid()
      reads this
    {
      && Keyed(rows) && (forall id :: id in rows ==> 0 < id <= sequence)
      && (loaded ==> recent == Scan(rows, sequence + 1, CACHE_LIMIT))
    }

    constructor ()
      ensures Valid() && rows == map[] && !loaded
    {
      rows, sequence, recent, loaded := map[], 0, [], false;
    }

    method LoadRecentExperiences()
      requires Valid()
      modifies this`recent, this`loaded
      ensures Valid() && loaded
    {
      recent := CursorScan(rows, sequence + 1, CACHE_LIMIT);
      loaded := true;
    }

    method CachedExperiences(limit: nat) returns (out: seq<Row>, ok: bool)
      ensures ok <==> limit <= 128 && loaded
      ensures ok ==> out == Truncated(recent, limit)
    {
      if limit > CACHE_LIMIT || !loaded { return [], false; }
      return if limit < |recent| then recent[..limit] else recent, true;
    }

    /** Cache or not, the answer is the cursor scan's. */
    method Experiences(limit: int) returns (out: seq<Row>)
      requires Valid()
      ensures out == Scan(rows, sequence + 1, if limit <= 0 then 50 else limit)
    {
      var wanted := if limit <= 0 then DEFAULT_LIMIT else limit;
      var cached, ok := CachedExperiences(wanted);
      if ok {
        ScanPrefix(rows, sequence + 1, CACHE_LIMIT, wanted);
        return cached;
      }
      out := CursorScan(rows, sequence + 1, wanted);
    }

    method CacheRecentExperience(e: Row)
      requires Descending(recent) && |recent| <= CACHE_LIMIT
      modifies this`recent
      ensures recent == if !loaded || e.id == 0 then old(recent) else Truncated(Inserted(old(recent), e), CACHE_LIMIT)
    {
      if !loaded || e.id == 0 { return; }
      var index := SearchIndex(recent, e.id);
      InsertedAt(recent, e, index);
      if index < |recent| && recent[index].id == e.id {
        recent := recent[index := e];
        return;
      }
      recent := recent[..index] + [e] + recent[index..];
      if |recent| > CACHE_LIMIT { recent := recent[..CACHE_LIMIT]; }
    }

    /** Recording or merging a new experience: the bucket gains a row under the
        next ID and the cache stays the newest rows. */
    method Record(createdAt: int, body: string) returns (e: Row)
      requires Valid()
      modifies this
      ensures Valid() && loaded == old(loaded) && sequence == old(sequence) + 1
      ensures e == Row(sequence, createdAt, body) && rows == old(rows)[e.id := e]
    {
      sequence := sequence + 1;
      e := Row(sequence, createdAt, body);
      if loaded {
        ScanDescends(rows, sequence, CACHE_LIMIT);
        ScanMembers(rows, sequence, CACHE_LIMIT);
        ScanPastBound(rows, sequence, sequence + 1, CACHE_LIMIT);
        InsertKeepsNewest(rows, e, sequence + 1, CACHE_LIMIT);
      }
      rows := rows[e.id := e];
      if loaded { CacheRecentExperience(e); }
    }

    method PruneRecentExperienceCache(cutoff: int)
      modifies this`recent
      ensures recent == if loaded then Kept(old(recent), cutoff) else old(recent)
      ensures loaded ==> forall r :: r in recent <==> r in old(recent) && r.createdAt >= cutoff
    {
      if !loaded { return; }
      var kept: seq<Row> := [];
      for i := 0 to |recent|
        invariant recent == old(recent)
        invariant kept == Kept(recent[..i], cutoff)
      {
        KeptAppend(recent[..i], recent[i], cutoff);
        assert recent[..i + 1] == recent[..i] + [recent[i]];
        if recent[i].createdAt >= cutoff { kept := kept + [recent[i]]; }
      }
      assert recent[..|recent|] == recent;
      KeptMembers(recent, cutoff);
      recent := kept;
    }

    /** Pruning keeps the cache exact precisely under the condition of
        PruneAgreesIff. */
    method Prune(cutoff: int)
      requires Valid()
      modifies this
      ensures rows == KeptRows(old(rows), cutoff) && sequence == old(sequence) && loaded == old(loaded)
      ensures forall id :: id in rows <==> id in old(rows) && old(rows)[id].createdAt >= cutoff
      ensures forall id :: id in rows ==> rows[id] == old(rows)[id]
      ensures Valid() <==> !old(loaded) || AllSurvive(old(recent), cutoff) || SurvivorsWithin(old(rows), cutoff, sequence + 1, CACHE_LIMIT)
    {
      PruneAgreesIff(rows, cutoff, sequence + 1);
      KeptRowsStay(rows, cutoff, sequence);
      rows := KeptRows(rows, cutoff);
      PruneRecentExperienceCache(cutoff);
      assert Valid() <==> (loaded ==> recent == Scan(rows, sequence + 1, CACHE_LIMIT));
    }
  }

  // ----- writers and pruners interleaved -----

  /** `pending` rows are committed and their writers have yet to cache their
      own copies; `prunes` are cutoffs whose rows are deleted and whose pruner
      has yet to filter the cache. `shown` is what the cache has been given and
      not been told to drop. */
  datatype Store = Store(rows: Rows, sequence: nat, pending: Rows, prunes: map<nat, int>, shown: Rows, recent: seq<Row>)

  datatype Action =
    | Commit(createdAt: int, body: string)
    | CacheRow(id: nat)
    | DeleteRows(prune: nat, cutoff: int)
    | FilterCache(prune: nat)

  predicate Enabled(s: Store, a: Action)
  {
    match a
    case Commit(_, _) => true
    case CacheRow(id) => id in s.pending
    case DeleteRows(k, _) => k !in s.prunes
    case FilterCache(k) => k in s.prunes
  }

  function Step(s: Store, a: Action): Store
    requires Enabled(s, a)
  {
    match a
    case Commit(createdAt, body) =>
      var e := Row(s.sequence + 1, createdAt, body);
      s.(rows := s.rows[e.id := e], sequence := e.id, pending := s.pending[e.id := e])
    case CacheRow(id) =>
      var e := s.pending[id];
      s.(pending := s.pending - {id}, shown := s.shown[id := e], recent := Truncated(Inserted(s.recent, e), CACHE_LIMIT))
    case DeleteRows(k, cutoff) => s.(rows := KeptRows(s.rows, cutoff), prunes := s.prunes[k := cutoff])
    case FilterCache(k) =>
      s.(prunes := s.prunes - {k}, shown := KeptRows(s.shown, s.prunes[k]), recent := Kept(s.recent, s.prunes[k]))
  }

  ghost predicate Same(a: Rows, b: Rows) { forall id :: id in a && id in b ==> a[id] == b[id] }

  ghost predicate Numbered(rows: Rows, sequence: nat) { Keyed(rows) && forall id :: id in rows ==> 0 < id <= sequence }

  ghost predicate Shape(s: Store)
  {
    && Numbered(s.rows, s.sequence) && Numbered(s.pending, s.sequence) && Numbered(s.shown, s.sequence)
    && Same(s.rows, s.pending) && Same(s.rows, s.shown) && s.pending.Keys !! s.shown.Keys
  }

  lemma StepKeepsShape(s: Store, a: Action)
    requires Shape(s) && Enabled(s, a)
    ensures Shape(Step(s, a))
  {
  }

  /** The cache is the newest of the rows it was given. */
  ghost predicate Mirrors(s: Store) { s.recent == Scan(s.shown, s.sequence + 1, CACHE_LIMIT) }

  /** Filtering leaves no gap: every cached row survives, or no shown row
      beyond the cache does. */
  ghost predicate NoGap(s: Store, cutoff: int)
  {
    AllSurvive(s.recent, cutoff) || SurvivorsWithin(s.shown, cutoff, s.sequence + 1, CACHE_LIMIT)
  }

  /** In whatever order writers reach the cache it stays the newest of the
      rows given; a pruner's filter keeps it so exactly when it leaves no gap. */
  lemma MirrorStepIff(s: Store, a: Action)
    requires Shape(s) && Mirrors(s) && Enabled(s, a)
    ensures Mirrors(Step(s, a)) <==> (a.FilterCache? ==> NoGap(s, s.prunes[a.prune]))
  {
    match a
    case Commit(_, _) => ScanPastBound(s.shown, s.sequence + 1, s.sequence + 2, CACHE_LIMIT);
    case CacheRow(id) => InsertKeepsNewest(s.shown, s.pending[id], s.sequence + 1, CACHE_LIMIT);
    case DeleteRows(_, _) =>
    case FilterCache(k) => PruneAgreesIff(s.shown, s.prunes[k], s.sequence + 1);
  }

  /** Some prune in flight, other than `except`, will still drop the row. */
  ghost predicate Doomed(s: Store, r: Row, except: Option<nat>)
  {
    exists k :: k in s.prunes && Some(k) != except && r.createdAt < s.prunes[k]
  }

  /** Bucket and cache differ only by work in flight: a row not shown is still
      with its writer; a row shown or with its writer that is not in the bucket
      will be dropped by a pruner. */
  ghost predicate Tidy(s: Store)
  {
    && (forall id :: id in s.rows && id !in s.shown ==> id in s.pending)
    && (forall id :: id in s.shown && id !in s.rows ==> Doomed(s, s.shown[id], None))
    && (forall id :: id in s.pending && id !in s.rows ==> Doomed(s, s.pending[id], None))
  }

  /** No writer still holds a row this prune deleted, and no row the filter
      will drop is in the bucket. */
  ghost predicate NothingStale(s: Store, k: nat)
    requires k in s.prunes
  {
    && (forall id :: id in s.pending && id !in s.rows ==> Doomed(s, s.pending[id], Some(k)))
    && (forall id :: id in s.shown && s.shown[id].createdAt < s.prunes[k] ==> id !in s.rows)
  }

  lemma DoomedStays(s: Store, s': Store, r: Row)
    requires Doomed(s, r, None) && s.prunes.Keys <= s'.prunes.Keys && forall k :: k in s.prunes ==> s'.prunes[k] == s.prunes[k]
    ensures Doomed(s', r, None)
  {
    var k :| k in s.prunes && r.createdAt < s.prunes[k];
    assert k in s'.prunes;
  }

  lemma WriterKeepsTidy(s: Store, a: Action)
    requires Shape(s) && Tidy(s) && Enabled(s, a) && (a.Commit? || a.CacheRow?)
    ensures Tidy(Step(s, a))
  {
    var s' := Step(s, a);
    forall id | id in s'.shown && id !in s'.rows ensures Doomed(s', s'.shown[id], None) { DoomedStays(s, s', s'.shown[id]); }
    forall id | id in s'.pending && id !in s'.rows ensures Doomed(s', s'.pending[id], None) { DoomedStays(s, s', s'.pending[id]); }
  }

  lemma DeletedIsDoomed(s: Store, k: nat, cutoff: int, r: Row)
    requires k !in s.prunes && (r.createdAt < cutoff || Doomed(s, r, None))
    ensures Doomed(Step(s, DeleteRows(k, cutoff)), r, None)
  {
    var s' := Step(s, DeleteRows(k, cutoff));
    if r.createdAt < cutoff { assert k in s'.prunes && r.createdAt < s'.prunes[k]; } else { DoomedStays(s, s', r); }
  }

  lemma DeleteKeepsTidy(s: Store, k: nat, cutoff: int)
    requires Shape(s) && Tidy(s) && k !in s.prunes
    ensures Tidy(Step(s, DeleteRows(k, cutoff)))
  {
    var s' := Step(s, DeleteRows(k, cutoff));
    forall id | id in s'.shown && id !in s'.rows ensures Doomed(s', s'.shown[id], None) { DeletedIsDoomed(s, k, cutoff, s.shown[id]); }
    forall id | id in s'.pending && id !in s'.rows ensures Doomed(s', s'.pending[id], None) { DeletedIsDoomed(s, k, cutoff, s.pending[id]); }
  }

  lemma DoomedByOthers(s: Store, k: nat, r: Row)
    requires k in s.prunes
    ensures Doomed(Step(s, FilterCache(k)), r, None) <==> Doomed(s, r, Some(k))
    ensures Doomed(s, r, None) && r.createdAt >= s.prunes[k] ==> Doomed(s, r, Some(k))
  {
    var s' := Step(s, FilterCache(k));
    if j :| j in s.prunes && Some(j) != Some(k) && r.createdAt < s.prunes[j] { assert j in s'.prunes; }
    if j :| j in s'.prunes && r.createdAt < s'.prunes[j] { assert j in s.prunes && Some(j) != Some(k); }
    if j :| j in s.prunes && r.createdAt < s.prunes[j] && r.createdAt >= s.prunes[k] { assert Some(j) != Some(k); }
  }

  lemma FilterTidyIff(s: Store, k: nat)
    requires Shape(s) && Tidy(s) && k in s.prunes
    ensures Tidy(Step(s, FilterCache(k))) <==> NothingStale(s, k)
  {
    var s', cutoff := Step(s, FilterCache(k)), s.prunes[k];
    forall id | id in s.pending { DoomedByOthers(s, k, s.pending[id]); }
    forall id | id in s.shown { DoomedByOthers(s, k, s.shown[id]); }
    if Tidy(s') {
      forall id | id in s.shown && s.shown[id].createdAt < cutoff ensures id !in s.rows { assert id !in s'.shown; }
    }
  }

  /** What every step keeps, and when: only a pruner's filter can leave bucket
      and cache apart, and it does so exactly when something was stale. */
  lemma TidyStepIff(s: Store, a: Action)
    requires Shape(s) && Tidy(s) && Enabled(s, a)
    ensures Tidy(Step(s, a)) <==> (a.FilterCache? ==> NothingStale(s, a.prune))
  {
    match a
    case Commit(_, _) => WriterKeepsTidy(s, a);
    case CacheRow(_) => WriterKeepsTidy(s, a);
    case DeleteRows(k, cutoff) => DeleteKeepsTidy(s, k, cutoff);
    case FilterCache(k) => FilterTidyIff(s, k);
  }

  ghost predicate Good(s: Store) { Shape(s) && Mirrors(s) && Tidy(s) }

  ghost predicate CleanFilter(s: Store, a: Action)
    requires Enabled(s, a)
  {
    a.FilterCache? ==> NoGap(s, s.prunes[a.prune]) && NothingStale(s, a.prune)
  }

  /** A database just opened, new or with any rows from before: nothing is in
      flight and the cache is loaded. */
  function Opened(rows: Rows, sequence: nat): Store
  {
    Store(rows, sequence, map[], map[], rows, Scan(rows, sequence + 1, CACHE_LIMIT))
  }

  ghost predicate Run(stores: seq<Store>, actions: seq<Action>)
  {
    && |stores| == |actions| + 1
    && Numbered(stores[0].rows, stores[0].sequence) && stores[0] == Opened(stores[0].rows, stores[0].sequence)
    && (forall i :: 0 <= i < |actions| ==> Enabled(stores[i], actions[i]) && stores[i + 1] == Step(stores[i], actions[i]))
  }

  lemma {:induction false} GoodUntil(stores: seq<Store>, actions: seq<Action>, i: nat)
    requires Run(stores, actions) && i < |stores| && forall j :: 0 <= j < i ==> CleanFilter(stores[j], actions[j])
    ensures Good(stores[i])
  {
    if i > 0 {
      GoodUntil(stores, actions, i - 1);
      StepKeepsShape(stores[i - 1], actions[i - 1]);
      MirrorStepIff(stores[i - 1], actions[i - 1]);
      TidyStepIff(stores[i - 1], actions[i - 1]);
    }
  }

  /** Over every interleaving of writers and pruners, the cache is good
      throughout if and only if every pruner's filter was clean. */
  lemma RunGoodIff(stores: seq<Store>, actions: seq<Action>)
    requires Run(stores, actions)
    ensures (forall i :: 0 <= i < |stores| ==> Good(stores[i])) <==> (forall i :: 0 <= i < |actions| ==> CleanFilter(stores[i], actions[i]))
  {
    if forall i :: 0 <= i < |actions| ==> CleanFilter(stores[i], actions[i]) {
      forall i | 0 <= i < |stores| ensures Good(stores[i]) { GoodUntil(stores, actions, i); }
    } else {
      var i :| 0 <= i < |actions| && !CleanFilter(stores[i], actions[i]);
      assert stores[i + 1] == Step(stores[i], actions[i]);
      if Good(stores[i]) {
        MirrorStepIff(stores[i], actions[i]);
        TidyStepIff(stores[i], actions[i]);
      }
    }
  }

  /** A good cache is descending, at most 128 long and, whenever nothing is in
      flight, exactly the newest rows of the database. */
  lemma GoodCacheIsNewest(s: Store)
    requires Good(s)
    ensures Descending(s.recent) && |s.recent| <= 128
    ensures s.pending == map[] && s.prunes == map[] ==> s.recent == Scan(s.rows, s.sequence + 1, CACHE_LIMIT)
  {
    ScanDescends(s.shown, s.sequence + 1, CACHE_LIMIT);
    ScanMembers(s.shown, s.sequence + 1, CACHE_LIMIT);
    if s.pending == map[] && s.prunes == map[] {
      assert s.shown.Keys == s.rows.Keys;
      assert s.shown == s.rows;
    }
  }

  predicate Differ(a: Rows, b: Rows, id: nat) { (id in a) != (id in b) || (id in a && id in b && a[id] != b[id]) }

  /** How many rows have IDs between `id` and `bound`. */
  function Newer(rows: Rows, id: nat, bound: nat): nat
    decreases bound
  {
    if bound <= id + 1 then 0 else (if bound - 1 in rows then 1 else 0) + Newer(rows, id, bound - 1)
  }

  /** Rows that differ do not matter exactly when `limit` newer rows hide them. */
  ghost predicate Hidden(a: Rows, b: Rows, bound: nat, limit: nat)
  {
    forall id: nat :: id < bound && Differ(a, b, id) ==> Newer(a, id, bound) >= limit
  }

  lemma {:induction false} ScanEqualIff(a: Rows, b: Rows, bound: nat, limit: nat)
    requires Keyed(a) && Keyed(b)
    ensures Scan(a, bound, limit) == Scan(b, bound, limit) <==> Hidden(a, b, bound, limit)
    decreases bound
  {
    if bound > 0 && limit > 0 {
      var top := bound - 1;
      if Differ(a, b, top) {
        assert Newer(a, top, bound) == 0;
        if top !in a {
          TopIsAbove(b, a, top, limit);
        } else if top !in b {
          TopIsAbove(a, b, top, limit);
        } else {
          assert Scan(a, bound, limit)[0] == a[top] && Scan(b, bound, limit)[0] == b[top];
        }
      } else {
        var fewer := if top in a then limit - 1 else limit;
        ScanEqualIff(a, b, top, fewer);
        HiddenStep(a, b, bound, limit);
        if top in a { ConsInjective(a[top], Scan(a, top, fewer), Scan(b, top, fewer)); }
      }
    }
  }

  lemma TopIsAbove(a: Rows, b: Rows, top: nat, limit: nat)
    requires Keyed(a) && Keyed(b) && top in a && top !in b && limit > 0
    ensures Scan(a, top + 1, limit) != Scan(b, top + 1, limit)
  {
    ScanMembers(b, top, limit);
    assert Scan(a, top + 1, limit)[0] == a[top];
    assert Scan(b, top + 1, limit) == Scan(b, top, limit);
  }

  lemma HiddenStep(a: Rows, b: Rows, bound: nat, limit: nat)
    requires bound > 0 && limit > 0 && !Differ(a, b, bound - 1)
    ensures Hidden(a, b, bound, limit) <==> Hidden(a, b, bound - 1, if bound - 1 in a then limit - 1 else limit)
  {
    var fewer := if bound - 1 in a then limit - 1 else limit;
    forall id: nat | id < bound - 1 ensures Newer(a, id, bound) >= limit <==> Newer(a, id, bound - 1) >= fewer {}
  }

  /** At any moment, also in the middle of things, the cache answers as the
      database would exactly when each row in which what it was given and the
      bucket differ has 128 newer rows in the cache. */
  lemma CacheExactIff(s: Store)
    requires Shape(s) && Mirrors(s)
    ensures s.recent == Scan(s.rows, s.sequence + 1, CACHE_LIMIT) <==> Hidden(s.shown, s.rows, s.sequence + 1, CACHE_LIMIT)
  {
    ScanEqualIff(s.shown, s.rows, s.sequence + 1, CACHE_LIMIT);
  }

  /** A prune on its own is clean when rows are created in ID order and no
      writer holds a row older than the cutoff. */
  lemma QuietPruneIsClean(s: Store, k: nat, cutoff: int)
    requires Good(s) && s.prunes == map[] && CreatedInOrder(s.shown)
    requires forall id :: id in s.pending ==> s.pending[id].createdAt >= cutoff
    ensures CleanFilter(Step(s, DeleteRows(k, cutoff)), FilterCache(k))
  {
    var s' := Step(s, DeleteRows(k, cutoff));
    assert forall r :: !Doomed(s, r, None);
    OrderedRowsPruneSafely(s.shown, cutoff, s.sequence + 1);
    PruneAgreesIff(s.shown, cutoff, s.sequence + 1);
    assert s'.prunes[k] == cutoff && forall id :: id in s'.pending ==> id in s'.rows;
  }

  const OLD_ROW := Row(1, 0, "")

  /** A writer commits an old row, a pruner deletes it and filters the cache,
      and then the writer caches its copy: with nothing left in flight the
      cache serves a row the database does not have. */
  lemma PruneBeforeCacheServesDeletedRow()
    ensures var s0 := Store(map[], 0, map[], map[], map[], []);
            var s1 := Step(s0, Commit(0, ""));
            var s2 := Step(s1, DeleteRows(0, 1));
            && !NothingStale(s2, 0)
            && var s3 := Step(s2, FilterCache(0));
               Enabled(s3, CacheRow(1)) &&
               var s4 := Step(s3, CacheRow(1));
               s4.pending == map[] && s4.prunes == map[] && s4.recent == [OLD_ROW] && s4.rows == map[]
  {
    var s0 := Store(map[], 0, map[], map[], map[], []);
    var s1 := Step(s0, Commit(0, ""));
    var s2 := Step(s1, DeleteRows(0, 1));
    assert 1 in s2.pending && 1 !in s2.rows;
  }

  /** The other way round: an old row committed and cached between a pruner's
      deletion and its filter is in the database and not in the cache. */
  lemma CommitWhilePruningIsMissed()
    ensures var s0 := Store(map[], 0, map[], map[], map[], []);
            var s1 := Step(s0, DeleteRows(0, 1));
            var s2 := Step(s1, Commit(0, ""));
            && Enabled(s2, CacheRow(1))
            && var s3 := Step(s2, CacheRow(1));
               !NothingStale(s3, 0) &&
               var s4 := Step(s3, FilterCache(0));
               s4.pending == map[] && s4.prunes == map[] && s4.recent == [] && s4.rows == map[1 := OLD_ROW]
  {
    var s0 := Store(map[], 0, map[], map[], map[], []);
    var s1 := Step(s0, DeleteRows(0, 1));
    var s2 := Step(s1, Commit(0, ""));
    var s3 := Step(s2, CacheRow(1));
    assert s3.recent == [OLD_ROW] && s3.shown == map[1 := OLD_ROW];
  }
}
