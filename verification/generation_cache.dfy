/** The generation-checked snapshot and watermark caches: any number of readers
    and commit-then-invalidate writers, interleaved between locked sections. */
module GenerationCache {
  import opened Options

  /** A cached value and the generation counter that invalidation bumps. */
  datatype Cache<+V> = Cache(generation: nat, value: Option<V>)

  function Invalidate<V>(c: Cache<V>): Cache<V> { Cache(c.generation + 1, None) }

  /** Publishing a value read under `generation`; ignored once the counter moved. */
  function Publish<V>(c: Cache<V>, generation: nat, value: V): Cache<V>
  {
    if generation == c.generation then Cache(generation, Some(value)) else c
  }

  /** The cache fields of the bolt store, one method per locked section. `S` is
      a snapshot; watermarks map origins to sequences. */
  class CacheFields<S> {
    var watermarksCache: map<string, nat>
    var watermarksCacheValid: bool
    var watermarksCacheGeneration: nat
    var snapshotCache: Option<S>
    var snapshotCacheValid: bool
    var snapshotCacheGeneration: nat

    ghost predicate Valid()
      reads this
    {
      snapshotCacheValid ==> snapshotCache.Some?
    }

    function Marks(): Cache<map<string, nat>>
      reads this
    {
      Cache(watermarksCacheGeneration, if watermarksCacheValid then Some(watermarksCache) else None)
    }

    function Snapshots(): Cache<S>
      reads this
    {
      Cache(snapshotCacheGeneration, if snapshotCacheValid then snapshotCache else None)
    }

    constructor ()
      ensures Valid() && Marks() == Cache(0, None) && Snapshots() == Cache(0, None)
    {
      watermarksCache, watermarksCacheValid, watermarksCacheGeneration := map[], false, 0;
      snapshotCache, snapshotCacheValid, snapshotCacheGeneration := None, false, 0;
    }

    method InvalidateWatermarksCacheLocked()
      requires Valid()
      modifies this
      ensures Valid() && Marks() == Invalidate(old(Marks())) && Snapshots() == Invalidate(old(Snapshots()))
      ensures !watermarksCacheValid && !snapshotCacheValid
      ensures watermarksCacheGeneration == old(watermarksCacheGeneration) + 1 && snapshotCacheGeneration == old(snapshotCacheGeneration) + 1
    {
      watermarksCacheGeneration := watermarksCacheGeneration + 1;
      watermarksCacheValid := false;
      InvalidateSnapshotCacheLocked();
    }

    method InvalidateSnapshotCacheLocked()
      requires Valid()
      modifies this
      ensures Valid() && Marks() == old(Marks()) && Snapshots() == Invalidate(old(Snapshots()))
      ensures !snapshotCacheValid && snapshotCacheGeneration == old(snapshotCacheGeneration) + 1
    {
      snapshotCacheGeneration := snapshotCacheGeneration + 1;
      snapshotCacheValid := false;
      snapshotCache := None;
    }

    method LookupWatermarks() returns (cached: Option<map<string, nat>>, generation: nat)
      requires Valid()
      ensures cached == Marks().value && generation == Marks().generation
      ensures cached == (if watermarksCacheValid then Some(watermarksCache) else None) && generation == watermarksCacheGeneration
    {
      if watermarksCacheValid { return Some(watermarksCache), watermarksCacheGeneration; }
      return None, watermarksCacheGeneration;
    }

    method PublishWatermarks(generation: nat, watermarks: map<string, nat>)
      requires Valid()
      modifies this
      ensures Valid() && Marks() == Publish(old(Marks()), generation, watermarks) && Snapshots() == old(Snapshots())
      ensures generation == old(watermarksCacheGeneration) ==> watermarksCacheValid && watermarksCache == watermarks
      ensures generation != old(watermarksCacheGeneration) ==> watermarksCacheValid == old(watermarksCacheValid) && watermarksCache == old(watermarksCache)
    {
      if generation == watermarksCacheGeneration {
        watermarksCache := watermarks;
        watermarksCacheValid := true;
      }
    }

    method LookupSnapshot() returns (cached: Option<S>, generation: nat)
      requires Valid()
      ensures cached == Snapshots().value && generation == Snapshots().generation
      ensures cached == (if snapshotCacheValid then snapshotCache else None) && generation == snapshotCacheGeneration
    {
      generation := snapshotCacheGeneration;
      if snapshotCacheValid { return snapshotCache, generation; }
      return None, generation;
    }

    method PublishSnapshot(generation: nat, snapshot: S)
      requires Valid()
      modifies this
      ensures Valid() && Snapshots() == Publish(old(Snapshots()), generation, snapshot) && Marks() == old(Marks())
      ensures generation == old(snapshotCacheGeneration) ==> snapshotCacheValid && snapshotCache == Some(snapshot)
      ensures generation != old(snapshotCacheGeneration) ==> snapshotCacheValid == old(snapshotCacheValid) && snapshotCache == old(snapshotCache)
    {
      if generation == snapshotCacheGeneration {
        snapshotCache := Some(snapshot);
        snapshotCacheValid := true;
      }
    }
  }

  // ----- interleavings -----

  /** A reader between locked sections. */
  datatype Reader<+V> =
    | Idle
    | Missed(generation: nat)            // cache miss, database not read yet
    | Viewed(generation: nat, value: V)  // read transaction done, not published
    | Returned(value: V)

  /** `commits[n]` is the value after write transaction n; a commit is pending
      until its writer has invalidated, which it does before returning. */
  datatype World<+V> = World(commits: seq<V>, pending: set<nat>, cache: Cache<V>, readers: map<nat, Reader<V>>)

  datatype Action<+V> =
    | Commit(value: V)
    | InvalidateFor(commit: nat)
    | Begin(reader: nat)
    | View(reader: nat)
    | Finish(reader: nat, cacheable: bool)

  function ReaderOf<V>(w: World<V>, r: nat): Reader<V> { if r in w.readers then w.readers[r] else Idle }

  predicate Enabled<V(==)>(w: World<V>, a: Action<V>)
  {
    match a
    case Commit(_) => true
    case InvalidateFor(n) => n in w.pending
    case Begin(r) => ReaderOf(w, r).Idle? || ReaderOf(w, r).Returned?
    case View(r) => ReaderOf(w, r).Missed? && w.commits != []
    case Finish(r, _) => ReaderOf(w, r).Viewed?
  }

  function Step<V(==)>(w: World<V>, a: Action<V>): World<V>
    requires Enabled(w, a)
  {
    match a
    case Commit(v) => w.(commits := w.commits + [v], pending := w.pending + {|w.commits|})
    case InvalidateFor(n) => w.(cache := Invalidate(w.cache), pending := w.pending - {n})
    case Begin(r) =>
      w.(readers := w.readers[r := if w.cache.value.Some? then Returned(w.cache.value.value) else Missed(w.cache.generation)])
    case View(r) => w.(readers := w.readers[r := Viewed(ReaderOf(w, r).generation, w.commits[|w.commits| - 1])])
    case Finish(r, cacheable) =>
      var p := ReaderOf(w, r);
      w.(readers := w.readers[r := Returned(p.value)],
         cache := if cacheable then Publish(w.cache, p.generation, p.value) else w.cache)
  }

  /** `v` is the value after commit n or a later one. */
  ghost predicate ReflectsFrom<V>(w: World<V>, v: V, n: nat)
  {
    exists k :: n <= k < |w.commits| && w.commits[k] == v
  }

  /** `v` lags only behind commits whose writer has yet to invalidate. */
  ghost predicate LagsOnlyPending<V>(w: World<V>, v: V)
  {
    exists k :: 0 <= k < |w.commits| && w.commits[k] == v && (forall n :: k < n < |w.commits| ==> n in w.pending)
  }

  /** A reader whose generation still matches holds a value fit to publish. */
  ghost predicate ReaderOk<V>(w: World<V>, p: Reader<V>)
  {
    && (p.Missed? || p.Viewed? ==> p.generation <= w.cache.generation)
    && (p.Viewed? && p.generation == w.cache.generation ==> LagsOnlyPending(w, p.value))
  }

  ghost predicate Invariant<V(!new)>(w: World<V>)
  {
    && w.commits != []
    && (w.cache.value.Some? ==> LagsOnlyPending(w, w.cache.value.value))
    && (forall r :: ReaderOk(w, ReaderOf(w, r)))
  }

  ghost predicate Initial<V>(w: World<V>)
  {
    |w.commits| == 1 && w.pending == {} && w.cache == Cache(0, None) && w.readers == map[]
  }

  lemma LagSurvives<V(!new)>(w: World<V>, a: Action<V>, v: V)
    requires Enabled(w, a) && !a.InvalidateFor? && LagsOnlyPending(w, v)
    ensures LagsOnlyPending(Step(w, a), v)
  {
    var k :| 0 <= k < |w.commits| && w.commits[k] == v && (forall n :: k < n < |w.commits| ==> n in w.pending);
    assert Step(w, a).commits[k] == v;
  }

  lemma ReaderStaysOk<V(!new)>(w: World<V>, a: Action<V>, r: nat)
    requires Invariant(w) && Enabled(w, a)
    ensures ReaderOk(Step(w, a), ReaderOf(Step(w, a), r))
  {
    var w' := Step(w, a);
    var p := ReaderOf(w, r);
    assert ReaderOk(w, p);
    if a == View(r) {
      assert w'.commits[|w.commits| - 1] == ReaderOf(w', r).value;
    } else if p.Viewed? && LagsOnlyPending(w, p.value) && !a.InvalidateFor? {
      LagSurvives(w, a, p.value);
    }
  }

  lemma StepKeepsInvariant<V(!new)>(w: World<V>, a: Action<V>)
    requires Invariant(w) && Enabled(w, a)
    ensures Invariant(Step(w, a))
  {
    forall r ensures ReaderOk(Step(w, a), ReaderOf(Step(w, a), r)) { ReaderStaysOk(w, a, r); }
    if w.cache.value.Some? && !a.InvalidateFor? { LagSurvives(w, a, w.cache.value.value); }
    if a.Finish? {
      var p := ReaderOf(w, a.reader);
      assert ReaderOk(w, p);
      if p.generation == w.cache.generation { LagSurvives(w, a, p.value); }
    }
  }

  ghost predicate Run<V(!new)>(worlds: seq<World<V>>, actions: seq<Action<V>>)
  {
    && |worlds| == |actions| + 1 && Initial(worlds[0])
    && (forall i :: 0 <= i < |actions| ==> Enabled(worlds[i], actions[i]) && worlds[i + 1] == Step(worlds[i], actions[i]))
  }

  lemma {:induction false} RunInvariant<V(!new)>(worlds: seq<World<V>>, actions: seq<Action<V>>, i: nat)
    requires Run(worlds, actions) && i < |worlds|
    ensures Invariant(worlds[i])
  {
    if i > 0 {
      RunInvariant(worlds, actions, i - 1);
      StepKeepsInvariant(worlds[i - 1], actions[i - 1]);
    }
  }

  /** A valid cache is stale only while some writer has committed and not yet
      invalidated; with no such writer it is exactly the database. */
  lemma {:induction false} ValidCacheLagsOnlyPending<V(!new)>(worlds: seq<World<V>>, actions: seq<Action<V>>, i: nat)
    requires Run(worlds, actions) && i < |worlds| && worlds[i].cache.value.Some?
    ensures LagsOnlyPending(worlds[i], worlds[i].cache.value.value)
    ensures worlds[i].commits != [] && (worlds[i].pending == {} ==> worlds[i].cache.value.value == worlds[i].commits[|worlds[i].commits| - 1])
  {
    RunInvariant(worlds, actions, i);
    var w := worlds[i];
    var k :| 0 <= k < |w.commits| && w.commits[k] == w.cache.value.value && (forall n :: k < n < |w.commits| ==> n in w.pending);
    if k < |w.commits| - 1 { assert |w.commits| - 1 in w.pending; }
  }

  /** What a read that began after commit n returned knows at each phase. */
  ghost predicate ReaderReflects<V>(w: World<V>, r: nat, n: nat)
  {
    && n < |w.commits|
    && match ReaderOf(w, r)
       case Idle => false
       case Missed(_) => true
       case Viewed(_, v) => ReflectsFrom(w, v, n)
       case Returned(v) => ReflectsFrom(w, v, n)
  }

  lemma ReflectsSurvives<V(!new)>(w: World<V>, a: Action<V>, v: V, n: nat)
    requires Enabled(w, a) && ReflectsFrom(w, v, n)
    ensures ReflectsFrom(Step(w, a), v, n)
  {
    var k :| n <= k < |w.commits| && w.commits[k] == v;
    assert Step(w, a).commits[k] == v;
  }

  lemma ReaderReflectsSurvives<V(!new)>(w: World<V>, a: Action<V>, r: nat, n: nat)
    requires Enabled(w, a) && a != Begin(r) && ReaderReflects(w, r, n)
    ensures ReaderReflects(Step(w, a), r, n)
  {
    var p := ReaderOf(w, r);
    if p.Viewed? || p.Returned? { ReflectsSurvives(w, a, p.value, n); }
    if a == View(r) {
      var w' := Step(w, a);
      assert w'.commits[|w.commits| - 1] == ReaderOf(w', r).value;
    }
  }

  /** A read that begins when write n is committed and no longer pending. */
  lemma BeginReflects<V(!new)>(w: World<V>, r: nat, n: nat)
    requires Invariant(w) && Enabled(w, Begin(r)) && n < |w.commits| && n !in w.pending
    ensures ReaderReflects(Step(w, Begin(r)), r, n)
  {
    var w' := Step(w, Begin(r));
    if w.cache.value.Some? {
      var v := w.cache.value.value;
      var k :| 0 <= k < |w.commits| && w.commits[k] == v && (forall m :: k < m < |w.commits| ==> m in w.pending);
      assert w'.commits[k] == v;
      assert n <= k;
    }
  }

  /** Read your writes: for every interleaving, a read that begins at step i
      and has returned by step j reflects every write whose call had returned
      before step i, whether it was served from the cache or the database. */
  lemma {:induction false} ReadYourWrites<V(!new)>(worlds: seq<World<V>>, actions: seq<Action<V>>, i: nat, j: nat, r: nat, n: nat)
    requires Run(worlds, actions) && i < j < |worlds|
    requires actions[i] == Begin(r) && (forall k :: i < k < j ==> actions[k] != Begin(r))
    requires n < |worlds[i].commits| && n !in worlds[i].pending
    ensures ReaderReflects(worlds[j], r, n)
    ensures ReaderOf(worlds[j], r).Returned? ==> ReflectsFrom(worlds[j], ReaderOf(worlds[j], r).value, n)
    decreases j
  {
    if j == i + 1 {
      RunInvariant(worlds, actions, i);
      BeginReflects(worlds[i], r, n);
    } else {
      ReadYourWrites(worlds, actions, i, j - 1, r, n);
      ReaderReflectsSurvives(worlds[j - 1], actions[j - 1], r, n);
    }
  }

  /** The caches do cache: a reader that finishes with no invalidation since it
      looked leaves its value for the next reader, who gets it without reading
      the database; one overtaken by an invalidation leaves nothing. */
  lemma FinishedReadIsServed<V>(w: World<V>, r: nat, next: nat)
    requires r in w.readers && w.readers[r].Viewed?
    requires next !in w.readers
    ensures var w' := Step(w, Finish(r, true));
            && w'.readers[r] == Returned(w.readers[r].value)
            && (w.readers[r].generation == w.cache.generation ==>
                  && w'.cache.value == Some(w.readers[r].value)
                  && Step(w', Begin(next)).readers[next] == Returned(w.readers[r].value))
            && (w.readers[r].generation != w.cache.generation ==> w'.cache == w.cache)
  {
  }

  /** And a reader that finds nothing cached reads the newest commit. */
  lemma MissReadsDatabase<V>(w: World<V>, r: nat)
    requires r !in w.readers && w.cache.value.None? && w.commits != []
    ensures var w1 := Step(w, Begin(r));
            && w1.readers[r] == Missed(w.cache.generation)
            && Step(w1, View(r)).readers[r] == Viewed(w.cache.generation, w.commits[|w.commits| - 1])
  {
  }

  /** A write can always be made, and once it is made and has invalidated the
      cache the next reader can go on to return and cache what was written. */
  lemma WriteIsRead<V>(w: World<V>, v: V, r: nat)
    requires r !in w.readers
    ensures Enabled(w, Commit(v)) && Enabled(Step(w, Commit(v)), InvalidateFor(|w.commits|))
    ensures var w2 := Step(Step(w, Commit(v)), InvalidateFor(|w.commits|));
            && w2.pending == w.pending - {|w.commits|}
            && Enabled(w2, Begin(r)) && Enabled(Step(w2, Begin(r)), View(r)) && Enabled(Step(Step(w2, Begin(r)), View(r)), Finish(r, true))
            && var w5 := Step(Step(Step(w2, Begin(r)), View(r)), Finish(r, true));
               w5.readers == w.readers[r := Returned(v)] && w5.cache.value == Some(v)
  {
  }
}
