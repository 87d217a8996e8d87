/** Last-writer-wins is order-free: whatever order and repetition facts arrive
    in, each key ends with the one maximum of the fact order. */
module FactMerge {
  import opened Options
  import opened StringOrder
  import opened MemoryRecords
  import opened MemoryStoreSpec
  import opened MemoryMerge
  import opened BoltMerge

  /** One call of mergeFactFrom, with its own peer and clock reading. */
  datatype Arrival = Arrival(fact: Fact, source: string, now: Time)

  /** The merge does not need the clock: some timestamp is set. */
  predicate Dated(f: Fact) { f.key != "" && (f.updatedAt != 0 || f.createdAt != 0) }

  ghost predicate AllDated(arrivals: seq<Arrival>) { forall a :: a in arrivals ==> Dated(a.fact) }

  function MergeArrivals(s: StoreState, arrivals: seq<Arrival>): StoreState
    requires forall a :: a in arrivals ==> a.fact.key != ""
    decreases |arrivals|
  {
    if arrivals == [] then s
    else MergeArrivals(MergeFact(s, arrivals[0].fact, arrivals[0].source, arrivals[0].now), arrivals[1..])
  }

  /** The triple a dated fact competes with. */
  function ArrivingCore(f: Fact): Core
  {
    FactCore(if f.updatedAt != 0 then f.updatedAt else f.createdAt, f.source, f.value)
  }

  ghost function Facts(arrivals: seq<Arrival>): set<Fact> { set a | a in arrivals :: a.fact }

  ghost function Arriving(facts: set<Fact>, key: string): set<Core>
  {
    set f | f in facts && FactMapKey(f) == key :: ArrivingCore(f)
  }

  ghost function HeldCore(s: StoreState, key: string): set<Core>
  {
    if key in s.facts then {FactCoreOf(s.facts[key])} else {}
  }

  /** What was held before and what arrived, for one key. */
  ghost function Candidates(s: StoreState, arrivals: seq<Arrival>, key: string): set<Core>
  {
    Arriving(Facts(arrivals), key) + HeldCore(s, key)
  }

  ghost predicate IsMaximum(c: Core, candidates: set<Core>)
  {
    c in candidates && c.FactCore? && forall d :: d in candidates ==> d.FactCore? && !Beats(d, c)
  }

  lemma MaximumUnique(c: Core, d: Core, candidates: set<Core>)
    requires IsMaximum(c, candidates) && IsMaximum(d, candidates)
    ensures c == d
  {
    BeatsIsStrictTotalOrder(c, d);
  }

  lemma ArrivalStep(s: StoreState, a: Arrival, key: string)
    requires Dated(a.fact)
    ensures var s' := MergeFact(s, a.fact, a.source, a.now);
            && (key in s'.facts <==> key in s.facts || FactMapKey(a.fact) == key)
            && (key in s'.facts ==>
                  FactCoreOf(s'.facts[key]) ==
                    if FactMapKey(a.fact) != key then FactCoreOf(s.facts[key])
                    else if key in s.facts then Join(FactCoreOf(s.facts[key]), ArrivingCore(a.fact))
                    else ArrivingCore(a.fact))
  {
    var f := NormalizeFact(a.fact, a.now);
    assert FactMapKey(f) == FactMapKey(a.fact) && FactCoreOf(f) == ArrivingCore(a.fact);
    var k := FactMapKey(f);
    if k in s.facts {
      FactLosesIffCovered(f, s.facts[k]);
      JoinIsLeastUpperBound(FactKey(k), FactCoreOf(s.facts[k]), FactCoreOf(f));
    }
  }

  lemma MaximumAfterJoin(rest: set<Core>, held: Core, arriving: Core, c: Core)
    requires held.FactCore? && arriving.FactCore? && IsMaximum(c, rest + {Join(held, arriving)})
    ensures IsMaximum(c, rest + {held, arriving})
  {
    var kept := Join(held, arriving);
    assert kept in rest + {kept};
    JoinIsLeastUpperBound(FactKey(""), held, arriving);
    LeqTransitive(held, kept, c);
    LeqTransitive(arriving, kept, c);
  }

  lemma FactsOfCons(arrivals: seq<Arrival>)
    requires arrivals != []
    ensures Facts(arrivals) == Facts(arrivals[1..]) + {arrivals[0].fact}
  {
    assert arrivals == [arrivals[0]] + arrivals[1..];
  }

  lemma ArrivingOfCons(facts: set<Fact>, f: Fact, key: string)
    ensures Arriving(facts + {f}, key) == Arriving(facts, key) + if FactMapKey(f) == key then {ArrivingCore(f)} else {}
  {
    forall c | c in Arriving(facts, key) ensures c in Arriving(facts + {f}, key) {
      var g :| g in facts && FactMapKey(g) == key && ArrivingCore(g) == c;
      assert g in facts + {f};
    }
    if FactMapKey(f) == key { assert f in facts + {f}; }
  }

  /** A maximum after the first arrival was merged is a maximum before. */
  lemma MaximumBefore(s: StoreState, arrivals: seq<Arrival>, s1: StoreState, key: string)
    requires arrivals != [] && Dated(arrivals[0].fact)
    requires s1 == MergeFact(s, arrivals[0].fact, arrivals[0].source, arrivals[0].now)
    ensures Candidates(s, arrivals, key) == {} <==> Candidates(s1, arrivals[1..], key) == {}
    ensures forall c :: IsMaximum(c, Candidates(s1, arrivals[1..], key)) ==> IsMaximum(c, Candidates(s, arrivals, key))
  {
    var a, rest := arrivals[0], arrivals[1..];
    ArrivalStep(s, a, key);
    FactsOfCons(arrivals);
    ArrivingOfCons(Facts(rest), a.fact, key);
    if FactMapKey(a.fact) == key && key in s.facts {
      var later, held, arriving := Arriving(Facts(rest), key), FactCoreOf(s.facts[key]), ArrivingCore(a.fact);
      assert Candidates(s, arrivals, key) == later + {held, arriving};
      forall c | IsMaximum(c, Candidates(s1, rest, key)) ensures IsMaximum(c, Candidates(s, arrivals, key)) {
        MaximumAfterJoin(later, held, arriving, c);
      }
    } else {
      assert Candidates(s1, rest, key) == Candidates(s, arrivals, key);
    }
  }

  /** Each key holds the maximum of everything that arrived for it. */
  lemma {:induction false} WinnerIsMaximum(s: StoreState, arrivals: seq<Arrival>, key: string)
    requires AllDated(arrivals)
    ensures var s' := MergeArrivals(s, arrivals); var cs := Candidates(s, arrivals, key);
            && (key in s'.facts <==> cs != {})
            && (key in s'.facts ==> IsMaximum(FactCoreOf(s'.facts[key]), cs))
    decreases |arrivals|
  {
    if arrivals == [] {
      if key in s.facts { LeqReflexive(FactCoreOf(s.facts[key])); }
    } else {
      var a, rest := arrivals[0], arrivals[1..];
      assert a in arrivals && forall x :: x in rest ==> x in arrivals;
      var s1 := MergeFact(s, a.fact, a.source, a.now);
      WinnerIsMaximum(s1, rest, key);
      MaximumBefore(s, arrivals, s1, key);
    }
  }

  /** On the fields: nothing that arrived or was held is newer than the fact
      kept, nothing as new is from a smaller source, and nothing as new from the
      same source has a larger value; and the fact kept is one of them. */
  lemma WinnerOnFields(s: StoreState, arrivals: seq<Arrival>, key: string)
    requires (forall a :: a in arrivals ==> a.fact.key != "" && (a.fact.updatedAt != 0 || a.fact.createdAt != 0))
    requires key in MergeArrivals(s, arrivals).facts
    ensures var g := MergeArrivals(s, arrivals).facts[key];
            && (forall a :: a in arrivals && FactMapKey(a.fact) == key ==>
                  var at := if a.fact.updatedAt != 0 then a.fact.updatedAt else a.fact.createdAt;
                  && at <= g.updatedAt && (at == g.updatedAt ==> a.fact.source == g.source || Less(g.source, a.fact.source))
                  && (at == g.updatedAt && a.fact.source == g.source ==> a.fact.value == g.value || Less(a.fact.value, g.value)))
            && (key in s.facts ==>
                  var h := s.facts[key];
                  && h.updatedAt <= g.updatedAt && (h.updatedAt == g.updatedAt ==> h.source == g.source || Less(g.source, h.source))
                  && (h.updatedAt == g.updatedAt && h.source == g.source ==> h.value == g.value || Less(h.value, g.value)))
    ensures var g := MergeArrivals(s, arrivals).facts[key];
            || (key in s.facts && s.facts[key].updatedAt == g.updatedAt && s.facts[key].source == g.source && s.facts[key].value == g.value)
            || exists a :: a in arrivals && FactMapKey(a.fact) == key && a.fact.source == g.source && a.fact.value == g.value
                           && g.updatedAt == if a.fact.updatedAt != 0 then a.fact.updatedAt else a.fact.createdAt
  {
    WinnerIsMaximum(s, arrivals, key);
    var g, cs := MergeArrivals(s, arrivals).facts[key], Candidates(s, arrivals, key);
    forall c | c in cs ensures Below(c, FactCoreOf(g)) { NotBeaten(c, FactCoreOf(g)); }
    forall a | a in arrivals && FactMapKey(a.fact) == key ensures ArrivingCore(a.fact) in cs { assert a.fact in Facts(arrivals); }
    if FactCoreOf(g) !in HeldCore(s, key) {
      var f :| f in Facts(arrivals) && FactMapKey(f) == key && ArrivingCore(f) == FactCoreOf(g);
      var a :| a in arrivals && a.fact == f;
    }
  }

  ghost predicate Below(c: Core, g: Core)
  {
    && c.FactCore? && g.FactCore?
    && c.updatedAt <= g.updatedAt && (c.updatedAt == g.updatedAt ==> c.source == g.source || Less(g.source, c.source))
    && (c.updatedAt == g.updatedAt && c.source == g.source ==> c.value == g.value || Less(c.value, g.value))
  }

  lemma NotBeaten(c: Core, g: Core)
    requires c.FactCore? && g.FactCore? && !Beats(c, g)
    ensures Below(c, g)
  {
    LessTotal(c.source, g.source);
    LessTotal(c.value, g.value);
  }

  /** Two arrival orders over the same facts leave the same triple everywhere. */
  lemma FactMergeIsOrderFree(s: StoreState, one: seq<Arrival>, other: seq<Arrival>, key: string)
    requires (forall a :: a in one ==> a.fact.key != "" && (a.fact.updatedAt != 0 || a.fact.createdAt != 0))
    requires (forall a :: a in other ==> a.fact.key != "" && (a.fact.updatedAt != 0 || a.fact.createdAt != 0))
    requires Facts(one) == Facts(other)
    ensures Lookup(MergeArrivals(s, one), FactKey(key)) == Lookup(MergeArrivals(s, other), FactKey(key))
  {
    WinnerIsMaximum(s, one, key);
    WinnerIsMaximum(s, other, key);
    var t, u := MergeArrivals(s, one), MergeArrivals(s, other);
    if key in t.facts {
      MaximumUnique(FactCoreOf(t.facts[key]), FactCoreOf(u.facts[key]), Candidates(s, one, key));
    }
  }

  function BoltMergeArrivals(b: StoreState, arrivals: seq<Arrival>): StoreState
    requires forall a :: a in arrivals ==> a.fact.key != ""
    decreases |arrivals|
  {
    if arrivals == [] then b
    else BoltMergeArrivals(BoltMergeFact(b, arrivals[0].fact, arrivals[0].source, arrivals[0].now), arrivals[1..])
  }

  /** The two stores agree through arrivals from any peers at any times. */
  lemma {:induction false} ArrivalsAgree(m: StoreState, b: StoreState, arrivals: seq<Arrival>)
    requires Agree(m, b) && forall a :: a in arrivals ==> a.fact.key != ""
    ensures Agree(MergeArrivals(m, arrivals), BoltMergeArrivals(b, arrivals))
    decreases |arrivals|
  {
    if arrivals != [] {
      var a, rest := arrivals[0], arrivals[1..];
      assert a in arrivals && forall x :: x in rest ==> x in arrivals;
      FactAgrees(m, b, a.fact, a.source, a.now);
      ArrivalsAgree(MergeFact(m, a.fact, a.source, a.now), BoltMergeFact(b, a.fact, a.source, a.now), rest);
    }
  }

  /** So bolt too ends with the maximum for each key, and memory and bolt may
      even have seen the facts in different orders. */
  lemma StoresAgreeOnMaximum(m: StoreState, b: StoreState, one: seq<Arrival>, other: seq<Arrival>, key: string)
    requires Agree(m, b) && AllDated(one) && AllDated(other) && Facts(one) == Facts(other)
    ensures var b' := BoltMergeArrivals(b, other); var cs := Candidates(m, one, key);
            && (key in b'.facts <==> cs != {})
            && (key in b'.facts ==> IsMaximum(FactCoreOf(b'.facts[key]), cs))
            && Lookup(b', FactKey(key)) == Lookup(MergeArrivals(m, one), FactKey(key))
  {
    ArrivalsAgree(m, b, other);
    FactMergeIsOrderFree(m, one, other, key);
    WinnerIsMaximum(m, other, key);
  }

  /** An undated fact takes the receiver's clock: its place in the order then
      depends on when it arrives. */
  lemma UndatedFactDependsOnArrival(s: StoreState, f: Fact, source: string, earlier: Time, later: Time)
    requires f.key != "" && f.updatedAt == 0 && f.createdAt == 0 && FactMapKey(f) !in s.facts
    ensures var k := FactKey(FactMapKey(f));
            Lookup(MergeFact(s, f, source, earlier), k) == Lookup(MergeFact(s, f, source, later), k) <==> earlier == later
  {
    var g, h := NormalizeFact(f, earlier), NormalizeFact(f, later);
    assert FactMapKey(g) == FactMapKey(f) == FactMapKey(h);
  }
}
