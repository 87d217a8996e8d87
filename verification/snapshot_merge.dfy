/** Merging a whole snapshot: monotone, covering, bounded by any store that
    covers both sides, and insensitive to records the receiver already covers. */
module SnapshotMerge {
  import opened Options
  import opened MemoryRecords
  import opened MemoryStoreSpec
  import opened MemoryMerge

  ghost predicate AllWellFormed(rs: seq<Record>) { forall r :: r in rs ==> WellFormed(r) }

  function Merged(s: StoreState, rs: seq<Record>, source: string, now: Time): StoreState
  {
    MergeRecords(s, rs, source, now).0
  }

  /** `t` covers everything `s` covers, and has watermarks at least as high. */
  ghost predicate Grown(s: StoreState, t: StoreState)
  {
    && t.origin == s.origin
    && (forall k, c :: CoversCore(s, k, c) ==> CoversCore(t, k, c))
    && (forall o :: Wm(s, o) <= Wm(t, o))
  }

  lemma GrownTransitive(s: StoreState, t: StoreState, u: StoreState)
    requires Grown(s, t) && Grown(t, u)
    ensures Grown(s, u)
  {
    forall o ensures Wm(s, o) <= Wm(u, o) { assert Wm(s, o) <= Wm(t, o) <= Wm(u, o); }
  }

  lemma StepGrows(s: StoreState, r: Record, source: string, now: Time)
    requires Valid(s) && WellFormed(r)
    ensures var s' := MergeRecord(s, r, source, now); Valid(s') && Grown(s, s') && Covers(s', r)
  {
    var s' := MergeRecord(s, r, source, now);
    MergeRecordEffect(s, r, source, now);
    var key := KeyOf(r);
    LookupSameKind(s, key);
    if Lookup(s, key).Some? { JoinIsLeastUpperBound(key, Lookup(s, key).value, CoreOf(r)); }
    LeqReflexive(CoreOf(r));
    forall k, c | CoversCore(s, k, c) ensures CoversCore(s', k, c) {
      if k == key { LeqTransitive(c, Lookup(s, k).value, Lookup(s', k).value); }
    }
  }

  lemma LookupSameKind(s: StoreState, k: Key)
    ensures Lookup(s, k).Some? ==> SameKind(k, Lookup(s, k).value)
  {
  }

  /** Merging never loses anything and covers every merged record. */
  lemma {:induction false} MergeGrows(s: StoreState, rs: seq<Record>, source: string, now: Time)
    requires Valid(s) && AllWellFormed(rs)
    ensures MergeRecords(s, rs, source, now).1
    ensures Valid(Merged(s, rs, source, now)) && Grown(s, Merged(s, rs, source, now))
    ensures forall r :: r in rs ==> Covers(Merged(s, rs, source, now), r)
    decreases |rs|
  {
    if rs != [] {
      assert WellFormed(rs[0]);
      var s1 := MergeRecord(s, rs[0], source, now);
      StepGrows(s, rs[0], source, now);
      MergeGrows(s1, rs[1..], source, now);
      GrownTransitive(s, s1, Merged(s1, rs[1..], source, now));
      assert rs == [rs[0]] + rs[1..];
    }
  }

  /** Everything `s` holds is covered by `t`. */
  ghost predicate Below(s: StoreState, t: StoreState)
  {
    forall k :: Lookup(s, k).Some? ==> CoversCore(t, k, Lookup(s, k).value)
  }

  /** The merge is a least upper bound: a store covering both sides covers it. */
  lemma {:induction false} MergeBounded(s: StoreState, rs: seq<Record>, source: string, now: Time, t: StoreState)
    requires Valid(s) && AllWellFormed(rs)
    requires Below(s, t) && forall r :: r in rs ==> Covers(t, r)
    ensures Below(Merged(s, rs, source, now), t)
    decreases |rs|
  {
    if rs != [] {
      var r := rs[0];
      assert WellFormed(r);
      var s1 := MergeRecord(s, r, source, now);
      MergeRecordEffect(s, r, source, now);
      LookupSameKind(s, KeyOf(r));
      if Lookup(s, KeyOf(r)).Some? { JoinIsLeastUpperBound(KeyOf(r), Lookup(s, KeyOf(r)).value, CoreOf(r)); }
      assert Covers(t, r);
      assert Below(s1, t);
      MergeBounded(s1, rs[1..], source, now, t);
    }
  }

  /** Foreign watermarks rise no further than the sender's. */
  lemma {:induction false} MergeMarksBounded(s: StoreState, rs: seq<Record>, source: string, now: Time, marks: Marks, o: string)
    requires Valid(s) && AllWellFormed(rs) && o != s.origin
    requires forall r :: r in rs ==> r.Sequence() <= Get(marks, r.Origin())
    ensures Wm(Merged(s, rs, source, now), o) <= Max(Wm(s, o), Get(marks, o))
    decreases |rs|
  {
    if rs != [] {
      MergeRecordEffect(s, rs[0], source, now);
      assert rs[0].Sequence() <= Get(marks, rs[0].Origin());
      MergeMarksBounded(MergeRecord(s, rs[0], source, now), rs[1..], source, now, marks, o);
    }
  }

  /** Stamps known before the merge are kept apart from the fresh own ones,
      and no fresh stamp is issued twice. */
  ghost predicate StampedFrom(s: StoreState, known: iset<Record>, base: nat)
  {
    && base <= Wm(s, s.origin)
    && (forall q :: Holds(s, q) ==> Old(q, known) || (q.Origin() == s.origin && base < q.Sequence()))
    && (forall q, q' :: Holds(s, q) && Holds(s, q') && !Old(q, known) && !Old(q', known) && q.Sequence() == q'.Sequence() ==> q == q')
  }

  ghost predicate Old(q: Record, known: iset<Record>) { exists r :: r in known && SameVersion(q, r) }

  lemma StepStamps(s: StoreState, r: Record, source: string, now: Time, known: iset<Record>, base: nat)
    requires Valid(s) && WellFormed(r) && r in known && StampedFrom(s, known, base)
    requires forall x :: x in known && x.Origin() == s.origin ==> x.Sequence() <= base
    ensures StampedFrom(MergeRecord(s, r, source, now), known, base)
  {
    var s' := MergeRecord(s, r, source, now);
    MergeRecordEffect(s, r, source, now);
    RecordShape(s, r, source, now);
    ObserveKeeps(s, r.Origin(), r.Sequence());
    if !Covers(s, r) {
      var s1 := Observe(s, r.Origin(), r.Sequence());
      var q :| Lands(s, r, q) && s' == Put(if SameVersion(q, r) then s1 else NextSequence(s1, s.origin), q);
      OnlyOneNew(s, r, q, if SameVersion(q, r) then s1 else NextSequence(s1, s.origin));
      assert SameVersion(q, r) ==> Old(q, known);
      OneMoreStamp(s, s', q, known, base);
    } else {
      AdvancedKeeps(s, s');
      assert Wm(s', s.origin) >= Wm(s, s.origin);
    }
  }

  lemma OneMoreStamp(s: StoreState, s': StoreState, q: Record, known: iset<Record>, base: nat)
    requires Valid(s) && StampedFrom(s, known, base) && s'.origin == s.origin && Wm(s', s.origin) >= Wm(s, s.origin)
    requires forall x :: Holds(s', x) ==> x == q || Holds(s, x)
    requires Old(q, known) || (q.Origin() == s.origin && Wm(s, s.origin) < q.Sequence())
    ensures StampedFrom(s', known, base)
  {
    forall x, y | Holds(s', x) && Holds(s', y) && !Old(x, known) && !Old(y, known) && x.Sequence() == y.Sequence() ensures x == y {
      assert x != q ==> x.Sequence() <= Wm(s, x.Origin());
      assert y != q ==> y.Sequence() <= Wm(s, y.Origin());
    }
  }

  lemma OnlyOneNew(s: StoreState, r: Record, q: Record, s2: StoreState)
    requires Valid(s) && WellFormed(r)
    requires var s1 := Observe(s, r.Origin(), r.Sequence()); s2 == s1 || s2 == NextSequence(s1, s.origin)
    ensures forall x :: Holds(Put(s2, q), x) ==> x == q || Holds(s, x)
  {
    var s1 := Observe(s, r.Origin(), r.Sequence());
    ObserveKeeps(s, r.Origin(), r.Sequence());
    AdvancedKeeps(s, s1);
    NextSequenceKeeps(s1, s.origin);
    AdvancedKeeps(s1, NextSequence(s1, s.origin));
    PutHolds(s2, q);
  }

  lemma {:induction false} MergeStamps(s: StoreState, rs: seq<Record>, source: string, now: Time, known: iset<Record>, base: nat)
    requires Valid(s) && AllWellFormed(rs) && StampedFrom(s, known, base)
    requires forall r :: r in rs ==> r in known
    requires forall x :: x in known && x.Origin() == s.origin ==> x.Sequence() <= base
    ensures StampedFrom(Merged(s, rs, source, now), known, base)
    decreases |rs|
  {
    if rs != [] {
      StepStamps(s, rs[0], source, now, known, base);
      MergeRecordEffect(s, rs[0], source, now);
      MergeStamps(MergeRecord(s, rs[0], source, now), rs[1..], source, now, known, base);
    }
  }

  // ----- records the receiver already covers can be left out -----

  function FilterRecords(rs: seq<Record>, marks: Marks): seq<Record>
  {
    if rs == [] then []
    else (if IsNewer(rs[0].Origin(), rs[0].Sequence(), marks) then [rs[0]] else []) + FilterRecords(rs[1..], marks)
  }

  /** The receiver covers every record of `rs` at or below `marks`. */
  ghost predicate Skippable(s: StoreState, rs: seq<Record>, marks: Marks)
  {
    forall r :: r in rs && r.Sequence() <= Get(marks, r.Origin()) ==> Covers(s, r) && r.Sequence() <= Wm(s, r.Origin())
  }

  lemma SkippableLater(s: StoreState, rs: seq<Record>, marks: Marks, t: StoreState)
    requires Skippable(s, rs, marks) && Grown(s, t)
    ensures Skippable(t, rs, marks)
  {
    forall r | r in rs && r.Sequence() <= Get(marks, r.Origin()) ensures Covers(t, r) && r.Sequence() <= Wm(t, r.Origin()) {
      assert CoversCore(s, KeyOf(r), CoreOf(r));
      assert Wm(s, r.Origin()) <= Wm(t, r.Origin());
    }
  }

  lemma SkippedIsNoOp(s: StoreState, r: Record, source: string, now: Time)
    requires Valid(s) && WellFormed(r) && Covers(s, r) && r.Sequence() <= Wm(s, r.Origin())
    ensures MergeRecord(s, r, source, now) == s
  {
    MergeRecordEffect(s, r, source, now);
    assert Get(s.sequences, r.Origin()) == Get(s.watermarks, r.Origin());
  }

  lemma {:induction false} FilteredMerge(s: StoreState, rs: seq<Record>, marks: Marks, source: string, now: Time)
    requires Valid(s) && AllWellFormed(rs) && Skippable(s, rs, marks)
    ensures MergeRecords(s, FilterRecords(rs, marks), source, now) == MergeRecords(s, rs, source, now)
    decreases |rs|
  {
    if rs != [] {
      var r, rest := rs[0], rs[1..];
      assert WellFormed(r);
      var s1 := MergeRecord(s, r, source, now);
      if IsNewer(r.Origin(), r.Sequence(), marks) {
        StepGrows(s, r, source, now);
        SkippableLater(s, rest, marks, s1);
        FilteredMerge(s1, rest, marks, source, now);
        assert FilterRecords(rs, marks)[0] == r && FilterRecords(rs, marks)[1..] == FilterRecords(rest, marks);
      } else {
        SkippedIsNoOp(s, r, source, now);
        FilteredMerge(s, rest, marks, source, now);
        assert FilterRecords(rs, marks) == FilterRecords(rest, marks);
      }
    }
  }

  // ----- filtering a snapshot filters its records -----

  lemma AppendAssoc(a: seq<Record>, b: seq<Record>, c: seq<Record>)
    ensures a + b + c == a + (b + c)
  {
  }

  lemma {:induction false} FilterConcat(a: seq<Record>, b: seq<Record>, marks: Marks)
    ensures FilterRecords(a + b, marks) == FilterRecords(a, marks) + FilterRecords(b, marks)
  {
    if a == [] {
      assert a + b == b;
    } else {
      assert (a + b)[0] == a[0] && (a + b)[1..] == a[1..] + b;
      var head := if IsNewer(a[0].Origin(), a[0].Sequence(), marks) then [a[0]] else [];
      FilterConcat(a[1..], b, marks);
      AppendAssoc(head, FilterRecords(a[1..], marks), FilterRecords(b, marks));
      assert FilterRecords(a + b, marks) == head + FilterRecords(a[1..] + b, marks);
    }
  }

  lemma {:induction false} FilterOfExperiences(es: seq<Experience>, marks: Marks)
    ensures ExperienceRecords(FilterExperiences(es, marks)) == FilterRecords(ExperienceRecords(es), marks)
  {
    if es != [] {
      assert ExperienceRecords(es)[1..] == ExperienceRecords(es[1..]);
      FilterOfExperiences(es[1..], marks);
    }
  }

  lemma {:induction false} FilterOfFacts(fs: seq<Fact>, marks: Marks)
    ensures FactRecords(FilterFacts(fs, marks)) == FilterRecords(FactRecords(fs), marks)
  {
    if fs != [] {
      assert FactRecords(fs)[1..] == FactRecords(fs[1..]);
      FilterOfFacts(fs[1..], marks);
    }
  }

  lemma {:induction false} FilterOfPerformances(ps: seq<Performance>, marks: Marks)
    ensures PerformanceRecords(FilterPerformances(ps, marks)) == FilterRecords(PerformanceRecords(ps), marks)
  {
    if ps != [] {
      assert PerformanceRecords(ps)[1..] == PerformanceRecords(ps[1..]);
      FilterOfPerformances(ps[1..], marks);
    }
  }

  lemma {:induction false} FilterOfDialogues(ds: seq<Dialogue>, marks: Marks)
    ensures DialogueRecords(FilterDialogues(ds, marks)) == FilterRecords(DialogueRecords(ds), marks)
  {
    if ds != [] {
      assert DialogueRecords(ds)[1..] == DialogueRecords(ds[1..]);
      FilterOfDialogues(ds[1..], marks);
    }
  }

  lemma FlattenSince(sn: Snapshot, marks: Marks)
    ensures Flatten(SnapshotSince(sn, marks)) == FilterRecords(Flatten(sn), marks)
  {
    FilterOfExperiences(sn.experiences, marks);
    FilterOfFacts(sn.facts, marks);
    FilterOfPerformances(sn.performances, marks);
    FilterOfDialogues(sn.dialogues, marks);
    var e, f, p, d := ExperienceRecords(sn.experiences), FactRecords(sn.facts), PerformanceRecords(sn.performances), DialogueRecords(sn.dialogues);
    FilterConcat(e, f, marks);
    FilterConcat(e + f, p, marks);
    FilterConcat(e + f + p, d, marks);
  }

  /** Membership in a filtered list. */
  lemma {:induction false} FilterMembers(rs: seq<Record>, marks: Marks, r: Record)
    ensures r in FilterRecords(rs, marks) <==> r in rs && IsNewer(r.Origin(), r.Sequence(), marks)
  {
    if rs != [] {
      FilterMembers(rs[1..], marks, r);
      assert rs == [rs[0]] + rs[1..];
    }
  }

  /** Leaving out what the receiver covers changes nothing, not even the order
      in which fresh stamps are issued. */
  lemma DeltaMergesAsFull(s: StoreState, sn: Snapshot, marks: Marks, source: string, now: Time)
    requires Valid(s) && AllWellFormed(Flatten(sn)) && Skippable(s, Flatten(sn), marks)
    ensures MergeSnapshot(s, SnapshotSince(sn, marks), source, now) == MergeSnapshot(s, sn, source, now)
  {
    FlattenSince(sn, marks);
    FilteredMerge(s, Flatten(sn), marks, SourceOf(source), now);
  }
}
