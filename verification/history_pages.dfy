/** The four history listings of the stores, as the page methods build them,
    and what a client sees who follows their cursors. */
module HistoryPages {
  import opened Options
  import opened StringOrder
  import opened HistoryPaging

  datatype Experience = Experience(id: nat, size: nat, body: string)
  datatype Dialogue = Dialogue(updatedAt: int, size: nat, body: string)
  datatype Fact = Fact(scope: string, updatedAt: int, size: nat, body: string)

  /** Times are 0 when unset. */
  datatype HistoryCursor = HistoryCursor(id: nat, key: string, updatedAt: int, score: real, asOf: int)
  datatype PageOptions = PageOptions(cursor: HistoryCursor, limit: int, maxBytes: int)
  datatype HistoryPage = HistoryPage(items: seq<Item>, nextCursor: HistoryCursor, hasMore: bool)
  datatype HistoryResult = Ok(page: HistoryPage) | RecordTooLarge

  const ZERO := HistoryCursor(0, "", 0, 0.0, 0)

  function Limit(o: PageOptions): nat { if o.limit <= 0 then DEFAULT_LIMIT else o.limit }

  function MaxBytes(o: PageOptions): nat { if o.maxBytes <= 0 then DEFAULT_MAX_BYTES else o.maxBytes }

  function ToCursor(next: Option<Rank>, asOf: int): HistoryCursor
  {
    match next
    case None => ZERO
    case Some(ByID(id)) => ZERO.(id := id)
    case Some(ByScore(score, id)) => ZERO.(id := id, score := score, asOf := asOf)
    case Some(ByTime(t, k)) => ZERO.(key := k, updatedAt := t)
  }

  function IDRank(c: HistoryCursor): Option<Rank> { if c.id == 0 then None else Some(ByID(c.id)) }

  function ScoreRank(c: HistoryCursor): Option<Rank> { if c.id == 0 then None else Some(ByScore(c.score, c.id)) }

  function TimeRank(c: HistoryCursor): Option<Rank> { if c.key == "" then None else Some(ByTime(c.updatedAt, c.key)) }

  function Render(r: PageResult, asOf: int): HistoryResult
  {
    match r
    case RecordTooLarge => HistoryResult.RecordTooLarge
    case Ok(p) => HistoryResult.Ok(HistoryPage(p.items, ToCursor(p.next, asOf), p.hasMore))
  }

  // ----- sorting -----

  /** Records of one listing: one kind of rank, no two alike. */
  ghost predicate Distinct(s: set<Item>)
  {
    forall x, y :: x in s && y in s ==> SameKind(x.rank, y.rank) && (x != y ==> x.rank != y.rank)
  }

  function Inserted(l: seq<Item>, x: Item): seq<Item>
  {
    if l == [] || Before(x.rank, l[0].rank) then [x] + l else [l[0]] + Inserted(l[1..], x)
  }

  lemma {:induction false} InsertedMembers(l: seq<Item>, x: Item)
    ensures forall y :: y in Inserted(l, x) <==> y == x || y in l
  {
    if l != [] && !Before(x.rank, l[0].rank) {
      InsertedMembers(l[1..], x);
      assert l == [l[0]] + l[1..];
    }
  }

  lemma ConsSorted(x: Item, l: seq<Item>)
    requires Sorted(l) && forall y :: y in l ==> Before(x.rank, y.rank)
    ensures Sorted([x] + l)
  {
    assert forall i :: 0 <= i < |l| ==> l[i] in l;
  }

  lemma SortedTail(l: seq<Item>, y: Item)
    requires Sorted(l) && l != [] && y in l[1..]
    ensures Before(l[0].rank, y.rank)
  {
    var j :| 0 <= j < |l[1..]| && l[1..][j] == y;
    assert Before(l[0].rank, l[j + 1].rank);
  }

  lemma {:induction false} InsertedSorted(l: seq<Item>, x: Item)
    requires Sorted(l) && forall y :: y in l ==> SameKind(x.rank, y.rank) && x.rank != y.rank
    ensures Sorted(Inserted(l, x))
  {
    if l != [] {
      assert l[0] in l;
      BeforeIsStrictOrder(x.rank, l[0].rank, x.rank);
      if Before(x.rank, l[0].rank) {
        forall y | y in l ensures Before(x.rank, y.rank) {
          if y != l[0] {
            assert l == [l[0]] + l[1..];
            SortedTail(l, y);
          }
          BeforeIsStrictOrder(x.rank, l[0].rank, y.rank);
        }
        ConsSorted(x, l);
      } else {
        InsertedSorted(l[1..], x);
        InsertedMembers(l[1..], x);
        forall y | y in Inserted(l[1..], x) ensures Before(l[0].rank, y.rank) {
          if y != x { SortedTail(l, y); }
        }
        ConsSorted(l[0], Inserted(l[1..], x));
      }
    }
  }

  ghost predicate IsListing(l: seq<Item>, s: set<Item>) { Sorted(l) && forall x :: x in l <==> x in s }

  /** A sorted listing of given records is unique, so neither map order nor the
      sorting algorithm matters. */
  lemma {:induction false} ListingUnique(a: seq<Item>, b: seq<Item>)
    requires Sorted(a) && Sorted(b) && forall x :: x in a <==> x in b
    ensures a == b
  {
    assert a != [] ==> a[0] in a;
    assert b != [] ==> b[0] in b;
    if a != [] {
      assert a == [a[0]] + a[1..] && b == [b[0]] + b[1..];
      if a[0] != b[0] {
        SortedTail(a, b[0]);
        SortedTail(b, a[0]);
        BeforeIsStrictOrder(a[0].rank, b[0].rank, a[0].rank);
      }
      forall x ensures x in a[1..] <==> x in b[1..] { TailMember(a, x); TailMember(b, x); }
      ListingUnique(a[1..], b[1..]);
    }
  }

  lemma TailMember(l: seq<Item>, x: Item)
    requires Sorted(l) && l != []
    ensures x in l[1..] <==> x in l && x != l[0]
  {
    if x in l[1..] {
      SortedTail(l, x);
      BeforeIsStrictOrder(x.rank, x.rank, x.rank);
    }
    assert l == [l[0]] + l[1..];
  }

  ghost function Listing(s: set<Item>): (l: seq<Item>)
    requires Distinct(s)
    ensures IsListing(l, s)
  {
    if s == {} then []
    else
      var x :| x in s;
      var rest := Listing(s - {x});
      InsertedMembers(rest, x);
      InsertedSorted(rest, x);
      Inserted(rest, x)
  }

  method SortItems(items: seq<Item>, ghost s: set<Item>) returns (out: seq<Item>)
    requires Distinct(s) && (forall x :: x in items <==> x in s) && Apart(items)
    ensures IsListing(out, s) && out == Listing(s)
  {
    out := [];
    for i := 0 to |items|
      invariant Sorted(out) && forall x :: x in out <==> x in items[..i]
    {
      InsertedMembers(out, items[i]);
      forall y | y in out ensures SameKind(items[i].rank, y.rank) && items[i].rank != y.rank {
        assert y in items[..i] && items[i] in items;
      }
      InsertedSorted(out, items[i]);
      assert items[..i + 1] == items[..i] + [items[i]];
      out := InsertItem(out, items[i]);
    }
    assert items[..|items|] == items;
    ListingUnique(out, Listing(s));
  }

  lemma {:induction false} InsertedAt(l: seq<Item>, x: Item, i: nat)
    requires i <= |l| && (forall j :: 0 <= j < i ==> !Before(x.rank, l[j].rank)) && (i < |l| ==> Before(x.rank, l[i].rank))
    ensures Inserted(l, x) == l[..i] + [x] + l[i..]
  {
    if i > 0 { InsertedAt(l[1..], x, i - 1); }
  }

  method InsertItem(l: seq<Item>, x: Item) returns (out: seq<Item>)
    ensures out == Inserted(l, x)
  {
    var i := 0;
    while i < |l| && !Before(x.rank, l[i].rank)
      invariant i <= |l| && forall j :: 0 <= j < i ==> !Before(x.rank, l[j].rank)
    {
      i := i + 1;
    }
    InsertedAt(l, x, i);
    out := l[..i] + [x] + l[i..];
  }

  lemma {:induction false} FollowingListing(l: seq<Item>, c: Option<Rank>)
    requires Sorted(l)
    ensures Sorted(Following(l, c))
    ensures forall x :: x in Following(l, c) <==> x in l && Follows(x, c)
  {
    if l != [] {
      FollowingListing(l[1..], c);
      assert l == [l[0]] + l[1..];
      forall y | y in Following(l[1..], c) ensures Before(l[0].rank, y.rank) { SortedTail(l, y); }
      ConsSorted(l[0], Following(l[1..], c));
    }
  }

  // ----- the page loop -----

  lemma FollowingStep(l: seq<Item>, i: nat, c: Option<Rank>)
    requires i < |l|
    ensures Following(l[i..], c) == (if Follows(l[i], c) then [l[i]] else []) + Following(l[i + 1..], c)
  {
    assert l[i..][1..] == l[i + 1..];
  }

  datatype Fit = Fits(required: nat) | Full | Oversized

  /** Whether one more record fits a page holding `count` in `used` bytes. */
  function BoundedPageItemSize(x: Item, used: nat, count: nat, max: nat): Fit
  {
    if x.size > max then (if count > 0 then Full else Oversized)
    else if used + Required(x, count) <= max then Fits(Required(x, count)) else Full
  }

  /** A page loop over `rest` has taken `items` so far. */
  ghost predicate Taken(rest: seq<Item>, items: seq<Item>, used: nat, limit: nat, max: nat)
  {
    items <= rest && |items| <= limit && used == PageBytes(items) <= max
  }

  lemma TakeOne(rest: seq<Item>, items: seq<Item>, x: Item, used: nat, limit: nat, max: nat)
    requires Taken(rest, items, used, limit, max) && items + [x] <= rest && |items| != limit
    requires BoundedPageItemSize(x, used, |items|, max).Fits?
    ensures Taken(rest, items + [x], used + Required(x, |items|), limit, max)
  {
    assert (items + [x])[..|items|] == items;
  }

  lemma {:induction false} FillPrefix(rest: seq<Item>, n: nat, limit: nat, max: nat)
    requires n <= |rest| && n <= limit && PageBytes(rest[..n]) <= max
    ensures Fill(rest, limit, max, 0, 0) == Plus(n, Fill(rest[n..], limit, max, PageBytes(rest[..n]), n))
  {
    if n > 0 {
      var x := rest[n - 1];
      assert rest[..n][..n - 1] == rest[..n - 1];
      FillPrefix(rest, n - 1, limit, max);
      assert rest[n - 1..][0] == x && rest[n - 1..][1..] == rest[n..];
    }
  }

  /** Stopping early, at a full page or a record that does not fit. */
  lemma PageStops(l: seq<Item>, c: Option<Rank>, items: seq<Item>, x: Item, used: nat, limit: nat, max: nat)
    requires Taken(Following(l, c), items, used, limit, max) && items + [x] <= Following(l, c)
    requires |items| == limit || BoundedPageItemSize(x, used, |items|, max).Full?
    ensures Paged(l, c, limit, max) == PageResult.Ok(Page(items, LastRank(items), true))
  {
    var rest := Following(l, c);
    assert items == rest[..|items|];
    FillPrefix(rest, |items|, limit, max);
    assert rest[|items|..][0] == (items + [x])[|items|];
  }

  lemma PageEnds(l: seq<Item>, c: Option<Rank>, items: seq<Item>, used: nat, limit: nat, max: nat)
    requires Taken(Following(l, c), items, used, limit, max) && items == Following(l, c)
    ensures Paged(l, c, limit, max) == PageResult.Ok(Page(items, LastRank(items), false))
  {
    var rest := Following(l, c);
    assert items == rest[..|items|];
    FillPrefix(rest, |items|, limit, max);
  }

  lemma PageFails(l: seq<Item>, c: Option<Rank>, x: Item, used: nat, limit: nat, max: nat)
    requires [x] <= Following(l, c) && limit > 0 && BoundedPageItemSize(x, used, 0, max).Oversized?
    ensures Paged(l, c, limit, max) == PageResult.RecordTooLarge
  {
    PageIsMaximal(l, c, limit, max);
    assert Following(l, c)[0] == [x][0];
  }

  datatype PageState = Open(items: seq<Item>, used: nat) | Closed(result: PageResult)

  /** One turn of a page loop, at a record that follows the cursor. */
  function Offer(items: seq<Item>, used: nat, x: Item, limit: nat, max: nat): PageState
  {
    if |items| == limit then Closed(PageResult.Ok(Page(items, LastRank(items), true)))
    else match BoundedPageItemSize(x, used, |items|, max)
         case Oversized => Closed(PageResult.RecordTooLarge)
         case Full => Closed(PageResult.Ok(Page(items, LastRank(items), true)))
         case Fits(required) => Open(items + [x], used + required)
  }

  /** The loop has taken `items` and `tail` is still to come. */
  ghost predicate Progress(rest: seq<Item>, items: seq<Item>, tail: seq<Item>, used: nat, limit: nat, max: nat)
  {
    Taken(rest, items, used, limit, max) && items + tail == rest
  }

  lemma OfferIsSound(l: seq<Item>, c: Option<Rank>, items: seq<Item>, x: Item, tail: seq<Item>, used: nat, limit: nat, max: nat)
    requires Progress(Following(l, c), items, [x] + tail, used, limit, max) && limit > 0
    ensures match Offer(items, used, x, limit, max)
            case Closed(r) => r == Paged(l, c, limit, max)
            case Open(items', used') => Progress(Following(l, c), items', tail, used', limit, max)
  {
    var rest := Following(l, c);
    assert items + [x] <= rest && items + [x] + tail == rest;
    if |items| == limit || BoundedPageItemSize(x, used, |items|, max).Full? {
      PageStops(l, c, items, x, used, limit, max);
    } else if BoundedPageItemSize(x, used, |items|, max).Oversized? {
      assert items + [x] == [x];
      PageFails(l, c, x, used, limit, max);
    } else {
      TakeOne(rest, items, x, used, limit, max);
    }
  }

  lemma ProgressStarts(rest: seq<Item>, limit: nat, max: nat)
    ensures Progress(rest, [], rest, 0, limit, max)
  {
  }

  lemma ProgressEnds(l: seq<Item>, c: Option<Rank>, items: seq<Item>, used: nat, limit: nat, max: nat)
    requires Progress(Following(l, c), items, [], used, limit, max)
    ensures Paged(l, c, limit, max) == PageResult.Ok(Page(items, LastRank(items), false))
  {
    assert items == Following(l, c);
    PageEnds(l, c, items, used, limit, max);
  }

  /** Fills a page from an index in listing order, skipping records at or
      before the cursor. */
  method FillPage(index: seq<Item>, c: Option<Rank>, limit: nat, max: nat) returns (r: PageResult)
    requires limit > 0
    ensures r == Paged(index, c, limit, max)
  {
    var items: seq<Item>, used: nat := [], 0;
    ghost var tail := Following(index, c);
    ProgressStarts(tail, limit, max);
    assert index[0..] == index;
    for i := 0 to |index|
      invariant tail == Following(index[i..], c)
      invariant Progress(Following(index, c), items, tail, used, limit, max)
    {
      FollowingStep(index, i, c);
      if Follows(index[i], c) {
        tail := Following(index[i + 1..], c);
        OfferIsSound(index, c, items, index[i], tail, used, limit, max);
        match Offer(items, used, index[i], limit, max)
        case Closed(result) => return result;
        case Open(items', used') => items, used := items', used';
      }
    }
    ProgressEnds(index, c, items, used, limit, max);
    return PageResult.Ok(Page(items, LastRank(items), false));
  }

  // ----- experiences by ID -----

  function IDItem(e: Experience): Item { Item(ByID(e.id), e.size, e.body) }

  /** Matching experiences, newest first. */
  function IDListing(xs: seq<Experience>, matches: Experience -> bool): seq<Item>
  {
    if xs == [] then []
    else (if matches(xs[|xs| - 1]) then [IDItem(xs[|xs| - 1])] else []) + IDListing(xs[..|xs| - 1], matches)
  }

  /** The store appends experiences under increasing IDs from 1. */
  ghost predicate InIDOrder(xs: seq<Experience>)
  {
    (forall i :: 0 <= i < |xs| ==> xs[i].id > 0) && (forall i, j :: 0 <= i < j < |xs| ==> xs[i].id < xs[j].id)
  }

  function IDPage(xs: seq<Experience>, matches: Experience -> bool, o: PageOptions): HistoryResult
  {
    Render(Paged(IDListing(xs, matches), IDRank(o.cursor), Limit(o), MaxBytes(o)), 0)
  }

  lemma {:induction false} IDListingMembers(xs: seq<Experience>, matches: Experience -> bool)
    ensures forall x :: x in IDListing(xs, matches) <==> exists i :: 0 <= i < |xs| && matches(xs[i]) && x == IDItem(xs[i])
  {
    if xs != [] {
      var front := xs[..|xs| - 1];
      IDListingMembers(front, matches);
      assert forall i :: 0 <= i < |front| ==> front[i] == xs[i];
    }
  }

  lemma {:induction false} IDListingSorted(xs: seq<Experience>, matches: Experience -> bool)
    requires InIDOrder(xs)
    ensures Sorted(IDListing(xs, matches))
  {
    if xs != [] {
      var front := xs[..|xs| - 1];
      IDListingSorted(front, matches);
      IDListingMembers(front, matches);
      ConsSortedIf(IDItem(xs[|xs| - 1]), IDListing(front, matches));
    }
  }

  lemma IDListingPositive(xs: seq<Experience>, matches: Experience -> bool)
    requires InIDOrder(xs)
    ensures forall x :: x in IDListing(xs, matches) ==> x.rank.ByID? && x.rank.id > 0
  {
    IDListingMembers(xs, matches);
  }

  lemma ConsSortedIf(x: Item, l: seq<Item>)
    requires Sorted(l)
    ensures (forall y :: y in l ==> Before(x.rank, y.rank)) ==> Sorted([x] + l)
  {
    if forall y :: y in l ==> Before(x.rank, y.rank) { ConsSorted(x, l); }
  }

  lemma IDListingStep(xs: seq<Experience>, i: nat, matches: Experience -> bool, c: Option<Rank>)
    requires i < |xs|
    ensures Following(IDListing(xs[..i + 1], matches), c)
         == (if matches(xs[i]) && Follows(IDItem(xs[i]), c) then [IDItem(xs[i])] else []) + Following(IDListing(xs[..i], matches), c)
  {
    assert xs[..i + 1][..i] == xs[..i];
    var rest := IDListing(xs[..i], matches);
    assert matches(xs[i]) ==> ([IDItem(xs[i])] + rest)[1..] == rest;
    assert !matches(xs[i]) ==> IDListing(xs[..i + 1], matches) == rest;
  }

  /** Offers one experience to the page, if it matches and follows the cursor. */
  method OfferExperience(xs: seq<Experience>, i: nat, matches: Experience -> bool, cursorID: nat, ghost l: seq<Item>, ghost c: Option<Rank>,
                         items: seq<Item>, used: nat, limit: nat, max: nat) returns (st: PageState)
    requires i < |xs| && limit > 0 && c == (if cursorID == 0 then None else Some(ByID(cursorID)))
    requires Progress(Following(l, c), items, Following(IDListing(xs[..i + 1], matches), c), used, limit, max)
    ensures match st
            case Closed(r) => r == Paged(l, c, limit, max)
            case Open(items', used') => Progress(Following(l, c), items', Following(IDListing(xs[..i], matches), c), used', limit, max)
  {
    IDListingStep(xs, i, matches, c);
    if !matches(xs[i]) || (cursorID > 0 && xs[i].id >= cursorID) { return Open(items, used); }
    OfferIsSound(l, c, items, IDItem(xs[i]), Following(IDListing(xs[..i], matches), c), used, limit, max);
    return Offer(items, used, IDItem(xs[i]), limit, max);
  }

  method BackwardPage(xs: seq<Experience>, matches: Experience -> bool, cursorID: nat, limit: nat, max: nat) returns (r: PageResult)
    requires limit > 0
    ensures r == Paged(IDListing(xs, matches), if cursorID == 0 then None else Some(ByID(cursorID)), limit, max)
  {
    ghost var l := IDListing(xs, matches);
    ghost var c := if cursorID == 0 then None else Some(ByID(cursorID));
    var items: seq<Item>, used: nat, i: nat := [], 0, |xs|;
    ghost var tail := Following(l, c);
    ProgressStarts(tail, limit, max);
    assert xs[..|xs|] == xs && xs[..0] == [];
    while i > 0
      invariant i <= |xs| && tail == Following(IDListing(xs[..i], matches), c)
      invariant Progress(Following(l, c), items, tail, used, limit, max)
    {
      i := i - 1;
      var st := OfferExperience(xs, i, matches, cursorID, l, c, items, used, limit, max);
      if st.Closed? { return st.result; }
      items, used, tail := st.items, st.used, Following(IDListing(xs[..i], matches), c);
    }
    ProgressEnds(l, c, items, used, limit, max);
    return PageResult.Ok(Page(items, LastRank(items), false));
  }

  /** The unranked branch of the in-memory ExperiencesPage. */
  method ExperiencesByIDPage(xs: seq<Experience>, matches: Experience -> bool, o: PageOptions) returns (r: HistoryResult)
    ensures r == IDPage(xs, matches, o)
  {
    var page := BackwardPage(xs, matches, o.cursor.id, Limit(o), MaxBytes(o));
    return Render(page, 0);
  }

  // ----- experiences by ID in the bolt store -----

  /** The rows below ID `bound`, newest first; keys sort as IDs do. */
  function RowListing(rows: map<nat, Experience>, matches: Experience -> bool, bound: nat): seq<Item>
  {
    if bound == 0 then []
    else (if bound - 1 in rows && matches(rows[bound - 1]) then [IDItem(rows[bound - 1].(id := bound - 1))] else [])
         + RowListing(rows, matches, bound - 1)
  }

  lemma {:induction false} RowListingSorted(rows: map<nat, Experience>, matches: Experience -> bool, bound: nat)
    ensures Sorted(RowListing(rows, matches, bound))
    ensures forall x :: x in RowListing(rows, matches, bound) ==> x.rank.ByID? && x.rank.id < bound
  {
    if bound > 0 {
      RowListingSorted(rows, matches, bound - 1);
      if bound - 1 in rows { ConsSorted(IDItem(rows[bound - 1].(id := bound - 1)), RowListing(rows, matches, bound - 1)); }
    }
  }

  /** Seeking to the cursor's ID and stepping back starts at the rows below it. */
  lemma {:induction false} SeekIsFollowing(rows: map<nat, Experience>, matches: Experience -> bool, bound: nat, id: nat)
    requires id <= bound
    ensures Following(RowListing(rows, matches, bound), Some(ByID(id))) == RowListing(rows, matches, id)
    decreases bound
  {
    var l := RowListing(rows, matches, bound);
    if id < bound {
      SeekIsFollowing(rows, matches, bound - 1, id);
      if bound - 1 in rows && matches(rows[bound - 1]) {
        assert l[1..] == RowListing(rows, matches, bound - 1);
      } else {
        assert l == RowListing(rows, matches, bound - 1);
      }
    } else {
      RowListingSorted(rows, matches, bound);
      FollowingAll(l, Some(ByID(id)));
    }
  }

  function BoltIDPage(rows: map<nat, Experience>, matches: Experience -> bool, bound: nat, o: PageOptions): HistoryResult
  {
    Render(Paged(RowListing(rows, matches, bound), IDRank(o.cursor), Limit(o), MaxBytes(o)), 0)
  }

  lemma PagedOfRest(l: seq<Item>, c: Option<Rank>, rest: seq<Item>, limit: nat, max: nat)
    requires rest == Following(l, c)
    ensures Paged(rest, None, limit, max) == Paged(l, c, limit, max)
  {
    FollowingNone(rest);
  }

  lemma {:induction false} RowListingMembers(rows: map<nat, Experience>, matches: Experience -> bool, bound: nat)
    ensures forall x :: x in RowListing(rows, matches, bound)
                   <==> exists id :: id in rows && id < bound && matches(rows[id]) && x == IDItem(rows[id].(id := id))
  {
    if bound > 0 { RowListingMembers(rows, matches, bound - 1); }
  }

  /** No stored ID from `low` up to `bound`: nothing is listed there. */
  lemma {:induction false} ListingSkipsGap(rows: map<nat, Experience>, matches: Experience -> bool, low: nat, bound: nat)
    requires low <= bound && forall id :: id in rows ==> id < low || bound <= id
    ensures RowListing(rows, matches, bound) == RowListing(rows, matches, low)
    decreases bound
  {
    if low < bound { ListingSkipsGap(rows, matches, low, bound - 1); }
  }

  ghost predicate IsGreatest(rows: map<nat, Experience>, bound: nat, key: Option<nat>)
  {
    match key
    case None => forall id :: id in rows ==> bound <= id
    case Some(k) => k in rows && k < bound && forall id :: id in rows && id < bound ==> id <= k
  }

  /** A bucket cursor: a position among the sorted keys. */
  class Cursor {
    const rows: map<nat, Experience>
    var position: Option<nat>

    constructor (rows: map<nat, Experience>)
      ensures this.rows == rows
    {
      this.rows := rows;
      position := None;
    }

    /** Moves to the greatest key. */
    method Last() returns (key: Option<nat>)
      modifies this
      ensures position == key
      ensures forall bound: nat :: (forall id :: id in rows ==> id < bound) ==> IsGreatest(rows, bound, key)
    {
      key := None;
      var remaining := rows.Keys;
      while remaining != {}
        invariant remaining <= rows.Keys
        invariant key.Some? ==> key.value in rows
        invariant forall id :: id in rows && id !in remaining ==> key.Some? && id <= key.value
        decreases remaining
      {
        var id :| id in remaining;
        if key.None? || id > key.value { key := Some(id); }
        remaining := remaining - {id};
      }
      position := key;
    }

    /** Moves to the smallest key that is not below `target`. */
    method Seek(target: nat) returns (key: Option<nat>)
      modifies this
      ensures position == key
      ensures key.None? <==> forall id :: id in rows ==> id < target
      ensures key.Some? ==> key.value in rows && target <= key.value && forall id :: id in rows && target <= id ==> key.value <= id
    {
      key := None;
      var remaining := rows.Keys;
      while remaining != {}
        invariant remaining <= rows.Keys
        invariant key.Some? ==> key.value in rows && target <= key.value
        invariant forall id :: id in rows && id !in remaining && target <= id ==> key.Some? && key.value <= id
        decreases remaining
      {
        var id :| id in remaining;
        if target <= id && (key.None? || id < key.value) { key := Some(id); }
        remaining := remaining - {id};
      }
      position := key;
    }

    /** Moves to the greatest key below the current one. */
    method Prev() returns (key: Option<nat>)
      requires position.Some?
      modifies this
      ensures position == key && IsGreatest(rows, old(position.value), key)
    {
      key := None;
      var remaining := rows.Keys;
      while remaining != {}
        invariant remaining <= rows.Keys && position == old(position)
        invariant key.Some? ==> key.value in rows && key.value < position.value
        invariant forall id :: id in rows && id !in remaining && id < position.value ==> key.Some? && id <= key.value
        decreases remaining
      {
        var id :| id in remaining;
        if id < position.value && (key.None? || id > key.value) { key := Some(id); }
        remaining := remaining - {id};
      }
      position := key;
    }
  }

  function Above(key: Option<nat>): nat { if key.None? then 0 else key.value + 1 }

  lemma GreatestListing(rows: map<nat, Experience>, matches: Experience -> bool, bound: nat, key: Option<nat>)
    requires IsGreatest(rows, bound, key)
    ensures RowListing(rows, matches, bound) == RowListing(rows, matches, Above(key))
  {
    ListingSkipsGap(rows, matches, Above(key), bound);
  }

  /** Where experiencesByIDPage starts: at the last row, or by seeking to the
      cursor's ID and stepping back, or at the last row again when nothing is at
      or above that ID. Listing from there is listing what follows the cursor. */
  method StartOfScan(c: Cursor, cursor: HistoryCursor, ghost matches: Experience -> bool, ghost bound: nat) returns (key: Option<nat>)
    requires forall id :: id in c.rows ==> id < bound
    modifies c
    ensures c.position == key && (key.Some? ==> key.value in c.rows)
    ensures RowListing(c.rows, matches, Above(key)) == Following(RowListing(c.rows, matches, bound), IDRank(cursor))
  {
    ghost var l := RowListing(c.rows, matches, bound);
    if cursor.id == 0 {
      key := c.Last();
      GreatestListing(c.rows, matches, bound, key);
      FollowingNone(l);
    } else {
      key := c.Seek(cursor.id);
      if key.None? {
        key := c.Last();
        GreatestListing(c.rows, matches, bound, key);
        EverythingFollows(c.rows, matches, bound, cursor.id);
      } else {
        ghost var at := key.value;
        key := c.Prev();
        GreatestListing(c.rows, matches, at, key);
        ListingSkipsGap(c.rows, matches, cursor.id, at);
        SeekIsFollowing(c.rows, matches, bound, cursor.id);
      }
    }
  }

  lemma EverythingFollows(rows: map<nat, Experience>, matches: Experience -> bool, bound: nat, id: nat)
    requires forall i :: i in rows ==> i < id
    ensures Following(RowListing(rows, matches, bound), Some(ByID(id))) == RowListing(rows, matches, bound)
  {
    RowListingMembers(rows, matches, bound);
    FollowingAll(RowListing(rows, matches, bound), Some(ByID(id)));
  }

  method StepBack(c: Cursor, ghost matches: Experience -> bool) returns (key: Option<nat>)
    requires c.position.Some?
    modifies c
    ensures c.position == key && (key.Some? ==> key.value in c.rows && key.value < old(c.position.value))
    ensures RowListing(c.rows, matches, Above(key)) == RowListing(c.rows, matches, old(c.position.value))
  {
    ghost var at := c.position.value;
    key := c.Prev();
    GreatestListing(c.rows, matches, at, key);
  }

  lemma RowStep(rows: map<nat, Experience>, matches: Experience -> bool, id: nat)
    requires id in rows
    ensures RowListing(rows, matches, id + 1)
         == (if matches(rows[id]) then [IDItem(rows[id].(id := id))] else []) + RowListing(rows, matches, id)
  {
  }

  /** Offers one row to the page. */
  method OfferRow(rows: map<nat, Experience>, id: nat, matches: Experience -> bool, ghost l: seq<Item>,
                  items: seq<Item>, used: nat, limit: nat, max: nat) returns (st: PageState)
    requires id in rows && limit > 0 && Progress(l, items, RowListing(rows, matches, id + 1), used, limit, max)
    ensures match st
            case Closed(r) => r == Paged(l, None, limit, max)
            case Open(items', used') => Progress(l, items', RowListing(rows, matches, id), used', limit, max)
  {
    RowStep(rows, matches, id);
    if !matches(rows[id]) { return Open(items, used); }
    FollowingNone(l);
    OfferIsSound(l, None, items, IDItem(rows[id].(id := id)), RowListing(rows, matches, id), used, limit, max);
    return Offer(items, used, IDItem(rows[id].(id := id)), limit, max);
  }

  /** The backward cursor loop. */
  method ScanPage(c: Cursor, first: Option<nat>, matches: Experience -> bool, limit: nat, max: nat) returns (r: PageResult)
    requires limit > 0 && c.position == first && (first.Some? ==> first.value in c.rows)
    modifies c
    ensures r == Paged(RowListing(c.rows, matches, Above(first)), None, limit, max)
  {
    ghost var l := RowListing(c.rows, matches, Above(first));
    var key, items: seq<Item>, used: nat := first, [], 0;
    ProgressStarts(l, limit, max);
    while key.Some?
      invariant c.position == key && (key.Some? ==> key.value in c.rows)
      invariant Progress(l, items, RowListing(c.rows, matches, Above(key)), used, limit, max)
      decreases Above(key)
    {
      var st := OfferRow(c.rows, key.value, matches, l, items, used, limit, max);
      if st.Closed? { return st.result; }
      items, used := st.items, st.used;
      key := StepBack(c, matches);
    }
    FollowingNone(l);
    ProgressEnds(l, None, items, used, limit, max);
    return PageResult.Ok(Page(items, LastRank(items), false));
  }

  /** experiencesByIDPage. `bound` is any number above every stored ID. */
  method BoltExperiencesByIDPage(rows: map<nat, Experience>, matches: Experience -> bool, o: PageOptions, ghost bound: nat) returns (r: HistoryResult)
    requires forall id :: id in rows ==> id < bound
    ensures r == BoltIDPage(rows, matches, bound, o)
  {
    var c := new Cursor(rows);
    var first := StartOfScan(c, o.cursor, matches, bound);
    PagedOfRest(RowListing(rows, matches, bound), IDRank(o.cursor), RowListing(rows, matches, Above(first)), Limit(o), MaxBytes(o));
    var page := ScanPage(c, first, matches, Limit(o), MaxBytes(o));
    return Render(page, 0);
  }

  // ----- ranked experiences -----

  function ScoreItem(e: Experience, score: (Experience, int) -> real, asOf: int): Item
  {
    Item(ByScore(score(e, asOf), e.id), e.size, e.body)
  }

  function Window(xs: seq<Experience>): seq<Experience>
  {
    if |xs| > RANKED_WINDOW then xs[|xs| - RANKED_WINDOW..] else xs
  }

  function RankedItems(xs: seq<Experience>, matches: Experience -> bool, score: (Experience, int) -> real, asOf: int): set<Item>
  {
    set e | e in Window(xs) && matches(e) :: ScoreItem(e, score, asOf)
  }

  lemma RankedDistinct(xs: seq<Experience>, matches: Experience -> bool, score: (Experience, int) -> real, asOf: int)
    requires InIDOrder(xs)
    ensures Distinct(RankedItems(xs, matches, score, asOf))
  {
  }

  function AsOf(o: PageOptions, now: int): int { if o.cursor.asOf == 0 then now else o.cursor.asOf }

  ghost function RankedPage(xs: seq<Experience>, matches: Experience -> bool, score: (Experience, int) -> real, o: PageOptions, now: int): HistoryResult
    requires InIDOrder(xs)
  {
    var asOf := AsOf(o, now);
    RankedDistinct(xs, matches, score, asOf);
    Render(Paged(Listing(RankedItems(xs, matches, score, asOf)), ScoreRank(o.cursor), Limit(o), MaxBytes(o)), asOf)
  }

  /** The ranked branch: collect the candidates after the cursor among the
      newest 5000, sort them by score, fill the page. `matches` includes the
      relevance test. */
  method RankedExperiencesPage(xs: seq<Experience>, matches: Experience -> bool, score: (Experience, int) -> real, o: PageOptions, now: int)
    returns (r: HistoryResult)
    requires InIDOrder(xs)
    ensures r == RankedPage(xs, matches, score, o, now)
  {
    var asOf, c := AsOf(o, now), ScoreRank(o.cursor);
    ghost var s := RankedItems(xs, matches, score, asOf);
    RankedDistinct(xs, matches, score, asOf);
    var candidates := CollectCandidates(xs, matches, score, asOf, c);
    CandidatesMembers(Window(xs), matches, score, asOf, c);
    CandidatesApart(Window(xs), matches, score, asOf, c);
    var sorted := SortItems(candidates, set x | x in s && Follows(x, c));
    FollowingListing(Listing(s), c);
    ListingUnique(sorted, Following(Listing(s), c));
    PagedOfRest(Listing(s), c, sorted, Limit(o), MaxBytes(o));
    var page := FillPage(sorted, None, Limit(o), MaxBytes(o));
    return Render(page, asOf);
  }

  /** The candidates of `w` in the order the loop meets them, last first. */
  function Candidates(w: seq<Experience>, matches: Experience -> bool, score: (Experience, int) -> real, asOf: int, c: Option<Rank>): seq<Item>
  {
    if w == [] then []
    else
      var x := ScoreItem(w[0], score, asOf);
      Candidates(w[1..], matches, score, asOf, c) + (if matches(w[0]) && Follows(x, c) then [x] else [])
  }

  lemma {:induction false} CandidatesMembers(w: seq<Experience>, matches: Experience -> bool, score: (Experience, int) -> real, asOf: int, c: Option<Rank>)
    ensures forall x :: x in Candidates(w, matches, score, asOf, c)
                   <==> x in (set e | e in w && matches(e) :: ScoreItem(e, score, asOf)) && Follows(x, c)
  {
    if w != [] {
      CandidatesMembers(w[1..], matches, score, asOf, c);
      assert w == [w[0]] + w[1..];
    }
  }

  ghost predicate Apart(l: seq<Item>) { forall i, j :: 0 <= i < j < |l| ==> l[i] != l[j] }

  lemma AppendApart(l: seq<Item>, x: Item)
    requires Apart(l) && x !in l
    ensures Apart(l + [x])
  {
    forall i, j | 0 <= i < j < |l + [x]| ensures (l + [x])[i] != (l + [x])[j] {
      assert l[i] in l;
    }
  }

  lemma {:induction false} CandidatesApart(w: seq<Experience>, matches: Experience -> bool, score: (Experience, int) -> real, asOf: int, c: Option<Rank>)
    requires InIDOrder(w)
    ensures Apart(Candidates(w, matches, score, asOf, c))
  {
    if w != [] {
      CandidatesApart(w[1..], matches, score, asOf, c);
      CandidatesMembers(w[1..], matches, score, asOf, c);
      var rest, x := Candidates(w[1..], matches, score, asOf, c), ScoreItem(w[0], score, asOf);
      AppendApart(rest, x);
    }
  }

  method CollectCandidates(xs: seq<Experience>, matches: Experience -> bool, score: (Experience, int) -> real, asOf: int, c: Option<Rank>)
    returns (candidates: seq<Item>)
    ensures candidates == Candidates(Window(xs), matches, score, asOf, c)
  {
    candidates := [];
    var w := Window(xs);
    var i := |w|;
    while i > 0
      invariant 0 <= i <= |w| && candidates == Candidates(w[i..], matches, score, asOf, c)
    {
      i := i - 1;
      assert w[i..][1..] == w[i + 1..];
      var x := ScoreItem(w[i], score, asOf);
      if matches(w[i]) && Follows(x, c) { candidates := candidates + [x]; }
    }
    assert w[0..] == w;
  }

  // ----- dialogues and facts -----

  function DialogueItems(ds: map<string, Dialogue>): set<Item>
  {
    set k | k in ds :: Item(ByTime(ds[k].updatedAt, k), ds[k].size, ds[k].body)
  }

  function FactItems(fs: map<string, Fact>, scope: string): set<Item>
  {
    set k | k in fs && (scope == "" || fs[k].scope == scope) :: Item(ByTime(fs[k].updatedAt, k), fs[k].size, fs[k].body)
  }

  lemma DialoguesDistinct(ds: map<string, Dialogue>)
    ensures Distinct(DialogueItems(ds))
  {
  }

  lemma FactsDistinct(fs: map<string, Fact>, scope: string)
    ensures Distinct(FactItems(fs, scope))
  {
  }

  ghost function DialoguesListed(ds: map<string, Dialogue>, o: PageOptions): HistoryResult
  {
    DialoguesDistinct(ds);
    Render(Paged(Listing(DialogueItems(ds)), TimeRank(o.cursor), Limit(o), MaxBytes(o)), 0)
  }

  ghost function FactsListed(fs: map<string, Fact>, scope: string, o: PageOptions): HistoryResult
  {
    FactsDistinct(fs, scope);
    Render(Paged(Listing(FactItems(fs, scope)), TimeRank(o.cursor), Limit(o), MaxBytes(o)), 0)
  }

  method DialoguesPage(ds: map<string, Dialogue>, o: PageOptions) returns (r: HistoryResult)
    ensures r == DialoguesListed(ds, o)
  {
    var index: seq<Item>, keys := [], ds.Keys;
    while keys != {}
      invariant keys <= ds.Keys && Apart(index)
      invariant forall x :: x in index <==> x in DialogueItems(ds) && x.rank.key !in keys
      decreases keys
    {
      var k :| k in keys;
      var x := Item(ByTime(ds[k].updatedAt, k), ds[k].size, ds[k].body);
      AppendApart(index, x);
      index, keys := index + [x], keys - {k};
    }
    DialoguesDistinct(ds);
    var sorted := SortItems(index, DialogueItems(ds));
    var page := FillPage(sorted, TimeRank(o.cursor), Limit(o), MaxBytes(o));
    return Render(page, 0);
  }

  method FactsPage(fs: map<string, Fact>, scope: string, o: PageOptions) returns (r: HistoryResult)
    ensures r == FactsListed(fs, scope, o)
  {
    var index: seq<Item>, keys := [], fs.Keys;
    while keys != {}
      invariant keys <= fs.Keys && Apart(index)
      invariant forall x :: x in index <==> x in FactItems(fs, scope) && x.rank.key !in keys
      decreases keys
    {
      var k :| k in keys;
      var x := Item(ByTime(fs[k].updatedAt, k), fs[k].size, fs[k].body);
      if scope == "" || fs[k].scope == scope {
        AppendApart(index, x);
        index := index + [x];
      }
      keys := keys - {k};
    }
    FactsDistinct(fs, scope);
    var sorted := SortItems(index, FactItems(fs, scope));
    var page := FillPage(sorted, TimeRank(o.cursor), Limit(o), MaxBytes(o));
    return Render(page, 0);
  }

  // ----- what the listings and pages contain -----

  /** Every page keeps to the options, 50 records and 64 MiB unless they say
      otherwise, separators counted, and could not have taken one record more;
      there is none exactly when the next record alone is too large. */
  lemma PageWithinOptions(l: seq<Item>, c: Option<Rank>, o: PageOptions, asOf: int)
    ensures var rest, r := Following(l, c), Render(Paged(l, c, Limit(o), MaxBytes(o)), asOf);
            var limit, bytes := if o.limit <= 0 then 50 else o.limit, if o.maxBytes <= 0 then 67_108_864 else o.maxBytes;
            && (!r.Ok? <==> rest != [] && rest[0].size > bytes)
            && (r.Ok? ==>
                  var items := r.page.items;
                  && items <= rest && |items| <= limit && (items != [] ==> SumSizes(items) + |items| - 1 <= bytes)
                  && (r.page.hasMore <==> |items| < |rest|) && (r.page.hasMore ==> items != [])
                  && (|items| < |rest| ==> |items| == limit || SumSizes(items) + |items| + rest[|items|].size > bytes))
  {
    PageIsMaximal(l, c, Limit(o), MaxBytes(o));
    var rest, r := Following(l, c), Paged(l, c, Limit(o), MaxBytes(o));
    if r.Ok? {
      var n := |r.page.items|;
      assert r.page.items == rest[..n];
      BytesAreSizesAndSeparators(rest[..n]);
      if n < |rest| {
        BytesAreSizesAndSeparators(rest[..n + 1]);
        assert rest[..n + 1][..n] == rest[..n];
      }
    }
  }

  lemma ListedExperiences(xs: seq<Experience>, matches: Experience -> bool, x: Item)
    ensures x in IDListing(xs, matches) <==> exists i :: 0 <= i < |xs| && matches(xs[i]) && x == Item(ByID(xs[i].id), xs[i].size, xs[i].body)
  {
    IDListingMembers(xs, matches);
    if i :| 0 <= i < |xs| && matches(xs[i]) && x == Item(ByID(xs[i].id), xs[i].size, xs[i].body) { assert x == IDItem(xs[i]); }
    if i :| 0 <= i < |xs| && matches(xs[i]) && x == IDItem(xs[i]) { assert x == Item(ByID(xs[i].id), xs[i].size, xs[i].body); }
  }

  lemma InWindow(xs: seq<Experience>, e: Experience)
    ensures e in Window(xs) <==> exists i :: 0 <= i < |xs| && |xs| - 5000 <= i && xs[i] == e
  {
    var w, from := Window(xs), if |xs| > 5000 then |xs| - 5000 else 0;
    assert w == xs[from..];
    if e in w {
      var j :| 0 <= j < |w| && w[j] == e;
      assert xs[from + j] == e;
    }
    if i :| 0 <= i < |xs| && |xs| - 5000 <= i && xs[i] == e { assert w[i - from] == e; }
  }

  /** Ranked listings take the last 5000 experiences stored. */
  lemma ListedRanked(xs: seq<Experience>, matches: Experience -> bool, score: (Experience, int) -> real, asOf: int, x: Item)
    requires InIDOrder(xs)
    ensures Distinct(RankedItems(xs, matches, score, asOf))
    ensures x in Listing(RankedItems(xs, matches, score, asOf)) <==> exists i :: 0 <= i < |xs| && RankedAt(xs, matches, score, asOf, x, i)
  {
    RankedDistinct(xs, matches, score, asOf);
    if i :| 0 <= i < |xs| && RankedAt(xs, matches, score, asOf, x, i) {
      InWindow(xs, xs[i]);
      assert x == ScoreItem(xs[i], score, asOf);
    }
    if x in RankedItems(xs, matches, score, asOf) {
      var e :| e in Window(xs) && matches(e) && x == ScoreItem(e, score, asOf);
      InWindow(xs, e);
      var i :| 0 <= i < |xs| && |xs| - 5000 <= i && xs[i] == e;
      assert RankedAt(xs, matches, score, asOf, x, i);
    }
  }

  ghost predicate RankedAt(xs: seq<Experience>, matches: Experience -> bool, score: (Experience, int) -> real, asOf: int, x: Item, i: nat)
    requires i < |xs|
  {
    |xs| - 5000 <= i && matches(xs[i]) && x == Item(ByScore(score(xs[i], asOf), xs[i].id), xs[i].size, xs[i].body)
  }

  lemma ListedDialogues(ds: map<string, Dialogue>, x: Item)
    ensures Distinct(DialogueItems(ds))
    ensures x in Listing(DialogueItems(ds)) <==>
            (x.rank.ByTime? && x.rank.key in ds &&
             x == Item(ByTime(ds[x.rank.key].updatedAt, x.rank.key), ds[x.rank.key].size, ds[x.rank.key].body))
  {
    DialoguesDistinct(ds);
  }

  /** Fact listings hold exactly the facts of the scope, or all without one. */
  lemma ListedFacts(fs: map<string, Fact>, scope: string, x: Item)
    ensures Distinct(FactItems(fs, scope))
    ensures x in Listing(FactItems(fs, scope)) <==>
            (x.rank.ByTime? && x.rank.key in fs && (scope == "" || fs[x.rank.key].scope == scope) &&
             x == Item(ByTime(fs[x.rank.key].updatedAt, x.rank.key), fs[x.rank.key].size, fs[x.rank.key].body))
  {
    FactsDistinct(fs, scope);
  }
}
