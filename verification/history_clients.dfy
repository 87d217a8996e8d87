/** What a client sees who follows the cursors of the history listings. */
module HistoryClients {
  import opened Options
  import opened HistoryPaging
  import opened HistoryPages

  /** `first` is the clock at the client's first request. The source answers
      every cursor it hands out from the one listing `l`. */
  ghost predicate Serves(pager: (HistoryCursor, int) -> HistoryResult, first: int, asOf: int, l: seq<Item>, limit: nat, max: nat)
  {
    && pager(ZERO, first) == Render(Paged(l, None, limit, max), asOf)
    && forall x :: x in l ==> AnswersFrom(pager, x, asOf, l, limit, max)
  }

  function LastNext(pages: seq<HistoryPage>): HistoryCursor { if pages == [] then ZERO else pages[|pages| - 1].nextCursor }

  /** A client asks at times `nows`, first without a cursor, then with the
      cursor it was last given, as long as it is told there is more. */
  ghost predicate Client(pager: (HistoryCursor, int) -> HistoryResult, nows: seq<int>, pages: seq<HistoryPage>)
    requires |nows| == |pages|
  {
    pages == [] ||
    var n := |pages| - 1;
    && Client(pager, nows[..n], pages[..n])
    && (n > 0 ==> pages[n - 1].hasMore)
    && pager(LastNext(pages[..n]), nows[n]) == HistoryResult.Ok(pages[n])
  }

  function Seen(pages: seq<HistoryPage>): seq<Item>
  {
    if pages == [] then [] else Seen(pages[..|pages| - 1]) + pages[|pages| - 1].items
  }

  /** The page behind a rendered one. */
  function Unrendered(p: HistoryPage): Page { Page(p.items, LastRank(p.items), p.hasMore) }

  function AllUnrendered(pages: seq<HistoryPage>): seq<Page>
  {
    if pages == [] then [] else AllUnrendered(pages[..|pages| - 1]) + [Unrendered(pages[|pages| - 1])]
  }

  ghost predicate AnswersFrom(pager: (HistoryCursor, int) -> HistoryResult, x: Item, asOf: int, l: seq<Item>, limit: nat, max: nat)
  {
    forall now :: pager(ToCursor(Some(x.rank), asOf), now) == Render(Paged(l, Some(x.rank), limit, max), asOf)
  }

  /** The last page, as the client holds it, and the cursor it leads to. */
  ghost predicate Resumes(p: HistoryPage, asOf: int, l: seq<Item>)
  {
    && p.nextCursor == ToCursor(LastRank(p.items), asOf)
    && (p.hasMore ==> p.items != [] && p.items[|p.items| - 1] in l)
  }

  lemma NextAnswer(pager: (HistoryCursor, int) -> HistoryResult, first: int, asOf: int, l: seq<Item>, limit: nat, max: nat, p: HistoryPage, now: int)
    requires Serves(pager, first, asOf, l, limit, max) && Resumes(p, asOf, l) && p.hasMore
    ensures pager(p.nextCursor, now) == Render(Paged(l, LastRank(p.items), limit, max), asOf)
  {
    assert AnswersFrom(pager, p.items[|p.items| - 1], asOf, l, limit, max);
  }

  lemma PageResumes(l: seq<Item>, c: Option<Rank>, limit: nat, max: nat, asOf: int, p: HistoryPage)
    requires Sorted(l) && limit > 0 && Render(Paged(l, c, limit, max), asOf) == HistoryResult.Ok(p)
    ensures Paged(l, c, limit, max) == PageResult.Ok(Unrendered(p)) && Resumes(p, asOf, l)
  {
    PageIsMaximal(l, c, limit, max);
    FollowingListing(l, c);
    assert Paged(l, c, limit, max).page.items <= Following(l, c);
    if p.hasMore { assert p.items[|p.items| - 1] in Following(l, c); }
  }

  lemma {:induction false} ClientFollows(
    pager: (HistoryCursor, int) -> HistoryResult, asOf: int, l: seq<Item>, limit: nat, max: nat, nows: seq<int>, pages: seq<HistoryPage>)
    requires |nows| == |pages| && pages != [] && Serves(pager, nows[0], asOf, l, limit, max)
    requires Sorted(l) && limit > 0 && Client(pager, nows, pages)
    ensures var ps := AllUnrendered(pages);
            Follow(l, limit, max, ps) && |ps| == |pages| && Concat(ps) == Seen(pages) && ps[|ps| - 1] == Unrendered(pages[|pages| - 1])
    ensures Resumes(pages[|pages| - 1], asOf, l)
  {
    var n := |pages| - 1;
    var front, p := pages[..n], pages[n];
    if n == 0 {
      PageResumes(l, None, limit, max, asOf, p);
    } else {
      ClientFollows(pager, asOf, l, limit, max, nows[..n], front);
      NextAnswer(pager, nows[0], asOf, l, limit, max, pages[n - 1], nows[n]);
      PageResumes(l, LastRank(pages[n - 1].items), limit, max, asOf, p);
    }
    FollowOneMore(l, limit, max, AllUnrendered(front), Unrendered(p));
  }

  /** Whatever the page source, if it answers from one sorted listing then what
      a client has seen is the first records of that listing, in order and each
      once, and all of them exactly when it is told there is no more. */
  lemma ClientSeesEverything(
    pager: (HistoryCursor, int) -> HistoryResult, asOf: int, l: seq<Item>, limit: nat, max: nat, nows: seq<int>, pages: seq<HistoryPage>)
    requires |nows| == |pages| && pages != [] && Serves(pager, nows[0], asOf, l, limit, max)
    requires Sorted(l) && limit > 0 && Client(pager, nows, pages)
    ensures Complete(pages, l)
  {
    ClientFollows(pager, asOf, l, limit, max, nows, pages);
    PaginationIsComplete(l, limit, max, AllUnrendered(pages));
  }

  ghost predicate Complete(pages: seq<HistoryPage>, l: seq<Item>)
    requires pages != []
  {
    && Seen(pages) <= l && (!pages[|pages| - 1].hasMore <==> Seen(pages) == l)
    && |pages| <= |l| + 1 && (pages[|pages| - 1].hasMore ==> |pages| < |l|)
  }

  // ----- reaching the end -----

  lemma ClientOneMore(pager: (HistoryCursor, int) -> HistoryResult, nows: seq<int>, pages: seq<HistoryPage>, now: int, p: HistoryPage)
    requires |nows| == |pages| && Client(pager, nows, pages) && (pages != [] ==> pages[|pages| - 1].hasMore)
    requires pager(LastNext(pages), now) == HistoryResult.Ok(p)
    ensures Client(pager, nows + [now], pages + [p])
  {
    assert (pages + [p])[..|pages|] == pages && (nows + [now])[..|nows|] == nows;
  }

  /** While there is more, the next request is answered. */
  lemma NextIsAnswered(
    pager: (HistoryCursor, int) -> HistoryResult, asOf: int, l: seq<Item>, limit: nat, max: nat, nows: seq<int>, pages: seq<HistoryPage>, first: int, now: int)
    requires |nows| == |pages| && (pages != [] ==> nows[0] == first) && (pages == [] ==> now == first)
    requires Serves(pager, first, asOf, l, limit, max) && Sorted(l) && limit > 0 && EachFits(l, max)
    requires Client(pager, nows, pages) && (pages != [] ==> pages[|pages| - 1].hasMore)
    ensures pager(LastNext(pages), now).Ok?
  {
    if pages == [] {
      NextPageExists(l, limit, max, []);
    } else {
      ClientFollows(pager, asOf, l, limit, max, nows, pages);
      NextPageExists(l, limit, max, AllUnrendered(pages));
      NextAnswer(pager, first, asOf, l, limit, max, pages[|pages| - 1], now);
    }
  }

  /** The first n readings of a clock. */
  function Times(at: nat -> int, n: nat): seq<int> { seq(n, i requires 0 <= i < n => at(i)) }

  /** A client that keeps asking, at whatever times, is told there is no more
      after at most one page per record and one, and has then seen the listing. */
  lemma {:induction false} ClientReachesEnd(
    pager: (HistoryCursor, int) -> HistoryResult, asOf: int, l: seq<Item>, limit: nat, max: nat, at: nat -> int, sofar: seq<HistoryPage>)
    returns (pages: seq<HistoryPage>)
    requires Serves(pager, at(0), asOf, l, limit, max) && Sorted(l) && limit > 0 && EachFits(l, max)
    requires |sofar| <= |l| && Client(pager, Times(at, |sofar|), sofar) && (sofar != [] ==> sofar[|sofar| - 1].hasMore)
    ensures Finished(pager, at, pages, l)
    decreases |l| - |sofar|
  {
    var n := |sofar|;
    NextIsAnswered(pager, asOf, l, limit, max, Times(at, n), sofar, at(0), at(n));
    var p := pager(LastNext(sofar), at(n)).page;
    ClientOneMore(pager, Times(at, n), sofar, at(n), p);
    assert Times(at, n) + [at(n)] == Times(at, n + 1);
    pages := sofar + [p];
    ClientSeesEverything(pager, asOf, l, limit, max, Times(at, n + 1), pages);
    if p.hasMore { pages := ClientReachesEnd(pager, asOf, l, limit, max, at, pages); }
  }

  ghost predicate Finished(pager: (HistoryCursor, int) -> HistoryResult, at: nat -> int, pages: seq<HistoryPage>, l: seq<Item>)
  {
    0 < |pages| <= |l| + 1 && Client(pager, Times(at, |pages|), pages) && !pages[|pages| - 1].hasMore && Seen(pages) == l
  }

  // ----- the five listings -----

  /** A page source that answers from one sorted listing, so that both results hold of it. */
  ghost predicate ServesSorted(pager: (HistoryCursor, int) -> HistoryResult, first: int, asOf: int, l: seq<Item>, limit: int, maxBytes: int)
  {
    var o := PageOptions(ZERO, limit, maxBytes);
    Sorted(l) && Limit(o) > 0 && Serves(pager, first, asOf, l, Limit(o), MaxBytes(o))
  }

  lemma IDServes(pager: (HistoryCursor, int) -> HistoryResult, l: seq<Item>, first: int, limit: nat, max: nat)
    requires forall c, now :: pager(c, now) == Render(Paged(l, IDRank(c), limit, max), 0)
    requires forall x :: x in l ==> x.rank.ByID? && x.rank.id > 0
    ensures Serves(pager, first, 0, l, limit, max)
  {
    forall x | x in l ensures AnswersFrom(pager, x, 0, l, limit, max) {
      assert IDRank(ToCursor(Some(x.rank), 0)) == Some(x.rank);
    }
  }

  lemma TimeServes(pager: (HistoryCursor, int) -> HistoryResult, l: seq<Item>, first: int, limit: nat, max: nat)
    requires forall c, now :: pager(c, now) == Render(Paged(l, TimeRank(c), limit, max), 0)
    requires forall x :: x in l ==> x.rank.ByTime? && x.rank.key != ""
    ensures Serves(pager, first, 0, l, limit, max)
  {
    forall x | x in l ensures AnswersFrom(pager, x, 0, l, limit, max) {
      assert TimeRank(ToCursor(Some(x.rank), 0)) == Some(x.rank);
    }
  }

  lemma IDPagerServes(xs: seq<Experience>, matches: Experience -> bool, limit: int, maxBytes: int, first: int)
    requires InIDOrder(xs)
    ensures ServesSorted((c, now) => IDPage(xs, matches, PageOptions(c, limit, maxBytes)), first, 0, IDListing(xs, matches), limit, maxBytes)
  {
    var o := PageOptions(ZERO, limit, maxBytes);
    IDListingSorted(xs, matches);
    IDListingPositive(xs, matches);
    var pager := (c, now: int) => IDPage(xs, matches, PageOptions(c, limit, maxBytes));
    IDServes(pager, IDListing(xs, matches), first, Limit(o), MaxBytes(o));
  }

  lemma {:induction false} RowListingPositive(rows: map<nat, Experience>, matches: Experience -> bool, bound: nat)
    requires 0 !in rows
    ensures forall x :: x in RowListing(rows, matches, bound) ==> x.rank.ByID? && x.rank.id > 0
  {
    if bound > 0 { RowListingPositive(rows, matches, bound - 1); }
  }

  lemma BoltIDPagerServes(rows: map<nat, Experience>, matches: Experience -> bool, bound: nat, limit: int, maxBytes: int, first: int)
    requires 0 !in rows
    ensures ServesSorted((c, now) => BoltIDPage(rows, matches, bound, PageOptions(c, limit, maxBytes)), first, 0, RowListing(rows, matches, bound), limit, maxBytes)
  {
    var o := PageOptions(ZERO, limit, maxBytes);
    RowListingSorted(rows, matches, bound);
    RowListingPositive(rows, matches, bound);
    var pager := (c, now: int) => BoltIDPage(rows, matches, bound, PageOptions(c, limit, maxBytes));
    IDServes(pager, RowListing(rows, matches, bound), first, Limit(o), MaxBytes(o));
  }

  /** Ranked: the clock moves between requests, but the cursor fixes the time
      scores are taken at, so all pages come from the first request's listing. */
  lemma RankedPagerServes(xs: seq<Experience>, matches: Experience -> bool, score: (Experience, int) -> real, limit: int, maxBytes: int, first: int)
    requires InIDOrder(xs) && first != 0
    ensures Distinct(RankedItems(xs, matches, score, first))
    ensures ServesSorted((c, now) => RankedPage(xs, matches, score, PageOptions(c, limit, maxBytes), now), first, first,
                         Listing(RankedItems(xs, matches, score, first)), limit, maxBytes)
  {
    RankedDistinct(xs, matches, score, first);
    var l := Listing(RankedItems(xs, matches, score, first));
    assert forall x :: x in l ==> x.rank.ByScore? && x.rank.id > 0;
  }

  /** Stored dialogues and facts never have an empty key. */
  lemma DialoguePagerServes(ds: map<string, Dialogue>, limit: int, maxBytes: int, first: int)
    requires "" !in ds
    ensures Distinct(DialogueItems(ds))
    ensures ServesSorted((c, now) => DialoguesListed(ds, PageOptions(c, limit, maxBytes)), first, 0, Listing(DialogueItems(ds)), limit, maxBytes)
  {
    DialoguesDistinct(ds);
    var o := PageOptions(ZERO, limit, maxBytes);
    var pager := (c, now: int) => DialoguesListed(ds, PageOptions(c, limit, maxBytes));
    TimeServes(pager, Listing(DialogueItems(ds)), first, Limit(o), MaxBytes(o));
  }

  lemma FactPagerServes(fs: map<string, Fact>, scope: string, limit: int, maxBytes: int, first: int)
    requires "" !in fs
    ensures Distinct(FactItems(fs, scope))
    ensures ServesSorted((c, now) => FactsListed(fs, scope, PageOptions(c, limit, maxBytes)), first, 0, Listing(FactItems(fs, scope)), limit, maxBytes)
  {
    FactsDistinct(fs, scope);
    var o := PageOptions(ZERO, limit, maxBytes);
    var pager := (c, now: int) => FactsListed(fs, scope, PageOptions(c, limit, maxBytes));
    TimeServes(pager, Listing(FactItems(fs, scope)), first, Limit(o), MaxBytes(o));
  }

  /** What holds of every such source: whatever a client has read is the start
      of the listing, complete exactly at the end; and if each record fits the
      budget, a client that keeps asking gets to the end. */
  lemma SourceIsComplete(
    pager: (HistoryCursor, int) -> HistoryResult, asOf: int, l: seq<Item>, limit: int, maxBytes: int, nows: seq<int>, pages: seq<HistoryPage>, at: nat -> int)
    returns (all: seq<HistoryPage>)
    requires ServesSorted(pager, at(0), asOf, l, limit, maxBytes)
    requires |nows| == |pages| && (pages != [] ==> nows[0] == at(0)) && Client(pager, nows, pages)
    ensures pages != [] ==> Complete(pages, l)
    ensures EachFits(l, MaxBytes(PageOptions(ZERO, limit, maxBytes))) ==> Finished(pager, at, all, l)
  {
    var o := PageOptions(ZERO, limit, maxBytes);
    if pages != [] { ClientSeesEverything(pager, asOf, l, Limit(o), MaxBytes(o), nows, pages); }
    all := [];
    if EachFits(l, MaxBytes(o)) { all := ClientReachesEnd(pager, asOf, l, Limit(o), MaxBytes(o), at, []); }
  }

  lemma IDHistoryIsComplete(xs: seq<Experience>, matches: Experience -> bool, limit: int, maxBytes: int,
                            nows: seq<int>, pages: seq<HistoryPage>, at: nat -> int) returns (all: seq<HistoryPage>)
    requires InIDOrder(xs) && |nows| == |pages| && (pages != [] ==> nows[0] == at(0))
    requires Client((c, now) => IDPage(xs, matches, PageOptions(c, limit, maxBytes)), nows, pages)
    ensures pages != [] ==> Complete(pages, IDListing(xs, matches))
    ensures EachFits(IDListing(xs, matches), MaxBytes(PageOptions(ZERO, limit, maxBytes))) ==>
              Finished((c, now) => IDPage(xs, matches, PageOptions(c, limit, maxBytes)), at, all, IDListing(xs, matches))
  {
    IDPagerServes(xs, matches, limit, maxBytes, at(0));
    var pager := (c, now: int) => IDPage(xs, matches, PageOptions(c, limit, maxBytes));
    all := SourceIsComplete(pager, 0, IDListing(xs, matches), limit, maxBytes, nows, pages, at);
  }

  /** With the bound above every stored ID the listing is every matching row. */
  lemma BoltIDHistoryIsComplete(rows: map<nat, Experience>, matches: Experience -> bool, bound: nat, limit: int, maxBytes: int,
                                nows: seq<int>, pages: seq<HistoryPage>, at: nat -> int) returns (all: seq<HistoryPage>)
    requires 0 !in rows && (forall id :: id in rows ==> id < bound)
    requires |nows| == |pages| && (pages != [] ==> nows[0] == at(0))
    requires Client((c, now) => BoltIDPage(rows, matches, bound, PageOptions(c, limit, maxBytes)), nows, pages)
    ensures forall x :: x in RowListing(rows, matches, bound)
                   <==> exists id :: id in rows && matches(rows[id]) && x == IDItem(rows[id].(id := id))
    ensures pages != [] ==> Complete(pages, RowListing(rows, matches, bound))
    ensures EachFits(RowListing(rows, matches, bound), MaxBytes(PageOptions(ZERO, limit, maxBytes))) ==>
              Finished((c, now) => BoltIDPage(rows, matches, bound, PageOptions(c, limit, maxBytes)), at, all, RowListing(rows, matches, bound))
  {
    RowListingMembers(rows, matches, bound);
    BoltIDPagerServes(rows, matches, bound, limit, maxBytes, at(0));
    var pager := (c, now: int) => BoltIDPage(rows, matches, bound, PageOptions(c, limit, maxBytes));
    all := SourceIsComplete(pager, 0, RowListing(rows, matches, bound), limit, maxBytes, nows, pages, at);
  }

  lemma RankedHistoryIsComplete(xs: seq<Experience>, matches: Experience -> bool, score: (Experience, int) -> real, limit: int, maxBytes: int,
                                nows: seq<int>, pages: seq<HistoryPage>, at: nat -> int) returns (all: seq<HistoryPage>)
    requires InIDOrder(xs) && at(0) != 0 && |nows| == |pages| && (pages != [] ==> nows[0] == at(0))
    requires Client((c, now) => RankedPage(xs, matches, score, PageOptions(c, limit, maxBytes), now), nows, pages)
    ensures Distinct(RankedItems(xs, matches, score, at(0)))
    ensures pages != [] ==> Complete(pages, Listing(RankedItems(xs, matches, score, at(0))))
    ensures EachFits(Listing(RankedItems(xs, matches, score, at(0))), MaxBytes(PageOptions(ZERO, limit, maxBytes))) ==>
              Finished((c, now) => RankedPage(xs, matches, score, PageOptions(c, limit, maxBytes), now), at, all, Listing(RankedItems(xs, matches, score, at(0))))
  {
    RankedPagerServes(xs, matches, score, limit, maxBytes, at(0));
    var pager := (c, now: int) => RankedPage(xs, matches, score, PageOptions(c, limit, maxBytes), now);
    all := SourceIsComplete(pager, at(0), Listing(RankedItems(xs, matches, score, at(0))), limit, maxBytes, nows, pages, at);
  }

  lemma DialogueHistoryIsComplete(ds: map<string, Dialogue>, limit: int, maxBytes: int,
                                  nows: seq<int>, pages: seq<HistoryPage>, at: nat -> int) returns (all: seq<HistoryPage>)
    requires "" !in ds && |nows| == |pages| && (pages != [] ==> nows[0] == at(0))
    requires Client((c, now) => DialoguesListed(ds, PageOptions(c, limit, maxBytes)), nows, pages)
    ensures Distinct(DialogueItems(ds))
    ensures pages != [] ==> Complete(pages, Listing(DialogueItems(ds)))
    ensures EachFits(Listing(DialogueItems(ds)), MaxBytes(PageOptions(ZERO, limit, maxBytes))) ==>
              Finished((c, now) => DialoguesListed(ds, PageOptions(c, limit, maxBytes)), at, all, Listing(DialogueItems(ds)))
  {
    DialoguePagerServes(ds, limit, maxBytes, at(0));
    var pager := (c, now: int) => DialoguesListed(ds, PageOptions(c, limit, maxBytes));
    all := SourceIsComplete(pager, 0, Listing(DialogueItems(ds)), limit, maxBytes, nows, pages, at);
  }

  lemma FactHistoryIsComplete(fs: map<string, Fact>, scope: string, limit: int, maxBytes: int,
                              nows: seq<int>, pages: seq<HistoryPage>, at: nat -> int) returns (all: seq<HistoryPage>)
    requires "" !in fs && |nows| == |pages| && (pages != [] ==> nows[0] == at(0))
    requires Client((c, now) => FactsListed(fs, scope, PageOptions(c, limit, maxBytes)), nows, pages)
    ensures Distinct(FactItems(fs, scope))
    ensures pages != [] ==> Complete(pages, Listing(FactItems(fs, scope)))
    ensures EachFits(Listing(FactItems(fs, scope)), MaxBytes(PageOptions(ZERO, limit, maxBytes))) ==>
              Finished((c, now) => FactsListed(fs, scope, PageOptions(c, limit, maxBytes)), at, all, Listing(FactItems(fs, scope)))
  {
    FactPagerServes(fs, scope, limit, maxBytes, at(0));
    var pager := (c, now: int) => FactsListed(fs, scope, PageOptions(c, limit, maxBytes));
    all := SourceIsComplete(pager, 0, Listing(FactItems(fs, scope)), limit, maxBytes, nows, pages, at);
  }
}
