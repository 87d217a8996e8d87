/** Cursor pagination of history listings: one page, and following the cursors
    to the end. */
module HistoryPaging {
  import opened Options
  import opened StringOrder

  const DEFAULT_LIMIT := 50
  const DEFAULT_MAX_BYTES := 67_108_864
  const RANKED_WINDOW := 5000

  /** Where a record stands in its listing. */
  datatype Rank =
    | ByID(id: nat)
    | ByScore(score: real, id: nat)
    | ByTime(updatedAt: int, key: string)

  /** A listed record: its rank, its encoded size and its contents. */
  datatype Item = Item(rank: Rank, size: nat, body: string)

  datatype Page = Page(items: seq<Item>, next: Option<Rank>, hasMore: bool)
  datatype PageResult = Ok(page: Page) | RecordTooLarge

  predicate SameKind(a: Rank, b: Rank) { a.ByID? == b.ByID? && a.ByScore? == b.ByScore? }

  /** `a` is listed before `b`: higher ID, score or time first, ties by ID or key. */
  predicate Before(a: Rank, b: Rank)
  {
    match (a, b)
    case (ByID(i), ByID(j)) => i > j
    case (ByScore(s, i), ByScore(t, j)) => s > t || (s == t && i > j)
    case (ByTime(s, k), ByTime(t, l)) => s > t || (s == t && Less(l, k))
    case _ => false
  }

  lemma BeforeIsStrictOrder(a: Rank, b: Rank, c: Rank)
    ensures !Before(a, a)
    ensures Before(a, b) && Before(b, c) ==> Before(a, c)
    ensures SameKind(a, b) && a != b ==> Before(a, b) || Before(b, a)
  {
    if a.ByTime? {
      LessIrreflexive(a.key);
      if b.ByTime? {
        if a.key != b.key { LessTotal(a.key, b.key); }
        if c.ByTime? && Less(b.key, a.key) && Less(c.key, b.key) { LessTransitive(c.key, b.key, a.key); }
      }
    }
  }

  ghost predicate Sorted(l: seq<Item>) { forall i, j :: 0 <= i < j < |l| ==> Before(l[i].rank, l[j].rank) }

  predicate Follows(x: Item, c: Option<Rank>) { c.None? || Before(c.value, x.rank) }

  function Following(l: seq<Item>, c: Option<Rank>): seq<Item>
  {
    if l == [] then [] else (if Follows(l[0], c) then [l[0]] else []) + Following(l[1..], c)
  }

  // ----- one page -----

  datatype Filled = Filled(taken: nat, more: bool) | TooLarge

  function Required(x: Item, count: nat): nat { if count > 0 then x.size + 1 else x.size }

  /** The page loop over the records that follow the cursor. */
  function Fill(rest: seq<Item>, limit: nat, max: nat, used: nat, count: nat): Filled
  {
    if rest == [] then Filled(0, false)
    else if count == limit then Filled(0, true)
    else if rest[0].size > max then (if count > 0 then Filled(0, true) else TooLarge)
    else if used + Required(rest[0], count) > max then Filled(0, true)
    else Plus(1, Fill(rest[1..], limit, max, used + Required(rest[0], count), count + 1))
  }

  function Plus(n: nat, f: Filled): Filled { if f.TooLarge? then f else f.(taken := f.taken + n) }

  function Paged(l: seq<Item>, c: Option<Rank>, limit: nat, max: nat): PageResult
  {
    var rest := Following(l, c);
    match Fill(rest, limit, max, 0, 0)
    case TooLarge => RecordTooLarge
    case Filled(n, more) => if n <= |rest| then Ok(PageOf(rest, n, more)) else RecordTooLarge
  }

  function PageOf(rest: seq<Item>, n: nat, more: bool): Page
    requires n <= |rest|
  {
    Page(rest[..n], if n > 0 then Some(rest[n - 1].rank) else None, more)
  }

  /** The bytes a page's records take in the response, separators included. */
  function PageBytes(items: seq<Item>): nat
  {
    if items == [] then 0 else PageBytes(items[..|items| - 1]) + Required(items[|items| - 1], |items| - 1)
  }

  lemma PrefixStep(rest: seq<Item>, k: nat)
    requires k < |rest|
    ensures PageBytes(rest[..k + 1]) == PageBytes(rest[..k]) + Required(rest[k], k)
    ensures rest[k..][0] == rest[k] && rest[k..][1..] == rest[k + 1..]
  {
    assert rest[..k + 1][..k] == rest[..k];
  }

  /** `n` records is the most a page may take of `rest`. */
  ghost predicate Longest(rest: seq<Item>, n: nat, limit: nat, max: nat)
  {
    && n <= |rest| && n <= limit && PageBytes(rest[..n]) <= max
    && (n < |rest| ==> n == limit || PageBytes(rest[..n + 1]) > max)
  }

  lemma {:induction false} FillIsLongest(rest: seq<Item>, k: nat, limit: nat, max: nat)
    requires k <= |rest| && k <= limit && PageBytes(rest[..k]) <= max
    requires k == 0 && rest != [] && limit > 0 ==> rest[0].size <= max
    ensures var f := Fill(rest[k..], limit, max, PageBytes(rest[..k]), k);
            f.Filled? && Longest(rest, k + f.taken, limit, max) && (f.more <==> k + f.taken < |rest|)
    decreases |rest| - k
  {
    if k < |rest| {
      PrefixStep(rest, k);
      FillUnfold(rest, k, limit, max, PageBytes(rest[..k]));
      var f := Fill(rest[k..], limit, max, PageBytes(rest[..k]), k);
      if k < limit && PageBytes(rest[..k + 1]) <= max {
        FillIsLongest(rest, k + 1, limit, max);
        assert f == Plus(1, Fill(rest[k + 1..], limit, max, PageBytes(rest[..k + 1]), k + 1));
      } else {
        assert f == Filled(0, true);
      }
    }
  }

  lemma FillUnfold(rest: seq<Item>, k: nat, limit: nat, max: nat, used: nat)
    requires k < |rest| && (k == 0 ==> k == limit || rest[0].size <= max)
    ensures Fill(rest[k..], limit, max, used, k)
         == if k == limit || used + Required(rest[k], k) > max then Filled(0, true)
            else Plus(1, Fill(rest[k + 1..], limit, max, used + Required(rest[k], k), k + 1))
  {
    assert rest[k..][0] == rest[k] && rest[k..][1..] == rest[k + 1..];
  }

  /** The loop takes the longest run of records within the limit and the byte
      budget, and says there is more exactly when some are left. It fails
      exactly when the first record alone exceeds the budget. */
  lemma FillIsMaximal(rest: seq<Item>, limit: nat, max: nat)
    requires limit > 0
    ensures var f := Fill(rest, limit, max, 0, 0);
            && (f.TooLarge? <==> rest != [] && rest[0].size > max)
            && (f.Filled? ==> Longest(rest, f.taken, limit, max) && (f.more <==> f.taken < |rest|) && (rest != [] ==> f.taken > 0))
  {
    if rest == [] || rest[0].size <= max {
      assert rest[..0] == [] && rest[0..] == rest;
      FillIsLongest(rest, 0, limit, max);
      if rest != [] { PrefixStep(rest, 0); }
    }
  }

  /** What one page promises for any listing. */
  lemma PageIsMaximal(l: seq<Item>, c: Option<Rank>, limit: nat, max: nat)
    requires limit > 0
    ensures var rest := Following(l, c);
            var r := Paged(l, c, limit, max);
            && (r.RecordTooLarge? <==> rest != [] && rest[0].size > max)
            && (r.Ok? ==>
                  && r.page.items <= rest && Longest(rest, |r.page.items|, limit, max)
                  && r.page.next == LastRank(r.page.items)
                  && (r.page.hasMore <==> |r.page.items| < |rest|)
                  && (r.page.hasMore ==> r.page.items != []))
  {
    FillIsMaximal(Following(l, c), limit, max);
  }

  function LastRank(items: seq<Item>): Option<Rank> { if items == [] then None else Some(items[|items| - 1].rank) }

  function SumSizes(items: seq<Item>): nat { if items == [] then 0 else SumSizes(items[..|items| - 1]) + items[|items| - 1].size }

  /** A page's bytes are its records' sizes and one separator between each two. */
  lemma {:induction false} BytesAreSizesAndSeparators(items: seq<Item>)
    ensures PageBytes(items) == if items == [] then 0 else SumSizes(items) + |items| - 1
  {
    if items != [] { BytesAreSizesAndSeparators(items[..|items| - 1]); }
  }

  /** What listing order means: larger IDs first; higher scores first, then
      larger IDs; later times first, then larger keys. */
  lemma OrderOnFields(l: seq<Item>, i: nat, j: nat)
    requires Sorted(l) && i < j < |l|
    ensures match (l[i].rank, l[j].rank)
            case (ByID(a), ByID(b)) => a > b
            case (ByScore(s, a), ByScore(t, b)) => s >= t && (s == t ==> a > b)
            case (ByTime(s, a), ByTime(t, b)) => s >= t && (s == t ==> Less(b, a))
            case _ => false
  {
    assert Before(l[i].rank, l[j].rank);
  }

  // ----- following the cursors -----

  lemma {:induction false} FollowingNone(l: seq<Item>)
    ensures Following(l, None) == l
  {
    if l != [] { FollowingNone(l[1..]); }
  }

  lemma {:induction false} FollowingAll(l: seq<Item>, c: Option<Rank>)
    requires forall x :: x in l ==> Follows(x, c)
    ensures Following(l, c) == l
  {
    if l != [] {
      assert l[0] in l;
      FollowingAll(l[1..], c);
    }
  }

  /** In a sorted listing the records after a cursor are those after its record. */
  lemma {:induction false} FollowingIsSuffix(l: seq<Item>, i: nat)
    requires Sorted(l) && i < |l|
    ensures Following(l, Some(l[i].rank)) == l[i + 1..]
  {
    BeforeIsStrictOrder(l[i].rank, l[0].rank, l[i].rank);
    if i == 0 {
      forall x | x in l[1..] ensures Follows(x, Some(l[0].rank)) {
        var j :| 0 <= j < |l[1..]| && l[1..][j] == x;
        assert Before(l[0].rank, l[j + 1].rank);
      }
      FollowingAll(l[1..], Some(l[0].rank));
    } else {
      assert l[1..][i - 1] == l[i];
      FollowingIsSuffix(l[1..], i - 1);
      assert !Before(l[i].rank, l[0].rank);
      assert l[1..][i..] == l[i + 1..];
    }
  }

  function LastCursor(pages: seq<Page>): Option<Rank> { if pages == [] then None else pages[|pages| - 1].next }

  /** The client has no page yet, or was told there is more. */
  predicate Continues(pages: seq<Page>) { pages == [] || pages[|pages| - 1].hasMore }

  /** A client that starts without a cursor and follows NextCursor while told
      there is more. */
  ghost predicate Follow(l: seq<Item>, limit: nat, max: nat, pages: seq<Page>)
  {
    pages == [] ||
    var front := pages[..|pages| - 1];
    Follow(l, limit, max, front) && Continues(front) && Paged(l, LastCursor(front), limit, max) == Ok(pages[|pages| - 1])
  }

  function Concat(pages: seq<Page>): seq<Item>
  {
    if pages == [] then [] else Concat(pages[..|pages| - 1]) + pages[|pages| - 1].items
  }

  lemma FollowOneMore(l: seq<Item>, limit: nat, max: nat, pages: seq<Page>, page: Page)
    requires Follow(l, limit, max, pages) && Continues(pages) && Paged(l, LastCursor(pages), limit, max) == Ok(page)
    ensures Follow(l, limit, max, pages + [page]) && Concat(pages + [page]) == Concat(pages) + page.items
  {
    assert (pages + [page])[..|pages|] == pages;
  }

  ghost predicate EachFits(l: seq<Item>, max: nat) { forall x :: x in l ==> x.size <= max }

  lemma PrefixOfSuffix(l: seq<Item>, n: nat, items: seq<Item>)
    requires n <= |l| && items <= l[n..]
    ensures n + |items| <= |l| && l[..n] + items == l[..n + |items|]
    ensures items != [] ==> items[|items| - 1] == l[n + |items| - 1]
  {
  }

  /** One page read when the listing's first n records have been returned. */
  lemma PageAdvances(l: seq<Item>, n: nat, page: Page, c: Option<Rank>, limit: nat, max: nat)
    requires Sorted(l) && n <= |l| && limit > 0 && Following(l, c) == l[n..] && Paged(l, c, limit, max) == Ok(page)
    ensures n + |page.items| <= |l| && l[..n] + page.items == l[..n + |page.items|]
    ensures page.hasMore <==> n + |page.items| < |l|
    ensures page.hasMore ==> page.items != [] && Following(l, page.next) == l[n + |page.items|..]
  {
    PageIsMaximal(l, c, limit, max);
    PrefixOfSuffix(l, n, page.items);
    if page.hasMore {
      assert page.next == Some(l[n + |page.items| - 1].rank);
      FollowingIsSuffix(l, n + |page.items| - 1);
    }
  }

  lemma {:induction false} PagesArePrefix(l: seq<Item>, limit: nat, max: nat, pages: seq<Page>)
    requires Sorted(l) && limit > 0 && Follow(l, limit, max, pages)
    ensures |Concat(pages)| <= |l| && Concat(pages) == l[..|Concat(pages)|]
    ensures Continues(pages) ==> |pages| <= |Concat(pages)| && Following(l, LastCursor(pages)) == l[|Concat(pages)|..]
    ensures pages != [] ==> (Continues(pages) <==> |Concat(pages)| < |l|) && |pages| <= |Concat(pages)| + 1
  {
    if pages == [] {
      FollowingNone(l);
    } else {
      var front := pages[..|pages| - 1];
      PagesArePrefix(l, limit, max, front);
      PageAdvances(l, |Concat(front)|, pages[|pages| - 1], LastCursor(front), limit, max);
    }
  }

  /** On a listing that does not change, the records returned so far are
      always its first ones, in order and without repetition, and they are all
      of it exactly when the last page says there is no more. Every page but the
      last brings at least one record. */
  lemma PaginationIsComplete(l: seq<Item>, limit: nat, max: nat, pages: seq<Page>)
    requires Sorted(l) && limit > 0 && Follow(l, limit, max, pages) && pages != []
    ensures Concat(pages) <= l
    ensures !pages[|pages| - 1].hasMore <==> Concat(pages) == l
    ensures |pages| <= |l| + 1 && (pages[|pages| - 1].hasMore ==> |pages| < |l|)
  {
    PagesArePrefix(l, limit, max, pages);
  }

  /** When each record fits the budget it never gets stuck: while there is
      more, the next page can be read. */
  lemma NextPageExists(l: seq<Item>, limit: nat, max: nat, pages: seq<Page>)
    requires Sorted(l) && limit > 0 && EachFits(l, max) && Follow(l, limit, max, pages) && Continues(pages)
    ensures Paged(l, LastCursor(pages), limit, max).Ok?
  {
    PagesArePrefix(l, limit, max, pages);
    PageIsMaximal(l, LastCursor(pages), limit, max);
    var rest := Following(l, LastCursor(pages));
    if rest != [] { assert rest[0] == l[|Concat(pages)|]; }
  }
}
