/** The pagination of `AlchemyManager.retrieve_list` in
    `ripozo_sqlalchemy/alchemymanager.py`: the page and count arguments are
    popped out of the filters, the filtered query is windowed with an
    offset and a limit one larger than the count (to detect a next page),
    and `next`/`previous` link dicts are built. */
module AlchemyPagination {
  import opened Common

  /** The manager's pagination settings: `pagination_pk_query_arg`,
      `pagination_count_query_arg` and `paginate_by`. */
  datatype PageArgs = PageArgs(pageArg: string, countArg: string, paginateBy: int)

  datatype Links = Links(next: Option<map<string, int>>, previous: Option<map<string, int>>)

  /** One computed page: the rows it shows, its links, and the filters
      left in the caller's dict after the two pops. */
  datatype Page = Page(rows: seq<Value>, links: Links, remaining: map<string, int>)

  /** `dict.get(key, default)` (the value `pop` returns). */
  function Get(m: map<string, int>, key: string, default: int): int {
    if key in m then m[key] else default
  }

  /** `query.offset(n)`: a negative offset skips nothing. */
  function OffsetRows<T>(rows: seq<T>, n: int): (r: seq<T>)
    ensures n >= 0 ==> r == rows[if n <= |rows| then n else |rows|..]
    ensures n < 0 ==> r == rows
  {
    if n <= 0 then rows else if n >= |rows| then [] else rows[n..]
  }

  /** `query.limit(n)`: a negative limit means no limit. */
  function LimitRows<T>(rows: seq<T>, n: int): (r: seq<T>)
    ensures n >= 0 ==> r == rows[..if n <= |rows| then n else |rows|]
    ensures n < 0 ==> r == rows
  {
    if n < 0 || n >= |rows| then rows else rows[..n]
  }

  /** `query[:stop]`, with Python's meaning for a negative stop. */
  function SliceTo<T>(rows: seq<T>, stop: int): (r: seq<T>)
    ensures stop >= 0 ==> r == rows[..if stop <= |rows| then stop else |rows|]
    ensures stop < 0 && |rows| + stop >= 0 ==> r == rows[..|rows| + stop]
    ensures stop < 0 && |rows| + stop < 0 ==> r == []
  {
    if stop >= 0 then (if stop >= |rows| then rows else rows[..stop])
    else if |rows| + stop <= 0 then []
    else rows[..|rows| + stop]
  }

  /** The two pops of `retrieve_list`: the count (default `paginate_by`) is
      popped first, then the one-based page (default 1), which is made
      zero-based; `remaining` is what the caller's dict holds afterwards. */
  datatype PageRequest = PageRequest(count: int, pk: int, remaining: map<string, int>)

  function PopPageArgs(cfg: PageArgs, filters: map<string, int>): (req: PageRequest)
    ensures req.remaining == filters - {cfg.countArg, cfg.pageArg}
  {
    var count := Get(filters, cfg.countArg, cfg.paginateBy);
    var afterCount := filters - {cfg.countArg};
    var pk := Get(afterCount, cfg.pageArg, 1) - 1;
    assert afterCount - {cfg.pageArg} == filters - {cfg.countArg, cfg.pageArg};
    PageRequest(count, pk, afterCount - {cfg.pageArg})
  }

  /** `query.offset(pk * count)` when pk is non-zero, then
      `query.limit(count + 1)` when count is non-zero: one row more than
      the page shows, to tell whether a next page exists. */
  function Fetch<T>(query: seq<T>, pk: int, count: int): seq<T> {
    var offsetQuery := if pk != 0 then OffsetRows(query, pk * count) else query;
    if count != 0 then LimitRows(offsetQuery, count + 1) else offsetQuery
  }

  /** `next` when the fetched rows outnumber the count, `previous` when the
      zero-based page is positive. */
  function MakeLinks(cfg: PageArgs, pk: int, count: int, fetched: nat): Links {
    var next := if fetched > count then Some(map[cfg.pageArg := pk + 2, cfg.countArg := count]) else None;
    var previous := if pk > 0 then Some(map[cfg.pageArg := pk, cfg.countArg := count]) else None;
    Links(next, previous)
  }

  /** The pagination part of `retrieve_list`. `filterBy` is
      `query.filter_by(**filters)` of the manager's queryset. */
  function ListPage(cfg: PageArgs, filters: map<string, int>, filterBy: map<string, int> -> seq<Value>): Page {
    var req := PopPageArgs(cfg, filters);
    var fetched := Fetch(filterBy(req.remaining), req.pk, req.count);
    Page(SliceTo(fetched, req.count), MakeLinks(cfg, req.pk, req.count, |fetched|), req.remaining)
  }

  /** The page number `retrieve_list` works with (default 1). */
  function PageOf(cfg: PageArgs, filters: map<string, int>): int {
    Get(filters - {cfg.countArg}, cfg.pageArg, 1)
  }

  /** The count `retrieve_list` works with (default `paginate_by`). */
  function CountOf(cfg: PageArgs, filters: map<string, int>): int {
    Get(filters, cfg.countArg, cfg.paginateBy)
  }

  /** For a non-negative zero-based page and a positive count the fetch is
      the window of count + 1 rows starting at row lo = pk * count. */
  lemma FetchWindow<T>(query: seq<T>, pk: int, count: int, lo: int)
    requires pk >= 0 && count >= 1 && lo == pk * count
    ensures lo >= 0
    ensures Fetch(query, pk, count)
            == query[(if lo <= |query| then lo else |query|)..(if lo + count + 1 <= |query| then lo + count + 1 else |query|)]
  {
    ProductNonNegative(pk, count);
    OffsetThenLimit(query, if pk != 0 then lo else 0, count);
  }

  /** Proof step: the offset `pk * count` of a non-negative page is non-negative. */
  lemma ProductNonNegative(a: int, b: int)
    requires a >= 0 && b >= 0
    ensures a * b >= 0
  {
  }

  /** Skipping lo rows and then taking count + 1 is the window from row lo. */
  lemma OffsetThenLimit<T>(query: seq<T>, lo: int, count: int)
    requires lo >= 0 && count >= 1
    ensures LimitRows(OffsetRows(query, lo), count + 1)
            == query[(if lo <= |query| then lo else |query|)..(if lo + count + 1 <= |query| then lo + count + 1 else |query|)]
  {
  }

  /** The page shows the first count rows of the fetch: rows lo up to
      lo + count - 1, and there is a next page exactly when a row lies
      beyond them. */
  lemma SliceWindow<T>(query: seq<T>, lo: int, count: int)
    requires lo >= 0 && count >= 1
    ensures var fetched := query[(if lo <= |query| then lo else |query|)..(if lo + count + 1 <= |query| then lo + count + 1 else |query|)];
            && SliceTo(fetched, count) == query[(if lo <= |query| then lo else |query|)..(if lo + count <= |query| then lo + count else |query|)]
            && (|fetched| > count <==> |query| > lo + count)
  {
  }

  /** For page p >= 1 and count c >= 1: the page and count arguments are
      removed before filtering; the page shows rows (p-1)c up to (p-1)c+c-1
      of the filtered query (at most c rows); `next` is {page: p+1, count: c}
      exactly when a row exists beyond the window; `previous` is
      {page: p-1, count: c} exactly when p > 1. */
  lemma PageWindow(cfg: PageArgs, filters: map<string, int>, filterBy: map<string, int> -> seq<Value>)
    requires cfg.pageArg != cfg.countArg
    requires PageOf(cfg, filters) >= 1 && CountOf(cfg, filters) >= 1
    ensures var p, c := PageOf(cfg, filters), CountOf(cfg, filters);
            var page := ListPage(cfg, filters, filterBy);
            var q := filterBy(filters - {cfg.countArg, cfg.pageArg});
            var lo := (p - 1) * c;
            && page.remaining == filters - {cfg.countArg, cfg.pageArg}
            && page.rows == q[(if lo <= |q| then lo else |q|)..(if lo + c <= |q| then lo + c else |q|)]
            && |page.rows| <= c
            && (page.links.next.Some? <==> |q| > lo + c)
            && (page.links.next.Some? ==> page.links.next.value == map[cfg.pageArg := p + 1, cfg.countArg := c])
            && (page.links.previous.Some? <==> p > 1)
            && (page.links.previous.Some? ==> page.links.previous.value == map[cfg.pageArg := p - 1, cfg.countArg := c])
  {
    var p, c := PageOf(cfg, filters), CountOf(cfg, filters);
    var req := PopPageArgs(cfg, filters);
    assert req.count == c && req.pk == p - 1;
    var q := filterBy(req.remaining);
    var lo := (p - 1) * c;
    FetchWindow(q, p - 1, c, lo);
    SliceWindow(q, lo, c);
  }

  /** The first request has no page and no count: it is page 1 of
      `paginate_by` rows. */
  lemma DefaultsArePageOne(cfg: PageArgs, filterBy: map<string, int> -> seq<Value>)
    requires cfg.pageArg != cfg.countArg
    ensures ListPage(cfg, map[], filterBy)
            == ListPage(cfg, map[cfg.pageArg := 1, cfg.countArg := cfg.paginateBy], filterBy)
  {
    var f := map[cfg.pageArg := 1, cfg.countArg := cfg.paginateBy];
    assert f - {cfg.countArg} - {cfg.pageArg} == map[];
    var empty: map<string, int> := map[];
    assert empty - {cfg.countArg} - {cfg.pageArg} == empty;
  }

  /** A request with only a page takes `paginate_by` as the count. */
  lemma DefaultCount(cfg: PageArgs, p: int, filterBy: map<string, int> -> seq<Value>)
    requires cfg.pageArg != cfg.countArg
    ensures ListPage(cfg, map[cfg.pageArg := p], filterBy)
            == ListPage(cfg, map[cfg.pageArg := p, cfg.countArg := cfg.paginateBy], filterBy)
  {
    var f := map[cfg.pageArg := p, cfg.countArg := cfg.paginateBy];
    assert f - {cfg.countArg} - {cfg.pageArg} == map[];
    assert map[cfg.pageArg := p] - {cfg.countArg} - {cfg.pageArg} == map[];
    assert map[cfg.pageArg := p] - {cfg.countArg} == map[cfg.pageArg := p];
  }

  /** The explicit page dict {page: p, count: c}. */
  function PageDict(cfg: PageArgs, p: int, c: int): map<string, int> {
    map[cfg.pageArg := p, cfg.countArg := c]
  }

  lemma PageDictArgs(cfg: PageArgs, p: int, c: int)
    requires cfg.pageArg != cfg.countArg
    ensures PageOf(cfg, PageDict(cfg, p, c)) == p && CountOf(cfg, PageDict(cfg, p, c)) == c
    ensures PageDict(cfg, p, c) - {cfg.countArg, cfg.pageArg} == map[]
  {
    assert PageDict(cfg, p, c) - {cfg.countArg} == map[cfg.pageArg := p];
  }

  /** Proof step: the rows before page p + 1 are those before page p and
      page p itself, and symmetrically for page p - 1. */
  lemma NextOffset(p: int, c: int, lo: int)
    requires lo == (p - 1) * c
    ensures lo + c == ((p + 1) - 1) * c && lo - c == ((p - 1) - 1) * c
  {
  }

  /** One page of the walk: page p of c rows over the unfiltered query,
      with lo = (p - 1) * c rows before it (lo within the rows). */
  lemma PageStep(cfg: PageArgs, filterBy: map<string, int> -> seq<Value>, p: int, c: int, lo: int)
    requires cfg.pageArg != cfg.countArg
    requires p >= 1 && c >= 1 && lo == (p - 1) * c
    requires lo <= |filterBy(map[])|
    ensures var n := |filterBy(map[])|;
            var page := ListPage(cfg, PageDict(cfg, p, c), filterBy);
            && |page.rows| == (if n - lo <= c then n - lo else c)
            && page.links.next == (if n > lo + c then Some(PageDict(cfg, p + 1, c)) else None)
            && page.links.previous == (if p > 1 then Some(PageDict(cfg, p - 1, c)) else None)
  {
    PageDictArgs(cfg, p, c);
    PageWindow(cfg, PageDict(cfg, p, c), filterBy);
    assert lo + c == p * c;
  }

  /** Reference page sizes for n rows of which lo are before the current
      page: full pages of c rows, then the rest. */
  function PageSizes(n: nat, lo: nat, c: nat): (sizes: seq<nat>)
    requires lo <= n && c >= 1
    ensures |sizes| >= 1
    decreases n - lo
  {
    if n - lo > c then [c] + PageSizes(n, lo + c, c) else [n - lo]
  }

  function Sum(xs: seq<nat>): nat {
    if |xs| == 0 then 0 else xs[0] + Sum(xs[1..])
  }

  /** The pages cover the remaining rows exactly once: their sizes add up to
      n - lo, every page but the last is full, and the last is non-empty
      unless it is the only page and no rows remain. */
  lemma {:induction false} PageSizesCover(n: nat, lo: nat, c: nat)
    requires lo <= n && c >= 1
    ensures var w := PageSizes(n, lo, c);
            && Sum(w) == n - lo
            && (forall i :: 0 <= i < |w| - 1 ==> w[i] == c)
            && (0 < w[|w| - 1] <= c || (|w| == 1 && n == lo))
    decreases n - lo
  {
    if n - lo > c {
      PageSizesCover(n, lo + c, c);
      var w := PageSizes(n, lo, c);
      assert w[1..] == PageSizes(n, lo + c, c);
    }
  }

  /** When n - lo is k full pages plus a last page of r rows (0 < r <= c),
      there are k + 1 pages. */
  lemma {:induction false} PageSizesExact(n: nat, lo: nat, c: nat, k: nat, r: nat)
    requires c >= 1 && 0 < r <= c && n == lo + k * c + r
    ensures PageSizes(n, lo, c) == seq(k, _ => c) + [r]
    decreases k
  {
    if k > 0 {
      assert k * c == (k - 1) * c + c;
      PageSizesExact(n, lo + c, c, k - 1, r);
      assert seq(k, _ => c) == [c] + seq(k - 1, _ => c);
    }
  }

  lemma PageSizesStep(n: nat, lo: nat, c: nat)
    requires c >= 1 && n > lo + c
    ensures PageSizes(n, lo, c) == [c] + PageSizes(n, lo + c, c)
  {
  }

  lemma PageSizesLast(n: nat, lo: nat, c: nat)
    requires c >= 1 && lo <= n <= lo + c
    ensures PageSizes(n, lo, c) == [n - lo]
  {
  }


  /** k full pages: n - lo is a multiple k >= 1 of c. */
  lemma PageSizesFull(n: nat, lo: nat, c: nat, k: nat)
    requires c >= 1 && k >= 1 && n == lo + k * c
    ensures PageSizes(n, lo, c) == seq(k, _ => c)
  {
    assert k * c == (k - 1) * c + c;
    PageSizesExact(n, lo, c, k - 1, c);
    assert seq(k - 1, _ => c) + [c] == seq(k, _ => c);
  }


  /** The page function of one manager and queryset: the page that
      `retrieve_list` computes for each request's arguments. */
  function Pages(cfg: PageArgs, filterBy: map<string, int> -> seq<Value>): map<string, int> -> Page {
    f => ListPage(cfg, f, filterBy)
  }

  /** The row counts of the pages a client sees when it requests `filters`
      and then follows `next` (the loop of the pagination tests), for at
      most `fuel` further requests. */
  function WalkNext(page: map<string, int> -> Page, filters: map<string, int>, fuel: nat): (sizes: seq<nat>)
    ensures |sizes| >= 1
    decreases fuel
  {
    var pg := page(filters);
    [|pg.rows|] + if pg.links.next.Some? && fuel > 0 then WalkNext(page, pg.links.next.value, fuel - 1) else []
  }

  /** The same when following `previous`. */
  function WalkPrevious(page: map<string, int> -> Page, filters: map<string, int>, fuel: nat): (sizes: seq<nat>)
    ensures |sizes| >= 1
    decreases fuel
  {
    var pg := page(filters);
    [|pg.rows|] + if pg.links.previous.Some? && fuel > 0 then WalkPrevious(page, pg.links.previous.value, fuel - 1) else []
  }

  /** What `PageStep` states about page p of c rows over n rows. */
  ghost predicate StepAt(page: map<string, int> -> Page, cfg: PageArgs, n: nat, c: int, p: int) {
    var lo := (p - 1) * c;
    var pg := page(PageDict(cfg, p, c));
    && |pg.rows| == (if n - lo <= c then n - lo else c)
    && pg.links.next == (if n > lo + c then Some(PageDict(cfg, p + 1, c)) else None)
    && pg.links.previous == (if p > 1 then Some(PageDict(cfg, p - 1, c)) else None)
  }

  /** Every page of c rows that starts within the n rows is as `PageStep`
      states. */
  ghost predicate Paginates(page: map<string, int> -> Page, cfg: PageArgs, n: nat, c: int) {
    forall p :: 1 <= p && (p - 1) * c <= n ==> StepAt(page, cfg, n, c, p)
  }

  /** The manager's pages over the unfiltered query paginate its rows. */
  lemma ListPaginates(cfg: PageArgs, filterBy: map<string, int> -> seq<Value>, c: int)
    requires cfg.pageArg != cfg.countArg && c >= 1
    ensures Paginates(Pages(cfg, filterBy), cfg, |filterBy(map[])|, c)
  {
    forall p | 1 <= p && (p - 1) * c <= |filterBy(map[])|
      ensures StepAt(Pages(cfg, filterBy), cfg, |filterBy(map[])|, c, p)
    {
      PageStep(cfg, filterBy, p, c, (p - 1) * c);
    }
  }

  /** Following `next` from page p over pages that paginate n rows, with at
      least as much fuel as rows remain, shows exactly the reference page
      sizes. */
  lemma {:induction false} ForwardWalk(page: map<string, int> -> Page, cfg: PageArgs, n: nat, p: int, c: int, lo: nat, fuel: nat)
    requires Paginates(page, cfg, n, c)
    requires p >= 1 && c >= 1 && lo == (p - 1) * c
    requires lo <= n && fuel + lo >= n
    ensures WalkNext(page, PageDict(cfg, p, c), fuel) == PageSizes(n, lo, c)
    decreases fuel
  {
    assert StepAt(page, cfg, n, c, p);
    if n > lo + c {
      NextOffset(p, c, lo);
      ForwardWalk(page, cfg, n, p + 1, c, lo + c, fuel - 1);
      PageSizesStep(n, lo, c);
    } else {
      PageSizesLast(n, lo, c);
    }
  }

  /** Following `previous` from a page p that starts within the rows visits
      p pages, down to page 1; every page before p is full. */
  lemma {:induction false} BackwardWalk(page: map<string, int> -> Page, cfg: PageArgs, n: nat, p: int, c: int, lo: int, fuel: nat)
    requires Paginates(page, cfg, n, c)
    requires p >= 1 && c >= 1 && lo == (p - 1) * c
    requires lo <= n && fuel + 1 >= p
    ensures WalkPrevious(page, PageDict(cfg, p, c), fuel) == [if n - lo <= c then n - lo else c] + seq(p - 1, _ => c)
    decreases p
  {
    assert StepAt(page, cfg, n, c, p);
    if p > 1 {
      NextOffset(p, c, lo);
      BackwardWalk(page, cfg, n, p - 1, c, lo - c, fuel - 1);
      assert seq(p - 1, _ => c) == [c] + seq(p - 2, _ => c);
    }
  }

  /** Two requests that compute the same page walk the same way. */
  lemma SameWalk(page: map<string, int> -> Page, f: map<string, int>, g: map<string, int>, fuel: nat)
    requires page(f) == page(g)
    ensures WalkNext(page, f, fuel) == WalkNext(page, g, fuel)
    ensures WalkPrevious(page, f, fuel) == WalkPrevious(page, g, fuel)
  {
  }

  /** Following `next` from the first request (no page, no count
      argument), with at least as much fuel as there are rows, shows the
      reference page sizes of `paginate_by` rows from row 0. */
  lemma WalkFromStart(cfg: PageArgs, filterBy: map<string, int> -> seq<Value>, fuel: nat)
    requires cfg.pageArg != cfg.countArg && cfg.paginateBy >= 1
    requires fuel >= |filterBy(map[])|
    ensures WalkNext(Pages(cfg, filterBy), map[], fuel) == PageSizes(|filterBy(map[])|, 0, cfg.paginateBy)
  {
    var c := cfg.paginateBy;
    DefaultsArePageOne(cfg, filterBy);
    SameWalk(Pages(cfg, filterBy), map[], PageDict(cfg, 1, c), fuel);
    ListPaginates(cfg, filterBy, c);
    ForwardWalk(Pages(cfg, filterBy), cfg, |filterBy(map[])|, 1, c, 0, fuel);
  }

  /** Following `previous` from a request f that computes page p (which
      starts within the rows) visits p pages: page p, then p - 1 full
      pages; when page p is full as well, p full pages. */
  lemma BackwardFrom(page: map<string, int> -> Page, cfg: PageArgs, n: nat, f: map<string, int>, p: int, c: int, fuel: nat)
    requires Paginates(page, cfg, n, c)
    requires p >= 1 && c >= 1 && (p - 1) * c <= n && fuel + 1 >= p
    requires page(f) == page(PageDict(cfg, p, c))
    ensures var lo := (p - 1) * c;
            WalkPrevious(page, f, fuel) == [if n - lo <= c then n - lo else c] + seq(p - 1, _ => c)
    ensures p * c <= n ==> WalkPrevious(page, f, fuel) == seq(p, _ => c)
  {
    SameWalk(page, f, PageDict(cfg, p, c), fuel);
    BackwardWalk(page, cfg, n, p, c, (p - 1) * c, fuel);
    NextOffset(p, c, (p - 1) * c);
    FullPagesCons(p, c);
  }

  /** Following `previous` from a request that names only page p (which
      starts within the rows) visits p pages of `paginate_by` rows: page p,
      then p - 1 full pages. */
  lemma WalkFromPage(cfg: PageArgs, filterBy: map<string, int> -> seq<Value>, p: int, fuel: nat)
    requires cfg.pageArg != cfg.countArg && cfg.paginateBy >= 1
    requires p >= 1 && (p - 1) * cfg.paginateBy <= |filterBy(map[])| && fuel + 1 >= p
    ensures var n, c := |filterBy(map[])|, cfg.paginateBy;
            var lo := (p - 1) * c;
            WalkPrevious(Pages(cfg, filterBy), map[cfg.pageArg := p], fuel)
            == [if n - lo <= c then n - lo else c] + seq(p - 1, _ => c)
    ensures p * cfg.paginateBy <= |filterBy(map[])| ==>
            WalkPrevious(Pages(cfg, filterBy), map[cfg.pageArg := p], fuel) == seq(p, _ => cfg.paginateBy)
  {
    DefaultCount(cfg, p, filterBy);
    ListPaginates(cfg, filterBy, cfg.paginateBy);
    BackwardFrom(Pages(cfg, filterBy), cfg, |filterBy(map[])|, map[cfg.pageArg := p], p, cfg.paginateBy, fuel);
  }

  /** Proof step: k full pages are one full page followed by k - 1 more. */
  lemma FullPagesCons(k: nat, c: nat)
    requires k >= 1
    ensures [c] + seq(k - 1, _ => c) == seq(k, _ => c)
  {
  }

  /** The integration test with 100 rows and ten per page, forward from the
      first request: ten full pages. */
  lemma ForwardHundred(cfg: PageArgs, filterBy: map<string, int> -> seq<Value>)
    requires cfg.pageArg != cfg.countArg && cfg.paginateBy == 10 && |filterBy(map[])| == 100
    ensures WalkNext(Pages(cfg, filterBy), map[], 100) == seq(10, _ => 10)
  {
    WalkFromStart(cfg, filterBy, 100);
    PageSizesFull(|filterBy(map[])|, 0, 10, 10);
  }

  /** 100 rows, backward from page 10: ten full pages. */
  lemma BackwardHundred(cfg: PageArgs, filterBy: map<string, int> -> seq<Value>)
    requires cfg.pageArg != cfg.countArg && cfg.paginateBy == 10 && |filterBy(map[])| == 100
    ensures WalkPrevious(Pages(cfg, filterBy), map[cfg.pageArg := 10], 100) == seq(10, _ => 10)
  {
    WalkFromPage(cfg, filterBy, 10, 100);
  }

  /** 101 rows, forward: ten full pages and a last page of one row. */
  lemma ForwardHundredOne(cfg: PageArgs, filterBy: map<string, int> -> seq<Value>)
    requires cfg.pageArg != cfg.countArg && cfg.paginateBy == 10 && |filterBy(map[])| == 101
    ensures WalkNext(Pages(cfg, filterBy), map[], 101) == seq(10, _ => 10) + [1]
  {
    WalkFromStart(cfg, filterBy, 101);
    PageSizesExact(|filterBy(map[])|, 0, 10, 10, 1);
  }

  /** 101 rows, backward from page 11: the one-row page, then ten full ones. */
  lemma BackwardHundredOne(cfg: PageArgs, filterBy: map<string, int> -> seq<Value>)
    requires cfg.pageArg != cfg.countArg && cfg.paginateBy == 10 && |filterBy(map[])| == 101
    ensures WalkPrevious(Pages(cfg, filterBy), map[cfg.pageArg := 11], 101) == [1] + seq(10, _ => 10)
  {
    WalkFromPage(cfg, filterBy, 11, 101);
  }
}
