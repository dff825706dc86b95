/** The paginator's own state and operations: the fluent setters, the
    cached page range, the first/last-page tests on it, and the arguments
    handed to the URL generator when a route is bound. */
module Paginator {
  import opened Php
  import opened PageWindow

  /** A route bound with `route($name, $parameters, $absolute)`. */
  datatype RouteBinding = RouteBinding(name: string, parameters: Params, absolute: bool)

  /** The paginator fields this extension reads or writes. `currentPage` and
      `lastPage` are what the base paginator's `getCurrentPage()` and
      `getLastPage()` return; `pageName` is the owning factory's page name. */
  datatype PaginatorState = PaginatorState(
    currentPage: int,
    lastPage: int,
    pageName: string,
    withQuery: bool,
    route: Option<RouteBinding>,
    pagesProximity: Option<int>,
    pagesRange: Option<seq<int>>)

  /** What `getUrl` asks for: the base paginator's URL for a page, or a call
      to the URL generator's `route($name, $parameters, $absolute)`. */
  datatype UrlRequest =
    | BaseUrl(page: int)
    | GeneratorRoute(name: string, parameters: Params, absolute: bool)

  /** A fresh paginator: query passthrough on, no bound route, no proximity
      and nothing cached. */
  function NewPaginator(currentPage: int, lastPage: int, pageName: string): (p: PaginatorState)
    ensures p.currentPage == currentPage && p.lastPage == lastPage && p.pageName == pageName
    ensures p.withQuery && p.route.None? && p.pagesProximity.None? && p.pagesRange.None?
  {
    PaginatorState(currentPage, lastPage, pageName, true, None, None, None)
  }

  /** `withQuery()`: pass the request query on to bound routes. */
  function WithQuery(p: PaginatorState): (r: PaginatorState)
    ensures r.withQuery
    ensures r.(withQuery := p.withQuery) == p
  {
    p.(withQuery := true)
  }

  /** `withoutQuery()`: do not pass the request query on. */
  function WithoutQuery(p: PaginatorState): (r: PaginatorState)
    ensures !r.withQuery
    ensures r.(withQuery := p.withQuery) == p
  {
    p.(withQuery := false)
  }

  /** `pagesProximity($proximity)`: set the proximity (`null` shows every
      page) and drop the cached range, even when the proximity is unchanged. */
  function PagesProximity(p: PaginatorState, proximity: Option<int>): (r: PaginatorState)
    ensures r.pagesProximity == proximity && r.pagesRange.None?
    ensures r.(pagesProximity := p.pagesProximity, pagesRange := p.pagesRange) == p
  {
    p.(pagesProximity := proximity, pagesRange := None)
  }

  /** `route($name, $parameters = array(), $absolute = true)`: bind the
      route that page links are generated for. */
  function Route(p: PaginatorState, name: string, parameters: Params := map[], absolute: bool := true): (r: PaginatorState)
    ensures r.route == Some(RouteBinding(name, parameters, absolute))
    ensures r.(route := p.route) == p
  {
    p.(route := Some(RouteBinding(name, parameters, absolute)))
  }

  /** The range `getPagesRange()` computes when nothing is cached. */
  function FreshPagesRange(p: PaginatorState): (r: seq<int>)
    ensures p.pagesProximity.None? && p.lastPage >= 1 ==>
      |r| == p.lastPage && forall x :: x in r <==> 1 <= x <= p.lastPage
    ensures p.pagesProximity.Some? ==> r == CalculatePagesRange(p.currentPage, p.lastPage, p.pagesProximity.value)
  {
    match p.pagesProximity
    case None => Range(1, p.lastPage)
    case Some(proximity) => CalculatePagesRange(p.currentPage, p.lastPage, proximity)
  }

  /** `getPagesRange()`: the cached range if there is one, else the fresh
      range, which is then cached. Returns the range and the new state. */
  function GetPagesRange(p: PaginatorState): (r: (seq<int>, PaginatorState))
    ensures p.pagesRange.Some? ==> r.0 == p.pagesRange.value && r.1 == p
    ensures p.pagesRange.None? ==> r.0 == FreshPagesRange(p)
    ensures r.1.pagesRange == Some(r.0)
    ensures r.1.(pagesRange := p.pagesRange) == p
  {
    match p.pagesRange
    case Some(cached) => (cached, p)
    case None =>
      var range := FreshPagesRange(p);
      (range, p.(pagesRange := Some(range)))
  }

  /** `canShowFirstPage()`: page 1 is not in the range. */
  function CanShowFirstPage(p: PaginatorState): (r: (bool, PaginatorState))
    ensures r.0 <==> 1 !in GetPagesRange(p).0
    ensures r.1 == GetPagesRange(p).1
  {
    var (range, p') := GetPagesRange(p);
    (ArraySearch(1, range).None?, p')
  }

  /** `canShowLastPage()`: the last page is not in the range. */
  function CanShowLastPage(p: PaginatorState): (r: (bool, PaginatorState))
    ensures r.0 <==> p.lastPage !in GetPagesRange(p).0
    ensures r.1 == GetPagesRange(p).1
  {
    var (range, p') := GetPagesRange(p);
    (ArraySearch(p.lastPage, range).None?, p')
  }

  /** `getUrl($page)`: with no bound route, the base paginator's URL; with
      one, a generator call for the bound route's name and absolute flag,
      whose parameters are the route's, overlaid by the request query when
      query passthrough is on, with the page name mapped to `page`. */
  function GetUrl(p: PaginatorState, query: Params, page: int): (r: UrlRequest)
    ensures p.route.None? ==> r == BaseUrl(page)
    ensures p.route.Some? ==>
      && r.GeneratorRoute?
      && r.name == p.route.value.name
      && r.absolute == p.route.value.absolute
      && r.parameters.Keys == p.route.value.parameters.Keys + (if p.withQuery then query.Keys else {}) + {p.pageName}
      && r.parameters[p.pageName] == VInt(page)
      && forall k :: k in r.parameters && k != p.pageName ==>
           r.parameters[k] == if p.withQuery && k in query then query[k] else p.route.value.parameters[k]
  {
    match p.route
    case None => BaseUrl(page)
    case Some(binding) =>
      var parameters := if p.withQuery then ArrayMerge(binding.parameters, query) else binding.parameters;
      GeneratorRoute(binding.name, parameters[p.pageName := VInt(page)], binding.absolute)
  }

  /** Without query passthrough the request query is never consulted. */
  lemma GetUrlIgnoresQueryWithoutQuery(p: PaginatorState, query1: Params, query2: Params, page: int)
    requires !p.withQuery
    ensures GetUrl(p, query1, page) == GetUrl(p, query2, page)
  {
  }

  /** The generator calls the test suite pins down (tests/PaginatorTest.php)
      for a fresh paginator over two pages, with the absolute flag the
      current `route()` stores. */
  lemma TestedUrls()
    ensures GetUrl(Route(NewPaginator(1, 2, "page"), "test.route"), map["a" := VInt(1)], 1)
         == GeneratorRoute("test.route", map["a" := VInt(1), "page" := VInt(1)], true)
    ensures GetUrl(Route(WithoutQuery(NewPaginator(1, 2, "page")), "test.route"), map["a" := VInt(1)], 1)
         == GeneratorRoute("test.route", map["page" := VInt(1)], true)
    ensures GetUrl(Route(WithoutQuery(NewPaginator(1, 2, "page")), "test.route", map["b" := VStr("foo")], false),
                   map["a" := VInt(1)], 1)
         == GeneratorRoute("test.route", map["b" := VStr("foo"), "page" := VInt(1)], false)
  {
  }

  /** The state hypotheses the window properties need: at least one page,
      a current page among them, and a non-negative proximity. */
  predicate Valid(p: PaginatorState) {
    && p.lastPage >= 1
    && 1 <= p.currentPage <= p.lastPage
    && (p.pagesProximity.Some? ==> p.pagesProximity.value >= 0)
  }

  /** The cache holds nothing, or what would be computed afresh. */
  predicate CacheCoherent(p: PaginatorState) {
    p.pagesRange.None? || p.pagesRange.value == FreshPagesRange(p)
  }

  /** No operation of the paginator makes the cache stale: the setters other
      than `pagesProximity` touch none of the fields the range depends on,
      and `pagesProximity` drops the cache. */
  lemma OperationsKeepCacheCoherent(p: PaginatorState, name: string, parameters: Params, absolute: bool, proximity: Option<int>)
    requires CacheCoherent(p)
    ensures CacheCoherent(WithQuery(p)) && CacheCoherent(WithoutQuery(p))
    ensures CacheCoherent(Route(p, name, parameters, absolute))
    ensures CacheCoherent(PagesProximity(p, proximity))
    ensures CacheCoherent(GetPagesRange(p).1)
  {
  }

  /** Only `pagesProximity` drops the cache: the other setters keep it. */
  lemma OnlyProximityClearsCache(p: PaginatorState, name: string, parameters: Params, absolute: bool)
    ensures WithQuery(p).pagesRange == p.pagesRange
    ensures WithoutQuery(p).pagesRange == p.pagesRange
    ensures Route(p, name, parameters, absolute).pagesRange == p.pagesRange
  {
  }

  /** Asking twice gives the same range and leaves the state as the first
      call left it. */
  lemma GetPagesRangeIdempotent(p: PaginatorState)
    ensures GetPagesRange(GetPagesRange(p).1) == GetPagesRange(p)
  {
  }

  /** After `pagesProximity`, the next `getPagesRange()` recomputes from the
      current state, whatever was cached before. */
  lemma ProximityResetRecomputes(p: PaginatorState, proximity: Option<int>)
    ensures GetPagesRange(PagesProximity(p, proximity)).0
         == match proximity
            case None => Range(1, p.lastPage)
            case Some(n) => CalculatePagesRange(p.currentPage, p.lastPage, n)
  {
  }

  /** The window properties at the paginator: a range computed with a
      proximity is contiguous, ascending, inside `[1, lastPage]`, holds the
      current page and has `min(2p + 1, lastPage)` pages. */
  lemma PagesRangeIsWindow(p: PaginatorState)
    requires Valid(p) && CacheCoherent(p) && p.pagesProximity.Some?
    ensures var range := GetPagesRange(p).0;
      && |range| == Min(2 * p.pagesProximity.value + 1, p.lastPage)
      && (forall i :: 0 <= i < |range| ==> range[i] == range[0] + i)
      && (forall i :: 0 <= i < |range| ==> 1 <= range[i] <= p.lastPage)
      && p.currentPage in range
  {
    assert Sensible(p.currentPage, p.lastPage, p.pagesProximity.value);
  }

  /** Without a proximity every page is listed, so neither the first nor the
      last page needs a separate link. */
  lemma AllPagesShowFirstAndLast(p: PaginatorState)
    requires Valid(p) && CacheCoherent(p) && p.pagesProximity.None?
    ensures GetPagesRange(p).0 == Range(1, p.lastPage)
    ensures !CanShowFirstPage(p).0 && !CanShowLastPage(p).0
  {
  }

  /** With a proximity `n`, a separate first-page link is shown exactly when
      the window starts after page 1, and a separate last-page link exactly
      when it ends before the last page. */
  lemma CanShowFirstAndLastInWindow(p: PaginatorState)
    requires Valid(p) && CacheCoherent(p) && p.pagesProximity.Some?
    ensures var n := p.pagesProximity.value;
      CanShowFirstPage(p).0 <==> p.currentPage - n > 1 && p.lastPage - 2 * n > 1
    ensures var n := p.pagesProximity.value;
      CanShowLastPage(p).0 <==> p.currentPage + n < p.lastPage && 2 * n + 1 < p.lastPage
  {
    WindowHasFirstPage(p.currentPage, p.lastPage, p.pagesProximity.value);
    WindowHasLastPage(p.currentPage, p.lastPage, p.pagesProximity.value);
  }

  /** The first/last-page tests on the cached ranges the test suite plants
      (tests/PaginatorTest.php), with a last page of 7. */
  lemma TestedFirstAndLastPage(p: PaginatorState)
    requires p.lastPage == 7
    ensures !CanShowFirstPage(p.(pagesRange := Some([1, 2, 3]))).0
    ensures CanShowFirstPage(p.(pagesRange := Some([2, 3, 4]))).0
    ensures CanShowFirstPage(p.(pagesRange := Some([5, 6, 7]))).0
    ensures CanShowLastPage(p.(pagesRange := Some([1, 2, 3]))).0
    ensures CanShowLastPage(p.(pagesRange := Some([2, 3, 4]))).0
    ensures !CanShowLastPage(p.(pagesRange := Some([5, 6, 7]))).0
  {
  }

  /** The test suite's sequence of proximity changes and range queries on
      one paginator with ten pages (tests/PaginatorTest.php); the base
      paginator's current page moves from 5 to 1 to 10 between queries. */
  lemma TestedProximitySequence(p: PaginatorState)
    requires p.lastPage == 10 && p.currentPage == 5
    ensures var s1 := GetPagesRange(PagesProximity(p, Some(2)));
      && s1.0 == [3, 4, 5, 6, 7]
      && var s2 := GetPagesRange(PagesProximity(s1.1, Some(10)));
      && s2.0 == Range(1, 10)
      && var s3 := GetPagesRange(PagesProximity(s2.1.(currentPage := 1), Some(2)));
      && s3.0 == [1, 2, 3, 4, 5]
      && var s4 := GetPagesRange(PagesProximity(s3.1.(currentPage := 10), Some(2)));
      && s4.0 == [6, 7, 8, 9, 10]
  {
    TestedWindows();
  }
}
