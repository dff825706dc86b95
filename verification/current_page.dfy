/** Current-page resolution, shared by `Factory::getCurrentPage` and
    `Environment::getCurrentPage`.

    The candidate is the explicitly set page if its integer cast is not 0,
    else the current route's page parameter if that is not `null`, else the
    query-string page parameter, defaulting to 1. A candidate that is below
    1 or is not a valid integer becomes page 1. */
module CurrentPage {
  import opened Php
  import opened FilterInt

  /** A matched route: its name and its parameter array. */
  datatype MatchedRoute = MatchedRoute(name: string, parameters: Params)

  /** What `getCurrentPage` reads: the explicitly set page (`null` when
      never set), the page name, the route the router matched (`null` when
      none matched) and the request's query array. */
  datatype PageContext = PageContext(
    currentPage: Option<int>,
    pageName: string,
    currentRoute: Option<MatchedRoute>,
    query: Params)

  /** The outcome of `getCurrentPage`: a page, or the fatal error PHP raises
      when it calls a parameter accessor on the router's `null` current
      route. */
  datatype Resolution = Resolved(page: int) | NoCurrentRoute

  /** The page parameter of the matched route, or `null` when the route has
      none. */
  function RouteParameter(c: PageContext): Option<Value>
    requires c.currentRoute.Some?
  {
    Lookup(c.currentRoute.value.parameters, c.pageName)
  }

  /** What `getCurrentPage` must produce for a context: the fatal error
      exactly when the explicit page is not usable and no route matched,
      else the shared resolution of the route and query parameters. */
  function ExpectedResolution(c: PageContext): Resolution {
    if CastOverride(c.currentPage) != 0 then
      Resolved(ResolveCurrentPage(c.currentPage, None, Lookup(c.query, c.pageName)))
    else if c.currentRoute.None? then NoCurrentRoute
    else Resolved(ResolveCurrentPage(c.currentPage, RouteParameter(c), Lookup(c.query, c.pageName)))
  }

  /** `(int) $this->currentPage`: PHP casts `null` to 0. */
  function CastOverride(currentPage: Option<int>): int {
    currentPage.GetOr(0)
  }

  /** The candidate `$page` before validation. */
  function Candidate(currentPage: Option<int>, routeParameter: Option<Value>, queryParameter: Option<Value>): Value {
    var page := CastOverride(currentPage);
    if page != 0 then VInt(page)
    else match routeParameter
      case Some(v) => v
      case None => queryParameter.GetOr(VInt(1))
  }

  /** Reference meaning of a candidate: `v` names page `n` when it is the
      integer `n`, or the decimal spelling of `n` (optionally with a `+`),
      and `n` is a usable page number. */
  ghost predicate IsPageNumber(v: Value, n: int) {
    && n >= 1
    && match v
       case VInt(m) => m == n
       case VStr(s) => n <= PhpIntMax && (s == Decimal(n) || s == "+" + Decimal(n))
       case VList(_) => false
  }

  /** The validation step: `$page < 1` or a failed
      `filter_var($page, FILTER_VALIDATE_INT)` gives 1, else `$page`. */
  function PageOf(candidate: Value): (page: int)
    ensures page >= 1
    ensures page == 1 || IsPageNumber(candidate, page)
  {
    match candidate
    case VInt(n) => if n < 1 then 1 else n
    case VStr(s) =>
      (match FilterValidateInt(s)
       case None => 1
       case Some(n) =>
         FilterAcceptsOnlySignedDecimal(s, n);
         if n < 1 then 1 else n)
    case VList(_) => 1
  }

  /** A candidate that names a page keeps it. Together with `PageOf`'s own
      contract, this makes page 1 the result exactly for candidates that
      name page 1 or name no page at all. */
  lemma PageOfPageNumber(v: Value, n: int)
    requires IsPageNumber(v, n)
    ensures PageOf(v) == n
  {
    if v.VStr? {
      if v.s == Decimal(n) {
        assert v.s == SignedDecimal(n);
        FilterAcceptsSignedDecimal(n);
      } else {
        FilterAcceptsSignedDecimal(n);
        assert v.s == "+" + SignedDecimal(n);
        assert v.s[1..] == SignedDecimal(n);
      }
    }
  }

  /** The shared resolution: precedence chain, then validation. */
  function ResolveCurrentPage(currentPage: Option<int>, routeParameter: Option<Value>, queryParameter: Option<Value>): (page: int)
    ensures page >= 1
    // A positive explicit page is used as is; a negative one gives 1 and
    // does not fall through to the route or the query.
    ensures CastOverride(currentPage) >= 1 ==> page == CastOverride(currentPage)
    ensures CastOverride(currentPage) < 0 ==> page == 1
    ensures CastOverride(currentPage) == 0 && routeParameter.Some? ==> page == PageOf(routeParameter.value)
    ensures CastOverride(currentPage) == 0 && routeParameter.None? && queryParameter.Some?
      ==> page == PageOf(queryParameter.value)
    ensures CastOverride(currentPage) == 0 && routeParameter.None? && queryParameter.None? ==> page == 1
  {
    PageOf(Candidate(currentPage, routeParameter, queryParameter))
  }

  /** A non-zero explicit page decides the result: neither the route nor the
      query is consulted. */
  lemma OverrideIgnoresRouteAndQuery(currentPage: Option<int>, route1: Option<Value>, query1: Option<Value>,
                                     route2: Option<Value>, query2: Option<Value>)
    requires CastOverride(currentPage) != 0
    ensures ResolveCurrentPage(currentPage, route1, query1) == ResolveCurrentPage(currentPage, route2, query2)
  {
  }

  /** Without an explicit page, a non-null route parameter decides the result
      and the query is not consulted. */
  lemma RouteIgnoresQuery(currentPage: Option<int>, routeParameter: Value, query1: Option<Value>, query2: Option<Value>)
    requires CastOverride(currentPage) == 0
    ensures ResolveCurrentPage(currentPage, Some(routeParameter), query1)
         == ResolveCurrentPage(currentPage, Some(routeParameter), query2)
  {
  }

  /** Without an explicit page, the result is the page that the route
      parameter names, or, when that is `null`, the page the query parameter
      (default 1) names. */
  lemma ResolvesNamedPage(currentPage: Option<int>, routeParameter: Option<Value>, queryParameter: Option<Value>, n: int)
    requires CastOverride(currentPage) == 0
    requires IsPageNumber(if routeParameter.Some? then routeParameter.value else queryParameter.GetOr(VInt(1)), n)
    ensures ResolveCurrentPage(currentPage, routeParameter, queryParameter) == n
  {
    PageOfPageNumber(if routeParameter.Some? then routeParameter.value else queryParameter.GetOr(VInt(1)), n);
  }

  /** The outcomes the test suites pin down (tests/FactoryTest.php,
      tests/EnvironmentTest.php). */
  lemma TestedResolutions()
    // `?page=2` gives 2 and `?page=-1` gives 1.
    ensures ResolveCurrentPage(None, None, Some(VStr("2"))) == 2
    ensures ResolveCurrentPage(None, None, Some(VStr("-1"))) == 1
    // A route parameter of 2 gives 2.
    ensures ResolveCurrentPage(None, Some(VInt(2)), None) == 2
    // An explicit page of 3 beats `?page=2`.
    ensures ResolveCurrentPage(Some(3), None, Some(VStr("2"))) == 3
  {
    PageOfPageNumber(VStr("2"), 2);
    assert FilterValidateInt("-1") == Some(-1) by {
      assert "-1"[1..] == "1";
    }
  }
}
