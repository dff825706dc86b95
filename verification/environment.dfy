/** `Environment::getCurrentPage`, written against the older router API in
    which the matched route is `getCurrentRoute()` and its parameters are
    read with `getParameter(name, default)`. */
module Environment {
  import opened Php
  import opened CurrentPage
  import Factory

  /** `$this->router->getCurrentRoute()->getParameter($name, null)`; the
      call fails when no route matched. */
  function GetCurrentRouteParameter(c: PageContext, name: string): Option<Value>
    requires c.currentRoute.Some?
  {
    Lookup(c.currentRoute.value.parameters, name)
  }

  /** The current page, resolved statement by statement as the source does.
      Without a usable explicit page and without a matched route, the route
      accessor is called on `null` and resolution fails. */
  method GetCurrentPage(c: PageContext) returns (r: Resolution)
    ensures r.NoCurrentRoute? <==> CastOverride(c.currentPage) == 0 && c.currentRoute.None?
    ensures r.Resolved? ==> r.page >= 1
    ensures r == ExpectedResolution(c)
  {
    var cast := CastOverride(c.currentPage);
    var candidate: Value;
    if cast != 0 {
      candidate := VInt(cast);
    } else {
      match c.currentRoute {
        case None =>
          return NoCurrentRoute;
        case Some(_) =>
          var routeParameter := GetCurrentRouteParameter(c, c.pageName);
          if routeParameter.Some? {
            candidate := routeParameter.value;
          } else {
            candidate := if c.pageName in c.query then c.query[c.pageName] else VInt(1);
          }
      }
    }
    r := Resolved(PageOf(candidate));
  }

  /** The two versions of `getCurrentPage` agree on every context, failure
      included. */
  method AgreesWithFactory(c: PageContext) returns (environmentResult: Resolution, factoryResult: Resolution)
    ensures environmentResult == factoryResult
    ensures environmentResult.Resolved? ==> environmentResult.page >= 1
  {
    environmentResult := GetCurrentPage(c);
    factoryResult := Factory.GetCurrentPage(c);
  }
}
