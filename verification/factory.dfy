/** `Factory::getCurrentPage`, written against the router API in which the
    matched route is `current()` and its parameters are read with
    `parameter(name, default)`. */
module Factory {
  import opened Php
  import opened CurrentPage

  /** `$this->router->current()->parameter($name, null)`; the call fails
      when no route matched. */
  function CurrentRouteParameter(c: PageContext, name: string): Option<Value>
    requires c.currentRoute.Some?
  {
    Lookup(c.currentRoute.value.parameters, name)
  }

  /** `$this->request->query->get($name, $default)`. */
  function QueryGet(c: PageContext, name: string, default: Value): Value {
    Lookup(c.query, name).GetOr(default)
  }

  /** The current page, resolved statement by statement as the source does.
      Without a usable explicit page and without a matched route, the route
      accessor is called on `null` and resolution fails. */
  method GetCurrentPage(c: PageContext) returns (r: Resolution)
    ensures r.NoCurrentRoute? <==> CastOverride(c.currentPage) == 0 && c.currentRoute.None?
    ensures r.Resolved? ==> r.page >= 1
    ensures r == ExpectedResolution(c)
  {
    var candidate: Option<Value> := Some(VInt(CastOverride(c.currentPage)));
    if CastOverride(c.currentPage) == 0 {
      if c.currentRoute.None? {
        return NoCurrentRoute;
      }
      candidate := CurrentRouteParameter(c, c.pageName);
    }
    if candidate.None? {
      candidate := Some(QueryGet(c, c.pageName, VInt(1)));
    }
    r := Resolved(PageOf(candidate.value));
  }
}
