# DeSmart pagination, modelled in Dafny

This project models the logic that the DeSmart pagination package adds to the
framework paginator. It covers three things:

- **The page window.** `Paginator::getPagesRange` lists every page when no
  proximity is set. With a proximity `p` it takes `[current - p, current + p]`,
  shifts it once to fit inside `[1, last]` (the upward shift is checked first),
  and then clamps it. The range is cached, and only `pagesProximity(n)` clears
  the cache. `canShowFirstPage` and `canShowLastPage` test whether page 1 and
  the last page are missing from that range.
- **Route-bound link parameters.** When a route is bound, `Paginator::getUrl`
  starts from the route's parameters. If query passthrough is on, it merges in
  the request query with `array_merge`, so query keys win on a collision. It
  then sets the page-name key to the page. The URL generator is opaque: the
  model records the `(name, parameters, absolute)` call it receives.
- **Current-page resolution.** `Factory::getCurrentPage` and
  `Environment::getCurrentPage` run the same chain against two router APIs.
  The explicit page is used if its integer cast is non-zero. Otherwise the
  route parameter is used if it is not `null`. Otherwise the query parameter
  is used, defaulting to 1. A candidate below 1, or one that is not a valid
  integer, gives page 1.

Modules:

- `Php` (`php.dfy`) models the PHP built-ins the code uses: `null` as `Option`,
  array values, string-keyed arrays as maps, `range` (including its descending
  form), `array_search` and `array_merge`.
- `FilterInt` (`filter_int.dfy`) models `FILTER_VALIDATE_INT` on strings and
  the decimal spelling it accepts.
- `PageWindow` (`page_window.dfy`) models `calculatePagesRange`, with a
  closed-form reference window.
- `Paginator` (`paginator.dfy`) models the paginator record, its fluent setters
  (each returns an updated record), the cache, `canShow*` and `getUrl`.
- `CurrentPage` (`current_page.dfy`) holds the shared resolution function.
  `Factory` (`factory.dfy`) and `Environment` (`environment.dfy`) hold the two
  `getCurrentPage` methods, each proved equal to it.

Three behaviours of the code that a reader might not expect:

- On a key collision in route mode, the query value wins over the route
  parameter, because `array_merge` lets its second argument win.
- No URL fragment is appended, because the code has no fragment handling.
- A route is bound by name only. The code never stores a route object.

## Model

| member | source | states |
|---|---|---|
| Php.Range | src/DeSmart/Pagination/Paginator.php:202 | PHP `range(low, high)`: `abs(low - high) + 1` integers, stepping by one from `low` towards `high`; for `low <= high` exactly the integers in between |
| Php.ArraySearch | src/DeSmart/Pagination/Paginator.php:211 | `array_search` gives `false` exactly when the needle is absent, else the first index holding it |
| Php.ArrayMerge | src/DeSmart/Pagination/Paginator.php:143 | `array_merge` on string keys: the union of keys, the second array's value on a shared key, the first's elsewhere |
| FilterInt.FilterValidateInt | src/DeSmart/Pagination/Factory.php:66 | an accepted string yields a value within PHP's 64-bit integer range |
| FilterInt.FilterAcceptsSignedDecimal | src/DeSmart/Pagination/Factory.php:66 | every 64-bit integer's decimal spelling passes the filter with that integer's value |
| FilterInt.FilterAcceptsOnlySignedDecimal | src/DeSmart/Pagination/Factory.php:66 | the filter accepts only an integer's own spelling, that spelling with a `+`, or `-0` |
| PageWindow.CalculatePagesRange | src/DeSmart/Pagination/Paginator.php:177-203 | if `current - p < 1` the window is `[1 .. min(2p+1, last)]` (upward shift first); given `1 <= current <= last` and `p >= 0`, the window is contiguous, ascending, inside `[1, last]`, contains `current`, and has `min(2p+1, last)` pages |
| PageWindow.WindowBoundsAreCentred | src/DeSmart/Pagination/Paginator.php:180-200 | for all integers, shifting once and then clamping gives the reference window: start `max(1, min(current - p, last - 2p))`, end `min(start + 2p, last)` |
| PageWindow.WindowStrictlyAscending | src/DeSmart/Pagination/Paginator.php:202 | the window is strictly ascending, so it has no duplicates |
| PageWindow.WindowMembership | src/DeSmart/Pagination/Paginator.php:177-203 | a page is in the window iff it lies between the reference bounds |
| PageWindow.WindowHasFirstPage | src/DeSmart/Pagination/Paginator.php:183-196 | page 1 is in the window iff `current - p <= 1` or `last - 2p <= 1` |
| PageWindow.WindowHasLastPage | src/DeSmart/Pagination/Paginator.php:188-200 | the last page is in the window iff `current + p >= last` or `2p + 1 >= last` |
| PageWindow.TestedWindows | tests/PaginatorTest.php:119-150 | the windows the tests fix: p=2, last=10 at pages 5, 1 and 10; p=10, last=10; p=4 and p=1 with last=2 |
| Paginator.NewPaginator | src/DeSmart/Pagination/Paginator.php:19-43 | a new paginator passes the query on, has no bound route, no proximity and no cached range |
| Paginator.WithQuery | src/DeSmart/Pagination/Paginator.php:64-68 | turns query passthrough on and changes nothing else |
| Paginator.WithoutQuery | src/DeSmart/Pagination/Paginator.php:75-79 | turns query passthrough off and changes nothing else |
| Paginator.PagesProximity | src/DeSmart/Pagination/Paginator.php:87-92 | sets the proximity, clears the cache, and leaves every other field unchanged |
| Paginator.Route | src/DeSmart/Pagination/Paginator.php:102-106 | stores `(name, parameters, absolute)`, with defaults of no parameters and `absolute = true`, and changes nothing else |
| Paginator.FreshPagesRange | src/DeSmart/Pagination/Paginator.php:162-167 | with no proximity and `last >= 1`, exactly the pages `1..last`; with a proximity, the proximity window |
| Paginator.GetPagesRange | src/DeSmart/Pagination/Paginator.php:156-170 | returns a cached range unchanged and leaves the state alone; otherwise computes the range afresh and caches it, changing no other field |
| Paginator.CanShowFirstPage | src/DeSmart/Pagination/Paginator.php:210-212 | true iff page 1 is not in the range; the cache ends up as `getPagesRange` leaves it |
| Paginator.CanShowLastPage | src/DeSmart/Pagination/Paginator.php:219-221 | true iff the last page is not in the range; the cache ends up as `getPagesRange` leaves it |
| Paginator.GetUrl | src/DeSmart/Pagination/Paginator.php:134-149 | with no bound route, the base URL for the page. Otherwise one generator call with the bound name and stored absolute flag. Its keys are the route's keys, plus the query's keys when passthrough is on, plus the page name. The page name maps to the page. A query value wins on a shared key, and the route's value is kept elsewhere |
| Paginator.GetUrlIgnoresQueryWithoutQuery | src/DeSmart/Pagination/Paginator.php:142-144 | with passthrough off, the request query does not affect the generator call |
| Paginator.TestedUrls | tests/PaginatorTest.php:22-66 | the generator calls the route tests expect, with the current default `absolute = true` |
| Paginator.OperationsKeepCacheCoherent | src/DeSmart/Pagination/Paginator.php:87-170 | every setter, and `getPagesRange` itself, keeps the cache either empty or equal to the freshly computed range |
| Paginator.OnlyProximityClearsCache | src/DeSmart/Pagination/Paginator.php:64-106 | `withQuery`, `withoutQuery` and `route` leave the cached range as it was |
| Paginator.GetPagesRangeIdempotent | src/DeSmart/Pagination/Paginator.php:158-160 | asking for the range a second time returns the same range and state |
| Paginator.ProximityResetRecomputes | src/DeSmart/Pagination/Paginator.php:87-92 | after `pagesProximity(n)`, the next range is recomputed from the current state, whatever was cached before |
| Paginator.PagesRangeIsWindow | src/DeSmart/Pagination/Paginator.php:156-203 | for a valid state with a proximity, the range is contiguous, ascending, inside `[1, last]`, contains the current page, and has `min(2p+1, last)` pages |
| Paginator.AllPagesShowFirstAndLast | src/DeSmart/Pagination/Paginator.php:162-164 | with no proximity the range is `[1..last]`, so neither the first-page nor the last-page test holds |
| Paginator.CanShowFirstAndLastInWindow | src/DeSmart/Pagination/Paginator.php:210-221 | with proximity `n`: the first-page test holds iff `current - n > 1` and `last - 2n > 1`; the last-page test holds iff `current + n < last` and `2n + 1 < last` |
| Paginator.TestedFirstAndLastPage | tests/PaginatorTest.php:152-169 | the first- and last-page test results on the planted ranges `[1,2,3]`, `[2,3,4]` and `[5,6,7]` with last page 7 |
| Paginator.TestedProximitySequence | tests/PaginatorTest.php:119-135 | the test's sequence of proximity changes and range queries yields `[3..7]`, `[1..10]`, `[1..5]`, `[6..10]` |
| CurrentPage.PageOf | src/DeSmart/Pagination/Factory.php:66-70 | the validated page is at least 1, and is either 1 or the page the candidate names |
| CurrentPage.PageOfPageNumber | src/DeSmart/Pagination/Factory.php:66-70 | a candidate that names page `n >= 1` (the integer, or its decimal spelling) yields `n` |
| CurrentPage.ResolveCurrentPage | src/DeSmart/Pagination/Factory.php:54-71 | The result is at least 1. A positive explicit page is returned as is. A negative one gives 1 and does not fall through. With no explicit page, a non-null route parameter decides the result. Otherwise the query parameter decides it, defaulting to 1 |
| CurrentPage.OverrideIgnoresRouteAndQuery | src/DeSmart/Pagination/Factory.php:55-57 | with a non-zero explicit page, the route and query values do not affect the result |
| CurrentPage.RouteIgnoresQuery | src/DeSmart/Pagination/Factory.php:57-62 | with no explicit page and a non-null route parameter, the query does not affect the result |
| CurrentPage.ResolvesNamedPage | src/DeSmart/Pagination/Factory.php:57-70 | with no explicit page, the page named by the first non-null source (route, then query, then 1) is returned |
| CurrentPage.TestedResolutions | tests/FactoryTest.php:27-61 | the expected test results: `?page=2` gives 2, `?page=-1` gives 1, route parameter 2 gives 2, and explicit 3 beats `?page=2` |
| Factory.GetCurrentPage | src/DeSmart/Pagination/Factory.php:54-71 | the factory's statement-by-statement resolution fails exactly when the explicit page casts to 0 and no route matched (the route accessor is then called on `null`); otherwise it yields the shared resolution, which is at least 1 |
| Environment.GetCurrentPage | src/DeSmart/Pagination/Environment.php:54-70 | the environment's resolution, through the older router API, fails exactly when the explicit page casts to 0 and no route matched; otherwise it yields the shared resolution, which is at least 1 |
| Environment.AgreesWithFactory | src/DeSmart/Pagination/Environment.php:54-70 | for the same explicit page, matched route and query, the environment and the factory give the same outcome, failure included |

## Left out

- View rendering is not modelled: `links` and `getPaginationView` only hand the paginator to the framework's view factory.
- `make()` and `setupPaginationContext` are not modelled, because they build the base paginator, which is not part of this model.
- `PaginationServiceProvider` only registers services in the container, so it is not modelled.
- The base paginator's `getUrl`, item counting, iteration, `getLastPage` and `getCurrentPage` are not modelled. `lastPage` and `currentPage` are fields of the paginator record. `getUrl` without a bound route returns `BaseUrl(page)` in place of the base URL.
- `useCurrentRoute` is left out. It calls `Router::currentRouteName()`, which does not exist (see the TODO at src/DeSmart/Pagination/Paginator.php:114). A caller can bind the current route's name and parameters with `Paginator.Route`.
- `setUrlGenerator` and `setRouter` only inject collaborators, so they are not modelled. The URL generator is represented by the recorded call (`UrlRequest`). Router and request lookups are plain inputs: the route and query arrays of `PageContext`, and the query passed to `GetUrl`.
- `UrlGenerator::route` is not modelled, so no URL string is produced.
- Php.ArrayMerge: treats every key as a string key, so on a shared key the second array's value wins. PHP stores a numeric-string key such as `"5"` as the integer key 5, and `array_merge` renumbers integer keys. It therefore keeps both values, under new keys, where the model keeps only the second. Paginator.GetUrl inherits this. PHP arrays also keep insertion order, which maps do not.
- FilterInt.FilterValidateInt does not trim surrounding whitespace, so it rejects strings such as `" 2"` that PHP accepts.
- CurrentPage.PageOf returns the integer value of an accepted string. PHP returns the string itself (for example `"2"`), which callers use as the same number.
- CurrentPage.PageOf treats any non-scalar candidate (a nested array) as invalid, which gives page 1, as the filter does in PHP. Other PHP value kinds (floats, booleans, objects) are not modelled.
- The explicit page is an `Option<int>`. A non-integer value stored with `setCurrentPage` would go through PHP's `(int)` cast, and that cast is not modelled.
- Paginator.GetPagesRange keeps a cached range even if `currentPage` or `lastPage` change, as the source does. No operation in the model changes those two fields, so the cache never goes stale here.
- The test expectations at tests/PaginatorTest.php:32, :47 and :82 expect `null`, or a route object, as the generator's third argument. The current `route()` stores `true` by default, so the model follows the code and does not encode those expectations.
