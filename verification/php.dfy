/** The PHP runtime pieces the pagination code leans on: nullable values,
    the values held in route-parameter and query arrays, and the array
    functions `range`, `array_search` and `array_merge`. */
module Php {

  /** A PHP value that may be `null`. */
  datatype Option<+T> = None | Some(value: T) {

    /** The held value, or `default` when this is `null`. */
    function GetOr(default: T): T {
      match this
      case Some(v) => v
      case None => default
    }
  }

  /** A value stored in a route-parameter or query-string array: an integer,
      a string, or a nested array (as `?page[]=1` produces). */
  datatype Value = VInt(i: int) | VStr(s: string) | VList(items: seq<Value>)

  /** A string-keyed PHP array. Key order is not modelled. */
  type Params = map<string, Value>

  /** The value stored under `key`, or `null` when the key is absent. */
  function Lookup(params: Params, key: string): (r: Option<Value>)
    ensures r.Some? <==> key in params
    ensures r.Some? ==> r.value == params[key]
  {
    if key in params then Some(params[key]) else None
  }

  /** PHP `range(low, high)` on integers with the default step of 1: it
      counts up from `low` to `high` when `low <= high` and down otherwise,
      and both ends are always included. */
  function Range(low: int, high: int): (r: seq<int>)
    ensures |r| == if low <= high then high - low + 1 else low - high + 1
    ensures forall i :: 0 <= i < |r| ==> r[i] == if low <= high then low + i else low - i
    ensures low <= high ==> forall x :: x in r <==> low <= x <= high
    decreases if low <= high then high - low else low - high
  {
    if low == high then [low]
    else if low < high then [low] + Range(low + 1, high)
    else [low] + Range(low - 1, high)
  }

  /** PHP `array_search(needle, haystack)` on a list of integers: the index
      of the first element equal to `needle`, or `false` (here `None`). */
  function ArraySearch(needle: int, haystack: seq<int>): (r: Option<nat>)
    ensures r.None? <==> needle !in haystack
    ensures r.Some? ==> r.value < |haystack| && haystack[r.value] == needle
    ensures r.Some? ==> forall j :: 0 <= j < r.value ==> haystack[j] != needle
  {
    if |haystack| == 0 then None
    else if haystack[0] == needle then Some(0)
    else
      match ArraySearch(needle, haystack[1..])
      case None => None
      case Some(i) => Some(i + 1)
  }

  /** PHP `array_merge(first, second)` on string-keyed arrays: every key of
      either array, where `second`'s value wins on a shared key. */
  function ArrayMerge(first: Params, second: Params): (r: Params)
    ensures r.Keys == first.Keys + second.Keys
    ensures forall k :: k in second ==> r[k] == second[k]
    ensures forall k :: k in first && k !in second ==> r[k] == first[k]
  {
    first + second
  }
}
