/** The proximity-limited page window of `Paginator::calculatePagesRange`.

    The window `[current - p, current + p]` is shifted once so that it
    starts at page 1 (when it starts too low) or, failing that, ends at the
    last page (when it ends too high); whatever still lies outside
    `[1, last]` is then cut off. */
module PageWindow {
  import opened Php

  function Min(a: int, b: int): int {
    if a <= b then a else b
  }

  function Max(a: int, b: int): int {
    if a >= b then a else b
  }

  /** The first and last page of the window, computed step by step as the
      source does: one shift, then the two clamps. */
  function WindowBounds(current: int, last: int, proximity: int): (int, int) {
    var start := current - proximity;
    var end := current + proximity;
    var (shiftedStart, shiftedEnd) :=
      if start < 1 then (start + (1 - start), end + (1 - start))
      else if end > last then (start - (end - last), end - (end - last))
      else (start, end);
    var clampedStart := if shiftedStart < 1 then 1 else shiftedStart;
    var clampedEnd := if shiftedEnd > last then last else shiftedEnd;
    (clampedStart, clampedEnd)
  }

  /** Reference definition of the window: the first page is the centred
      start `current - p`, but never past `last - 2p` (so the window can hold
      `2p + 1` pages) and never before page 1; the window then runs `2p`
      pages on, but not past the last page. */
  function CentredStart(current: int, last: int, proximity: int): int {
    Max(1, Min(current - proximity, last - 2 * proximity))
  }

  function CentredEnd(current: int, last: int, proximity: int): int {
    Min(CentredStart(current, last, proximity) + 2 * proximity, last)
  }

  /** The shift-then-clamp steps compute the reference window, for every
      combination of integers. */
  lemma WindowBoundsAreCentred(current: int, last: int, proximity: int)
    ensures WindowBounds(current, last, proximity)
         == (CentredStart(current, last, proximity), CentredEnd(current, last, proximity))
  {
  }

  /** The hypotheses under which the window is well behaved: there is at
      least one page, the current page is one of them and the proximity is
      not negative. */
  predicate Sensible(current: int, last: int, proximity: int) {
    1 <= current <= last && 0 <= proximity
  }

  /** `calculatePagesRange()`: the pages of the window, as PHP `range`
      lists them. */
  function CalculatePagesRange(current: int, last: int, proximity: int): (r: seq<int>)
    // Upward shift takes priority: a window that starts too low is pinned
    // to page 1 whatever happens at its upper end.
    ensures current - proximity < 1 ==> r == Range(1, Min(2 * proximity + 1, last))
    ensures Sensible(current, last, proximity) ==>
      && |r| == Min(2 * proximity + 1, last)
      && (forall i :: 0 <= i < |r| ==> r[i] == r[0] + i)
      && (forall i :: 0 <= i < |r| ==> 1 <= r[i] <= last)
      && current in r
  {
    var (start, end) := WindowBounds(current, last, proximity);
    WindowBoundsAreCentred(current, last, proximity);
    Range(start, end)
  }

  /** Ascending and duplicate-free: the window is sorted strictly. */
  lemma WindowStrictlyAscending(current: int, last: int, proximity: int, i: int, j: int)
    requires Sensible(current, last, proximity)
    requires 0 <= i < j < |CalculatePagesRange(current, last, proximity)|
    ensures CalculatePagesRange(current, last, proximity)[i] < CalculatePagesRange(current, last, proximity)[j]
  {
  }

  /** The window holds exactly the pages between its centred bounds. */
  lemma WindowMembership(current: int, last: int, proximity: int, page: int)
    requires Sensible(current, last, proximity)
    ensures page in CalculatePagesRange(current, last, proximity)
        <==> CentredStart(current, last, proximity) <= page <= CentredEnd(current, last, proximity)
  {
    WindowBoundsAreCentred(current, last, proximity);
  }

  /** Page 1 is in the window exactly when the current page is within
      `p + 1` pages of it, or the pages are too few to fill the window
      beyond page 1. */
  lemma WindowHasFirstPage(current: int, last: int, proximity: int)
    requires Sensible(current, last, proximity)
    ensures 1 in CalculatePagesRange(current, last, proximity)
        <==> current - proximity <= 1 || last - 2 * proximity <= 1
  {
    WindowMembership(current, last, proximity, 1);
  }

  /** The last page is in the window exactly when the current page is
      within `p` pages of it, or the window is at least as wide as all the
      pages. */
  lemma WindowHasLastPage(current: int, last: int, proximity: int)
    requires Sensible(current, last, proximity)
    ensures last in CalculatePagesRange(current, last, proximity)
        <==> current + proximity >= last || 2 * proximity + 1 >= last
  {
    WindowMembership(current, last, proximity, last);
  }

  /** The windows the test suite pins down (tests/PaginatorTest.php). */
  lemma TestedWindows()
    ensures CalculatePagesRange(5, 10, 2) == [3, 4, 5, 6, 7]
    ensures CalculatePagesRange(5, 10, 10) == Range(1, 10)
    ensures CalculatePagesRange(1, 10, 2) == [1, 2, 3, 4, 5]
    ensures CalculatePagesRange(10, 10, 2) == [6, 7, 8, 9, 10]
    ensures CalculatePagesRange(1, 2, 4) == [1, 2]
    ensures CalculatePagesRange(2, 2, 4) == [1, 2]
    ensures CalculatePagesRange(2, 2, 1) == [1, 2]
  {
  }
}
