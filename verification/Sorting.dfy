/** What the sources get from the standard library's algorithms: an unstable sort and binary searches. */
module Sorting {
  import opened CalendarTypes

  /** A strict weak order, as std::ranges::sort demands of its comparator. */
  ghost predicate WeakOrder<T(!new)>(before: (T, T) -> bool) {
    && (forall a, b :: before(a, b) ==> !before(b, a))
    && (forall a, b, c :: !before(b, a) && !before(c, b) ==> !before(c, a))
  }

  ghost predicate SortedBy<T(!new)>(xs: seq<T>, before: (T, T) -> bool) {
    forall i, j :: 0 <= i < j < |xs| ==> !before(xs[j], xs[i])
  }

  method Insert<T(!new)>(sorted: seq<T>, x: T, before: (T, T) -> bool) returns (ys: seq<T>)
    requires WeakOrder(before) && SortedBy(sorted, before)
    ensures SortedBy(ys, before) && multiset(ys) == multiset(sorted) + multiset{x}
  {
    var k := 0;
    while k < |sorted| && !before(x, sorted[k])
      invariant 0 <= k <= |sorted|
      invariant forall i :: 0 <= i < k ==> !before(x, sorted[i])
    {
      k := k + 1;
    }
    ys := sorted[..k] + [x] + sorted[k..];
    assert sorted == sorted[..k] + sorted[k..];
    InsertKeepsOrder(sorted, x, k, before);
  }

  lemma InsertKeepsOrder<T(!new)>(sorted: seq<T>, x: T, k: nat, before: (T, T) -> bool)
    requires WeakOrder(before) && SortedBy(sorted, before) && k <= |sorted|
    requires forall i :: 0 <= i < k ==> !before(x, sorted[i])
    requires k < |sorted| ==> before(x, sorted[k])
    ensures SortedBy(sorted[..k] + [x] + sorted[k..], before)
  {
    forall j | k <= j < |sorted| ensures !before(sorted[j], x) {
      assert !before(sorted[k], x);
    }
  }

  /** std::ranges::sort: equal elements may come out in any order, so callers learn only this. */
  method Sort<T(!new)>(xs: seq<T>, before: (T, T) -> bool) returns (ys: seq<T>)
    requires WeakOrder(before)
    ensures SortedBy(ys, before) && multiset(ys) == multiset(xs)
  {
    ys := [];
    for i := 0 to |xs|
      invariant SortedBy(ys, before) && multiset(ys) == multiset(xs[..i])
    {
      ys := Insert(ys, xs[i], before);
      assert xs[..i + 1] == xs[..i] + [xs[i]];
    }
    assert xs[..|xs|] == xs;
  }

  predicate StartsBefore(a: CalendarEvent, b: CalendarEvent) { a.start < b.start }

  /** std::ranges::lower_bound on event start: the first event starting at or after `tick`. */
  method LowerBound(events: seq<CalendarEvent>, tick: int) returns (k: nat)
    requires SortedByStart(events)
    ensures k <= |events|
    ensures forall i :: 0 <= i < k ==> StartTick(events[i]) < tick
    ensures forall i :: k <= i < |events| ==> tick <= StartTick(events[i])
  {
    var first, count := 0, |events|;
    while count > 0
      invariant 0 <= first && 0 <= count && first + count <= |events|
      invariant forall i :: 0 <= i < first ==> StartTick(events[i]) < tick
      invariant forall i :: first + count <= i < |events| ==> tick <= StartTick(events[i])
      decreases count
    {
      var half := count / 2;
      if StartTick(events[first + half]) < tick {
        first, count := first + half + 1, count - half - 1;
      } else {
        count := half;
      }
    }
    k := first;
  }

  /** std::ranges::upper_bound on event start: the first event starting after `tick`. */
  method UpperBound(events: seq<CalendarEvent>, tick: int) returns (k: nat)
    requires SortedByStart(events)
    ensures k <= |events|
    ensures forall i :: 0 <= i < k ==> StartTick(events[i]) <= tick
    ensures forall i :: k <= i < |events| ==> tick < StartTick(events[i])
  {
    var first, count := 0, |events|;
    while count > 0
      invariant 0 <= first && 0 <= count && first + count <= |events|
      invariant forall i :: 0 <= i < first ==> StartTick(events[i]) <= tick
      invariant forall i :: first + count <= i < |events| ==> tick < StartTick(events[i])
      decreases count
    {
      var half := count / 2;
      if StartTick(events[first + half]) <= tick {
        first, count := first + half + 1, count - half - 1;
      } else {
        count := half;
      }
    }
    k := first;
  }
}
