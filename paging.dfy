/**
 * LIMIT and OFFSET of a query: the page a listing returns out of the rows
 * it selects.
 */
module Paging {

  /** LIMIT limit OFFSET offset: skip `offset` rows, then keep at most `limit`. */
  function Page<T>(xs: seq<T>, offset: nat, limit: nat): (r: seq<T>)
    ensures |r| == if offset >= |xs| then 0 else if limit <= |xs| - offset then limit else |xs| - offset
    ensures forall i :: 0 <= i < |r| ==> offset + i < |xs| && r[i] == xs[offset + i]
  {
    var lo := if offset <= |xs| then offset else |xs|;
    var hi := if offset + limit <= |xs| then offset + limit else |xs|;
    xs[lo..hi]
  }

  /**
   * Consecutive pages partition the result: the page at `offset` of size
   * `a` followed by the page at `offset + a` of size `b` is the page at
   * `offset` of size a + b, so no row is repeated and none is skipped.
   */
  lemma PagesPartition<T>(xs: seq<T>, offset: nat, a: nat, b: nat)
    ensures Page(xs, offset, a) + Page(xs, offset + a, b) == Page(xs, offset, a + b)
  {
    var lo := if offset <= |xs| then offset else |xs|;
    var mid := if offset + a <= |xs| then offset + a else |xs|;
    var hi := if offset + a + b <= |xs| then offset + a + b else |xs|;
    assert Page(xs, offset, a) == xs[lo..mid];
    assert Page(xs, offset + a, b) == xs[mid..hi];
    assert xs[lo..mid] + xs[mid..hi] == xs[lo..hi];
  }
}
