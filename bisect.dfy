/** Python's `bisect.bisect_left`, which the interval index uses for its
    lookups, written as the binary search it performs. */
module Bisect {

  ghost predicate Sorted(a: seq<int>) {
    forall i, j :: 0 <= i <= j < |a| ==> a[i] <= a[j]
  }

  /** The search over `a[lo..hi]`: halve the window, moving `lo` past every
      middle element smaller than `x` and `hi` onto every other one. */
  function BisectLeftFrom(a: seq<int>, x: int, lo: nat, hi: nat): (r: nat)
    requires lo <= hi <= |a|
    ensures lo <= r <= hi
    ensures Sorted(a) ==>
      (forall k :: lo <= k < r ==> a[k] < x) && (forall k :: r <= k < hi ==> a[k] >= x)
    decreases hi - lo
  {
    if lo < hi then
      var mid := (lo + hi) / 2;
      if a[mid] < x then BisectLeftFrom(a, x, mid + 1, hi)
      else BisectLeftFrom(a, x, lo, mid)
    else lo
  }

  /** bisect_left(a, x): on a sorted list, the first index whose element is
      at least `x` (the length when there is none). */
  function BisectLeft(a: seq<int>, x: int): (r: nat)
    ensures r <= |a|
    ensures Sorted(a) ==> (forall k :: 0 <= k < r ==> a[k] < x) && (forall k :: r <= k < |a| ==> a[k] >= x)
  {
    BisectLeftFrom(a, x, 0, |a|)
  }

  /** When every element of the window is below `x`, the search returns the
      window's end, whether or not the list is sorted. */
  lemma {:induction false} BisectLeftFromAllBelow(a: seq<int>, x: int, lo: nat, hi: nat)
    requires lo <= hi <= |a|
    requires forall k :: lo <= k < hi ==> a[k] < x
    ensures BisectLeftFrom(a, x, lo, hi) == hi
    decreases hi - lo
  {
    if lo < hi {
      var mid := (lo + hi) / 2;
      assert a[mid] < x;
      BisectLeftFromAllBelow(a, x, mid + 1, hi);
    }
  }

  /** On a sorted list the result is the only index splitting the list into
      elements below `x` and elements at least `x`. */
  lemma BisectLeftUnique(a: seq<int>, x: int, r: nat)
    requires Sorted(a) && r <= |a|
    requires forall k :: 0 <= k < r ==> a[k] < x
    requires forall k :: r <= k < |a| ==> a[k] >= x
    ensures BisectLeft(a, x) == r
  {
    var b := BisectLeft(a, x);
    assert b < |a| ==> a[b] >= x;
    assert r < |a| ==> a[r] >= x;
  }
}
