/** The hover lookup of the desktop dashboard (`findNearestIndex` in
    static/app.js): a binary search over the seconds series for the index
    whose time is closest to a target given in (fractional) seconds. */
module Nearest {
  import opened Wrappers
  import Lttb

  function Dist(x: int, target: real): real
  {
    if x as real >= target then x as real - target else target - x as real
  }

  /** r is an index of minimal distance to the target, and every earlier
      index with a different time is strictly farther. */
  ghost predicate Nearest(xs: seq<int>, target: real, r: nat)
  {
    && r < |xs|
    && (forall j :: 0 <= j < |xs| ==> Dist(xs[r], target) <= Dist(xs[j], target))
    && (forall j :: 0 <= j < r ==> xs[j] == xs[r] || Dist(xs[r], target) < Dist(xs[j], target))
  }

  /** findNearestIndex; a target that is not a finite number is None. On an
      empty series or a missing target the result is null; otherwise it is an
      index in range, and over sorted times it is a nearest index, an exact
      match when one exists, and the lower of two equally near neighbours. */
  method FindNearestIndex(xs: seq<int>, target: Option<real>) returns (r: Option<nat>)
    ensures r.None? <==> |xs| == 0 || target.None?
    ensures r.Some? ==> r.value < |xs|
    ensures r.Some? && Lttb.NonDecreasing(xs) ==> Nearest(xs, target.value, r.value)
    ensures (r.Some? && Lttb.NonDecreasing(xs) && exists j :: 0 <= j < |xs| && xs[j] as real == target.value)
              ==> xs[r.value] as real == target.value
  {
    if |xs| == 0 || target.None? {
      return None;
    }
    var t := target.value;
    var lo, hi := 0, |xs| - 1;
    while lo <= hi
      invariant 0 <= lo <= |xs| && -1 <= hi < |xs| && lo <= hi + 1
      invariant Lttb.NonDecreasing(xs) ==> forall j :: 0 <= j < lo ==> (xs[j] as real) < t
      invariant Lttb.NonDecreasing(xs) ==> forall j :: hi < j < |xs| ==> (xs[j] as real) > t
      decreases hi - lo
    {
      var mid := (lo + hi) / 2;
      var midVal := xs[mid];
      if midVal as real == t {
        r := Some(mid);
        ExactIsNearest(xs, t, mid);
        return;
      }
      if (midVal as real) < t {
        lo := mid + 1;
      } else {
        hi := mid - 1;
      }
    }
    if lo >= |xs| {
      r := Some(|xs| - 1);
    } else if hi < 0 {
      r := Some(0);
    } else {
      r := Some(if t - xs[hi] as real <= xs[lo] as real - t then hi else lo);
    }
    if Lttb.NonDecreasing(xs) {
      BetweenIsNearest(xs, t, lo, hi, r.value);
    }
  }

  /** An exact hit is nearest: its distance is zero. */
  lemma ExactIsNearest(xs: seq<int>, t: real, m: nat)
    requires m < |xs| && xs[m] as real == t
    ensures Nearest(xs, t, m)
  {
  }

  /** After the search, every time below lo is smaller and every time above
      hi larger than the target; the chosen neighbour is nearest. */
  lemma BetweenIsNearest(xs: seq<int>, t: real, lo: int, hi: int, r: nat)
    requires Lttb.NonDecreasing(xs) && |xs| > 0
    requires 0 <= lo <= |xs| && hi == lo - 1
    requires forall j :: 0 <= j < lo ==> (xs[j] as real) < t
    requires forall j :: hi < j < |xs| ==> (xs[j] as real) > t
    requires lo >= |xs| ==> r == |xs| - 1
    requires lo < |xs| && hi < 0 ==> r == 0
    requires lo < |xs| && hi >= 0 ==>
               r == (if t - xs[hi] as real <= xs[lo] as real - t then hi else lo)
    ensures Nearest(xs, t, r)
  {
    forall j | 0 <= j < |xs|
      ensures Dist(xs[r], t) <= Dist(xs[j], t)
      ensures j < r ==> xs[j] == xs[r] || Dist(xs[r], t) < Dist(xs[j], t)
    {
      if j <= hi {
        assert xs[j] <= xs[hi];
      } else {
        assert xs[lo] <= xs[j];
      }
    }
  }
}
