/** The Largest-Triangle-Three-Buckets downsampler of the desktop dashboard
    (`downsampleLTTB` in static/app.js), with bucket bounds in exact integer
    arithmetic. The model keeps the code's own choices: the "centroid" is
    taken over the same bucket the point is picked from, bucket i starts at
    floor((i+1)·b)+1, so the first floor(b) interior indices are never
    candidates and the final bucket is the lone last index. */
module Lttb {
  import opened Wrappers
  import opened Numeric

  /** Default target size used by the dashboard (MAX_CHART_POINTS). */
  const MAX_CHART_POINTS: nat := 2000

  // ---------------------------------------------------------------------------
  // Bucket arithmetic
  // ---------------------------------------------------------------------------

  /** First index of bucket i: floor((i+1)·(n−2)/(t−2)) + 1. */
  function BucketStart(n: nat, t: nat, i: nat): int
    requires 2 < t < n
  {
    ((i + 1) * (n - 2)) / (t - 2) + 1
  }

  /** Bucket starts grow by at least one from bucket to bucket. */
  lemma BucketStartGrows(n: nat, t: nat, i: nat)
    requires 2 < t < n
    ensures BucketStart(n, t, i) < BucketStart(n, t, i + 1)
  {
    var m, d := t - 2, n - 2;
    var a := (i + 1) * d;
    MulSucc(i + 1, d);
    DivMono(a + m, a + d, m);
    DivAddDivisor(a, m);
  }

  /** No bucket starts before the first, and up to the final bucket every
      start lies in [1, n − 1]; the final bucket, i = t − 3, starts at n − 1. */
  lemma BucketStartRange(n: nat, t: nat, i: nat)
    requires 2 < t < n && i <= t - 3
    ensures 1 <= BucketStart(n, t, 0) <= BucketStart(n, t, i) <= n - 1
    ensures i == t - 3 ==> BucketStart(n, t, i) == n - 1
  {
    var m, d := t - 2, n - 2;
    var a := (i + 1) * d;
    MulLe(i + 1, m, d);
    MulLe(1, i + 1, d);
    DivMono(a, m * d, m);
    DivMono(d, a, m);
    MulComm(m, d);
    DivMulCancel(d, m);
    if i == t - 3 {
      assert a == m * d;
    }
  }

  /** Past the final bucket the next start is at least n. */
  lemma BucketStartPastEnd(n: nat, t: nat)
    requires 2 < t < n
    ensures BucketStart(n, t, t - 2) >= n
  {
    BucketStartRange(n, t, t - 3);
    BucketStartGrows(n, t, t - 3);
  }

  // ---------------------------------------------------------------------------
  // Geometry
  // ---------------------------------------------------------------------------

  function Abs(v: real): (r: real)
    ensures r >= 0.0 && (r == v || r == -v)
  {
    if v < 0.0 then -v else v
  }

  /** JavaScript arithmetic reads `null` as 0. */
  function NullAsZero(v: Option<real>): real
  {
    if v.Some? then v.value else 0.0
  }

  /** Shoelace area of the triangle (x1, y1), (x2, y2), (x3, y3). */
  function Area(x1: real, y1: real, x2: real, y2: real, x3: real, y3: real): real
  {
    Abs((x1 * (y2 - y3) + x2 * (y3 - y1) + x3 * (y1 - y2)) / 2.0)
  }

  /** x of the "centroid": midpoint of the bucket's first and last x. */
  function CentroidX(xs: seq<int>, lo: nat, hi: nat): real
    requires lo < hi <= |xs|
  {
    (xs[hi - 1] + xs[lo]) as real / 2.0
  }

  /** y of the "centroid": mean of the bucket's present y values, if any. */
  function CentroidY(ys: seq<Option<real>>, lo: nat, hi: nat): Option<real>
    requires lo <= hi <= |ys|
  {
    var v := Present(ys[lo..hi]);
    if |v| > 0 then Some(Sum(v) / (|v| as real)) else None
  }

  /** The index picked from bucket [lo, hi): scanning left to right, the
      first present point is taken, and a later one replaces the current
      best only when its score is strictly larger. */
  function BestIn(xs: seq<int>, ys: seq<Option<real>>, lo: nat, hi: nat,
                  ax: real, ay: real, cx: real, cy: real): (r: Option<nat>)
    requires lo <= hi <= |xs| == |ys|
    ensures r.Some? ==> lo <= r.value < hi && ys[r.value].Some?
    decreases hi
  {
    if hi == lo then None
    else
      var r := BestIn(xs, ys, lo, hi - 1, ax, ay, cx, cy);
      var j := hi - 1;
      if ys[j].None? then r
      else if r.None? then Some(j)
      else if Area(ax, ay, xs[j] as real, ys[j].value, cx, cy)
                > Area(ax, ay, xs[r.value] as real, ys[r.value].value, cx, cy) then Some(j)
      else r
  }

  /** The picked point has the largest score of the bucket, every earlier
      present point scores strictly less, and a point is picked exactly when
      the bucket holds a present y. */
  lemma {:induction false} BestInIsLargest(xs: seq<int>, ys: seq<Option<real>>, lo: nat, hi: nat,
                                           ax: real, ay: real, cx: real, cy: real)
    requires lo <= hi <= |xs| == |ys|
    ensures var b := BestIn(xs, ys, lo, hi, ax, ay, cx, cy);
            && (b.Some? <==> exists k :: lo <= k < hi && ys[k].Some?)
            && (b.Some? ==> forall k :: lo <= k < hi && ys[k].Some? ==>
                  Area(ax, ay, xs[k] as real, ys[k].value, cx, cy)
                    <= Area(ax, ay, xs[b.value] as real, ys[b.value].value, cx, cy))
            && (b.Some? ==> forall k :: lo <= k < b.value && ys[k].Some? ==>
                  Area(ax, ay, xs[k] as real, ys[k].value, cx, cy)
                    < Area(ax, ay, xs[b.value] as real, ys[b.value].value, cx, cy))
    decreases hi
  {
    if hi > lo {
      BestInIsLargest(xs, ys, lo, hi - 1, ax, ay, cx, cy);
    }
  }

  // ---------------------------------------------------------------------------
  // The selection as a specification
  // ---------------------------------------------------------------------------

  /** A table of bucket starts for n points: bucket k is the index range
      [starts[k], min(starts[k+1], n)), for k < |starts| − 1. Every bucket
      starts in [1, n), after the one before it and not before the first.
      Stated one bucket at a time; ValidStartsAt reads it back. */
  ghost predicate ValidStarts(starts: seq<int>, n: nat)
    decreases |starts|
  {
    |starts| < 2 ||
    (var m := |starts| - 2;
     && ValidStarts(starts[..m + 1], n)
     && 1 <= starts[0] <= starts[m] < n && starts[m] < starts[m + 1])
  }

  lemma {:induction false} ValidStartsAt(starts: seq<int>, n: nat, k: nat)
    requires ValidStarts(starts, n) && k < |starts| - 1
    ensures 1 <= starts[0] <= starts[k] < n && starts[k] < starts[k + 1]
    decreases |starts|
  {
    if k < |starts| - 2 {
      var p := starts[..|starts| - 1];
      ValidStartsAt(p, n, k);
      assert p[0] == starts[0] && p[k] == starts[k] && p[k + 1] == starts[k + 1];
    }
  }

  function Min(a: int, b: int): int
  {
    if a < b then a else b
  }

  /** The bucket starts of the downsampler: BucketStart(0 .. t−2), with no
      buckets at all when the target is two or fewer. */
  function BucketStarts(n: nat, t: nat): (r: seq<int>)
    requires t < n
    ensures |r| == if t > 2 then t - 1 else 0
  {
    if t > 2 then StartsUpTo(n, t, t - 1) else []
  }

  /** BucketStart(0 .. k−1). */
  function StartsUpTo(n: nat, t: nat, k: nat): (r: seq<int>)
    requires 2 < t < n
    ensures |r| == k
  {
    if k == 0 then [] else StartsUpTo(n, t, k - 1) + [BucketStart(n, t, k - 1)]
  }

  lemma {:induction false} StartsUpToAt(n: nat, t: nat, k: nat, j: nat)
    requires 2 < t < n && j < k
    ensures StartsUpTo(n, t, k)[j] == BucketStart(n, t, j)
  {
    if j < k - 1 {
      StartsUpToAt(n, t, k - 1, j);
    }
  }

  lemma {:induction false} StartsUpToValid(n: nat, t: nat, k: nat)
    requires 2 < t < n && k <= t - 1
    ensures ValidStarts(StartsUpTo(n, t, k), n)
  {
    if k >= 2 {
      StartsUpToValid(n, t, k - 1);
      var s := StartsUpTo(n, t, k);
      assert s[..k - 1] == StartsUpTo(n, t, k - 1);
      StartsUpToAt(n, t, k, 0);
      StartsUpToAt(n, t, k, k - 2);
      StartsUpToAt(n, t, k, k - 1);
      BucketStartRange(n, t, k - 2);
      BucketStartGrows(n, t, k - 2);
    }
  }

  /** The table is valid, its first bucket starts after floor((n−2)/(t−2))
      and its last bucket is the lone index n−1. */
  lemma BucketStartsValid(n: nat, t: nat)
    requires t < n
    ensures ValidStarts(BucketStarts(n, t), n)
    ensures t > 2 ==> BucketStarts(n, t)[0] == (n - 2) / (t - 2) + 1
    ensures t > 2 ==> BucketStarts(n, t)[t - 3] == n - 1 && BucketStarts(n, t)[t - 2] >= n
  {
    if t > 2 {
      StartsUpToValid(n, t, t - 1);
      StartsUpToAt(n, t, t - 1, 0);
      StartsUpToAt(n, t, t - 1, t - 3);
      StartsUpToAt(n, t, t - 1, t - 2);
      BucketStartRange(n, t, t - 3);
      BucketStartPastEnd(n, t);
    }
  }

  /** The number of buckets a table describes. */
  function Buckets(starts: seq<int>): nat
  {
    if |starts| == 0 then 0 else |starts| - 1
  }

  /** The index bucket i emits: among the bucket's present points, the one
      forming the largest triangle with the point emitted last before the
      bucket and the bucket's centroid; None when no y of the bucket is
      present. */
  function BucketPick(xs: seq<int>, ys: seq<Option<real>>, starts: seq<int>, i: nat): (r: Option<nat>)
    requires 1 <= |xs| == |ys| && ValidStarts(starts, |xs|)
    requires i < Buckets(starts)
    ensures r.Some? ==> starts[i] <= r.value < Min(starts[i + 1], |xs|) && ys[r.value].Some?
    decreases i, 1
  {
    ValidStartsAt(starts, |xs|, i);
    var prev := Emitted(xs, ys, starts, i);
    var last := prev[|prev| - 1];
    var lo, hi := starts[i], Min(starts[i + 1], |xs|);
    BestIn(xs, ys, lo, hi, xs[last] as real, NullAsZero(ys[last]),
           CentroidX(xs, lo, hi), NullAsZero(CentroidY(ys, lo, hi)))
  }

  /** A bucket appends its pick, if it has one. */
  function Extend(prev: seq<nat>, b: Option<nat>): seq<nat>
  {
    if b.Some? then prev + [b.value] else prev
  }

  function Last(s: seq<nat>): nat
    requires |s| > 0
  {
    s[|s| - 1]
  }

  /** The main loop's encoding of a pick: the index, or −1 for none. */
  function IndexOrMinusOne(b: Option<nat>): int
  {
    if b.Some? then b.value else -1
  }

  /** The indices emitted after the first k buckets, starting with index 0;
      each bucket appends its pick, if it has one. */
  function Emitted(xs: seq<int>, ys: seq<Option<real>>, starts: seq<int>, k: nat): (r: seq<nat>)
    requires 1 <= |xs| == |ys| && ValidStarts(starts, |xs|)
    requires k <= Buckets(starts)
    ensures |r| >= 1 && forall j :: 0 <= j < |r| ==> r[j] < |xs|
    decreases k, 0
  {
    if k == 0 then [0]
    else
      Extend(Emitted(xs, ys, starts, k - 1), BucketPick(xs, ys, starts, k - 1))
  }

  /** One step of Emitted, read back. */
  lemma EmittedStep(xs: seq<int>, ys: seq<Option<real>>, starts: seq<int>, k: nat)
    requires 1 <= |xs| == |ys| && ValidStarts(starts, |xs|)
    requires 0 < k <= Buckets(starts)
    ensures Emitted(xs, ys, starts, k)
              == Extend(Emitted(xs, ys, starts, k - 1), BucketPick(xs, ys, starts, k - 1))
  {
  }

  /** After k buckets: index 0 comes first, there is at most one index per
      bucket, and the last index emitted lies before the next bucket. */
  lemma {:induction false} EmittedBounds(xs: seq<int>, ys: seq<Option<real>>, starts: seq<int>, k: nat)
    requires 1 <= |xs| == |ys| && ValidStarts(starts, |xs|)
    requires k <= Buckets(starts)
    ensures Emitted(xs, ys, starts, k)[0] == 0
    ensures |Emitted(xs, ys, starts, k)| <= k + 1
    ensures k < Buckets(starts) ==> Last(Emitted(xs, ys, starts, k)) < starts[k]
  {
    if k > 0 {
      EmittedBounds(xs, ys, starts, k - 1);
      EmittedStep(xs, ys, starts, k);
      ValidStartsAt(starts, |xs|, k - 1);
    }
  }

  /** Every entry after the first is larger than the one before it, has a
      present y and is at least `first`. Stated one entry at a time;
      ChainFacts reads it back. */
  ghost predicate Chain(ys: seq<Option<real>>, s: seq<nat>, first: int)
    decreases |s|
  {
    |s| < 2 ||
    (var v := s[|s| - 1];
     && Chain(ys, s[..|s| - 1], first)
     && s[|s| - 2] < v < |ys| && ys[v].Some? && first <= v)
  }

  lemma {:induction false} ChainFacts(ys: seq<Option<real>>, s: seq<nat>, first: int)
    requires Chain(ys, s, first)
    ensures forall j :: 1 <= j < |s| ==> s[j] < |ys| && ys[s[j]].Some? && first <= s[j]
    ensures forall j, l :: 0 <= j < l < |s| ==> s[j] < s[l]
    decreases |s|
  {
    if |s| >= 2 {
      var p := s[..|s| - 1];
      ChainFacts(ys, p, first);
      assert forall j :: 0 <= j < |p| ==> s[j] == p[j];
      forall j, l | 0 <= j < l < |s|
        ensures s[j] < s[l]
      {
        if l == |s| - 1 && j < l - 1 {
          assert s[j] < s[l - 1];
        }
      }
    }
  }

  lemma ChainSnoc(ys: seq<Option<real>>, s: seq<nat>, v: nat, first: int)
    requires Chain(ys, s, first) && |s| > 0
    requires Last(s) < v < |ys| && ys[v].Some? && first <= v
    ensures Chain(ys, s + [v], first)
  {
    assert (s + [v])[..|s|] == s;
  }

  /** The emitted indices form a chain from the first bucket on: they
      strictly increase, and every one after index 0 has a present y. */
  lemma {:induction false} EmittedChain(xs: seq<int>, ys: seq<Option<real>>, starts: seq<int>, k: nat)
    requires 1 <= |xs| == |ys| && ValidStarts(starts, |xs|)
    requires 0 < |starts| && k <= Buckets(starts)
    ensures Chain(ys, Emitted(xs, ys, starts, k), starts[0])
  {
    if k > 0 {
      EmittedChain(xs, ys, starts, k - 1);
      EmittedBounds(xs, ys, starts, k - 1);
      EmittedStep(xs, ys, starts, k);
      ValidStartsAt(starts, |xs|, k - 1);
      var b := BucketPick(xs, ys, starts, k - 1);
      if b.Some? {
        ChainSnoc(ys, Emitted(xs, ys, starts, k - 1), b.value, starts[0]);
      }
    }
  }

  /** With every y present, every bucket emits exactly one index. */
  lemma {:induction false} EmittedAllPresent(xs: seq<int>, ys: seq<Option<real>>, starts: seq<int>, k: nat)
    requires 1 <= |xs| == |ys| && ValidStarts(starts, |xs|)
    requires k <= Buckets(starts)
    requires forall j :: 0 <= j < |ys| ==> ys[j].Some?
    ensures |Emitted(xs, ys, starts, k)| == k + 1
  {
    if k > 0 {
      EmittedAllPresent(xs, ys, starts, k - 1);
      EmittedStep(xs, ys, starts, k);
      ValidStartsAt(starts, |xs|, k - 1);
      var prev := Emitted(xs, ys, starts, k - 1);
      var lo, hi := starts[k - 1], Min(starts[k], |xs|);
      BestInIsLargest(xs, ys, lo, hi, xs[prev[|prev| - 1]] as real, NullAsZero(ys[prev[|prev| - 1]]),
                      CentroidX(xs, lo, hi), NullAsZero(CentroidY(ys, lo, hi)));
      assert ys[lo].Some?;
    }
  }

  /** The input indices the downsampler emits, in output order. */
  function Selected(xs: seq<int>, ys: seq<Option<real>>, t: nat): (r: seq<nat>)
    requires t < |xs| == |ys|
    ensures forall k :: 0 <= k < |r| ==> r[k] < |xs|
  {
    var starts := BucketStarts(|xs|, t);
    BucketStartsValid(|xs|, t);
    Emitted(xs, ys, starts, Buckets(starts)) + [|xs| - 1]
  }

  function Gather<T>(s: seq<T>, idx: seq<nat>): (r: seq<T>)
    requires forall k :: 0 <= k < |idx| ==> idx[k] < |s|
    ensures |r| == |idx| && forall k :: 0 <= k < |idx| ==> r[k] == s[idx[k]]
  {
    seq(|idx|, k requires 0 <= k < |idx| => s[idx[k]])
  }

  lemma GatherSnoc<T>(s: seq<T>, idx: seq<nat>, j: nat)
    requires forall k :: 0 <= k < |idx| ==> idx[k] < |s|
    requires j < |s|
    ensures Gather(s, idx + [j]) == Gather(s, idx) + [s[j]]
  {
  }

  ghost predicate NonDecreasing(s: seq<int>)
  {
    forall k, l :: 0 <= k < l < |s| ==> s[k] <= s[l]
  }

  /** The emitted indices start at 0, end at n−1, never decrease, and number
      at most max(threshold, 2); with every y present and threshold >= 2
      there are exactly threshold of them. */
  lemma SelectedShape(xs: seq<int>, ys: seq<Option<real>>, t: nat)
    requires t < |xs| == |ys|
    ensures var s := Selected(xs, ys, t);
            && 2 <= |s| && (|s| <= t || |s| == 2)
            && s[0] == 0 && s[|s| - 1] == |xs| - 1
            && (forall k, l :: 0 <= k < l < |s| ==> s[k] <= s[l])
            && (t >= 2 && (forall k :: 0 <= k < |ys| ==> ys[k].Some?) ==> |s| == t)
  {
    var starts := BucketStarts(|xs|, t);
    BucketStartsValid(|xs|, t);
    var m := Buckets(starts);
    EmittedBounds(xs, ys, starts, m);
    if m > 0 {
      EmittedChain(xs, ys, starts, m);
      ChainFacts(ys, Emitted(xs, ys, starts, m), starts[0]);
    }
    if forall k :: 0 <= k < |ys| ==> ys[k].Some? {
      EmittedAllPresent(xs, ys, starts, m);
    }
  }

  /** With non-decreasing x, the output x is non-decreasing too. */
  lemma GatherSorted(xs: seq<int>, idx: seq<nat>)
    requires NonDecreasing(xs)
    requires forall k :: 0 <= k < |idx| ==> idx[k] < |xs|
    requires forall k, l :: 0 <= k < l < |idx| ==> idx[k] <= idx[l]
    ensures NonDecreasing(Gather(xs, idx))
  {
  }

  /** Interior indices 1 .. floor((n−2)/(t−2)) are never emitted. */
  lemma FirstIndicesSkipped(xs: seq<int>, ys: seq<Option<real>>, t: nat, j: nat)
    requires 2 < t < |xs| == |ys|
    requires 1 <= j <= (|xs| - 2) / (t - 2)
    ensures j !in Selected(xs, ys, t)
  {
    var starts := BucketStarts(|xs|, t);
    BucketStartsValid(|xs|, t);
    var e := Emitted(xs, ys, starts, Buckets(starts));
    EmittedChain(xs, ys, starts, Buckets(starts));
    EmittedBounds(xs, ys, starts, Buckets(starts));
    ChainFacts(ys, e, starts[0]);
    assert e[0] == 0;
    assert j < starts[0] < |xs|;
    assert Selected(xs, ys, t) == e + [|xs| - 1];
    forall m | 0 <= m < |e|
      ensures e[m] != j
    {
      if m > 0 {
        assert starts[0] <= e[m];
      }
    }
  }

  /** The last bucket is the single last index, so with a present last y the
      last input point is emitted twice: on four points with target three the
      output indices are 0, 3, 3. */
  lemma LastPointTwice()
    ensures Selected([0, 1, 2, 3], [Some(1.0), Some(5.0), Some(2.0), Some(4.0)], 3) == [0, 3, 3]
  {
    var xs, ys := [0, 1, 2, 3], [Some(1.0), Some(5.0), Some(2.0), Some(4.0)];
    var starts := BucketStarts(4, 3);
    BucketStartsValid(4, 3);
    assert starts == [3, 5];
    assert Emitted(xs, ys, starts, 0) == [0];
    BestInSingle(xs, ys, 3, xs[0] as real, NullAsZero(ys[0]), CentroidX(xs, 3, 4), NullAsZero(CentroidY(ys, 3, 4)));
    assert BucketPick(xs, ys, starts, 0) == Some(3);
  }

  /** A one-point bucket with a present y emits that point, whatever the
      triangle. */
  lemma BestInSingle(xs: seq<int>, ys: seq<Option<real>>, lo: nat, ax: real, ay: real, cx: real, cy: real)
    requires lo < |xs| == |ys| && ys[lo].Some?
    ensures BestIn(xs, ys, lo, lo + 1, ax, ay, cx, cy) == Some(lo)
  {
    assert BestIn(xs, ys, lo, lo, ax, ay, cx, cy) == None;
  }

  // ---------------------------------------------------------------------------
  // The downsampler
  // ---------------------------------------------------------------------------

  /** Extending a slice by one entry extends its present values, and their
      sum, by that entry's value, if it has one. */
  lemma PresentSlice(ys: seq<Option<real>>, lo: nat, j: nat)
    requires lo <= j < |ys|
    ensures var p, q := Present(ys[lo..j]), Present(ys[lo..j + 1]);
            if ys[j].Some? then q == p + [ys[j].value] && Sum(q) == Sum(p) + ys[j].value
            else q == p
  {
    assert ys[lo..j + 1][..j - lo] == ys[lo..j];
    var p := Present(ys[lo..j]);
    if ys[j].Some? {
      assert (p + [ys[j].value])[..|p|] == p;
    }
  }

  /** The mean of the present y values of a bucket (the centroid loop). */
  method BucketMeanY(ys: seq<Option<real>>, lo: nat, hi: nat) returns (avgY: Option<real>)
    requires lo <= hi <= |ys|
    ensures avgY == CentroidY(ys, lo, hi)
  {
    var sumY, count := 0.0, 0;
    var j := lo;
    while j < hi
      invariant lo <= j <= hi
      invariant sumY == Sum(Present(ys[lo..j])) && count == |Present(ys[lo..j])|
    {
      PresentSlice(ys, lo, j);
      if ys[j].Some? {
        sumY := sumY + ys[j].value;
        count := count + 1;
      }
      j := j + 1;
    }
    avgY := if count > 0 then Some(sumY / (count as real)) else None;
  }

  /** The largest-area loop: −1 when no y in the bucket is present. */
  method LargestTriangle(xs: seq<int>, ys: seq<Option<real>>, lo: nat, hi: nat,
                         ax: real, ay: real, cx: real, cy: real) returns (maxIdx: int)
    requires lo <= hi <= |xs| == |ys|
    ensures maxIdx == IndexOrMinusOne(BestIn(xs, ys, lo, hi, ax, ay, cx, cy))
  {
    var maxArea := -1.0;
    maxIdx := -1;
    var j := lo;
    while j < hi
      invariant lo <= j <= hi
      invariant var b := BestIn(xs, ys, lo, j, ax, ay, cx, cy);
                && (b.None? ==> maxIdx == -1 && maxArea == -1.0)
                && (b.Some? ==> maxIdx == b.value
                                && maxArea == Area(ax, ay, xs[b.value] as real, ys[b.value].value, cx, cy))
    {
      if ys[j].Some? {
        var area := Area(ax, ay, xs[j] as real, ys[j].value, cx, cy);
        if area > maxArea {
          maxArea := area;
          maxIdx := j;
        }
      }
      j := j + 1;
    }
  }

  /** One bucket of the main loop, with its bounds read from the table: the
      index of the point it emits, or −1 when the bucket holds no present y.
      (pointAX, pointAY) is the previously emitted point `last`. */
  method PickBucket(xs: seq<int>, ys: seq<Option<real>>, starts: seq<int>, i: nat, last: nat)
    returns (maxIdx: int)
    requires 1 <= |xs| == |ys| && ValidStarts(starts, |xs|)
    requires i < Buckets(starts)
    requires last == Last(Emitted(xs, ys, starts, i))
    ensures maxIdx == IndexOrMinusOne(BucketPick(xs, ys, starts, i))
  {
    ValidStartsAt(starts, |xs|, i);
    var rangeStart := starts[i];
    var avgRangeEnd := Min(starts[i + 1], |xs|);
    var avgX := (xs[avgRangeEnd - 1] + xs[rangeStart]) as real / 2.0;
    var avgY := BucketMeanY(ys, rangeStart, avgRangeEnd);
    var pointAX, pointAY := xs[last] as real, ys[last];
    maxIdx := LargestTriangle(xs, ys, rangeStart, avgRangeEnd, pointAX, NullAsZero(pointAY),
                              avgX, NullAsZero(avgY));
    BucketPickIs(xs, ys, starts, i, last, avgX, avgY);
  }

  /** BucketPick, for the anchor and centroid the main loop computes. */
  lemma BucketPickIs(xs: seq<int>, ys: seq<Option<real>>, starts: seq<int>, i: nat, last: nat,
                     cx: real, cy: Option<real>)
    requires 1 <= |xs| == |ys| && ValidStarts(starts, |xs|)
    requires i < Buckets(starts) && 1 <= starts[i] < starts[i + 1] && starts[i] < |xs|
    requires last == Last(Emitted(xs, ys, starts, i))
    requires cx == CentroidX(xs, starts[i], Min(starts[i + 1], |xs|))
    requires cy == CentroidY(ys, starts[i], Min(starts[i + 1], |xs|))
    ensures BucketPick(xs, ys, starts, i)
              == BestIn(xs, ys, starts[i], Min(starts[i + 1], |xs|), xs[last] as real, NullAsZero(ys[last]),
                        cx, NullAsZero(cy))
  {
  }

  /** What the main loop does with the index a bucket returns: −1 leaves
      the emitted indices and the output as they are, any other index is
      appended to both. */
  lemma EmittedNext(xs: seq<int>, ys: seq<Option<real>>, starts: seq<int>, i: nat,
                    sel: seq<nat>, dx: seq<int>, dy: seq<Option<real>>, maxIdx: int)
    requires 1 <= |xs| == |ys| && ValidStarts(starts, |xs|)
    requires i < Buckets(starts) && sel == Emitted(xs, ys, starts, i)
    requires dx == Gather(xs, sel) && dy == Gather(ys, sel)
    requires maxIdx == IndexOrMinusOne(BucketPick(xs, ys, starts, i))
    ensures maxIdx == -1 ==> Emitted(xs, ys, starts, i + 1) == sel
    ensures maxIdx != -1 ==>
              && 0 <= maxIdx < |xs|
              && Emitted(xs, ys, starts, i + 1) == sel + [maxIdx]
              && dx + [xs[maxIdx]] == Gather(xs, sel + [maxIdx])
              && dy + [ys[maxIdx]] == Gather(ys, sel + [maxIdx])
  {
    if maxIdx != -1 {
      GatherSnoc(xs, sel, maxIdx);
      GatherSnoc(ys, sel, maxIdx);
    }
  }

  /** The main loop over a table of bucket starts: the first point followed by
      the point each bucket emits. */
  method PickAll(xs: seq<int>, ys: seq<Option<real>>, starts: seq<int>)
    returns (dx: seq<int>, dy: seq<Option<real>>, ghost sel: seq<nat>)
    requires 1 <= |xs| == |ys| && ValidStarts(starts, |xs|)
    ensures sel == Emitted(xs, ys, starts, Buckets(starts))
    ensures dx == Gather(xs, sel) && dy == Gather(ys, sel)
  {
    dx, dy := [xs[0]], [ys[0]];
    sel := [0];
    var last: nat := 0;
    var i := 0;
    while i < Buckets(starts)
      invariant i <= Buckets(starts)
      invariant sel == Emitted(xs, ys, starts, i) && last == Last(sel)
      invariant dx == Gather(xs, sel) && dy == Gather(ys, sel)
    {
      var maxIdx := PickBucket(xs, ys, starts, i, last);
      EmittedNext(xs, ys, starts, i, sel, dx, dy, maxIdx);
      if maxIdx != -1 {
        sel, last := sel + [maxIdx], maxIdx;
        dx, dy := dx + [xs[maxIdx]], dy + [ys[maxIdx]];
      }
      i := i + 1;
    }
  }

  /** The bucket starts floor((i+1)·(n−2)/(t−2)) + 1 for i = 0 .. t−2. */
  method BucketTable(n: nat, threshold: nat) returns (starts: seq<int>)
    requires threshold < n
    ensures starts == BucketStarts(n, threshold)
  {
    starts := [];
    if threshold <= 2 {
      return;
    }
    var i := 0;
    while i < threshold - 1
      invariant 0 <= i <= threshold - 1
      invariant starts == StartsUpTo(n, threshold, i)
    {
      starts := starts + [((i + 1) * (n - 2)) / (threshold - 2) + 1];
      i := i + 1;
    }
  }

  /** downsampleLTTB: the input itself when it has at most `threshold` points;
      otherwise the first point, the largest-triangle point of every bucket
      that holds a present y, and the last point. */
  method DownsampleLTTB(xs: seq<int>, ys: seq<Option<real>>, threshold: nat)
    returns (dx: seq<int>, dy: seq<Option<real>>)
    requires |xs| == |ys|
    ensures |xs| <= threshold ==> dx == xs && dy == ys
    ensures |xs| > threshold ==>
              && dx == Gather(xs, Selected(xs, ys, threshold))
              && dy == Gather(ys, Selected(xs, ys, threshold))
  {
    if |xs| <= threshold {
      return xs, ys;
    }
    var starts := BucketTable(|xs|, threshold);
    BucketStartsValid(|xs|, threshold);
    ghost var sel;
    dx, dy, sel := PickAll(xs, ys, starts);
    GatherSnoc(xs, sel, |xs| - 1);
    GatherSnoc(ys, sel, |xs| - 1);
    dx := dx + [xs[|xs| - 1]];
    dy := dy + [ys[|ys| - 1]];
  }

  /** What the dashboard relies on: the output never exceeds the threshold
      (or the two end points), keeps both end points, has exactly threshold
      points when no y is missing, and keeps x sorted. */
  lemma DownsampleShape(xs: seq<int>, ys: seq<Option<real>>, t: nat)
    requires t < |xs| == |ys|
    ensures var s := Selected(xs, ys, t);
            var dx, dy := Gather(xs, s), Gather(ys, s);
            && |dx| == |dy| && (|dx| <= t || |dx| == 2)
            && dx[0] == xs[0] && dy[0] == ys[0]
            && dx[|dx| - 1] == xs[|xs| - 1] && dy[|dy| - 1] == ys[|ys| - 1]
            && (t >= 2 && (forall k :: 0 <= k < |ys| ==> ys[k].Some?) ==> |dx| == t)
            && (NonDecreasing(xs) ==> NonDecreasing(dx))
  {
    SelectedShape(xs, ys, t);
    if NonDecreasing(xs) {
      GatherSorted(xs, Selected(xs, ys, t));
    }
  }
}
