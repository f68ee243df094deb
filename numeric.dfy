/** Aggregates over sequences of real numbers, used by the browser's window
    statistics and by the backend's SQL aggregates alike. */
module Numeric {
  import opened Wrappers

  /** The values of the present (non-null, finite) entries, in order. */
  function Present(s: seq<Option<real>>): (r: seq<real>)
    ensures |r| <= |s|
  {
    if s == [] then []
    else if s[|s| - 1].Some? then Present(s[..|s| - 1]) + [s[|s| - 1].value]
    else Present(s[..|s| - 1])
  }

  /** Number of present entries. */
  function CountPresent(s: seq<Option<real>>): nat
  {
    if s == [] then 0
    else CountPresent(s[..|s| - 1]) + (if s[|s| - 1].Some? then 1 else 0)
  }

  function Sum(s: seq<real>): real
  {
    if s == [] then 0.0 else Sum(s[..|s| - 1]) + s[|s| - 1]
  }

  function Min(s: seq<real>): (m: real)
    requires s != []
  {
    if |s| == 1 then s[0]
    else var m := Min(s[..|s| - 1]); if s[|s| - 1] < m then s[|s| - 1] else m
  }

  function Max(s: seq<real>): (m: real)
    requires s != []
  {
    if |s| == 1 then s[0]
    else var m := Max(s[..|s| - 1]); if s[|s| - 1] > m then s[|s| - 1] else m
  }

  function Mean(s: seq<real>): real
    requires s != []
  {
    Sum(s) / (|s| as real)
  }

  /** The values collected by `Present` are exactly the present entries. */
  lemma {:induction false} PresentMembers(s: seq<Option<real>>)
    ensures |Present(s)| == CountPresent(s)
    ensures forall v :: v in Present(s) <==> Some(v) in s
  {
    if s != [] {
      PresentMembers(s[..|s| - 1]);
      assert s == s[..|s| - 1] + [s[|s| - 1]];
    }
  }

  /** A present entry is among the collected values. */
  lemma PresentIn(s: seq<Option<real>>, k: nat)
    requires k < |s| && s[k].Some?
    ensures s[k].value in Present(s)
  {
    PresentMembers(s);
    assert Some(s[k].value) in s;
  }

  /** Every present entry of an all-present sequence is kept. */
  lemma {:induction false} PresentAllSome(s: seq<Option<real>>)
    requires forall i :: 0 <= i < |s| ==> s[i].Some?
    ensures |Present(s)| == |s|
  {
    if s != [] {
      PresentAllSome(s[..|s| - 1]);
    }
  }

  /** Min is a member that no element undercuts; Max likewise from above. */
  lemma {:induction false} MinMaxBounds(s: seq<real>)
    requires s != []
    ensures Min(s) in s && Max(s) in s
    ensures forall i :: 0 <= i < |s| ==> Min(s) <= s[i] <= Max(s)
  {
    if |s| > 1 {
      var p := s[..|s| - 1];
      MinMaxBounds(p);
      assert forall i :: 0 <= i < |p| ==> s[i] == p[i];
    }
  }

  /** A sum is bounded by its length times the bounds of its elements. */
  lemma {:induction false} SumBounds(s: seq<real>, lo: real, hi: real)
    requires forall i :: 0 <= i < |s| ==> lo <= s[i] <= hi
    ensures (|s| as real) * lo <= Sum(s) <= (|s| as real) * hi
  {
    if s != [] {
      var p := s[..|s| - 1];
      assert forall i :: 0 <= i < |p| ==> p[i] == s[i];
      SumBounds(p, lo, hi);
      assert Sum(s) == Sum(p) + s[|s| - 1];
      var k, n := |p| as real, |s| as real;
      assert n == k + 1.0;
      RealMulSucc(k, lo);
      RealMulSucc(k, hi);
    }
  }

  lemma RealMulSucc(k: real, x: real)
    ensures (k + 1.0) * x == k * x + x
  {
  }

  /** Division by a positive count keeps an upper and a lower bound. */
  lemma DivBounds(a: real, n: real, lo: real, hi: real)
    requires n > 0.0
    requires n * lo <= a <= n * hi
    ensures lo <= a / n <= hi
  {
    var q := a / n;
    assert q * n == a;
  }

  /** The mean lies between the minimum and the maximum. */
  lemma MeanBetweenMinMax(s: seq<real>)
    requires s != []
    ensures Min(s) <= Mean(s) <= Max(s)
  {
    MinMaxBounds(s);
    SumBounds(s, Min(s), Max(s));
    DivBounds(Sum(s), |s| as real, Min(s), Max(s));
  }

  // ---------------------------------------------------------------------------
  // Integer division facts (Dafny's / on a positive divisor is floor division)
  // ---------------------------------------------------------------------------

  lemma MulSucc(a: int, m: int)
    ensures (a + 1) * m == a * m + m
  {
  }

  lemma MulComm(a: int, m: int)
    ensures a * m == m * a
  {
  }

  lemma MulLe(a: int, b: int, m: int)
    requires a <= b && m >= 0
    ensures a * m <= b * m
  {
    assert b * m - a * m == (b - a) * m;
  }

  lemma DivUnique(x: int, m: int, q: int, r: int)
    requires m > 0 && 0 <= r < m && x == q * m + r
    ensures x / m == q
  {
    var q0, r0 := x / m, x % m;
    assert x == q0 * m + r0;
    assert (q + 1) * m == q * m + m;
    assert (q0 + 1) * m == q0 * m + m;
    if q0 > q {
      MulLe(q + 1, q0, m);
    } else if q0 < q {
      MulLe(q0 + 1, q, m);
    }
  }

  lemma DivMono(x: int, y: int, m: int)
    requires 0 <= x <= y && m > 0
    ensures x / m <= y / m
  {
    var qx, qy := x / m, y / m;
    assert x == qx * m + x % m;
    assert y == qy * m + y % m;
    assert (qy + 1) * m == qy * m + m;
    if qx > qy {
      MulLe(qy + 1, qx, m);
    }
  }

  lemma DivAddDivisor(a: int, m: int)
    requires a >= 0 && m > 0
    ensures (a + m) / m == a / m + 1
  {
    var q, r := a / m, a % m;
    assert a == q * m + r;
    assert (q + 1) * m == q * m + m;
    DivUnique(a + m, m, q + 1, r);
  }

  lemma DivMulCancel(k: int, m: int)
    requires k >= 0 && m > 0
    ensures (k * m) / m == k
  {
    DivUnique(k * m, m, k, 0);
  }
}
