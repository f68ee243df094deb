/** The statistics the desktop dashboard shows for a selected window
    (`computeStatsLocal` in static/app.js): the index bounds of the window,
    count, minimum, maximum and mean of the present powers, and the energy
    used — the meter delta when any energy reading lies in the window, a
    trapezoid integral of power otherwise. The numbers are returned as a
    record instead of being written into the page. */
module Stats {
  import opened Wrappers
  import opened Numeric
  import Lttb
  import opened Ingest

  datatype WindowStats = WindowStats(count: nat, minP: Option<real>, maxP: Option<real>,
                                     avgP: Option<real>, energy: real, cost: real)

  /** Watt-seconds per kWh. */
  const WS_PER_KWH: real := 3600000.0

  // ---------------------------------------------------------------------------
  // Window bounds
  // ---------------------------------------------------------------------------

  /** i0: the first index from lo on whose x is at least s, or |xs|. */
  function FirstAtLeast(xs: seq<int>, s: int, lo: nat): (r: nat)
    requires lo <= |xs|
    ensures lo <= r <= |xs|
    ensures forall j :: lo <= j < r ==> xs[j] < s
    ensures r < |xs| ==> xs[r] >= s
    decreases |xs| - lo
  {
    if lo == |xs| || xs[lo] >= s then lo else FirstAtLeast(xs, s, lo + 1)
  }

  /** i1: the last index below n whose x is at most e, or −1. */
  function LastAtMost(xs: seq<int>, e: int, n: nat): (r: int)
    requires n <= |xs|
    ensures -1 <= r < n
    ensures forall j :: r < j < n ==> xs[j] > e
    ensures r >= 0 ==> xs[r] <= e
  {
    if n == 0 then -1 else if xs[n - 1] > e then LastAtMost(xs, e, n - 1) else n - 1
  }

  method ScanStart(xs: seq<int>, startSec: int) returns (i0: nat)
    ensures i0 == FirstAtLeast(xs, startSec, 0)
  {
    i0 := 0;
    while i0 < |xs| && xs[i0] < startSec
      invariant i0 <= |xs|
      invariant FirstAtLeast(xs, startSec, i0) == FirstAtLeast(xs, startSec, 0)
    {
      i0 := i0 + 1;
    }
  }

  method ScanEnd(xs: seq<int>, endSec: int) returns (i1: int)
    ensures i1 == LastAtMost(xs, endSec, |xs|)
  {
    i1 := |xs| - 1;
    while i1 >= 0 && xs[i1] > endSec
      invariant -1 <= i1 < |xs|
      invariant LastAtMost(xs, endSec, i1 + 1) == LastAtMost(xs, endSec, |xs|)
    {
      i1 := i1 - 1;
    }
  }

  /** On sorted x, [i0, i1] holds exactly the indices whose x lies in
      [startSec, endSec], so the window is empty (i1 < i0) exactly when no x
      lies in that range. */
  lemma WindowIndices(xs: seq<int>, s: int, e: int)
    requires Lttb.NonDecreasing(xs)
    ensures var i0, i1 := FirstAtLeast(xs, s, 0), LastAtMost(xs, e, |xs|);
            && (forall j :: 0 <= j < |xs| ==> (i0 <= j <= i1 <==> s <= xs[j] <= e))
            && (i1 < i0 <==> forall j :: 0 <= j < |xs| ==> !(s <= xs[j] <= e))
  {
    var i0, i1 := FirstAtLeast(xs, s, 0), LastAtMost(xs, e, |xs|);
    forall j | 0 <= j < |xs|
      ensures i0 <= j <= i1 <==> s <= xs[j] <= e
    {
      if i0 <= j {
        assert xs[i0] <= xs[j];
      }
      if j <= i1 {
        assert xs[j] <= xs[i1];
      }
    }
    if i0 <= i1 {
      assert s <= xs[i0] <= e;
    }
  }

  // ---------------------------------------------------------------------------
  // Energy
  // ---------------------------------------------------------------------------

  /** eVals[i], with an index past the end read as absent (undefined). */
  function EAt(es: seq<Option<real>>, i: nat): Option<real>
  {
    if i < |es| then es[i] else None
  }

  /** Index of the first present energy in [lo, hi), if any. */
  function FirstEnergyIndex(es: seq<Option<real>>, lo: nat, hi: nat): (r: Option<nat>)
    ensures r.Some? ==> lo <= r.value < hi && EAt(es, r.value).Some?
                        && forall l :: lo <= l < r.value ==> EAt(es, l).None?
    ensures r.None? ==> forall l :: lo <= l < hi ==> EAt(es, l).None?
    decreases hi - lo
  {
    if lo >= hi then None
    else if EAt(es, lo).Some? then Some(lo)
    else FirstEnergyIndex(es, lo + 1, hi)
  }

  /** Index of the last present energy in [lo, hi), if any. */
  function LastEnergyIndex(es: seq<Option<real>>, lo: nat, hi: nat): (r: Option<nat>)
    ensures r.Some? ==> lo <= r.value < hi && EAt(es, r.value).Some?
                        && forall l :: r.value < l < hi ==> EAt(es, l).None?
    ensures r.None? ==> forall l :: lo <= l < hi ==> EAt(es, l).None?
  {
    if lo >= hi then None
    else if EAt(es, hi - 1).Some? then Some(hi - 1)
    else LastEnergyIndex(es, lo, hi - 1)
  }

  function EnergyAt(es: seq<Option<real>>, r: Option<nat>): Option<real>
  {
    if r.Some? then EAt(es, r.value) else None
  }

  /** The forward scan for eStart. */
  method FirstEnergyScan(es: seq<Option<real>>, i0: nat, i1: nat) returns (eStart: Option<real>)
    requires i0 <= i1
    ensures eStart == EnergyAt(es, FirstEnergyIndex(es, i0, i1 + 1))
  {
    eStart := None;
    var i := i0;
    while i <= i1
      invariant i0 <= i <= i1 + 1
      invariant FirstEnergyIndex(es, i, i1 + 1) == FirstEnergyIndex(es, i0, i1 + 1)
    {
      if i < |es| && es[i].Some? {
        eStart := es[i];
        return;
      }
      i := i + 1;
    }
  }

  /** The backward scan for eEnd. */
  method LastEnergyScan(es: seq<Option<real>>, i0: nat, i1: nat) returns (eEnd: Option<real>)
    requires i0 <= i1
    ensures eEnd == EnergyAt(es, LastEnergyIndex(es, i0, i1 + 1))
  {
    eEnd := None;
    var i: int := i1;
    while i >= i0
      invariant i0 - 1 <= i <= i1
      invariant LastEnergyIndex(es, i0, i + 1) == LastEnergyIndex(es, i0, i1 + 1)
    {
      if i < |es| && es[i].Some? {
        eEnd := es[i];
        return;
      }
      i := i - 1;
    }
  }

  /** The trapezoid term of the pair (i−1, i): average power times the time
      step, counted only for a positive step between two present powers. */
  function TrapezoidTerm(xs: seq<int>, ys: seq<Option<real>>, i: nat): real
    requires 1 <= i < |xs| == |ys|
  {
    var dt := xs[i] - xs[i - 1];
    if dt > 0 && ys[i].Some? && ys[i - 1].Some?
    then (ys[i].value + ys[i - 1].value) / 2.0 * (dt as real)
    else 0.0
  }

  /** Sum of the trapezoid terms of the pairs in [lo, hi], in W·s. */
  function Trapezoid(xs: seq<int>, ys: seq<Option<real>>, lo: nat, hi: nat): real
    requires lo <= hi < |xs| == |ys|
  {
    if hi == lo then 0.0 else Trapezoid(xs, ys, lo, hi - 1) + TrapezoidTerm(xs, ys, hi)
  }

  /** The accumulator loop of the fallback integral. */
  method TrapezoidSum(xs: seq<int>, ys: seq<Option<real>>, i0: nat, i1: nat) returns (sumWs: real)
    requires i0 <= i1 < |xs| == |ys|
    ensures sumWs == Trapezoid(xs, ys, i0, i1)
  {
    sumWs := 0.0;
    var i := i0 + 1;
    while i <= i1
      invariant i0 + 1 <= i <= i1 + 1
      invariant sumWs == Trapezoid(xs, ys, i0, i - 1)
    {
      var dtSec := xs[i] - xs[i - 1];
      if dtSec > 0 && ys[i].Some? && ys[i - 1].Some? {
        var wAvg := (ys[i].value + ys[i - 1].value) / 2.0;
        sumWs := sumWs + wAvg * (dtSec as real);
      }
      i := i + 1;
    }
  }

  /** A constant power P over sorted times integrates to P times the elapsed
      seconds. */
  lemma {:induction false} TrapezoidConstant(xs: seq<int>, ys: seq<Option<real>>, lo: nat, hi: nat, p: real)
    requires lo <= hi < |xs| == |ys|
    requires forall j :: lo < j <= hi ==> xs[j - 1] <= xs[j]
    requires forall j :: lo <= j <= hi ==> ys[j] == Some(p)
    ensures Trapezoid(xs, ys, lo, hi) == p * ((xs[hi] - xs[lo]) as real)
  {
    if hi > lo {
      TrapezoidConstant(xs, ys, lo, hi - 1, p);
      var a, b := (xs[hi - 1] - xs[lo]) as real, (xs[hi] - xs[hi - 1]) as real;
      assert TrapezoidTerm(xs, ys, hi) == p * b by {
        assert (p + p) / 2.0 == p;
      }
      assert p * a + p * b == p * (a + b);
    }
  }

  /** Energy used in [i0, i1], in kWh: the meter delta between the first and
      the last present energy, or the trapezoid integral when there is none. */
  function EnergyIn(xs: seq<int>, ys: seq<Option<real>>, es: seq<Option<real>>, i0: nat, i1: nat): real
    requires i0 <= i1 < |xs| == |ys|
  {
    var eStart, eEnd := EnergyAt(es, FirstEnergyIndex(es, i0, i1 + 1)), EnergyAt(es, LastEnergyIndex(es, i0, i1 + 1));
    if eStart.Some? && eEnd.Some? then eEnd.value - eStart.value
    else Trapezoid(xs, ys, i0, i1) / WS_PER_KWH
  }

  /** Any present energy in the window makes the result the meter delta
      between the earliest and the latest present energy; with none, a
      constant power P over D seconds gives P·D/3,600,000 kWh. */
  lemma EnergyInCases(xs: seq<int>, ys: seq<Option<real>>, es: seq<Option<real>>, i0: nat, i1: nat)
    requires i0 <= i1 < |xs| == |ys|
    ensures forall j :: i0 <= j <= i1 && EAt(es, j).Some? ==>
              var f, l := FirstEnergyIndex(es, i0, i1 + 1).value, LastEnergyIndex(es, i0, i1 + 1).value;
              && f <= j <= l
              && EnergyIn(xs, ys, es, i0, i1) == EAt(es, l).value - EAt(es, f).value
    ensures (forall j :: i0 <= j <= i1 ==> EAt(es, j).None?) ==>
              EnergyIn(xs, ys, es, i0, i1) == Trapezoid(xs, ys, i0, i1) / WS_PER_KWH
  {
  }

  lemma ConstantPowerEnergy(xs: seq<int>, ys: seq<Option<real>>, es: seq<Option<real>>, i0: nat, i1: nat, p: real)
    requires i0 <= i1 < |xs| == |ys|
    requires forall j :: i0 < j <= i1 ==> xs[j - 1] <= xs[j]
    requires forall j :: i0 <= j <= i1 ==> ys[j] == Some(p)
    requires forall j :: i0 <= j <= i1 ==> EAt(es, j).None?
    ensures EnergyIn(xs, ys, es, i0, i1) == p * ((xs[i1] - xs[i0]) as real) / WS_PER_KWH
  {
    TrapezoidConstant(xs, ys, i0, i1, p);
  }

  // ---------------------------------------------------------------------------
  // The statistics
  // ---------------------------------------------------------------------------

  /** The statistics of the non-empty index window [i0, i1]. */
  function StatsIn(xs: seq<int>, ys: seq<Option<real>>, es: seq<Option<real>>,
                   i0: nat, i1: nat, costPerKwh: real): WindowStats
    requires i0 <= i1 < |xs| == |ys|
  {
    var v := Present(ys[i0..i1 + 1]);
    var energy := EnergyIn(xs, ys, es, i0, i1);
    WindowStats(|v|,
                if |v| > 0 then Some(Min(v)) else None,
                if |v| > 0 then Some(Max(v)) else None,
                if |v| > 0 then Some(Mean(v)) else None,
                energy, energy * costPerKwh)
  }

  /** What computeStatsLocal shows for [startMs, endMs], or None when it
      returns early and leaves the display untouched. */
  function StatsOf(xs: seq<int>, ys: seq<Option<real>>, es: seq<Option<real>>,
                   startMs: int, endMs: int, costPerKwh: real): Option<WindowStats>
    requires |xs| == |ys|
  {
    var startSec, endSec := Seconds(startMs), Seconds(endMs);
    if |xs| == 0 || endSec <= startSec then None
    else
      var i0, i1 := FirstAtLeast(xs, startSec, 0), LastAtMost(xs, endSec, |xs|);
      if i1 < i0 then None else Some(StatsIn(xs, ys, es, i0, i1 as nat, costPerKwh))
  }

  /** On sorted x the result is absent exactly when the second range is
      empty or no x lies in [startSec, endSec]. */
  lemma StatsNoneIff(xs: seq<int>, ys: seq<Option<real>>, es: seq<Option<real>>,
                     startMs: int, endMs: int, costPerKwh: real)
    requires |xs| == |ys| && Lttb.NonDecreasing(xs)
    ensures (StatsOf(xs, ys, es, startMs, endMs, costPerKwh).None?)
            <==> (Seconds(endMs) <= Seconds(startMs)
                  || forall j :: 0 <= j < |xs| ==> !(Seconds(startMs) <= xs[j] <= Seconds(endMs)))
  {
    WindowIndices(xs, Seconds(startMs), Seconds(endMs));
  }

  /** The count is the number of present powers in the window, and the
      three power figures are present exactly when the count is positive. */
  lemma StatsInCount(xs: seq<int>, ys: seq<Option<real>>, es: seq<Option<real>>,
                     i0: nat, i1: nat, costPerKwh: real)
    requires i0 <= i1 < |xs| == |ys|
    ensures StatsIn(xs, ys, es, i0, i1, costPerKwh).count == CountPresent(ys[i0..i1 + 1])
    ensures StatsIn(xs, ys, es, i0, i1, costPerKwh).minP.Some? <==> CountPresent(ys[i0..i1 + 1]) > 0
    ensures StatsIn(xs, ys, es, i0, i1, costPerKwh).maxP.Some? <==> CountPresent(ys[i0..i1 + 1]) > 0
    ensures StatsIn(xs, ys, es, i0, i1, costPerKwh).avgP.Some? <==> CountPresent(ys[i0..i1 + 1]) > 0
  {
    PresentMembers(ys[i0..i1 + 1]);
  }

  /** With a present power in the window, min ≤ avg ≤ max, the minimum
      and the maximum are powers of window points, and no present power of
      the window lies outside them. */
  lemma StatsInOrdered(xs: seq<int>, ys: seq<Option<real>>, es: seq<Option<real>>,
                       i0: nat, i1: nat, costPerKwh: real, mn: real, avg: real, mx: real)
    requires i0 <= i1 < |xs| == |ys|
    requires StatsIn(xs, ys, es, i0, i1, costPerKwh).minP == Some(mn)
    requires StatsIn(xs, ys, es, i0, i1, costPerKwh).avgP == Some(avg)
    requires StatsIn(xs, ys, es, i0, i1, costPerKwh).maxP == Some(mx)
    ensures mn <= avg <= mx
    ensures Some(mn) in ys[i0..i1 + 1] && Some(mx) in ys[i0..i1 + 1]
    ensures forall k :: i0 <= k <= i1 && ys[k].Some? ==> mn <= ys[k].value <= mx
  {
    var v := Present(ys[i0..i1 + 1]);
    PresentMembers(ys[i0..i1 + 1]);
    MeanBetweenMinMax(v);
    MinMaxBounds(v);
    forall k | i0 <= k <= i1 && ys[k].Some?
      ensures mn <= ys[k].value <= mx
    {
      PresentIn(ys[i0..i1 + 1], k - i0);
    }
  }

  /** The energy part of computeStatsLocal: the meter delta when both end
      readings exist, else the trapezoid integral in kWh. */
  method WindowEnergy(xs: seq<int>, ys: seq<Option<real>>, es: seq<Option<real>>, i0: nat, i1: nat)
    returns (energyUsed: real)
    requires i0 <= i1 < |xs| == |ys|
    ensures energyUsed == EnergyIn(xs, ys, es, i0, i1)
  {
    var eStart := FirstEnergyScan(es, i0, i1);
    var eEnd := LastEnergyScan(es, i0, i1);
    if eStart.Some? && eEnd.Some? {
      energyUsed := eEnd.value - eStart.value;
    } else {
      var sumWs := TrapezoidSum(xs, ys, i0, i1);
      energyUsed := sumWs / WS_PER_KWH;
    }
  }

  /** The figures computeStatsLocal displays for the index window [i0, i1]. */
  method WindowFigures(xs: seq<int>, ys: seq<Option<real>>, es: seq<Option<real>>,
                       i0: nat, i1: nat, costPerKwh: real)
    returns (w: WindowStats)
    requires i0 <= i1 < |xs| == |ys|
    ensures w == StatsIn(xs, ys, es, i0, i1, costPerKwh)
  {
    var ySlice := Present(ys[i0..i1 + 1]);
    var count := |ySlice|;
    var minP := if count > 0 then Some(Min(ySlice)) else None;
    var maxP := if count > 0 then Some(Max(ySlice)) else None;
    var avgP := if count > 0 then Some(Mean(ySlice)) else None;
    var energyUsed := WindowEnergy(xs, ys, es, i0, i1);
    w := WindowStats(count, minP, maxP, avgP, energyUsed, energyUsed * costPerKwh);
  }

  /** computeStatsLocal, returning its figures instead of displaying them. */
  method ComputeStatsLocal(xs: seq<int>, ys: seq<Option<real>>, es: seq<Option<real>>,
                           startMs: int, endMs: int, costPerKwh: real)
    returns (r: Option<WindowStats>)
    requires |xs| == |ys|
    ensures r == StatsOf(xs, ys, es, startMs, endMs, costPerKwh)
  {
    var startSec := startMs / 1000;
    var endSec := endMs / 1000;
    if |xs| == 0 || endSec <= startSec {
      return None;
    }
    var i0 := ScanStart(xs, startSec);
    var i1 := ScanEnd(xs, endSec);
    if i1 < i0 {
      return None;
    }
    var w := WindowFigures(xs, ys, es, i0, i1, costPerKwh);
    r := Some(w);
  }
}
