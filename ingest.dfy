/** What the desktop dashboard does with a batch of readings once the JSON is
    in hand (the body of `fetchReadings` in static/app.js): map each row to a
    (time, power) sample, derive power from energy deltas when no row carries
    a power value, keep the samples whose power is present, convert
    milliseconds to whole seconds, and either append the new suffix to the
    series or replace the series by a downsampled copy. */
module Ingest {
  import opened Wrappers
  import opened Lttb

  /** A reading as the readings endpoint returns it: time in milliseconds,
      power in W and cumulative meter energy in kWh. */
  datatype Reading = Reading(t: int, p: Option<real>, e: Option<real>)

  /** A (time in ms, power) pair before filtering. */
  datatype Sample = Sample(t: int, p: Option<real>)

  /** The three parallel series: seconds, power and energy. */
  datatype Series = Series(xs: seq<int>, ys: seq<Option<real>>, es: seq<Option<real>>)

  /** Math.floor(ms / 1000); Dafny's division by a positive divisor rounds
      down for negative numerators too. */
  function Seconds(ms: int): (s: int)
    ensures s * 1000 <= ms < s * 1000 + 1000
  {
    ms / 1000
  }

  function RealMax(a: real, b: real): (r: real)
    ensures r >= a && r >= b && (r == a || r == b)
  {
    if a >= b then a else b
  }

  // ---------------------------------------------------------------------------
  // Derived power
  // ---------------------------------------------------------------------------

  predicate AllPowerNull(rows: seq<Reading>)
  {
    forall i :: 0 <= i < |rows| ==> rows[i].p.None?
  }

  /** Adjacent rows a, b yield a derived sample when both carry an energy
      value and b is strictly later than a. */
  predicate Derivable(a: Reading, b: Reading)
  {
    a.e.Some? && b.e.Some? && b.t > a.t
  }

  /** max(0, ΔkWh · 3.6e9 / Δms): the average power in W between a and b. */
  function DerivedWatts(a: Reading, b: Reading): real
    requires Derivable(a, b)
  {
    RealMax(0.0, (b.e.value - a.e.value) * 3600000000.0 / ((b.t - a.t) as real))
  }

  /** The derived samples of rows[..n]: one for each derivable adjacent pair,
      stamped with the later row's time. */
  function Derive(rows: seq<Reading>, n: nat): (r: seq<Sample>)
    requires n <= |rows|
    ensures |r| <= n
    ensures n >= 1 ==> |r| < n
    ensures forall k :: 0 <= k < |r| ==> r[k].p.Some?
  {
    if n < 2 then []
    else if Derivable(rows[n - 2], rows[n - 1])
    then Derive(rows, n - 1) + [Sample(rows[n - 1].t, Some(DerivedWatts(rows[n - 2], rows[n - 1])))]
    else Derive(rows, n - 1)
  }

  /** s is the sample derived from some derivable adjacent pair of rows[..n]. */
  predicate FromPair(rows: seq<Reading>, n: nat, s: Sample)
    requires n <= |rows|
  {
    exists i :: 1 <= i < n && Derivable(rows[i - 1], rows[i])
                && s == Sample(rows[i].t, Some(DerivedWatts(rows[i - 1], rows[i])))
  }

  /** Derived power is never negative, and every derived sample takes its time
      and power from a derivable adjacent pair. */
  lemma {:induction false} DeriveFromPairs(rows: seq<Reading>, n: nat)
    requires n <= |rows|
    ensures forall k :: 0 <= k < |Derive(rows, n)| ==> Derive(rows, n)[k].p.value >= 0.0
    ensures forall k :: 0 <= k < |Derive(rows, n)| ==> FromPair(rows, n, Derive(rows, n)[k])
  {
    if n >= 2 {
      DeriveFromPairs(rows, n - 1);
      var p := Derive(rows, n - 1);
      forall k | 0 <= k < |Derive(rows, n)|
        ensures Derive(rows, n)[k].p.value >= 0.0
        ensures FromPair(rows, n, Derive(rows, n)[k])
      {
        if k < |p| {
          assert FromPair(rows, n - 1, p[k]);
          var i :| 1 <= i < n - 1 && Derivable(rows[i - 1], rows[i])
                   && p[k] == Sample(rows[i].t, Some(DerivedWatts(rows[i - 1], rows[i])));
          assert Derive(rows, n)[k] == p[k];
        } else {
          assert Derive(rows, n)[k] == Sample(rows[n - 1].t, Some(DerivedWatts(rows[n - 2], rows[n - 1])));
        }
      }
    }
  }

  /** A pair of adjacent derivable rows always yields a derived sample, so
      the derivation is empty only when no such pair exists. */
  lemma {:induction false} DeriveEmptyIff(rows: seq<Reading>, n: nat)
    requires n <= |rows|
    ensures Derive(rows, n) == [] <==> forall i :: 1 <= i < n ==> !Derivable(rows[i - 1], rows[i])
  {
    if n >= 2 {
      DeriveEmptyIff(rows, n - 1);
    }
  }

  /** The derivation loop of `fetchReadings`. */
  method DerivePower(rows: seq<Reading>) returns (derived: seq<Sample>)
    ensures derived == Derive(rows, |rows|)
  {
    derived := [];
    var i := 1;
    while i < |rows|
      invariant 1 <= i && (|rows| >= 1 ==> i <= |rows|)
      invariant derived == Derive(rows, if |rows| == 0 then 0 else i)
    {
      var a, b := rows[i - 1], rows[i];
      if a.e.Some? && b.e.Some? && b.t > a.t {
        var dtMs := b.t - a.t;
        if dtMs > 0 {
          var watts := RealMax(0.0, (b.e.value - a.e.value) * 3600000000.0 / (dtMs as real));
          derived := derived + [Sample(b.t, Some(watts))];
        }
      }
      i := i + 1;
    }
  }

  /** The primary samples: (t, p) per row, replaced by the derived samples
      when every power is null and at least one sample can be derived. */
  function Mapped(rows: seq<Reading>): (m: seq<Sample>)
    ensures |m| <= |rows|
  {
    if |rows| > 0 && AllPowerNull(rows) && |Derive(rows, |rows|)| > 0
    then Derive(rows, |rows|)
    else seq(|rows|, i requires 0 <= i < |rows| => Sample(rows[i].t, rows[i].p))
  }

  /** When some row carries a power, the samples are the rows' own. */
  lemma MappedDirect(rows: seq<Reading>)
    requires !AllPowerNull(rows)
    ensures |Mapped(rows)| == |rows|
    ensures forall i :: 0 <= i < |rows| ==> Mapped(rows)[i] == Sample(rows[i].t, rows[i].p)
  {
  }

  /** With every power null, derived samples replace the rows exactly when
      some adjacent pair is derivable. */
  lemma MappedDerived(rows: seq<Reading>)
    requires |rows| > 0 && AllPowerNull(rows)
    ensures (exists i :: 1 <= i < |rows| && Derivable(rows[i - 1], rows[i]))
              ==> Mapped(rows) == Derive(rows, |rows|)
    ensures (forall i :: 1 <= i < |rows| ==> !Derivable(rows[i - 1], rows[i]))
              ==> forall k :: 0 <= k < |Mapped(rows)| ==> Mapped(rows)[k].p.None?
  {
    DeriveEmptyIff(rows, |rows|);
  }

  // ---------------------------------------------------------------------------
  // Filtering
  // ---------------------------------------------------------------------------

  /** Indices of the samples whose power is present, in order. */
  function KeptIndices(m: seq<Sample>, n: nat): (r: seq<nat>)
    requires n <= |m|
    ensures forall k :: 0 <= k < |r| ==> r[k] < n
  {
    if n == 0 then []
    else if m[n - 1].p.Some? then KeptIndices(m, n - 1) + [n - 1]
    else KeptIndices(m, n - 1)
  }

  /** The kept indices are exactly the present ones, strictly increasing. */
  lemma {:induction false} KeptIndicesExact(m: seq<Sample>, n: nat)
    requires n <= |m|
    ensures forall i :: 0 <= i < n ==> (i in KeptIndices(m, n) <==> m[i].p.Some?)
    ensures forall k, l :: 0 <= k < l < |KeptIndices(m, n)| ==> KeptIndices(m, n)[k] < KeptIndices(m, n)[l]
  {
    if n > 0 {
      KeptIndicesExact(m, n - 1);
    }
  }

  function SecondsOf(m: seq<Sample>): (r: seq<int>)
    ensures |r| == |m| && forall i :: 0 <= i < |m| ==> r[i] == Seconds(m[i].t)
  {
    seq(|m|, i requires 0 <= i < |m| => Seconds(m[i].t))
  }

  function PowersOf(m: seq<Sample>): (r: seq<Option<real>>)
    ensures |r| == |m| && forall i :: 0 <= i < |m| ==> r[i] == m[i].p
  {
    seq(|m|, i requires 0 <= i < |m| => m[i].p)
  }

  function EnergiesOf(rows: seq<Reading>): (r: seq<Option<real>>)
    ensures |r| == |rows| && forall i :: 0 <= i < |rows| ==> r[i] == rows[i].e
  {
    seq(|rows|, i requires 0 <= i < |rows| => rows[i].e)
  }

  /** The kept samples of m as three series; the energy of kept sample i is
      rows[i].e, which on the derived path belongs to the row before the one
      the sample was derived from. */
  function Filtered(m: seq<Sample>, rows: seq<Reading>, n: nat): (b: Series)
    requires n <= |m| <= |rows|
  {
    var idx := KeptIndices(m, n);
    Series(Gather(SecondsOf(m), idx), Gather(PowersOf(m), idx), Gather(EnergiesOf(rows), idx))
  }

  /** The three filtered series have one entry per present sample: its
      seconds, its power (present) and the energy of the row at its index. */
  lemma FilteredShape(m: seq<Sample>, rows: seq<Reading>)
    requires |m| <= |rows|
    ensures var b := Filtered(m, rows, |m|);
            && |b.xs| == |b.ys| == |b.es| <= |m|
            && (forall k :: 0 <= k < |b.ys| ==> b.ys[k].Some?)
  {
    KeptIndicesExact(m, |m|);
    var idx := KeptIndices(m, |m|);
    assert forall k :: 0 <= k < |idx| ==> idx[k] in idx;
    KeptIndicesLength(m, |m|);
  }

  lemma {:induction false} KeptIndicesLength(m: seq<Sample>, n: nat)
    requires n <= |m|
    ensures |KeptIndices(m, n)| <= n
  {
    if n > 0 {
      KeptIndicesLength(m, n - 1);
    }
  }

  /** On the derived path the energies are shifted by one row: the sample
      derived from rows 0 and 1 is stamped with rows[1].t but carries rows[0].e. */
  lemma DerivedEnergyShifted()
    ensures var rows := [Reading(0, None, Some(1.0)), Reading(1000, None, Some(2.0))];
            && Filtered(Mapped(rows), rows, |Mapped(rows)|)
                 == Series([1], [Some(3600000.0)], [Some(1.0)])
  {
    var rows := [Reading(0, None, Some(1.0)), Reading(1000, None, Some(2.0))];
    assert Derivable(rows[0], rows[1]);
    assert DerivedWatts(rows[0], rows[1]) == 3600000.0;
    assert Derive(rows, 1) == [];
    assert Derive(rows, 2) == [Sample(1000, Some(3600000.0))];
    var m := Mapped(rows);
    assert m == [Sample(1000, Some(3600000.0))];
    assert KeptIndices(m, 0) == [];
    assert KeptIndices(m, 1) == [0];
  }

  /** The filter loop of `fetchReadings`. */
  method FilterFinite(m: seq<Sample>, rows: seq<Reading>) returns (b: Series)
    requires |m| <= |rows|
    ensures b == Filtered(m, rows, |m|)
  {
    var xs, ys, es := [], [], [];
    var i := 0;
    while i < |m|
      invariant i <= |m|
      invariant Series(xs, ys, es) == Filtered(m, rows, i)
    {
      ghost var idx := KeptIndices(m, i);
      if m[i].p.Some? {
        GatherSnoc(SecondsOf(m), idx, i);
        GatherSnoc(PowersOf(m), idx, i);
        GatherSnoc(EnergiesOf(rows), idx, i);
        xs := xs + [Seconds(m[i].t)];
        ys := ys + [m[i].p];
        es := es + [rows[i].e];
      }
      i := i + 1;
    }
    b := Series(xs, ys, es);
  }

  /** The batch a readings response turns into, before merging. */
  function BatchOf(rows: seq<Reading>): Series
  {
    Filtered(Mapped(rows), rows, |Mapped(rows)|)
  }

  /** Map, derive if needed, and filter a response. */
  method PrepareBatch(rows: seq<Reading>) returns (b: Series)
    ensures b == BatchOf(rows)
  {
    var mapped := seq(|rows|, i requires 0 <= i < |rows| => Sample(rows[i].t, rows[i].p));
    var allNull := forall i :: 0 <= i < |rows| ==> rows[i].p.None?;
    if |mapped| > 0 && allNull {
      var derived := DerivePower(rows);
      if |derived| > 0 {
        mapped := derived;
      }
    }
    b := FilterFinite(mapped, rows);
  }

  // ---------------------------------------------------------------------------
  // Merging
  // ---------------------------------------------------------------------------

  /** Index of the first new x strictly after `last`, or |xs| when none is. */
  function AppendFrom(xs: seq<int>, last: int): (k: nat)
    ensures k <= |xs|
    ensures forall j :: 0 <= j < k ==> xs[j] <= last
    ensures k < |xs| ==> xs[k] > last
  {
    if xs == [] then 0
    else if xs[0] > last then 0
    else 1 + AppendFrom(xs[1..], last)
  }

  /** The scan of `fetchReadings` that finds where the new points begin. */
  method FindAppendIndex(newXs: seq<int>, lastExisting: int) returns (appendIndex: nat)
    ensures appendIndex == AppendFrom(newXs, lastExisting)
  {
    appendIndex := 0;
    var i := 0;
    while i < |newXs|
      invariant i <= |newXs|
      invariant forall j :: 0 <= j < i ==> newXs[j] <= lastExisting
      invariant appendIndex == (if i == 0 then 0 else |newXs|)
    {
      if newXs[i] > lastExisting {
        appendIndex := i;
        AppendFromIs(newXs, lastExisting, i);
        return;
      }
      appendIndex := |newXs|;
      i := i + 1;
    }
    AppendFromIs(newXs, lastExisting, |newXs|);
  }

  /** AppendFrom is determined by its contract. */
  lemma {:induction false} AppendFromIs(xs: seq<int>, last: int, k: nat)
    requires k <= |xs|
    requires forall j :: 0 <= j < k ==> xs[j] <= last
    requires k < |xs| ==> xs[k] > last
    ensures AppendFrom(xs, last) == k
  {
    if xs != [] && xs[0] <= last {
      AppendFromIs(xs[1..], last, k - 1);
    }
  }

  function Latest(s: seq<int>): int
    requires |s| > 0
  {
    s[|s| - 1]
  }

  /** The incremental merge: the batch suffix that starts at the first x after
      the current last x is appended to each series. */
  function Appended(s: Series, b: Series): (r: Series)
    requires |s.xs| > 0 && |b.xs| == |b.ys| == |b.es|
  {
    var k := AppendFrom(b.xs, Latest(s.xs));
    Series(s.xs + b.xs[k..], s.ys + b.ys[k..], s.es + b.es[k..])
  }

  /** The merge keeps the existing series as a prefix, and every appended x
      is later than the old last x when the batch is sorted. */
  lemma AppendedExtends(s: Series, b: Series)
    requires |s.xs| > 0 && |b.xs| == |b.ys| == |b.es|
    requires NonDecreasing(b.xs)
    ensures var r := Appended(s, b);
            && r.xs[..|s.xs|] == s.xs && r.ys[..|s.ys|] == s.ys && r.es[..|s.es|] == s.es
            && forall j :: |s.xs| <= j < |r.xs| ==> r.xs[j] > Latest(s.xs)
  {
    var k := AppendFrom(b.xs, Latest(s.xs));
    var r := Appended(s, b);
    assert r.xs[..|s.xs|] == s.xs;
    forall j | |s.xs| <= j < |r.xs|
      ensures r.xs[j] > Latest(s.xs)
    {
      assert r.xs[j] == b.xs[k + j - |s.xs|];
      assert b.xs[k] <= b.xs[k + j - |s.xs|];
    }
  }

  /** Re-applying the same sorted batch appends nothing. */
  lemma AppendedIdempotent(s: Series, b: Series)
    requires |s.xs| > 0 && |b.xs| == |b.ys| == |b.es|
    requires NonDecreasing(b.xs)
    ensures Appended(Appended(s, b), b) == Appended(s, b)
  {
    var k := AppendFrom(b.xs, Latest(s.xs));
    var r := Appended(s, b);
    if k < |b.xs| {
      assert Latest(r.xs) == b.xs[|b.xs| - 1];
      assert forall j :: 0 <= j < |b.xs| ==> b.xs[j] <= Latest(r.xs);
      AppendFromIs(b.xs, Latest(r.xs), |b.xs|);
    }
    assert b.xs[|b.xs|..] == [] && b.ys[|b.ys|..] == [] && b.es[|b.es|..] == [];
    assert r.xs + [] == r.xs && r.ys + [] == r.ys && r.es + [] == r.es;
  }
}
