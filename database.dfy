/** The server's aggregation over stored readings (database.py), restated
    over an in-memory table: a sequence of rows in primary-key order, that
    is, by strictly increasing timestamp. */
module Database {
  import opened Wrappers
  import opened Numeric
  import opened Sorting
  import opened Ingest

  /** One stored reading: its timestamp in microseconds since the epoch and
      the nullable power and cumulative energy columns. */
  datatype DbRow = DbRow(us: int, power: Option<real>, energy: Option<real>)

  /** The timestamp is the primary key, and queries order by it. */
  ghost predicate Ordered(rows: seq<DbRow>)
  {
    forall i, j :: 0 <= i < j < |rows| ==> rows[i].us < rows[j].us
  }

  // ---------------------------------------------------------------------------
  // get_readings
  // ---------------------------------------------------------------------------

  /** Python's int() on a float: truncation toward zero. */
  function TruncDiv(a: int, d: int): int
    requires d > 0
  {
    if a >= 0 then a / d else -((-a) / d)
  }

  /** `int(timestamp() * 1000)`: whole milliseconds, truncated toward zero. */
  function MsOf(us: int): (ms: int)
    ensures us >= 0 ==> ms * 1000 <= us < ms * 1000 + 1000
    ensures us < 0 ==> ms * 1000 - 1000 < us <= ms * 1000
  {
    TruncDiv(us, 1000)
  }

  /** Later rows never get an earlier millisecond time. */
  lemma MsOfMonotone(a: int, b: int)
    requires a <= b
    ensures MsOf(a) <= MsOf(b)
  {
    if 0 <= a {
      DivMono(a, b, 1000);
    } else if b < 0 {
      DivMono(-b, -a, 1000);
    }
  }

  /** The optional inclusive bounds of a query. */
  predicate InRange(r: DbRow, start: Option<int>, end: Option<int>)
  {
    (start.None? || start.value <= r.us) && (end.None? || r.us <= end.value)
  }

  /** `query.all()`: the rows within the bounds, in table order. */
  function RangeRows(rows: seq<DbRow>, start: Option<int>, end: Option<int>): (r: seq<DbRow>)
    ensures |r| <= |rows|
    ensures forall x :: x in r ==> x in rows && InRange(x, start, end)
  {
    if rows == [] then []
    else
      var init := RangeRows(rows[..|rows| - 1], start, end);
      assert forall x :: x in rows[..|rows| - 1] ==> x in rows;
      if InRange(rows[|rows| - 1], start, end) then init + [rows[|rows| - 1]] else init
  }

  /** Every row within the bounds is returned. */
  lemma {:induction false} RangeRowsComplete(rows: seq<DbRow>, start: Option<int>, end: Option<int>)
    ensures forall x :: x in rows && InRange(x, start, end) ==> x in RangeRows(rows, start, end)
  {
    if rows != [] {
      var init := rows[..|rows| - 1];
      RangeRowsComplete(init, start, end);
      assert forall x :: x in rows ==> x in init || x == rows[|rows| - 1];
    }
  }

  /** The table order is kept. */
  lemma {:induction false} RangeRowsOrdered(rows: seq<DbRow>, start: Option<int>, end: Option<int>)
    requires Ordered(rows)
    ensures Ordered(RangeRows(rows, start, end))
  {
    if rows != [] {
      var n := |rows|;
      var init := rows[..n - 1];
      RangeRowsOrdered(init, start, end);
      var r := RangeRows(init, start, end);
      if InRange(rows[n - 1], start, end) {
        forall y | y in r
          ensures y.us < rows[n - 1].us
        {
          var j :| 0 <= j < n - 1 && init[j] == y;
        }
        var r2 := r + [rows[n - 1]];
        forall i, j | 0 <= i < j < |r2|
          ensures r2[i].us < r2[j].us
        {
          assert r2[i] in r;
          if j < |r| {
            assert r2[j] == r[j];
          }
        }
      }
    }
  }

  /** Every row within the bounds is returned, and the order is kept. */
  lemma RangeRowsExact(rows: seq<DbRow>, start: Option<int>, end: Option<int>)
    requires Ordered(rows)
    ensures forall x :: x in rows && InRange(x, start, end) ==> x in RangeRows(rows, start, end)
    ensures Ordered(RangeRows(rows, start, end))
  {
    RangeRowsComplete(rows, start, end);
    RangeRowsOrdered(rows, start, end);
  }

  /** The JSON record {t, p, e} of one row. */
  function ToReading(r: DbRow): Reading
  {
    Reading(MsOf(r.us), r.power, r.energy)
  }

  function ReadingsOf(rs: seq<DbRow>): (out: seq<Reading>)
    ensures |out| == |rs| && forall k :: 0 <= k < |rs| ==> out[k] == ToReading(rs[k])
  {
    seq(|rs|, k requires 0 <= k < |rs| => ToReading(rs[k]))
  }

  /** get_readings as written: the debug message indexes rows[0] and rows[-1]
      while it is built, which raises IndexError when no row is in range. */
  function GetReadingsAsWritten(rows: seq<DbRow>, start: Option<int>, end: Option<int>): (r: Result<seq<Reading>, string>)
    ensures r.Err? <==> |RangeRows(rows, start, end)| == 0
  {
    var rs := RangeRows(rows, start, end);
    if |rs| == 0 then Err("IndexError: list index out of range")
    else Ok(ReadingsOf(rs))
  }

  /** An empty table, or a window without readings, makes the endpoint fail
      instead of answering with an empty list. */
  lemma GetReadingsEmptyWindowRaises()
    ensures GetReadingsAsWritten([], None, None).Err?
    ensures GetReadingsAsWritten([DbRow(5000, Some(1.0), Some(2.0))], Some(0), Some(1000)).Err?
  {
    assert RangeRows([DbRow(5000, Some(1.0), Some(2.0))], Some(0), Some(1000)) == [];
  }

  /** get_readings with the debug message guarded against an empty result:
      the append loop over the rows in range. */
  method GetReadings(rows: seq<DbRow>, start: Option<int>, end: Option<int>) returns (result: seq<Reading>)
    ensures result == ReadingsOf(RangeRows(rows, start, end))
  {
    var rs := RangeRows(rows, start, end);
    result := [];
    var i := 0;
    while i < |rs|
      invariant i <= |rs|
      invariant result == ReadingsOf(rs[..i])
    {
      result := result + [ToReading(rs[i])];
      i := i + 1;
    }
    assert rs[..i] == rs;
  }

  /** The readings are those of the rows within the inclusive bounds, all of
      them; where the window is not empty the code as written returns them
      too. */
  lemma GetReadingsProperties(rows: seq<DbRow>, start: Option<int>, end: Option<int>)
    ensures var rs := RangeRows(rows, start, end);
            var out := ReadingsOf(rs);
            && (forall k :: 0 <= k < |out| ==> rs[k] in rows && InRange(rs[k], start, end) && out[k] == ToReading(rs[k]))
            && (forall x :: x in rows && InRange(x, start, end) ==> ToReading(x) in out)
            && (|rs| > 0 ==> GetReadingsAsWritten(rows, start, end) == Ok(out))
  {
    var rs := RangeRows(rows, start, end);
    RangeRowsComplete(rows, start, end);
    var out := ReadingsOf(rs);
    forall x | x in rows && InRange(x, start, end)
      ensures ToReading(x) in out
    {
      var k :| 0 <= k < |rs| && rs[k] == x;
      assert out[k] == ToReading(x);
    }
  }

  /** On a table in time order the readings come out in time order. */
  lemma GetReadingsOrdered(rows: seq<DbRow>, start: Option<int>, end: Option<int>)
    requires Ordered(rows)
    ensures var out := ReadingsOf(RangeRows(rows, start, end));
            forall k, l :: 0 <= k < l < |out| ==> out[k].t <= out[l].t
  {
    var rs := RangeRows(rows, start, end);
    RangeRowsOrdered(rows, start, end);
    var out := ReadingsOf(rs);
    forall k, l | 0 <= k < l < |out|
      ensures out[k].t <= out[l].t
    {
      MsOfMonotone(rs[k].us, rs[l].us);
    }
  }

  // ---------------------------------------------------------------------------
  // get_avg_daily_energy_usage
  // ---------------------------------------------------------------------------

  const MS_PER_DAY: int := 86400000
  const YEAR_MS: int := 365 * MS_PER_DAY

  function TimeKey(r: Reading): int
  {
    r.t
  }

  /** The latest time of a non-empty list (`df["time"].max()`). */
  function MaxTime(s: seq<Reading>): (m: int)
    requires s != []
    ensures exists i :: 0 <= i < |s| && s[i].t == m
    ensures forall i :: 0 <= i < |s| ==> s[i].t <= m
  {
    if |s| == 1 then s[0].t
    else
      var m := MaxTime(s[1..]);
      assert forall i :: 1 <= i < |s| ==> s[i] == s[1..][i - 1];
      if s[0].t >= m then s[0].t else m
  }

  /** Whether a reading lies within 365 days of the given latest time. */
  function WithinYearOf(last: int): Reading -> bool
  {
    (r: Reading) => r.t >= last - YEAR_MS
  }

  /** The rows of a time-sorted list that satisfy p, in order. */
  function Filter(s: seq<Reading>, p: Reading -> bool): (r: seq<Reading>)
    ensures |r| == Count(s, p)
    ensures forall k :: 0 <= k < |r| ==> r[k] in s && p(r[k])
  {
    if s == [] then []
    else
      assert forall x :: x in s[1..] ==> x in s;
      (if p(s[0]) then [s[0]] else []) + Filter(s[1..], p)
  }

  /** Every row of s that satisfies p is kept. */
  lemma {:induction false} FilterComplete(s: seq<Reading>, p: Reading -> bool, x: Reading)
    requires x in s && p(x)
    ensures x in Filter(s, p)
  {
    if x != s[0] {
      assert x in s[1..];
      FilterComplete(s[1..], p, x);
    }
  }

  lemma {:induction false} FilterSorted(s: seq<Reading>, p: Reading -> bool)
    requires SortedBy(s, TimeKey)
    ensures SortedBy(Filter(s, p), TimeKey)
  {
    if s != [] {
      FilterSorted(s[1..], p);
      var rest := Filter(s[1..], p);
      forall k | 0 <= k < |rest|
        ensures s[0].t <= rest[k].t
      {
        assert rest[k] in s[1..];
      }
    }
  }

  /** The readings of the last 365 days before the latest one, in time
      order. */
  function YearWindow(data: seq<Reading>): (w: seq<Reading>)
    requires data != []
    ensures |w| == Count(data, WithinYearOf(MaxTime(data)))
    ensures SortedBy(w, TimeKey)
    ensures forall k :: 0 <= k < |w| ==> w[k] in data && w[k].t >= MaxTime(data) - YEAR_MS
  {
    var sorted := SortBy(data, TimeKey);
    SortByProps(data, TimeKey);
    SortByKeeps(data, TimeKey, WithinYearOf(MaxTime(data)));
    FilterSorted(sorted, WithinYearOf(MaxTime(data)));
    Filter(sorted, WithinYearOf(MaxTime(data)))
  }

  /** Every reading within 365 days of the latest one is in the window. */
  lemma YearWindowComplete(data: seq<Reading>, x: Reading)
    requires data != [] && x in data && x.t >= MaxTime(data) - YEAR_MS
    ensures x in YearWindow(data)
  {
    var sorted := SortBy(data, TimeKey);
    SortByKeeps(data, TimeKey, WithinYearOf(MaxTime(data)));
    assert x in sorted;
    FilterComplete(sorted, WithinYearOf(MaxTime(data)), x);
  }

  /** A reading within 365 days of the latest one lies between the window's
      first and last reading. */
  lemma YearWindowBounds(data: seq<Reading>, x: Reading)
    requires data != [] && x in data && x.t >= MaxTime(data) - YEAR_MS
    ensures var w := YearWindow(data);
            && |w| > 0 && w[0].t <= x.t <= w[|w| - 1].t
  {
    var w := YearWindow(data);
    YearWindowComplete(data, x);
    var k :| 0 <= k < |w| && w[k] == x;
    assert SortedBy(w, TimeKey);
    if 0 < k {
      assert TimeKey(w[0]) <= TimeKey(w[k]);
    }
    if k < |w| - 1 {
      assert TimeKey(w[k]) <= TimeKey(w[|w| - 1]);
    }
  }

  /** The window is never empty. Its first reading is the earliest of the
      readings within 365 days of the latest one, and its last reading is the
      latest reading itself. */
  lemma YearWindowEnds(data: seq<Reading>)
    requires data != []
    ensures var w := YearWindow(data);
            && |w| > 0 && w[|w| - 1].t == MaxTime(data)
            && forall x :: x in data && x.t >= MaxTime(data) - YEAR_MS ==> w[0].t <= x.t <= w[|w| - 1].t
  {
    var w := YearWindow(data);
    var i :| 0 <= i < |data| && data[i].t == MaxTime(data);
    YearWindowBounds(data, data[i]);
    assert w[|w| - 1] in data;
    forall x | x in data && x.t >= MaxTime(data) - YEAR_MS
      ensures w[0].t <= x.t <= w[|w| - 1].t
    {
      YearWindowBounds(data, x);
    }
  }

  /** The window's length in days, from its first to its last reading. */
  function SpanDays(w: seq<Reading>): real
    requires w != []
  {
    (w[|w| - 1].t - w[0].t) as real / MS_PER_DAY as real
  }

  /** The steps after the window is cut: at least two readings spanning
      some time, then the energy delta per day. */
  function RateOver(window: seq<Reading>): Result<Option<real>, string>
  {
    if |window| < 2 then Err("Not enough data in the last year")
    else if SpanDays(window) <= 0.0 then Err("Invalid time span")
    else
      var e0, e1 := window[0].e, window[|window| - 1].e;
      if e0.Some? && e1.Some? then Ok(Some((e1.value - e0.value) / SpanDays(window))) else Ok(None)
  }

  /** No reading carries an energy value, so pandas keeps the energy column
      as objects and the final subtraction is None − None. */
  predicate AllEnergyNull(data: seq<Reading>)
  {
    forall i :: 0 <= i < |data| ==> data[i].e.None?
  }

  /** get_avg_daily_energy_usage: the energy delta per day over the readings
      of the last 365 days before the latest one. With at least one energy
      value the column is numeric, and Ok(None) stands for the NaN a missing
      energy at either end yields; with none, the subtraction raises. */
  function AvgDailyEnergyUsage(data: seq<Reading>): Result<Option<real>, string>
  {
    if data == [] then Err("KeyError: 't'")
    else
      var r := RateOver(YearWindow(data));
      if r.Ok? && AllEnergyNull(data) then Err("TypeError: unsupported operand type(s) for -") else r
  }

  /** The average fails exactly when the data is empty, fewer than two
      readings lie within 365 days of the latest one, all of those share one
      time, or no reading carries an energy value. */
  lemma AvgDailyEnergyUsageFails(data: seq<Reading>)
    ensures AvgDailyEnergyUsage(data).Err? <==>
              data == [] || Count(data, WithinYearOf(MaxTime(data))) < 2
              || YearWindow(data)[|YearWindow(data)| - 1].t == YearWindow(data)[0].t
              || AllEnergyNull(data)
  {
    if data != [] && Count(data, WithinYearOf(MaxTime(data))) >= 2 {
      var w := YearWindow(data);
      assert w[0].t <= w[|w| - 1].t;
      SpanDaysSign(w);
    }
  }

  /** On a window in time order the span is positive unless the ends share
      one time. */
  lemma SpanDaysSign(w: seq<Reading>)
    requires w != [] && w[0].t <= w[|w| - 1].t
    ensures SpanDays(w) <= 0.0 <==> w[|w| - 1].t == w[0].t
  {
    var d := w[|w| - 1].t - w[0].t;
    if d > 0 {
      assert d as real / MS_PER_DAY as real > 0.0;
    }
  }

  /** Otherwise the result is the energy delta between the first and the last
      reading of the window divided by its span in days, or NaN when either
      energy is missing. */
  lemma AvgDailyEnergyUsageRate(data: seq<Reading>)
    requires AvgDailyEnergyUsage(data).Ok?
    ensures !AllEnergyNull(data)
    ensures var w := YearWindow(data);
            && |w| >= 2 && SpanDays(w) > 0.0
            && (AvgDailyEnergyUsage(data).value.Some? <==> w[0].e.Some? && w[|w| - 1].e.Some?)
            && (w[0].e.Some? && w[|w| - 1].e.Some? ==>
                  && AvgDailyEnergyUsage(data).value.Some?
                  && AvgDailyEnergyUsage(data).value.value * SpanDays(w) == w[|w| - 1].e.value - w[0].e.value)
  {
    var w := YearWindow(data);
    assert RateOver(w).Ok? && !AllEnergyNull(data);
    assert AvgDailyEnergyUsage(data) == RateOver(w);
    RateOverOk(w);
  }

  /** A successful rate over a window: the window has two readings and a
      positive span, and the rate times the span is the energy delta. */
  lemma RateOverOk(w: seq<Reading>)
    requires RateOver(w).Ok?
    ensures |w| >= 2 && SpanDays(w) > 0.0
    ensures RateOver(w).value.Some? <==> w[0].e.Some? && w[|w| - 1].e.Some?
    ensures w[0].e.Some? && w[|w| - 1].e.Some? ==>
              RateOver(w).value.Some? && RateOver(w).value.value * SpanDays(w) == w[|w| - 1].e.value - w[0].e.value
  {
  }

  /** Three daily readings with 10 kWh used per day. */
  function TwoDaysData(): seq<Reading>
  {
    [Reading(0, Some(500.0), Some(100.0)),
     Reading(MS_PER_DAY, Some(600.0), Some(110.0)),
     Reading(2 * MS_PER_DAY, Some(700.0), Some(120.0))]
  }

  lemma TwoDaysSorted()
    ensures SortBy(TwoDaysData(), TimeKey) == TwoDaysData()
  {
    var data := TwoDaysData();
    assert SortBy(data[2..], TimeKey) == data[2..];
    assert SortBy(data[1..], TimeKey) == InsertBy(data[1], data[2..], TimeKey) == data[1..];
    assert SortBy(data, TimeKey) == InsertBy(data[0], data[1..], TimeKey) == data;
  }

  lemma TwoDaysWindow()
    ensures YearWindow(TwoDaysData()) == TwoDaysData()
  {
    var data := TwoDaysData();
    TwoDaysSorted();
    assert MaxTime(data[1..]) == 2 * MS_PER_DAY;
    assert MaxTime(data) == 2 * MS_PER_DAY;
    var p := WithinYearOf(2 * MS_PER_DAY);
    assert Filter(data[2..], p) == data[2..];
    assert Filter(data[1..], p) == data[1..];
  }

  /** 20 kWh over two days is 10 kWh a day. */
  lemma AvgDailyTwoDays()
    ensures AvgDailyEnergyUsage(TwoDaysData()) == Ok(Some(10.0))
  {
    TwoDaysWindow();
    TwoDaysRate();
  }

  lemma TwoDaysRate()
    ensures RateOver(TwoDaysData()) == Ok(Some(10.0))
  {
    var w := TwoDaysData();
    assert SpanDays(w) == 2.0;
    assert (w[2].e.value - w[0].e.value) / 2.0 == 10.0;
  }

  /** Readings without any energy value raise even over a valid window: two
      readings a day apart with null energies. */
  lemma AvgDailyAllNullRaises()
    ensures AvgDailyEnergyUsage([Reading(0, Some(1.0), None), Reading(MS_PER_DAY, Some(1.0), None)]).Err?
  {
    AvgDailyEnergyUsageFails([Reading(0, Some(1.0), None), Reading(MS_PER_DAY, Some(1.0), None)]);
  }

  /** A single reading is not enough. */
  lemma AvgDailySingleReading(r: Reading)
    ensures AvgDailyEnergyUsage([r]).Err?
  {
    assert [r][1..] == [];
    assert Count([r], WithinYearOf(MaxTime([r]))) <= 1;
  }

  // ---------------------------------------------------------------------------
  // get_stats
  // ---------------------------------------------------------------------------

  /** The dictionary get_stats returns. */
  datatype DbStats = DbStats(energyUsedKwh: Option<real>, minPowerWatts: Option<real>,
                             maxPowerWatts: Option<real>, avgPowerWatts: Option<real>, count: nat)

  function Powers(rs: seq<DbRow>): (ps: seq<Option<real>>)
    ensures |ps| == |rs| && forall k :: 0 <= k < |rs| ==> ps[k] == rs[k].power
  {
    seq(|rs|, k requires 0 <= k < |rs| => rs[k].power)
  }

  /** get_stats over [start, end]: the SQL aggregates skip null powers, and
      the energy used is the last minus the first energy in the window when
      both are recorded. */
  function GetStats(rows: seq<DbRow>, start: int, end: int): DbStats
  {
    var rs := RangeRows(rows, Some(start), Some(end));
    var ps := Present(Powers(rs));
    var energy := if |rs| > 0 && rs[0].energy.Some? && rs[|rs| - 1].energy.Some?
                  then Some(rs[|rs| - 1].energy.value - rs[0].energy.value) else None;
    if ps == [] then DbStats(energy, None, None, None, 0)
    else DbStats(energy, Some(Min(ps)), Some(Max(ps)), Some(Mean(ps)), |ps|)
  }

  /** The count is the number of window rows with a power; min, max and mean
      are absent exactly when it is zero, and otherwise they are powers of
      the window, the mean between the two. */
  lemma GetStatsAggregates(rows: seq<DbRow>, start: int, end: int)
    ensures var st := GetStats(rows, start, end);
            var ps := Powers(RangeRows(rows, Some(start), Some(end)));
            && st.count == CountPresent(ps)
            && (st.count == 0 <==> st.minPowerWatts.None?)
            && (st.minPowerWatts.None? <==> st.maxPowerWatts.None?)
            && (st.maxPowerWatts.None? <==> st.avgPowerWatts.None?)
            && (st.count > 0 ==> st.minPowerWatts.value <= st.avgPowerWatts.value <= st.maxPowerWatts.value)
            && (st.count > 0 ==> Some(st.minPowerWatts.value) in ps && Some(st.maxPowerWatts.value) in ps)
  {
    var ps := Present(Powers(RangeRows(rows, Some(start), Some(end))));
    PresentMembers(Powers(RangeRows(rows, Some(start), Some(end))));
    if ps != [] {
      MinMaxBounds(ps);
      MeanBetweenMinMax(ps);
    }
  }

  /** Every recorded power of a row in [start, end] lies between min and max. */
  lemma GetStatsBounds(rows: seq<DbRow>, start: int, end: int)
    requires Ordered(rows)
    ensures var st := GetStats(rows, start, end);
            forall x :: x in rows && start <= x.us <= end && x.power.Some? ==>
              st.minPowerWatts.Some? && st.minPowerWatts.value <= x.power.value <= st.maxPowerWatts.value
  {
    var rs := RangeRows(rows, Some(start), Some(end));
    var ps := Present(Powers(rs));
    PresentMembers(Powers(rs));
    RangeRowsExact(rows, Some(start), Some(end));
    forall x | x in rows && start <= x.us <= end && x.power.Some?
      ensures ps != [] && Min(ps) <= x.power.value <= Max(ps)
    {
      assert InRange(x, Some(start), Some(end));
      var k :| 0 <= k < |rs| && rs[k] == x;
      PresentIn(Powers(rs), k);
      MinMaxBounds(ps);
    }
  }

  /** The energy used is present exactly when the window has rows and its
      first and last rows record an energy, those being its earliest and
      latest rows. */
  lemma GetStatsEnergy(rows: seq<DbRow>, start: int, end: int)
    requires Ordered(rows)
    ensures var st := GetStats(rows, start, end);
            var rs := RangeRows(rows, Some(start), Some(end));
            && (st.energyUsedKwh.Some? <==> |rs| > 0 && rs[0].energy.Some? && rs[|rs| - 1].energy.Some?)
            && (st.energyUsedKwh.Some? ==> st.energyUsedKwh.value == rs[|rs| - 1].energy.value - rs[0].energy.value)
            && (forall x :: x in rows && start <= x.us <= end ==> |rs| > 0 && rs[0].us <= x.us <= rs[|rs| - 1].us)
  {
    var rs := RangeRows(rows, Some(start), Some(end));
    forall x | x in rows && start <= x.us <= end
      ensures |rs| > 0 && rs[0].us <= x.us <= rs[|rs| - 1].us
    {
      RangeRowsSpan(rows, start, end, x);
    }
  }

  /** A row within the bounds lies between the first and the last row returned. */
  lemma RangeRowsSpan(rows: seq<DbRow>, start: int, end: int, x: DbRow)
    requires Ordered(rows) && x in rows && start <= x.us <= end
    ensures var rs := RangeRows(rows, Some(start), Some(end));
            |rs| > 0 && rs[0].us <= x.us <= rs[|rs| - 1].us
  {
    var rs := RangeRows(rows, Some(start), Some(end));
    RangeRowsComplete(rows, Some(start), Some(end));
    RangeRowsOrdered(rows, Some(start), Some(end));
    assert InRange(x, Some(start), Some(end));
    var k :| 0 <= k < |rs| && rs[k] == x;
    assert k == 0 || rs[0].us < rs[k].us;
    assert k == |rs| - 1 || rs[k].us < rs[|rs| - 1].us;
  }

  lemma {:induction false} RangeRowsNone(rows: seq<DbRow>, start: Option<int>, end: Option<int>)
    requires forall i :: 0 <= i < |rows| ==> !InRange(rows[i], start, end)
    ensures RangeRows(rows, start, end) == []
  {
    if rows != [] {
      RangeRowsNone(rows[..|rows| - 1], start, end);
    }
  }

  /** A window without rows reports a zero count and no figures. */
  lemma GetStatsEmptyWindow(rows: seq<DbRow>, start: int, end: int)
    requires forall i :: 0 <= i < |rows| ==> rows[i].us < start || rows[i].us > end
    ensures GetStats(rows, start, end) == DbStats(None, None, None, None, 0)
  {
    RangeRowsNone(rows, Some(start), Some(end));
  }
}
