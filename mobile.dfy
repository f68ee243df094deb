/** The mobile dashboard (static/mobile.js): a fixed window of the last N
    days, the series it charts, the statistics panel and the daily
    breakdown table, compared against the 30-day moving average. */
module Mobile {
  import opened Wrappers
  import opened Ingest
  import opened Shared
  import opened Sorting

  const MS_PER_DAY: int := 24 * 60 * 60 * 1000
  const MAX_DAYS: int := 365

  // ---------------------------------------------------------------------------
  // Day-count input
  // ---------------------------------------------------------------------------

  /** The day count fetched after an edit of the input; parseInt's NaN is
      None. */
  function ClampDays(value: Option<int>): (r: int)
    ensures 1 <= r <= MAX_DAYS
    ensures value.Some? && 1 <= value.value <= MAX_DAYS ==> r == value.value
    ensures value.None? || value.value < 1 ==> r == 1
    ensures value.Some? && value.value > MAX_DAYS ==> r == MAX_DAYS
  {
    if value.None? || value.value < 1 then 1
    else if value.value > MAX_DAYS then MAX_DAYS
    else value.value
  }

  /** Clamping a clamped count changes nothing. */
  lemma ClampDaysIdempotent(value: Option<int>)
    ensures ClampDays(Some(ClampDays(value))) == ClampDays(value)
  {
  }

  /** The day count of the first fetch: `parseInt(value) || 7`, so NaN and
      zero give 7 and every other number, negative ones included, is used
      as it is. */
  function InitialDays(value: Option<int>): (r: int)
    ensures r == 7 <==> value.None? || value.value == 0 || value.value == 7
    ensures value.Some? && value.value != 0 ==> r == value.value
  {
    if value.None? || value.value == 0 then 7 else value.value
  }

  /** Start of the fetched window: `days` whole days before now. */
  function WindowStart(now: int, days: int): (r: int)
    ensures r + days * MS_PER_DAY == now
  {
    now - days * MS_PER_DAY
  }

  // ---------------------------------------------------------------------------
  // Server summary
  // ---------------------------------------------------------------------------

  /** The energy summary the server sends; a missing field is None. */
  datatype Summary = Summary(daily: Option<seq<Daily>>, movingAvg: Option<seq<Daily>>, avgDaily: Option<real>)

  /** `x || []` on a list. */
  function OrEmpty(s: Option<seq<Daily>>): seq<Daily>
  {
    if s.Some? then s.value else []
  }

  /** `avg_daily || null`: zero is falsy, so a zero average counts as missing. */
  function AvgDailyOf(v: Option<real>): (r: Option<real>)
    ensures r.Some? <==> v.Some? && v.value != 0.0
    ensures r.Some? ==> r == v
  {
    if v.Some? && v.value != 0.0 then v else None
  }

  // ---------------------------------------------------------------------------
  // Statistics panel
  // ---------------------------------------------------------------------------

  /** The window statistics the server sends. */
  datatype ServerStats = ServerStats(energyKwh: Option<real>, avgW: Option<real>, maxW: Option<real>,
                                     minW: Option<real>, count: Option<nat>)

  /** What the panel shows; None is the dash placeholder. */
  datatype Panel = Panel(energy: Option<real>, cost: Option<real>, typicalEnergy: Option<real>,
                         typicalCost: Option<real>, avgW: Option<real>, maxW: Option<real>,
                         minW: Option<real>, count: Option<nat>, range: Option<string>)

  function Times(v: Option<real>, k: real): (r: Option<real>)
    ensures r.Some? <==> v.Some?
  {
    if v.Some? then Some(v.value * k) else None
  }

  /** Expected energy for the window at the average daily rate. */
  function TypicalEnergy(avgDaily: Option<real>, startMs: int, endMs: int): (r: Option<real>)
    ensures r.Some? <==> avgDaily.Some?
  {
    Times(avgDaily, (endMs - startMs) as real / MS_PER_DAY as real)
  }

  /** The typical energy of a window is the daily average times its length in
      days, it adds up over adjacent windows, and one day gives the average
      itself. */
  lemma TypicalEnergyProperties(avg: real, s: int, m: int, e: int)
    ensures TypicalEnergy(Some(avg), s, s + MS_PER_DAY) == Some(avg)
    ensures TypicalEnergy(Some(avg), s, m).value + TypicalEnergy(Some(avg), m, e).value
            == TypicalEnergy(Some(avg), s, e).value
  {
    var d := MS_PER_DAY as real;
    assert ((s + MS_PER_DAY) - s) as real / d == 1.0;
    assert (m - s) as real / d + (e - m) as real / d == (e - s) as real / d;
    assert avg * ((m - s) as real / d) + avg * ((e - m) as real / d) == avg * ((m - s) as real / d + (e - m) as real / d);
  }

  /** updateStats: all dashes without stats; otherwise the server figures,
      their cost, the typical energy and cost, and the formatted window
      length. */
  function StatsPanel(stats: Option<ServerStats>, avgDaily: Option<real>, costPerKwh: real,
                      startMs: int, endMs: int): (r: Panel)
    ensures stats.None? ==> r == Panel(None, None, None, None, None, None, None, None, None)
    ensures stats.Some? ==>
              && r.energy == stats.value.energyKwh
              && r.cost == Times(stats.value.energyKwh, costPerKwh)
              && r.typicalEnergy == TypicalEnergy(avgDaily, startMs, endMs)
              && (r.typicalCost.Some? <==> avgDaily.Some?)
              && (r.typicalCost.Some? ==> r.typicalCost.value == r.typicalEnergy.value * costPerKwh)
              && r.avgW == stats.value.avgW && r.maxW == stats.value.maxW && r.minW == stats.value.minW
              && r.count == stats.value.count
              && r.range == Some(FormatDuration(endMs - startMs))
  {
    if stats.None? then Panel(None, None, None, None, None, None, None, None, None)
    else
      var st := stats.value;
      var typical := TypicalEnergy(avgDaily, startMs, endMs);
      Panel(st.energyKwh, Times(st.energyKwh, costPerKwh), typical, Times(typical, costPerKwh),
            st.avgW, st.maxW, st.minW, st.count, Some(FormatDuration(endMs - startMs)))
  }

  // ---------------------------------------------------------------------------
  // Daily breakdown table
  // ---------------------------------------------------------------------------

  /** The daily records inside the window, in their original order. */
  function InWindow(daily: seq<Daily>, startMs: int, endMs: int): (r: seq<Daily>)
    ensures forall d :: d in r <==> d in daily && startMs <= d.t <= endMs
    ensures |r| <= |daily|
  {
    if daily == [] then []
    else
      var rest := InWindow(daily[1..], startMs, endMs);
      assert forall d :: d in daily <==> d == daily[0] || d in daily[1..];
      if startMs <= daily[0].t <= endMs then [daily[0]] + rest else rest
  }

  /** The sort key of the comparator `b.t - a.t`: latest first, records
      with the same time keeping their order. */
  function LatestFirst(d: Daily): int
  {
    -d.t
  }

  /** The records the table lists, latest first. */
  function ShownDays(daily: seq<Daily>, startMs: int, endMs: int): seq<Daily>
  {
    SortBy(InWindow(daily, startMs, endMs), LatestFirst)
  }

  /** The table lists exactly the records with startMs <= t <= endMs, most
      recent first. */
  lemma ShownDaysExact(daily: seq<Daily>, startMs: int, endMs: int)
    ensures forall d :: d in ShownDays(daily, startMs, endMs) <==> d in daily && startMs <= d.t <= endMs
    ensures multiset(ShownDays(daily, startMs, endMs)) == multiset(InWindow(daily, startMs, endMs))
    ensures forall i, j :: 0 <= i < j < |ShownDays(daily, startMs, endMs)| ==>
              ShownDays(daily, startMs, endMs)[i].t >= ShownDays(daily, startMs, endMs)[j].t
  {
    SortByProps(InWindow(daily, startMs, endMs), LatestFirst);
    forall d
      ensures d in ShownDays(daily, startMs, endMs) <==> d in InWindow(daily, startMs, endMs)
    {
      assert d in ShownDays(daily, startMs, endMs) <==> d in multiset(ShownDays(daily, startMs, endMs));
    }
  }

  /** The window filter keeps each in-window record as many times as it
      occurs and drops every other one. */
  lemma {:induction false} InWindowCounts(daily: seq<Daily>, startMs: int, endMs: int, d: Daily)
    ensures multiset(InWindow(daily, startMs, endMs))[d]
            == if startMs <= d.t <= endMs then multiset(daily)[d] else 0
  {
    if daily != [] {
      InWindowCounts(daily[1..], startMs, endMs, d);
      assert daily == [daily[0]] + daily[1..];
    }
  }

  /** The table lists each in-window record as many times as it occurs. */
  lemma ShownDaysCounts(daily: seq<Daily>, startMs: int, endMs: int, d: Daily)
    ensures multiset(ShownDays(daily, startMs, endMs))[d]
            == if startMs <= d.t <= endMs then multiset(daily)[d] else 0
  {
    ShownDaysExact(daily, startMs, endMs);
    InWindowCounts(daily, startMs, endMs, d);
  }

  /** The comparison baseline: the moving average of the latest shown day,
      or the overall daily average when there is no shown day or no average
      for it (`?? avgDailyEnergyUsage`, so a null entry falls back too). */
  function Baseline(shown: seq<Daily>, avgMap: map<DayKey, Option<real>>, avgDaily: Option<real>,
                    dayKey: int -> DayKey): Option<real>
  {
    if |shown| == 0 then avgDaily
    else
      var v := Lookup(avgMap, dayKey(shown[0].t));
      if v.Some? then v else avgDaily
  }

  /** One table row: the day, its kWh and cost, and the signed comparison
      with the baseline, shown as a sign and absolute values. */
  datatype Row = Row(t: int, kwh: Option<real>, cost: Option<real>, diff: Option<real>,
                     sign: string, absDiff: Option<real>, absDiffCost: Option<real>)

  function RealAbs(x: real): real
  {
    if x < 0.0 then -x else x
  }

  function RowOf(d: Daily, baseline: Option<real>, costPerKwh: real): Row
  {
    var diff := if d.kwh.Some? && baseline.Some? then Some(d.kwh.value - baseline.value) else None;
    var diffCost := Times(diff, costPerKwh);
    Row(d.t, d.kwh, Times(d.kwh, costPerKwh), diff,
        if diff.None? then "" else if diff.value > 0.0 then "+" else "−",
        if diff.Some? then Some(RealAbs(diff.value)) else None,
        if diffCost.Some? then Some(RealAbs(diffCost.value)) else None)
  }

  /** The difference is present exactly when the day and the baseline have
      values, the day's value is the baseline plus the difference, and the
      sign is "+" exactly for an excess and "−" otherwise, the shown amount
      being the magnitude. */
  lemma RowDiff(d: Daily, baseline: Option<real>, costPerKwh: real)
    ensures var r := RowOf(d, baseline, costPerKwh);
            && (r.diff.Some? <==> d.kwh.Some? && baseline.Some?)
            && (r.diff.Some? ==> d.kwh.value == baseline.value + r.diff.value)
            && (r.diff.Some? ==> (r.sign == "+" <==> r.diff.value > 0.0))
            && (r.diff.Some? && r.diff.value <= 0.0 ==> r.sign == "−")
            && (r.diff.Some? ==> r.absDiff.Some? && r.absDiff.value >= 0.0)
            && (r.diff.Some? ==> r.diff.value == (if r.sign == "+" then r.absDiff.value else -r.absDiff.value))
            && (r.diff.None? <==> r.sign == "")
  {
  }

  datatype Table = Table(baseline: Option<real>, baselineCost: Option<real>, rows: seq<Row>)

  function DailyTable(daily: seq<Daily>, movingAvg: seq<Daily>, avgDaily: Option<real>, costPerKwh: real,
                      startMs: int, endMs: int, dayKey: int -> DayKey): Table
  {
    var shown := ShownDays(daily, startMs, endMs);
    var baseline := Baseline(shown, DailyMap(movingAvg, |movingAvg|, dayKey), avgDaily, dayKey);
    Table(baseline, Times(baseline, costPerKwh),
          seq(|shown|, i requires 0 <= i < |shown| => RowOf(shown[i], baseline, costPerKwh)))
  }

  /** The table has a row per shown day, latest first, each with that
      day's energy and a time inside the window. */
  lemma DailyTableRows(daily: seq<Daily>, movingAvg: seq<Daily>, avgDaily: Option<real>, costPerKwh: real,
                       startMs: int, endMs: int, dayKey: int -> DayKey)
    ensures var tb := DailyTable(daily, movingAvg, avgDaily, costPerKwh, startMs, endMs, dayKey);
            var shown := ShownDays(daily, startMs, endMs);
            && |tb.rows| == |shown|
            && (forall i, j :: 0 <= i < j < |tb.rows| ==> tb.rows[i].t >= tb.rows[j].t)
            && (forall i :: 0 <= i < |tb.rows| ==> tb.rows[i].kwh == shown[i].kwh && startMs <= tb.rows[i].t <= endMs)
  {
    var shown := ShownDays(daily, startMs, endMs);
    ShownDaysExact(daily, startMs, endMs);
    assert forall i :: 0 <= i < |shown| ==> shown[i] in shown;
  }

  /** The baseline is the moving average recorded last for the latest shown
      day, else the daily average. */
  lemma DailyTableBaseline(daily: seq<Daily>, movingAvg: seq<Daily>, avgDaily: Option<real>, costPerKwh: real,
                           startMs: int, endMs: int, dayKey: int -> DayKey)
    ensures var tb := DailyTable(daily, movingAvg, avgDaily, costPerKwh, startMs, endMs, dayKey);
            var shown := ShownDays(daily, startMs, endMs);
            && (|shown| == 0 ==> tb.baseline == avgDaily)
            && (forall j :: (|shown| > 0 && 0 <= j < |movingAvg| && dayKey(movingAvg[j].t) == dayKey(shown[0].t)
                             && (forall l :: j < l < |movingAvg| ==> dayKey(movingAvg[l].t) != dayKey(movingAvg[j].t))
                             && movingAvg[j].kwh.Some?) ==> tb.baseline == movingAvg[j].kwh)
            && ((|shown| > 0 && forall j :: 0 <= j < |movingAvg| ==> dayKey(movingAvg[j].t) != dayKey(shown[0].t))
                  ==> tb.baseline == avgDaily)
  {
    var shown := ShownDays(daily, startMs, endMs);
    if |shown| > 0 {
      DailyMapKeys(movingAvg, |movingAvg|, dayKey, dayKey(shown[0].t));
      forall j | 0 <= j < |movingAvg| && dayKey(movingAvg[j].t) == dayKey(shown[0].t)
                 && (forall l :: j < l < |movingAvg| ==> dayKey(movingAvg[l].t) != dayKey(movingAvg[j].t))
      {
        DailyMapLastWins(movingAvg, |movingAvg|, dayKey, j);
      }
    }
  }

  // ---------------------------------------------------------------------------
  // Dashboard state
  // ---------------------------------------------------------------------------

  /** The five chart series of processReadings for a non-empty response. */
  method ChartSeries(rows: seq<Reading>, daily: seq<Daily>, movingAvg: seq<Daily>, dayKey: int -> DayKey)
    returns (r: Readings, dailyVals: seq<Option<real>>, typicalVals: seq<Option<real>>)
    ensures r == ProcessedReadings(rows, |rows|)
    ensures dailyVals == Aligned(daily, r.xs, dayKey) && typicalVals == Aligned(movingAvg, r.xs, dayKey)
    ensures |r.xs| == |r.ys| == |r.es| == |dailyVals| == |typicalVals|
  {
    r := ProcessReadingsData(rows);
    dailyVals := AlignDailyDataToTimestamps(daily, r.xs, dayKey);
    typicalVals := AlignDailyDataToTimestamps(movingAvg, r.xs, dayKey);
  }

  class MobileDashboard {
    var xs: seq<int>
    var ys: seq<real>
    var es: seq<real>
    var dailyVals: seq<Option<real>>
    var typicalVals: seq<Option<real>>
    var dailyEnergyData: seq<Daily>
    var movingAvgData: seq<Daily>
    var avgDaily: Option<real>
    var costPerKwh: real
    /** The browser's local calendar. */
    const dayKey: int -> DayKey

    /** The five chart series line up point for point. */
    ghost predicate Valid()
      reads this
    {
      |xs| == |ys| == |es| == |dailyVals| == |typicalVals|
    }

    constructor (costPerKwh: real, dayKey: int -> DayKey)
      ensures Valid()
      ensures xs == [] && dailyEnergyData == [] && movingAvgData == [] && avgDaily == None
      ensures this.costPerKwh == costPerKwh && this.dayKey == dayKey
    {
      xs, ys, es, dailyVals, typicalVals := [], [], [], [], [];
      dailyEnergyData, movingAvgData, avgDaily := [], [], None;
      this.costPerKwh := costPerKwh;
      this.dayKey := dayKey;
    }

    /** The summary fields fetchData stores. */
    method ApplySummary(s: Summary)
      requires Valid()
      modifies this
      ensures Valid()
      ensures dailyEnergyData == OrEmpty(s.daily) && movingAvgData == OrEmpty(s.movingAvg)
      ensures avgDaily == AvgDailyOf(s.avgDaily)
      ensures xs == old(xs) && ys == old(ys) && es == old(es)
      ensures dailyVals == old(dailyVals) && typicalVals == old(typicalVals) && costPerKwh == old(costPerKwh)
    {
      dailyEnergyData := OrEmpty(s.daily);
      movingAvgData := OrEmpty(s.movingAvg);
      avgDaily := AvgDailyOf(s.avgDaily);
    }

    /** processReadings: no rows clear all five series; otherwise the valid
        readings are charted with the daily totals and moving averages
        aligned to their times. */
    method ProcessReadings(rows: seq<Reading>)
      requires Valid()
      modifies this
      ensures Valid()
      ensures Readings(xs, ys, es) == ProcessedReadings(rows, |rows|)
      ensures dailyVals == Aligned(dailyEnergyData, xs, dayKey) && typicalVals == Aligned(movingAvgData, xs, dayKey)
      ensures |rows| == 0 ==> xs == [] && ys == [] && es == [] && dailyVals == [] && typicalVals == []
      ensures dailyEnergyData == old(dailyEnergyData) && movingAvgData == old(movingAvgData)
      ensures avgDaily == old(avgDaily) && costPerKwh == old(costPerKwh)
    {
      var daily, movingAvg := dailyEnergyData, movingAvgData;
      if |rows| == 0 {
        xs, ys, es, dailyVals, typicalVals := [], [], [], [], [];
        assert Aligned(daily, [], dayKey) == [] && Aligned(movingAvg, [], dayKey) == [];
        return;
      }
      var processed, dv, tv := ChartSeries(rows, daily, movingAvg, dayKey);
      xs, ys, es, dailyVals, typicalVals := processed.xs, processed.ys, processed.es, dv, tv;
    }

    /** updateStats. */
    method UpdateStats(stats: Option<ServerStats>, startMs: int, endMs: int) returns (p: Panel)
      ensures p == StatsPanel(stats, avgDaily, costPerKwh, startMs, endMs)
    {
      if stats.None? {
        return Panel(None, None, None, None, None, None, None, None, None);
      }
      var st := stats.value;
      var durationDays := (endMs - startMs) as real / MS_PER_DAY as real;
      var typical := Times(avgDaily, durationDays);
      var range := FormatDurationImpl(endMs - startMs);
      p := Panel(st.energyKwh, Times(st.energyKwh, costPerKwh), typical, Times(typical, costPerKwh),
                 st.avgW, st.maxW, st.minW, st.count, Some(range));
    }

    /** updateDailyTable: filter, sort, build the moving-average map in a
        loop, choose the baseline and build the rows. */
    method UpdateDailyTable(startMs: int, endMs: int) returns (tb: Table)
      ensures tb == DailyTable(dailyEnergyData, movingAvgData, avgDaily, costPerKwh, startMs, endMs, dayKey)
    {
      var shown := ShownDays(dailyEnergyData, startMs, endMs);
      var cost := costPerKwh;
      var avgMap := BuildDailyMap(movingAvgData, dayKey);
      var baseline := avgDaily;
      if |shown| > 0 {
        var v := Lookup(avgMap, dayKey(shown[0].t));
        baseline := if v.Some? then v else avgDaily;
      }
      tb := Table(baseline, Times(baseline, cost),
                  seq(|shown|, i requires 0 <= i < |shown| => RowOf(shown[i], baseline, cost)));
    }

    /** The body of fetchData once the three responses have arrived: store the
        summary, chart the readings, then fill the panel and the table for the
        window [startMs, now]. */
    method ApplyFetch(readings: seq<Reading>, stats: Option<ServerStats>, summary: Summary, startMs: int, now: int)
      returns (p: Panel, tb: Table)
      requires Valid()
      modifies this
      ensures Valid()
      ensures costPerKwh == old(costPerKwh)
      ensures dailyEnergyData == OrEmpty(summary.daily) && movingAvgData == OrEmpty(summary.movingAvg)
      ensures avgDaily == AvgDailyOf(summary.avgDaily)
      ensures |readings| > 0 ==> Readings(xs, ys, es) == ProcessedReadings(readings, |readings|)
      ensures |readings| == 0 ==> xs == []
      ensures dailyVals == Aligned(dailyEnergyData, xs, dayKey) && typicalVals == Aligned(movingAvgData, xs, dayKey)
      ensures p == StatsPanel(stats, AvgDailyOf(summary.avgDaily), costPerKwh, startMs, now)
      ensures tb == DailyTable(OrEmpty(summary.daily), OrEmpty(summary.movingAvg), AvgDailyOf(summary.avgDaily),
                               costPerKwh, startMs, now, dayKey)
    {
      ApplySummary(summary);
      ProcessReadings(readings);
      p := UpdateStats(stats, startMs, now);
      tb := UpdateDailyTable(startMs, now);
    }
  }
}
