/** Helpers shared by the desktop and the mobile dashboard
    (static/shared.js): reading validation, alignment of daily totals to
    chart timestamps by calendar-day key, and duration formatting
    (static/app.js carries an identical copy of the formatter). */
module Shared {
  import opened Wrappers
  import opened Numeric
  import opened Ingest

  // ---------------------------------------------------------------------------
  // processReadingsData
  // ---------------------------------------------------------------------------

  /** A row is kept when power and energy are present and the energy is
      positive. */
  predicate ValidReading(r: Reading)
  {
    r.p.Some? && r.e.Some? && r.e.value > 0.0
  }

  /** Indices of the kept rows of rows[..n], in order. */
  function ValidIndices(rows: seq<Reading>, n: nat): (r: seq<nat>)
    requires n <= |rows|
    ensures |r| <= n
    ensures forall k :: 0 <= k < |r| ==> r[k] < n && ValidReading(rows[r[k]])
  {
    if n == 0 then []
    else if ValidReading(rows[n - 1]) then ValidIndices(rows, n - 1) + [n - 1]
    else ValidIndices(rows, n - 1)
  }

  /** Exactly the valid rows are kept, each once, in input order. */
  lemma {:induction false} ValidIndicesExact(rows: seq<Reading>, n: nat)
    requires n <= |rows|
    ensures forall i :: 0 <= i < n ==> (i in ValidIndices(rows, n) <==> ValidReading(rows[i]))
    ensures forall k, l :: 0 <= k < l < |ValidIndices(rows, n)| ==>
              ValidIndices(rows, n)[k] < ValidIndices(rows, n)[l]
  {
    if n > 0 {
      ValidIndicesExact(rows, n - 1);
    }
  }

  datatype Readings = Readings(xs: seq<int>, ys: seq<real>, es: seq<real>)

  /** The three series processReadingsData returns. */
  function ProcessedReadings(rows: seq<Reading>, n: nat): (r: Readings)
    requires n <= |rows|
    ensures |r.xs| == |r.ys| == |r.es| == |ValidIndices(rows, n)|
    ensures forall k :: 0 <= k < |r.xs| ==>
              var i := ValidIndices(rows, n)[k];
              r.xs[k] == Seconds(rows[i].t) && Some(r.ys[k]) == rows[i].p && Some(r.es[k]) == rows[i].e
  {
    var idx := ValidIndices(rows, n);
    Readings(seq(|idx|, k requires 0 <= k < |idx| => Seconds(rows[idx[k]].t)),
             seq(|idx|, k requires 0 <= k < |idx| => rows[idx[k]].p.value),
             seq(|idx|, k requires 0 <= k < |idx| => rows[idx[k]].e.value))
  }

  /** processReadingsData: one entry per valid row, in input order. */
  method ProcessReadingsData(rows: seq<Reading>) returns (r: Readings)
    ensures r == ProcessedReadings(rows, |rows|)
  {
    var xs, ys, es := [], [], [];
    var i := 0;
    while i < |rows|
      invariant i <= |rows|
      invariant Readings(xs, ys, es) == ProcessedReadings(rows, i)
    {
      var row := rows[i];
      if row.p.Some? && row.e.Some? && row.e.value > 0.0 {
        xs := xs + [Seconds(row.t)];
        ys := ys + [row.p.value];
        es := es + [row.e.value];
      }
      i := i + 1;
    }
    r := Readings(xs, ys, es);
  }

  // ---------------------------------------------------------------------------
  // alignDailyDataToTimestamps
  // ---------------------------------------------------------------------------

  /** getDateKey: (full year, month, day of month) in local time. The local
      calendar is not modelled; `dayKey` stands for it. */
  datatype DayKey = DayKey(year: int, month: int, day: int)

  /** A daily total: start of the day in ms and its kWh (possibly null). */
  datatype Daily = Daily(t: int, kwh: Option<real>)

  /** The map built from daily[..n]: for each key, the kWh of the last
      record with that key. */
  function DailyMap(daily: seq<Daily>, n: nat, dayKey: int -> DayKey): map<DayKey, Option<real>>
    requires n <= |daily|
  {
    if n == 0 then map[]
    else DailyMap(daily, n - 1, dayKey)[dayKey(daily[n - 1].t) := daily[n - 1].kwh]
  }

  /** A key is in the map exactly when some record of daily[..n] has it. */
  lemma {:induction false} DailyMapKeys(daily: seq<Daily>, n: nat, dayKey: int -> DayKey, k: DayKey)
    requires n <= |daily|
    ensures k in DailyMap(daily, n, dayKey) <==> exists j :: 0 <= j < n && dayKey(daily[j].t) == k
  {
    if n > 0 {
      DailyMapKeys(daily, n - 1, dayKey, k);
      if k == dayKey(daily[n - 1].t) {
        assert exists j :: 0 <= j < n && dayKey(daily[j].t) == k by {
          assert dayKey(daily[n - 1].t) == k;
        }
      } else if exists j :: 0 <= j < n && dayKey(daily[j].t) == k {
        var j :| 0 <= j < n && dayKey(daily[j].t) == k;
        assert j < n - 1;
      }
    }
  }

  /** The value under a key is that of the last record carrying it. */
  lemma {:induction false} DailyMapLastWins(daily: seq<Daily>, n: nat, dayKey: int -> DayKey, j: nat)
    requires j < n <= |daily|
    requires forall l :: j < l < n ==> dayKey(daily[l].t) != dayKey(daily[j].t)
    ensures dayKey(daily[j].t) in DailyMap(daily, n, dayKey)
    ensures DailyMap(daily, n, dayKey)[dayKey(daily[j].t)] == daily[j].kwh
  {
    if j < n - 1 {
      DailyMapLastWins(daily, n - 1, dayKey, j);
    }
  }

  /** dailyMap.get(key) ?? null */
  function Lookup(m: map<DayKey, Option<real>>, k: DayKey): Option<real>
  {
    if k in m then m[k] else None
  }

  /** The aligned series: for each x, the kWh of the day the x falls in. */
  function Aligned(daily: seq<Daily>, xVals: seq<int>, dayKey: int -> DayKey): (r: seq<Option<real>>)
    ensures |r| == |xVals|
  {
    if |daily| == 0 || |xVals| == 0 then seq(|xVals|, i => None)
    else
      var m := DailyMap(daily, |daily|, dayKey);
      seq(|xVals|, i requires 0 <= i < |xVals| => Lookup(m, dayKey(xVals[i] * 1000)))
  }

  /** One entry per timestamp: null without daily data, otherwise the kWh of
      the last daily record on the same day, and null for a day without one. */
  lemma AlignedEntries(daily: seq<Daily>, xVals: seq<int>, dayKey: int -> DayKey)
    ensures |Aligned(daily, xVals, dayKey)| == |xVals|
    ensures |daily| == 0 ==> forall i :: 0 <= i < |xVals| ==> Aligned(daily, xVals, dayKey)[i].None?
    ensures forall i :: 0 <= i < |xVals| && (forall j :: 0 <= j < |daily| ==> dayKey(daily[j].t) != dayKey(xVals[i] * 1000)) ==>
              Aligned(daily, xVals, dayKey)[i].None?
    ensures forall i, j :: 0 <= i < |xVals| && 0 <= j < |daily| && dayKey(daily[j].t) == dayKey(xVals[i] * 1000)
                           && (forall l :: j < l < |daily| ==> dayKey(daily[l].t) != dayKey(daily[j].t)) ==>
              Aligned(daily, xVals, dayKey)[i] == daily[j].kwh
  {
    var r := Aligned(daily, xVals, dayKey);
    forall i | 0 <= i < |xVals| && |daily| > 0
      ensures (forall j :: 0 <= j < |daily| ==> dayKey(daily[j].t) != dayKey(xVals[i] * 1000)) ==> r[i].None?
    {
      DailyMapKeys(daily, |daily|, dayKey, dayKey(xVals[i] * 1000));
    }
    forall i, j | 0 <= i < |xVals| && 0 <= j < |daily| && dayKey(daily[j].t) == dayKey(xVals[i] * 1000)
                  && (forall l :: j < l < |daily| ==> dayKey(daily[l].t) != dayKey(daily[j].t))
      ensures r[i] == daily[j].kwh
    {
      DailyMapLastWins(daily, |daily|, dayKey, j);
    }
  }

  /** The map-filling loop. */
  method BuildDailyMap(daily: seq<Daily>, dayKey: int -> DayKey) returns (m: map<DayKey, Option<real>>)
    ensures m == DailyMap(daily, |daily|, dayKey)
  {
    m := map[];
    var i := 0;
    while i < |daily|
      invariant i <= |daily|
      invariant m == DailyMap(daily, i, dayKey)
    {
      m := m[dayKey(daily[i].t) := daily[i].kwh];
      i := i + 1;
    }
  }

  method AlignDailyDataToTimestamps(daily: seq<Daily>, xVals: seq<int>, dayKey: int -> DayKey)
    returns (r: seq<Option<real>>)
    ensures r == Aligned(daily, xVals, dayKey)
  {
    if |daily| == 0 || |xVals| == 0 {
      return seq(|xVals|, i => None);
    }
    var m := BuildDailyMap(daily, dayKey);
    r := seq(|xVals|, i requires 0 <= i < |xVals| => Lookup(m, dayKey(xVals[i] * 1000)));
  }

  // ---------------------------------------------------------------------------
  // formatDuration
  // ---------------------------------------------------------------------------

  function DigitChar(d: nat): char
    requires d < 10
  {
    ('0' as int + d) as char
  }

  predicate IsDigit(c: char)
  {
    '0' <= c <= '9'
  }

  /** Decimal rendering of a natural number, as template literals do it. */
  function NatToString(n: nat): (s: string)
    ensures |s| > 0 && forall i :: 0 <= i < |s| ==> IsDigit(s[i])
    decreases n
  {
    if n < 10 then [DigitChar(n)] else NatToString(n / 10) + [DigitChar(n % 10)]
  }

  function DigitOf(c: char): nat
    requires IsDigit(c)
  {
    c as int - '0' as int
  }

  /** The number a string of decimal digits denotes. */
  function DigitsValue(s: string): nat
    requires forall i :: 0 <= i < |s| ==> IsDigit(s[i])
  {
    if s == [] then 0 else 10 * DigitsValue(s[..|s| - 1]) + DigitOf(s[|s| - 1])
  }

  /** Rendering a number and reading it back gives the number. */
  lemma {:induction false} NatToStringRoundTrip(n: nat)
    ensures DigitsValue(NatToString(n)) == n
    decreases n
  {
    if n >= 10 {
      NatToStringRoundTrip(n / 10);
      var s := NatToString(n);
      assert s[..|s| - 1] == NatToString(n / 10);
    }
  }

  /** Whole days, hours, minutes and seconds of a duration. */
  datatype Clock = Clock(days: nat, hours: nat, mins: nat, secs: nat)

  function ClockOf(ms: int): Clock
    requires ms > 0
  {
    var s := ms / 1000;
    Clock(s / 86400, (s % 86400) / 3600, (s % 3600) / 60, s % 60)
  }

  /** The four fields recombine to the whole seconds of the duration, and
      hours, minutes and seconds stay below 24, 60 and 60. */
  lemma ClockRecombines(ms: int)
    requires ms > 0
    ensures var c := ClockOf(ms);
            && c.days * 86400 + c.hours * 3600 + c.mins * 60 + c.secs == ms / 1000
            && c.hours < 24 && c.mins < 60 && c.secs < 60
  {
    var s := ms / 1000;
    var q, r := s / 86400, s % 86400;
    var h, r2 := r / 3600, r % 3600;
    assert s == q * 86400 + r;
    assert r == h * 3600 + r2;
    assert h < 24 by {
      if h >= 24 {
        MulLe(24, h, 3600);
      }
    }
    assert s == (q * 24 + h) * 3600 + r2;
    DivUnique(s, 3600, q * 24 + h, r2);
    assert s % 3600 == r2;
    var mn, sc := r2 / 60, r2 % 60;
    assert r2 == mn * 60 + sc;
    assert mn < 60 by {
      if mn >= 60 {
        MulLe(60, mn, 60);
      }
    }
    assert s == ((q * 24 + h) * 60 + mn) * 60 + sc;
    DivUnique(s, 60, (q * 24 + h) * 60 + mn, sc);
  }

  /** A formatted component: a count and its unit letter. */
  datatype Part = Part(n: nat, unit: char)

  function UnitSeconds(u: char): nat
  {
    if u == 'd' then 86400 else if u == 'h' then 3600 else if u == 'm' then 60 else 1
  }

  function UnitRank(u: char): nat
  {
    if u == 'd' then 0 else if u == 'h' then 1 else if u == 'm' then 2 else 3
  }

  function PartsValue(ps: seq<Part>): nat
  {
    if ps == [] then 0 else PartsValue(ps[..|ps| - 1]) + ps[|ps| - 1].n * UnitSeconds(ps[|ps| - 1].unit)
  }

  function PartIf(c: bool, p: Part): seq<Part>
  {
    if c then [p] else []
  }

  /** The parts formatDuration emits for a clock reading: the non-zero
      fields in d, h, m, s order, and the seconds when nothing else was. */
  function ClockParts(c: Clock): seq<Part>
  {
    var p := PartIf(c.days != 0, Part(c.days, 'd')) + PartIf(c.hours != 0, Part(c.hours, 'h'))
             + PartIf(c.mins != 0, Part(c.mins, 'm'));
    p + PartIf(c.secs != 0 || p == [], Part(c.secs, 's'))
  }

  function DurationParts(ms: int): seq<Part>
  {
    if ms <= 0 then [Part(0, 's')] else ClockParts(ClockOf(ms))
  }

  lemma PartsValueSplit(ps: seq<Part>, q: Part, c: bool)
    ensures PartsValue(ps + PartIf(c, q)) == PartsValue(ps) + (if c then q.n * UnitSeconds(q.unit) else 0)
  {
    if c {
      assert (ps + [q])[..|ps|] == ps;
    } else {
      assert ps + [] == ps;
    }
  }

  /** The emitted parts add up to the clock's seconds. */
  lemma ClockPartsValue(c: Clock)
    ensures PartsValue(ClockParts(c)) == c.days * 86400 + c.hours * 3600 + c.mins * 60 + c.secs
  {
    var p1 := PartIf(c.days != 0, Part(c.days, 'd'));
    assert PartsValue(p1) == c.days * 86400 by {
      PartsValueSplit([], Part(c.days, 'd'), c.days != 0);
    }
    PartsValueSplit(p1, Part(c.hours, 'h'), c.hours != 0);
    var p2 := p1 + PartIf(c.hours != 0, Part(c.hours, 'h'));
    PartsValueSplit(p2, Part(c.mins, 'm'), c.mins != 0);
    var p := p2 + PartIf(c.mins != 0, Part(c.mins, 'm'));
    PartsValueSplit(p, Part(c.secs, 's'), c.secs != 0 || p == []);
  }

  /** The emitted parts are never empty, come in d, h, m, s order, and only a
      lone seconds part can be zero. */
  lemma ClockPartsShape(c: Clock)
    ensures var ps := ClockParts(c);
            && |ps| > 0
            && (forall k, l :: 0 <= k < l < |ps| ==> UnitRank(ps[k].unit) < UnitRank(ps[l].unit))
            && (forall k :: 0 <= k < |ps| && ps[k].n == 0 ==> ps == [Part(0, 's')])
  {
  }

  /** Each emitted part carries its own clock field. */
  lemma ClockPartsFields(c: Clock)
    ensures forall k :: 0 <= k < |ClockParts(c)| ==>
              var q := ClockParts(c)[k];
              (q.unit == 'd' ==> q.n == c.days) && (q.unit == 'h' ==> q.n == c.hours)
              && (q.unit == 'm' ==> q.n == c.mins) && (q.unit == 's' ==> q.n == c.secs)
  {
  }

  /** The parts of any duration: never empty, in d, h, m, s order, zero only
      as a lone "0s", with hours below 24 and minutes and seconds below 60,
      adding up to the whole seconds of a positive duration. */
  lemma DurationPartsShape(ms: int)
    ensures var ps := DurationParts(ms);
            && |ps| > 0
            && (forall k, l :: 0 <= k < l < |ps| ==> UnitRank(ps[k].unit) < UnitRank(ps[l].unit))
            && (forall k :: 0 <= k < |ps| && ps[k].n == 0 ==> ps == [Part(0, 's')])
            && (forall k :: 0 <= k < |ps| && ps[k].unit == 'h' ==> ps[k].n < 24)
            && (forall k :: 0 <= k < |ps| && (ps[k].unit == 'm' || ps[k].unit == 's') ==> ps[k].n < 60)
            && PartsValue(ps) == (if ms <= 0 then 0 else ms / 1000)
  {
    if ms > 0 {
      ClockRecombines(ms);
      ClockPartsValue(ClockOf(ms));
      ClockPartsShape(ClockOf(ms));
      ClockPartsFields(ClockOf(ms));
    }
  }

  function Render(p: Part): string
  {
    NatToString(p.n) + [p.unit]
  }

  /** Array.prototype.join with a separator. */
  function Join(ss: seq<string>, sep: string): string
  {
    if ss == [] then "" else if |ss| == 1 then ss[0] else Join(ss[..|ss| - 1], sep) + sep + ss[|ss| - 1]
  }

  function RenderAll(ps: seq<Part>): (r: seq<string>)
    ensures |r| == |ps| && forall k :: 0 <= k < |ps| ==> r[k] == Render(ps[k])
  {
    seq(|ps|, k requires 0 <= k < |ps| => Render(ps[k]))
  }

  function FormatDuration(ms: int): string
  {
    Join(RenderAll(DurationParts(ms)), " ")
  }

  lemma {:induction false} JoinNonEmpty(ss: seq<string>, sep: string)
    requires |ss| > 0 && |ss[0]| > 0
    ensures |Join(ss, sep)| >= |ss[0]|
  {
    if |ss| > 1 {
      JoinNonEmpty(ss[..|ss| - 1], sep);
    }
  }

  /** A non-positive duration reads "0s", and no duration reads as the empty
      string. */
  lemma FormatDurationBasics(ms: int)
    ensures ms <= 0 ==> FormatDuration(ms) == "0s"
    ensures |FormatDuration(ms)| > 0
  {
    DurationPartsShape(ms);
    var ss := RenderAll(DurationParts(ms));
    JoinNonEmpty(ss, " ");
    if ms <= 0 {
      assert Render(Part(0, 's')) == "0s";
      assert ss == ["0s"];
    }
  }

  // A reader for formatted durations, the partner of the formatter: digits
  // accumulate a count, a unit letter adds count times its seconds, and a
  // space separates parts.

  datatype Acc = Acc(total: nat, cur: nat)

  function ScanChar(c: char, a: Acc): Acc
  {
    if IsDigit(c) then Acc(a.total, 10 * a.cur + DigitOf(c))
    else if c == ' ' then a
    else Acc(a.total + a.cur * UnitSeconds(c), 0)
  }

  function Scan(s: string, a: Acc): Acc
  {
    if s == [] then a else Scan(s[1..], ScanChar(s[0], a))
  }

  function ParseDuration(s: string): nat
  {
    Scan(s, Acc(0, 0)).total
  }

  lemma {:induction false} ScanAppend(s: string, t: string, a: Acc)
    ensures Scan(s + t, a) == Scan(t, Scan(s, a))
  {
    if s != [] {
      assert (s + t)[1..] == s[1..] + t;
      ScanAppend(s[1..], t, ScanChar(s[0], a));
    } else {
      assert s + t == t;
    }
  }

  lemma {:induction false} ScanNumber(n: nat, total: nat)
    ensures Scan(NatToString(n), Acc(total, 0)) == Acc(total, n)
    decreases n
  {
    if n >= 10 {
      ScanNumber(n / 10, total);
      ScanAppend(NatToString(n / 10), [DigitChar(n % 10)], Acc(total, 0));
    }
  }

  lemma ScanPart(p: Part, total: nat)
    requires !IsDigit(p.unit) && p.unit != ' '
    ensures Scan(Render(p), Acc(total, 0)) == Acc(total + p.n * UnitSeconds(p.unit), 0)
  {
    ScanNumber(p.n, total);
    ScanAppend(NatToString(p.n), [p.unit], Acc(total, 0));
  }

  lemma {:induction false} ScanJoined(ps: seq<Part>)
    requires forall k :: 0 <= k < |ps| ==> !IsDigit(ps[k].unit) && ps[k].unit != ' '
    ensures Scan(Join(RenderAll(ps), " "), Acc(0, 0)) == Acc(PartsValue(ps), 0)
  {
    var n := |ps|;
    if n == 1 {
      ScanPart(ps[0], 0);
      assert ps[..0] == [];
    } else if n > 1 {
      var init := ps[..n - 1];
      ScanJoined(init);
      assert RenderAll(ps)[..n - 1] == RenderAll(init);
      var j := Join(RenderAll(init), " ");
      ScanAppend(j + " ", Render(ps[n - 1]), Acc(0, 0));
      ScanAppend(j, " ", Acc(0, 0));
      ScanPart(ps[n - 1], PartsValue(init));
    }
  }

  /** Reading a formatted duration back gives its whole seconds (zero for a
      non-positive duration): the format loses nothing but the milliseconds. */
  lemma FormatDurationRoundTrip(ms: int)
    ensures ParseDuration(FormatDuration(ms)) == (if ms <= 0 then 0 else ms / 1000)
  {
    var ps := DurationParts(ms);
    DurationPartsUnits(ms);
    ScanJoined(ps);
    if ms > 0 {
      ClockRecombines(ms);
      ClockPartsValue(ClockOf(ms));
    }
  }

  /** Every unit letter is one the parser treats as a unit. */
  lemma DurationPartsUnits(ms: int)
    ensures forall k :: 0 <= k < |DurationParts(ms)| ==>
              !IsDigit(DurationParts(ms)[k].unit) && DurationParts(ms)[k].unit != ' '
  {
    var ps := DurationParts(ms);
    assert forall k :: 0 <= k < |ps| ==> ps[k].unit in "dhms";
  }

  /** formatDuration, building the parts by conditional push. */
  method FormatDurationImpl(ms: int) returns (r: string)
    ensures r == FormatDuration(ms)
  {
    if ms <= 0 {
      return Join(RenderAll([Part(0, 's')]), " ");
    }
    var s := ms / 1000;
    var days := s / 86400;
    var hours := (s % 86400) / 3600;
    var mins := (s % 3600) / 60;
    var secs := s % 60;
    var parts: seq<Part> := [];
    if days != 0 { parts := parts + [Part(days, 'd')]; }
    if hours != 0 { parts := parts + [Part(hours, 'h')]; }
    if mins != 0 { parts := parts + [Part(mins, 'm')]; }
    if secs != 0 || parts == [] { parts := parts + [Part(secs, 's')]; }
    assert parts == ClockParts(ClockOf(ms));
    r := Join(RenderAll(parts), " ");
  }
}
