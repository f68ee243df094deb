# Energy dashboard: a verified model of its time-series core

This project is a Dafny model of the logic at the centre of a home
energy-monitoring application. The application stores smart-meter readings and
serves them to two browser dashboards. Each reading has a time, an
instantaneous power in W and a cumulative energy meter value in kWh.

The model covers:

- **Desktop dashboard (`static/app.js`).**
  - Three parallel series (seconds, power, energy).
  - The Largest-Triangle-Three-Buckets downsampler.
  - Ingest of a batch of readings: power is derived from energy deltas when no row carries a power value. New points are appended, or the series is replaced by a downsampled copy.
  - Statistics of a selected window: an exact meter delta, or a trapezoid integral when no meter value exists.
  - The nearest-index binary search used for hovering.
  - The state machine of the selection, the visible range and the live-view flag.
- **Shared helpers (`static/shared.js`).** Reading validation, alignment of daily totals to chart timestamps by calendar-day key, and duration formatting.
- **Mobile dashboard (`static/mobile.js`).** The clamp of the day count, the chart series, the statistics panel with its "typical energy" estimate, and the daily breakdown table measured against a moving-average baseline.
- **Backend aggregation (`database.py`).** `get_readings`, `get_stats` and `get_avg_daily_energy_usage`, restated over an in-memory table of rows kept by increasing timestamp instead of over SQL and pandas.
- **Request rules (`src/app.py`).** User-agent classification, the routing of the front page, and the validation of the statistics endpoint, including the swap of inverted bounds.
- **Backup planning (`src/git_tool.py`).** Parsing the time range of the last backup commit, the amend-or-commit decision, the message, and the push that follows.

### How the model represents the source

**Values**
- Timestamps are integers.
- A power or energy value is an `Option<real>`. `Some` stands for "non-null and finite".
- Browser `Math.floor(ms / 1000)` is integer floor division.
- Python's `int()` of a float truncates toward zero. It is written out as that, not as Dafny's Euclidean division.

**Stateful code**
- The desktop dashboard's module-level variables are the fields of the class `Dashboard.Dashboard`.
- The mobile dashboard's module-level variables are the fields of the class `Mobile.MobileDashboard`.
- Their methods change those fields as the source functions do. Each method's new state is tied to a pure function of the old state, and the properties are proved about those functions.

**Loops**
- Loops in the source are `while` loops in methods, each proved equal to a specification function: the LTTB bucket loops, the index and energy scans, the trapezoid accumulator, the binary search, the append-index search, the validation loop and the daily-map loop.

**Module layout**
- One module per topic.
- `Lttb`, `Ingest`, `Stats`, `Nearest` and `Dashboard` cover `static/app.js`.
- `Shared` and `Mobile` cover `static/shared.js` and `static/mobile.js`.
- `Database`, `WebApp` and `GitBackup` cover the Python files.
- `Numeric`, `Sorting` and `Wrappers` hold aggregates, the stable sort and the option and result types.

## Model

| member | source | states |
|---|---|---|
| Lttb.BucketStartGrows | static/app.js:98-99 | Bucket i+1 starts strictly after bucket i, so buckets are disjoint and ordered. |
| Lttb.BucketStartRange | static/app.js:98-101 | Every bucket up to the final one starts inside [1, n−1]; the final bucket starts at n−1, so it is the lone last index. |
| Lttb.BucketStartPastEnd | static/app.js:99-101 | The end bound of the final bucket is at or past n, so it is cut to n. |
| Lttb.BestIn | static/app.js:114-139 | The picked index lies in the bucket and has a present y. |
| Lttb.BestInIsLargest | static/app.js:114-139 | A point is picked exactly when the bucket has a present y. The pick has the largest shoelace area of the bucket. Every earlier present point has a strictly smaller area, so ties go to the earliest index. |
| Lttb.BestInSingle | static/app.js:114-139 | A one-point bucket with a present y picks that point, whatever the triangle. |
| Lttb.BucketStarts | static/app.js:97-101 | There are t−1 bucket starts for a target t > 2, and none otherwise. |
| Lttb.BucketStartsValid | static/app.js:91-101 | The table of starts is valid. The first bucket starts at floor((n−2)/(t−2))+1. The last bucket is {n−1}. |
| Lttb.BucketPick | static/app.js:98-139 | Bucket i emits an index inside its own bounds with a present y, or nothing. |
| Lttb.EmittedBounds | static/app.js:92-144 | After k buckets, index 0 comes first, there is at most one index per bucket, and the last one lies before the next bucket. |
| Lttb.EmittedChain | static/app.js:92-144 | The emitted indices strictly increase, and each one after index 0 has a present y. |
| Lttb.EmittedAllPresent | static/app.js:114-144 | When every y is present, every bucket emits exactly one index. |
| Lttb.SelectedShape | static/app.js:86-151 | The output indices start at 0, end at n−1 and never decrease. There are at most max(t, 2) of them, and exactly t when every y is present. |
| Lttb.GatherSorted | static/app.js:141-151 | Sorted input x with non-decreasing indices gives sorted output x. |
| Lttb.FirstIndicesSkipped | static/app.js:98-99 | Interior indices 1 .. floor((n−2)/(t−2)) are never emitted. |
| Lttb.LastPointTwice | static/app.js:150-151 | Four points with target three give output indices 0, 3, 3: the last point is emitted twice. |
| Lttb.BucketMeanY | static/app.js:101-112 | The centroid loop computes the mean of the bucket's present y values, or nothing if there are none. |
| Lttb.LargestTriangle | static/app.js:114-139 | The largest-area loop returns BestIn's pick, or −1 when there is none. |
| Lttb.PickBucket | static/app.js:98-139 | One iteration of the outer loop returns BucketPick for the anchor emitted last. |
| Lttb.PickAll | static/app.js:92-145 | The outer loop's output is the first point followed by every bucket's pick, in order. |
| Lttb.BucketTable | static/app.js:97-101 | The bucket bounds the loop computes are BucketStarts. |
| Lttb.DownsampleLTTB | static/app.js:86-154 | Input with at most `threshold` points comes back unchanged. Otherwise the output is the input gathered at the Selected indices. |
| Lttb.DownsampleShape | static/app.js:86-154 | The output x and y keep the first and the last input point. Their length is at most max(t, 2), and exactly t when every y is present. Sorted x stays sorted. |
| Ingest.Seconds | static/app.js:497 | The seconds of a timestamp are floor(ms / 1000). |
| Ingest.Derive | static/app.js:462-486 | Derivation yields fewer samples than rows, and every derived power is present. |
| Ingest.DeriveFromPairs | static/app.js:466-483 | Every derived power is non-negative. Each derived sample comes from an adjacent pair with both energies present and a positive time step, stamped with the later time, with power max(0, ΔkWh·3.6e9/Δms). |
| Ingest.DeriveEmptyIff | static/app.js:462-486 | Derivation yields nothing exactly when no adjacent pair is derivable. |
| Ingest.DerivePower | static/app.js:462-486 | The derivation loop computes Derive. |
| Ingest.MappedDirect | static/app.js:458-461 | When some row carries a power, the samples are the rows' own (t, p). |
| Ingest.MappedDerived | static/app.js:462-486 | When every power is null, the derived samples replace the originals if there are any; otherwise every sample's power stays absent. |
| Ingest.KeptIndicesExact | static/app.js:490-505 | Exactly the samples with a present power are kept, in input order. |
| Ingest.FilteredShape | static/app.js:490-505 | The filtered series have equal length, at most the sample count, and every kept power is present. |
| Ingest.DerivedEnergyShifted | static/app.js:503 | On the derived path, energy is taken from row i rather than from the row the sample came from. The pair ((0 ms, 1 kWh), (1000 ms, 2 kWh)) gives x = [1] with the first row's energy 1 kWh. |
| Ingest.FilterFinite | static/app.js:490-505 | The filter loop computes Filtered. |
| Ingest.PrepareBatch | static/app.js:458-505 | Mapping, derivation and filtering together compute BatchOf. |
| Ingest.AppendFrom | static/app.js:511-517 | The append index is the first position whose x exceeds the old last x; everything before it is at most that x. |
| Ingest.FindAppendIndex | static/app.js:511-517 | The search loop computes AppendFrom. |
| Ingest.AppendedExtends | static/app.js:507-527 | An incremental merge keeps the old x, y and e arrays as an unchanged prefix, and every appended x is later than the old last x. |
| Ingest.AppendedIdempotent | static/app.js:507-527 | Re-applying the same sorted batch appends nothing. |
| Nearest.FindNearestIndex | static/app.js:674-688 | The result is null exactly when the array is empty or the target is not finite, and it is in bounds otherwise. On sorted input it is at minimal distance from the target, and an exact hit returns a matching index. |
| Nearest.ExactIsNearest | static/app.js:680 | An index whose time equals the target is at minimal distance. |
| Nearest.BetweenIsNearest | static/app.js:684-688 | After the loop, the neighbour chosen (the lower one on a tie) is at minimal distance on sorted input. |
| Stats.FirstAtLeast | static/app.js:557-558 | i0 is the first index whose x is at least startSec, or the length. |
| Stats.LastAtMost | static/app.js:559-561 | i1 is the last index whose x is at most endSec, or −1. |
| Stats.ScanStart | static/app.js:557-558 | The forward scan computes FirstAtLeast. |
| Stats.ScanEnd | static/app.js:559-561 | The backward scan computes LastAtMost. |
| Stats.FirstEnergyIndex | static/app.js:570-573 | The first present energy of [lo, hi), with none before it, or none at all in the range. |
| Stats.LastEnergyIndex | static/app.js:574-577 | The last present energy of [lo, hi), with none after it, or none at all in the range. |
| Stats.WindowIndices | static/app.js:557-562 | On sorted x, [i0, i1] holds exactly the indices whose x lies in [startSec, endSec], and it is empty exactly when no x does. |
| Stats.FirstEnergyScan | static/app.js:570-573 | The forward energy scan finds the first present energy of the window. |
| Stats.LastEnergyScan | static/app.js:574-577 | The backward energy scan finds the last present energy of the window. |
| Stats.TrapezoidSum | static/app.js:582-594 | The accumulator loop computes the trapezoid sum over pairs with a positive time step and two present powers. |
| Stats.TrapezoidConstant | static/app.js:582-594 | A constant power P over sorted times integrates to P times the elapsed seconds. |
| Stats.EnergyInCases | static/app.js:567-596 | With any present energy in the window, the energy used is the latest minus the earliest present energy; with none, it is the trapezoid sum divided by 3,600,000. |
| Stats.ConstantPowerEnergy | static/app.js:582-596 | With no energy values, a constant P over D seconds gives P·D/3,600,000 kWh. |
| Stats.StatsNoneIff | static/app.js:552-562 | On sorted x the statistics are absent exactly when floor(end/1000) ≤ floor(start/1000) or no x lies in the window. |
| Stats.StatsInCount | static/app.js:562-566 | The count is the number of present powers in the window, and min, max and mean are present exactly when it is positive. |
| Stats.StatsInOrdered | static/app.js:562-566 | min ≤ mean ≤ max, the minimum and the maximum are powers of the window, and every present power of the window lies between them. |
| Stats.WindowEnergy | static/app.js:567-596 | The energy part of the computation computes EnergyIn. |
| Stats.WindowFigures | static/app.js:562-600 | The figures of a non-empty window are StatsIn. |
| Stats.ComputeStatsLocal | static/app.js:552-606 | computeStatsLocal's displayed figures, or None on its early returns, are StatsOf. |
| Dashboard.Live | static/app.js:198-215 | The live flag is set exactly when the view's right edge is within 120 s of the latest point; nothing else changes, and without data nothing changes at all. |
| Dashboard.AcceptedRangeProperties | static/app.js:349-359 | An accepted range always has start < end. A range with a missing bound is never accepted. A clamped range lies within the data. A valid range already inside the data is accepted as given. |
| Dashboard.SelectShowsSelection | static/app.js:349-368 | After an accepted selection, the view is that range in seconds, it has positive width, and the live flag is recomputed for it. |
| Dashboard.DragRange | static/app.js:781-787 | Both bounds must be present. The normalised range runs from the smaller to the larger bound, and a zero-width drag becomes one millisecond wide. |
| Dashboard.RelativeRangeAccepted | static/app.js:637-642 | A relative range ending at the latest point is accepted unchanged when the data spans more than one second. |
| Dashboard.FollowKeepsWidthAndLive | static/app.js:396-419 | A following view is pinned to the latest point with its width kept. A live view stays live. A non-following view is unchanged. |
| Dashboard.FollowIdempotent | static/app.js:396-419 | Following twice changes nothing more than following once. |
| Dashboard.UpdateFollowsLive | static/app.js:388-432 | An update that follows the data leaves the dashboard live, with its right edge at the latest point. |
| Dashboard.ReplacedShape | static/app.js:528-535 | A full replace keeps x and y of equal length with at most 2000 points. A batch larger than 2000 leaves the energy array longer than x. |
| Dashboard.MergedLengths | static/app.js:507-535 | Both the incremental and the replacing merge keep x and y of equal length. |
| Dashboard.FollowStep | static/app.js:396-419 | The follow step computes FollowView and FollowSelection. |
| Dashboard.Dashboard.constructor | static/app.js:44-59 | The dashboard starts with empty series, no selection, the live flag set and the default cost per kWh. |
| Dashboard.Dashboard.UpdateLiveIndicator | static/app.js:198-215 | The new UI state is Live of the old one; the series are unchanged. |
| Dashboard.Dashboard.ApplySelectionRange | static/app.js:349-368 | The new UI state is Select of the old one; the series are unchanged. |
| Dashboard.Dashboard.ClearSelection | static/app.js:370-381 | The new UI state is Clear of the old one; the series are unchanged. |
| Dashboard.Dashboard.SelectRelativeRange | static/app.js:637-642 | Without data nothing changes. Otherwise the last durationMs up to the latest point is selected, clamped. |
| Dashboard.Dashboard.SelectCalendarRange | static/app.js:644-647 | Without data nothing changes. Otherwise the given range is selected, clamped. |
| Dashboard.Dashboard.FinalizePointerSelection | static/app.js:765-788 | A drag shorter than 10 px, or one without both bounds, changes nothing. Otherwise the normalised range is selected, clamped. |
| Dashboard.Dashboard.UpdateChart | static/app.js:383-433 | The new UI state is Update of the old one: follow, statistics, then the live flag. |
| Dashboard.Dashboard.MergeBatch | static/app.js:507-540 | The series become Merged of the old series with the batch, and the UI state is unchanged. |
| Dashboard.Dashboard.ApplyReadings | static/app.js:452-542 | Empty rows change nothing. Otherwise the series are merged from the prepared batch and the UI is updated. |
| Shared.ValidIndicesExact | static/shared.js:244-250 | A row is kept exactly when its p and e are present and e > 0; the kept rows stay in input order. |
| Shared.ProcessedReadings | static/shared.js:239-252 | The three outputs have equal length. Each entry comes from a kept row, with x = floor(t/1000). |
| Shared.ProcessReadingsData | static/shared.js:239-252 | The push loop computes ProcessedReadings. |
| Shared.DailyMapKeys | static/shared.js:105-111 | The day map's keys are exactly the day keys of the daily records. |
| Shared.DailyMapLastWins | static/shared.js:105-111 | On duplicate keys the last record wins. |
| Shared.AlignedEntries | static/shared.js:100-116 | The aligned array has the length of xVals. Without daily data, or for a day with no record, an entry is null. Otherwise it is the last record's kwh for that day key. |
| Shared.BuildDailyMap | static/shared.js:105-111 | The map-filling loop computes DailyMap. |
| Shared.AlignDailyDataToTimestamps | static/shared.js:100-116 | alignDailyDataToTimestamps computes Aligned. |
| Shared.NatToStringRoundTrip | static/shared.js:61-65 | The decimal rendering of a number reads back as that number. |
| Shared.ClockRecombines | static/shared.js:56-60 | floor(ms/1000) splits into days, hours < 24, minutes < 60 and seconds < 60 that recombine exactly. |
| Shared.ClockPartsValue | static/shared.js:61-65 | The emitted parts add up to the clock's total seconds: a part is left out only when it is zero. |
| Shared.ClockPartsShape | static/shared.js:61-65 | The emitted parts are non-empty and in d/h/m/s order; a zero part appears only as the lone "0s". |
| Shared.DurationPartsShape | static/shared.js:54-66 | The parts are in order and within range, and they add up to floor(ms/1000), or 0 for ms ≤ 0. |
| Shared.FormatDurationBasics | static/shared.js:54-66 | ms ≤ 0 gives "0s", and the result is never empty. |
| Shared.FormatDurationRoundTrip | static/shared.js:54-66 | Reading the formatted text back gives floor(ms/1000), or 0 for ms ≤ 0. |
| Shared.FormatDurationImpl | static/shared.js:54-66 | The conditional-push code computes FormatDuration. |
| Sorting.SortByProps | static/mobile.js:291 | The sort is a permutation of its input and sorted by the key. |
| Sorting.SortByKeeps | database.py:178 | The sort keeps the length, the members and every count. |
| Mobile.ClampDays | static/mobile.js:378-389 | The day count is in [1, 365]. A missing (NaN) value or one below 1 becomes 1. Above 365 becomes 365. Values in range pass through. |
| Mobile.ClampDaysIdempotent | static/mobile.js:378-389 | Clamping a clamped count changes nothing. |
| Mobile.InitialDays | static/mobile.js:418 | The initial day count is 7 when the selector has no value (or 0); otherwise it is the selector's value. |
| Mobile.WindowStart | static/mobile.js:190 | The fetched window starts exactly `days` days before now. |
| Mobile.AvgDailyOf | static/mobile.js:210 | A server daily average of 0 or null is treated as absent. |
| Mobile.TypicalEnergy | static/mobile.js:268-271 | The typical energy is present exactly when the daily average is. |
| Mobile.TypicalEnergyProperties | static/mobile.js:268-271 | One day's typical energy is the daily average, and typical energy is additive over adjacent intervals. |
| Mobile.StatsPanel | static/mobile.js:250-280 | Without statistics every figure is blank. Otherwise the panel shows the server's energy, average, maximum and minimum power and count, the cost as energy times price, and the typical energy and cost from the daily average. |
| Mobile.InWindow | static/mobile.js:288 | The filter keeps exactly the daily records with startMs ≤ t ≤ endMs. |
| Mobile.ShownDaysExact | static/mobile.js:288-291 | The table shows exactly the records in the window, most recent first, as a permutation of the filtered records. |
| Mobile.InWindowCounts | static/mobile.js:288 | The filter keeps each in-window record as often as it occurs in the daily list and drops the others. |
| Mobile.ShownDaysCounts | static/mobile.js:288-291 | The table lists each in-window record exactly as often as it occurs in the daily list, and no other record. |
| Mobile.RowDiff | static/mobile.js:319-339 | diff = kwh − baseline, null when either is missing. It is shown with "+" exactly when diff > 0, with "−" when it is ≤ 0, and with its absolute value. |
| Mobile.DailyTableRows | static/mobile.js:284-349 | There is one row per shown day, most recent first, with that day's kwh and a time inside the window. |
| Mobile.DailyTableBaseline | static/mobile.js:294-307 | The baseline is the last moving-average kwh recorded for the most recent shown day's key. It falls back to the daily average when there is no such key or no shown row. |
| Mobile.ChartSeries | static/mobile.js:239-245 | The chart's series are the validated readings and the daily and moving-average values aligned to their x, all of equal length. |
| Mobile.MobileDashboard.constructor | static/mobile.js:30-38 | The dashboard starts with empty series and no summary. |
| Mobile.MobileDashboard.ApplySummary | static/mobile.js:208-210 | The summary's daily and moving-average lists, empty when missing, and its daily average, with 0 read as absent, are stored; the series are unchanged and stay equal in length. |
| Mobile.MobileDashboard.ProcessReadings | static/mobile.js:226-247 | Empty rows clear all five series. Otherwise the series are the validated readings and the aligned daily and typical arrays of the same length. |
| Mobile.MobileDashboard.UpdateStats | static/mobile.js:250-280 | The panel shown is StatsPanel of the current state. |
| Mobile.MobileDashboard.UpdateDailyTable | static/mobile.js:284-349 | The table shown is DailyTable of the current state. |
| Mobile.MobileDashboard.ApplyFetch | static/mobile.js:188-224 | After a fetch, the summary is stored, the five series are the validated readings and the daily and moving-average values aligned to their times, the price is unchanged, and the panel and table are computed for [startMs, now]. |
| Database.MsOf | database.py:160 | The millisecond stamp is the microsecond time truncated toward zero. |
| Database.RangeRows | database.py:143-151 | The query returns only rows inside the inclusive bounds. |
| Database.RangeRowsComplete | database.py:143-151 | Every stored row inside the bounds is returned. |
| Database.RangeRowsOrdered | database.py:143-151 | The rows come back in increasing time order. |
| Database.RangeRowsSpan | database.py:206-217 | On an ordered table, the first and the last in-window row bound every in-window row. |
| Database.GetReadingsAsWritten | database.py:134-169 | As written, the debug line indexes the first and last row, so an empty result raises instead of returning. |
| Database.GetReadingsEmptyWindowRaises | database.py:153-157 | An empty table, or a window missing the only row, raises. |
| Database.GetReadings | database.py:158-169 | The corrected append loop returns the in-range rows mapped to {t, p, e}. |
| Database.GetReadingsProperties | database.py:134-169 | Each reading comes from a stored in-range row, and every in-range row appears. Whenever the result is non-empty, it equals what the code as written returns. |
| Database.GetReadingsOrdered | database.py:143-169 | The readings ascend by t. |
| Database.YearWindow | database.py:178-183 | The window is sorted by time. It has as many readings as lie within 365 days of the latest one, and each of its readings is one of those. |
| Database.FilterComplete | database.py:183 | The row filter keeps every row that satisfies its condition. |
| Database.YearWindowComplete | database.py:180-183 | Every reading within 365 days of the latest one is in the window. |
| Database.YearWindowBounds | database.py:178-183 | A reading within 365 days of the latest one lies between the window's first and last reading in time. |
| Database.YearWindowEnds | database.py:178-190 | The window is never empty. Its last reading is the latest one, and its first and last readings bound the time of every reading within 365 days of the latest. |
| Database.AvgDailyEnergyUsageFails | database.py:172-195 | The average fails exactly in four cases: there is no data; fewer than two readings lie in the year window; the window's span is zero; or no reading carries an energy value, so the final subtraction is None − None. |
| Database.AvgDailyAllNullRaises | database.py:187-195 | Two readings a day apart with null energies raise, although the window itself is valid. |
| Database.AvgDailyEnergyUsageRate | database.py:187-195 | Otherwise some reading carries an energy value, and the window has two readings and a positive span. rate × span in days = last energy − first energy of the window, and the result is absent (NaN) exactly when either energy is missing. |
| Database.RateOverOk | database.py:184-195 | A successful rate over a window has two readings and a positive span, and rate × span is the energy delta of its ends. |
| Database.AvgDailyTwoDays | database.py:178-195 | 20 kWh over two days gives 10 kWh per day. |
| Database.TwoDaysRate | database.py:187-195 | The two-day example's rate over the sorted window is 10 kWh per day. |
| Database.AvgDailySingleReading | database.py:184-185 | A single reading is not enough. |
| Database.GetStatsAggregates | database.py:219-244 | The count is the number of in-window rows with a power. Min, max and average are absent exactly when it is 0. Otherwise min ≤ avg ≤ max, and min and max are powers from the window. |
| Database.GetStatsBounds | database.py:219-229 | Every in-window power lies between the minimum and the maximum. |
| Database.GetStatsEnergy | database.py:206-236 | The energy used is last minus first in-window row energy, present exactly when both rows and both energies exist. The first and last rows bound every in-window row. |
| Database.GetStatsEmptyWindow | database.py:238-244 | An empty window gives count 0 and no other figure. |
| WebApp.AnyContained | src/app.py:48 | The result is true exactly when one of the patterns occurs in the user agent. |
| WebApp.IsMobileUserAgentSpec | src/app.py:42-48 | A user agent is mobile exactly when it does not contain "iPad" and contains one of the six mobile patterns; a missing header is not mobile. |
| WebApp.IPadIsNeverMobile | src/app.py:46-47 | Any user agent containing "iPad" is not mobile, even with "Mobile" in it. |
| WebApp.PatternIsMobile | src/app.py:39-48 | Any mention of a mobile pattern without "iPad" is mobile. |
| WebApp.Index | src/app.py:52-56 | The front page redirects to /mobile exactly when the user agent is mobile, and serves index.html otherwise. |
| WebApp.ApiStatsSpec | src/app.py:95-110 | Status 400 exactly when a bound is missing. Otherwise the statistics are those of the window from the smaller to the larger bound, with start ≤ end in the answer. Swapping the arguments changes nothing. |
| GitBackup.FirstRange | src/git_tool.py:15-37 | The search finds the leftmost position where the range pattern matches, or none. |
| GitBackup.ParseStartFromCommit | src/git_tool.py:35-40 | None exactly when no range occurs; otherwise a well-formed stamp. |
| GitBackup.ParseStartIsLeftmost | src/git_tool.py:35-40 | The parsed start is the first stamp of the leftmost range. |
| GitBackup.ParseComposed | src/git_tool.py:35-40 | Parsing "[DB-AUTO-BACKUP] s-e" for well-formed stamps gives back s. |
| GitBackup.CommitDbIfChanged | src/git_tool.py:43-83 | The step-by-step plan equals BackupPlan of the diff, the last subject and now. |
| GitBackup.BackupPlanSpec | src/git_tool.py:47-77 | An empty diff means no commit and no push. A commit amends exactly when the last subject is a backup commit with a range, keeping its start. An amend is force-pushed and a new commit plainly pushed, both to origin main. An unreadable subject leads to a new commit. |
| GitBackup.AmendAfterBackup | src/git_tool.py:54-69 | The next run amends a backup commit and keeps its start. |
| GitBackup.RepeatedAmendsKeepStart | src/git_tool.py:63-69 | Over repeated runs the subject always spans from the first run's time to the latest. |

## Left out

**Numbers and time**
- Floating point: power, energy and cost are exact reals. JavaScript's NaN and ±Infinity are merged with null, as "absent". IEEE rounding is not modelled anywhere, and the LTTB bucket bound uses exact floor division.
- Local calendar: `getDateKey` and the local-time day key are the parameter `dayKey`, an arbitrary function from milliseconds to a (year, month, day) key. Calendar arithmetic for week, month and year starts, and locale formatting of numbers and dates, are outside the model.
- Time parsing: `parse_time_param` (src/helpers.py) is an input. A bound that is missing or does not parse arrives as `None`, and one that parses arrives as integer microseconds.

**Browser rendering, I/O and wiring**
- Rendering and event wiring: the DOM, uPlot, chart configuration, hover, tooltips, pointer handlers and keyboard wiring. Pixel-to-time conversion is an input: `Dashboard.Dashboard.FinalizePointerSelection` receives the dragged pixel distance and the two bounds in milliseconds.
- Missing chart or badge: `Dashboard.Live` and `Dashboard.Update` assume the chart and the live badge exist. The source returns early when either is missing (static/app.js:199, 384-386), and the model has no state for that.
- Visible x range: `Dashboard.FollowView` writes the x range only where `updateChart` sets it. Elsewhere the model takes the data extent that uPlot's auto-range would show.
- Network and timers: fetching, polling, debouncing and async sequencing. The JSON a fetch returns is an argument of `Dashboard.Dashboard.ApplyReadings` and `Mobile.MobileDashboard.ApplyFetch`. The fetch window start is `Mobile.WindowStart`.
- Browser storage: the saved cost per kWh is a field set at construction, and its localStorage I/O is not modelled.
- Display-only helpers: `setActiveButton`, `flashLiveIndicator` and `setConnectionStatus`. Elapsed-time formatting other than `formatDuration` is also display-only.
- Mobile chart toggles: the mobile `updateChart` and `toggleSeries` only hand series to the chart and change its visibility.
- Dead variable: `avgRangeStart` in the LTTB loop is assigned but never read, so the model has no counterpart.
- Duplicate formatter: the `formatDuration` copy at static/app.js:623-636 is identical to the shared one, and `Shared.FormatDuration` stands for both.
- Trend smoothing: no shown file computes an exponential moving average or other smoother. The mobile moving-average line is server data aligned by day key.

**Backend**
- Storage: the database is an in-memory sequence of rows in primary-key order, that is, by strictly increasing timestamp. SQL, SQLAlchemy sessions, `save_energy_reading`, `init_db`, the count and health helpers, and the `lru_cache` on `get_readings` are not modelled.
- pandas: `sort_values` is the stable insertion sort `Sorting.SortBy`, while pandas' default sort is not guaranteed stable. Equal timestamps may therefore come out in another order in the source. When some reading carries an energy value, pandas stores the column as floats. A missing energy at either end of the window then gives a NaN difference, which the model returns as `Ok(None)`. When no reading carries one, the column holds `None` objects and the subtraction raises, which the model returns as `Err`.
- `\d` in the backup range pattern also matches non-ASCII digits in Python. The model accepts only '0'-'9'.
- `api_readings` only passes its parsed bounds to `get_readings`, so `Database.GetReadings` covers it. The root-level app.py repeats the `api_stats` rule, and `WebApp.ApiStats` covers both.
- The JSON encoding of responses and Flask's request plumbing are not modelled.

**Backup job**
- The shell-outs (`run_command`, `cp`, `git diff`, `git log`, `git add`) are inputs. Their outputs are the diff text and the last subject (None when `git log` fails).
- `GitBackup.BackupPlan` returns the commit and push commands but not the `git add` that precedes them. It also does not model a failing commit or push.
- `GitBackup.IsStamp` checks the shape of a stamp (`\d{4}-\d{2}-\d{2}T\d{2}:\d{2}:\d{2}`), not that it names a real date. This matches the regex.

**Out of scope**
- MQTT ingestion, the scheduler, Telegram notifications and the process entry points are queues, threads and network clients, outside the core.

## Findings

| source | as written | input that shows it | evidently intended | confidence | as-written member | corrected member |
|---|---|---|---|---|---|---|
| database.py:153-157 | The debug log line in `get_readings` formats `rows[0]` and `rows[-1]` before the loop, so a query that matches no row raises IndexError instead of returning. | An empty table; or a single row at 5000 µs with the window [0, 1000] µs. | An empty window returns an empty list of readings. | not executed | Database.GetReadingsEmptyWindowRaises | Database.GetReadingsProperties |
