/** The state of the desktop dashboard (static/app.js): the three series,
    the selection, the visible x range of the chart, the live-view flag, the
    timestamp of the newest point and the figures shown for the selection.
    Each operation is a method of the class `Dashboard` whose effect on the
    view state is given by a pure transition function on `Ui` values. */
module Dashboard {
  import opened Wrappers
  import Lttb
  import opened Ingest
  import opened Stats

  /** Seconds within the newest point for the view to count as live. */
  const LIVE_THRESHOLD_SEC: int := 120
  /** Smallest drag, in pixels, that makes a selection. */
  const MIN_DRAG_PX: real := 10.0
  const DEFAULT_COST_PER_KWH: real := 0.3102

  /** The chart's x scale, in seconds. */
  datatype View = View(min: real, max: real)

  /** `selection`: start and end in ms, or null. */
  datatype Selection = Selection(start: Option<int>, end: Option<int>)

  datatype Range = Range(start: int, end: int)

  /** What the view-related operations read and write. */
  datatype Ui = Ui(selection: Selection, view: Option<View>, isLive: bool, shown: Option<WindowStats>)

  function ToSec(ms: int): real
  {
    ms as real / 1000.0
  }

  function IntMin(a: int, b: int): int { if a <= b then a else b }
  function IntMax(a: int, b: int): int { if a >= b then a else b }

  function RealAbs(v: real): real { if v >= 0.0 then v else -v }

  /** JavaScript truthiness of a millisecond value: null and 0 are false. */
  predicate Truthy(v: Option<int>)
  {
    v.Some? && v.value != 0
  }

  predicate HasSelection(s: Selection)
  {
    Truthy(s.start) && Truthy(s.end)
  }

  // ---------------------------------------------------------------------------
  // Live flag (updateLiveIndicator)
  // ---------------------------------------------------------------------------

  /** The view is live when its right edge is within the threshold of the
      newest point; with no data the flag keeps its value. */
  function Live(xs: seq<int>, ui: Ui): (r: Ui)
    ensures r.selection == ui.selection && r.view == ui.view && r.shown == ui.shown
    ensures |xs| > 0 ==> (r.isLive <==> ui.view.Some? && ui.view.value.max >= (Latest(xs) - LIVE_THRESHOLD_SEC) as real)
    ensures |xs| == 0 ==> r == ui
  {
    if |xs| == 0 then ui
    else ui.(isLive := ui.view.Some? && ui.view.value.max >= (Latest(xs) - LIVE_THRESHOLD_SEC) as real)
  }

  // ---------------------------------------------------------------------------
  // Selection (applySelectionRange, clearSelection)
  // ---------------------------------------------------------------------------

  /** Both ends clamped into [minMs, maxMs]; an end at or before the start
      is moved to start + 1, capped at maxMs. */
  function ClampRange(minMs: int, maxMs: int, s: int, e: int): Range
  {
    var s2 := IntMax(minMs, IntMin(s, maxMs));
    var e2 := IntMax(minMs, IntMin(e, maxMs));
    Range(s2, if e2 <= s2 then IntMin(maxMs, s2 + 1) else e2)
  }

  /** The range applySelectionRange accepts, or None when it returns without
      changing anything (a bound that is not a finite number, or an empty
      range after clamping). */
  function AcceptedRange(xs: seq<int>, startMs: Option<int>, endMs: Option<int>, clampToData: bool): Option<Range>
  {
    if startMs.None? || endMs.None? then None
    else
      var r := if clampToData && |xs| > 0
               then ClampRange(xs[0] * 1000, Latest(xs) * 1000, startMs.value, endMs.value)
               else Range(startMs.value, endMs.value);
      if r.end <= r.start then None else Some(r)
  }

  /** An accepted range is never empty; clamped to sorted data it lies within
      the data's span; a range already inside that span is kept as is. */
  lemma AcceptedRangeProperties(xs: seq<int>, startMs: Option<int>, endMs: Option<int>, clampToData: bool)
    ensures AcceptedRange(xs, startMs, endMs, clampToData).Some? ==>
              AcceptedRange(xs, startMs, endMs, clampToData).value.start
                < AcceptedRange(xs, startMs, endMs, clampToData).value.end
    ensures startMs.None? || endMs.None? ==> AcceptedRange(xs, startMs, endMs, clampToData).None?
    ensures clampToData && |xs| > 0 && xs[0] <= Latest(xs)
            && AcceptedRange(xs, startMs, endMs, clampToData).Some? ==>
              xs[0] * 1000 <= AcceptedRange(xs, startMs, endMs, clampToData).value.start
              && AcceptedRange(xs, startMs, endMs, clampToData).value.end <= Latest(xs) * 1000
    ensures startMs.Some? && endMs.Some? && startMs.value < endMs.value
            && (clampToData && |xs| > 0 ==> xs[0] * 1000 <= startMs.value && endMs.value <= Latest(xs) * 1000) ==>
              AcceptedRange(xs, startMs, endMs, clampToData) == Some(Range(startMs.value, endMs.value))
    ensures startMs.Some? && endMs.Some? && endMs.value <= startMs.value && !(clampToData && |xs| > 0) ==>
              AcceptedRange(xs, startMs, endMs, clampToData).None?
  {
  }

  /** computeStatsLocal on [s, e]: new figures, or the old ones when it
      returns early. */
  function Refresh(xs: seq<int>, ys: seq<Option<real>>, es: seq<Option<real>>, cost: real,
                   s: int, e: int, shown: Option<WindowStats>): Option<WindowStats>
    requires |xs| == |ys|
  {
    if StatsOf(xs, ys, es, s, e, cost).Some? then StatsOf(xs, ys, es, s, e, cost) else shown
  }

  /** applySelectionRange: an accepted range becomes the selection and the
      view, the figures are recomputed and the live flag re-evaluated; a
      rejected one changes nothing. */
  function Select(xs: seq<int>, ys: seq<Option<real>>, es: seq<Option<real>>, cost: real, ui: Ui,
                  startMs: Option<int>, endMs: Option<int>, clampToData: bool): Ui
    requires |xs| == |ys|
  {
    var a := AcceptedRange(xs, startMs, endMs, clampToData);
    if a.None? then ui
    else Live(xs, Ui(Selection(Some(a.value.start), Some(a.value.end)),
                     Some(View(ToSec(a.value.start), ToSec(a.value.end))),
                     ui.isLive,
                     Refresh(xs, ys, es, cost, a.value.start, a.value.end, ui.shown)))
  }

  /** After an accepted selection the view is exactly the selection, with
      start before end; with data, the view is live exactly when the
      selection ends within the threshold of the newest point. */
  lemma SelectShowsSelection(xs: seq<int>, ys: seq<Option<real>>, es: seq<Option<real>>, cost: real, ui: Ui,
                             startMs: Option<int>, endMs: Option<int>, clampToData: bool)
    requires |xs| == |ys|
    requires AcceptedRange(xs, startMs, endMs, clampToData).Some?
    ensures var r := Select(xs, ys, es, cost, ui, startMs, endMs, clampToData);
            && r.selection.start.Some? && r.selection.end.Some?
            && r.selection.start.value < r.selection.end.value
            && r.view == Some(View(ToSec(r.selection.start.value), ToSec(r.selection.end.value)))
            && r.view.value.min < r.view.value.max
            && (|xs| > 0 ==> (r.isLive <==> r.view.value.max >= (Latest(xs) - LIVE_THRESHOLD_SEC) as real))
  {
    AcceptedRangeProperties(xs, startMs, endMs, clampToData);
  }

  /** clearSelection: no selection, dashes instead of figures. */
  function Clear(xs: seq<int>, ui: Ui): Ui
  {
    Live(xs, ui.(selection := Selection(None, None), shown := None))
  }

  /** The drag bounds of finalizePointerSelection: ordered, and widened to
      one ms when they coincide; None when either bound is missing. */
  function DragRange(startMs: Option<int>, endMs: Option<int>): (r: Option<Range>)
    ensures r.Some? <==> startMs.Some? && endMs.Some?
    ensures r.Some? ==> r.value.start < r.value.end
                        && r.value.start == IntMin(startMs.value, endMs.value)
                        && (startMs.value != endMs.value ==> r.value.end == IntMax(startMs.value, endMs.value))
                        && (startMs.value == endMs.value ==> r.value.end == startMs.value + 1)
  {
    if startMs.None? || endMs.None? then None
    else
      var from := IntMin(startMs.value, endMs.value);
      var to := IntMax(startMs.value, endMs.value);
      Some(Range(from, if to == from then from + 1 else to))
  }

  /** The selection a relative duration asks for: ending at the newest point
      and starting durationMs before it, but not before the first point. */
  function RelativeStart(xs: seq<int>, durationMs: int): int
    requires |xs| > 0
  {
    IntMax(xs[0] * 1000, Latest(xs) * 1000 - durationMs)
  }

  /** Over data spanning more than an instant, a positive duration selects
      [max(first, newest − duration), newest], which is accepted unchanged. */
  lemma RelativeRangeAccepted(xs: seq<int>, durationMs: int)
    requires |xs| > 0 && xs[0] < Latest(xs) && durationMs > 0
    ensures AcceptedRange(xs, Some(RelativeStart(xs, durationMs)), Some(Latest(xs) * 1000), true)
              == Some(Range(RelativeStart(xs, durationMs), Latest(xs) * 1000))
  {
    AcceptedRangeProperties(xs, Some(RelativeStart(xs, durationMs)), Some(Latest(xs) * 1000), true);
  }

  // ---------------------------------------------------------------------------
  // Chart update (updateChart)
  // ---------------------------------------------------------------------------

  /** The refresh follows new data: the view had a positive width, its right
      edge was within the threshold of the newest point, and the newest
      point lies beyond it. */
  predicate Follows(xs: seq<int>, view: Option<View>)
  {
    && view.Some? && view.value.max > view.value.min && |xs| > 0
    && view.value.max >= (Latest(xs) - LIVE_THRESHOLD_SEC) as real
    && Latest(xs) as real > view.value.max
  }

  /** The x scale after updateChart: shifted to end at the newest point when
      following, kept otherwise; with no usable previous scale the chart
      ranges over the data (uPlot's own range for a time axis). */
  function FollowView(xs: seq<int>, view: Option<View>): Option<View>
  {
    if Follows(xs, view)
    then Some(View(Latest(xs) as real - (view.value.max - view.value.min), Latest(xs) as real))
    else if view.Some? && view.value.max > view.value.min && |xs| > 0 then view
    else if |xs| > 0 then Some(View(xs[0] as real, Latest(xs) as real))
    else None
  }

  /** A selection ending within the threshold of the old right edge is
      extended to the newest point when the view follows. */
  function FollowSelection(xs: seq<int>, view: Option<View>, sel: Selection): Selection
  {
    if Follows(xs, view) && Truthy(sel.end)
       && RealAbs(ToSec(sel.end.value) - view.value.max) < LIVE_THRESHOLD_SEC as real
    then sel.(end := Some(Latest(xs) * 1000))
    else sel
  }

  /** updateChart: follow new data, refresh the figures of a selection,
      re-evaluate the live flag. */
  function Update(xs: seq<int>, ys: seq<Option<real>>, es: seq<Option<real>>, cost: real, ui: Ui): Ui
    requires |xs| == |ys|
  {
    var sel := FollowSelection(xs, ui.view, ui.selection);
    Live(xs, Ui(sel, FollowView(xs, ui.view),
                ui.isLive,
                if HasSelection(sel) then Refresh(xs, ys, es, cost, sel.start.value, sel.end.value, ui.shown)
                else ui.shown))
  }

  /** Following keeps the width and puts the right edge on the newest point,
      so the view is live afterwards; a view that did not follow but was
      already live keeps the newest point in sight. */
  lemma FollowKeepsWidthAndLive(xs: seq<int>, view: Option<View>)
    ensures Follows(xs, view) ==>
              && FollowView(xs, view).value.max == Latest(xs) as real
              && FollowView(xs, view).value.max - FollowView(xs, view).value.min
                 == view.value.max - view.value.min
    ensures view.Some? && view.value.max > view.value.min && |xs| > 0
            && view.value.max >= (Latest(xs) - LIVE_THRESHOLD_SEC) as real ==>
              && FollowView(xs, view).value.max >= Latest(xs) as real
              && FollowView(xs, view).value.max >= (Latest(xs) - LIVE_THRESHOLD_SEC) as real
    ensures view.Some? && view.value.max > view.value.min && |xs| > 0 && !Follows(xs, view) ==>
              FollowView(xs, view) == view
  {
  }

  /** Refreshing twice with the same data moves the view only once. */
  lemma FollowIdempotent(xs: seq<int>, view: Option<View>)
    ensures FollowView(xs, FollowView(xs, view)) == FollowView(xs, view)
  {
  }

  /** The newest point ends the view after a follow and the live flag is set. */
  lemma UpdateFollowsLive(xs: seq<int>, ys: seq<Option<real>>, es: seq<Option<real>>, cost: real, ui: Ui)
    requires |xs| == |ys| && Follows(xs, ui.view)
    ensures Update(xs, ys, es, cost, ui).isLive
    ensures Update(xs, ys, es, cost, ui).view.value.max == Latest(xs) as real
  {
  }

  // ---------------------------------------------------------------------------
  // Ingest (the end of fetchReadings)
  // ---------------------------------------------------------------------------

  /** A full replace: x and y downsampled, energy stored as filtered. */
  function Replaced(b: Series): Series
    requires |b.xs| == |b.ys|
  {
    if |b.xs| <= Lttb.MAX_CHART_POINTS then b
    else
      var sel := Lttb.Selected(b.xs, b.ys, Lttb.MAX_CHART_POINTS);
      Series(Lttb.Gather(b.xs, sel), Lttb.Gather(b.ys, sel), b.es)
  }

  /** The series after a batch: appended when incremental and there is data,
      replaced otherwise. */
  function Merged(s: Series, b: Series, incremental: bool): Series
    requires |b.xs| == |b.ys| == |b.es|
  {
    if incremental && |s.xs| > 0 then Appended(s, b) else Replaced(b)
  }

  /** A replace keeps x and y of equal length and at most MAX_CHART_POINTS
      long, but a long batch leaves more energy values than points. */
  lemma ReplacedShape(b: Series)
    requires |b.xs| == |b.ys| == |b.es|
    ensures |Replaced(b).xs| == |Replaced(b).ys|
    ensures |Replaced(b).xs| <= Lttb.MAX_CHART_POINTS
    ensures |b.xs| > Lttb.MAX_CHART_POINTS ==> |Replaced(b).es| > |Replaced(b).xs|
  {
    if |b.xs| > Lttb.MAX_CHART_POINTS {
      Lttb.SelectedShape(b.xs, b.ys, Lttb.MAX_CHART_POINTS);
    }
  }

  /** Merging keeps x and y of equal length. */
  lemma MergedLengths(s: Series, b: Series, incremental: bool)
    requires |s.xs| == |s.ys| && |b.xs| == |b.ys| == |b.es|
    ensures |Merged(s, b, incremental).xs| == |Merged(s, b, incremental).ys|
  {
    ReplacedShape(b);
  }

  /** The first half of updateChart: move the x scale along with new data
      and carry a selection that ended at the old right edge. */
  method FollowStep(xs: seq<int>, view: Option<View>, selection: Selection) returns (v: Option<View>, sel: Selection)
    ensures v == FollowView(xs, view) && sel == FollowSelection(xs, view, selection)
  {
    sel := selection;
    var curMin := if view.Some? then Some(view.value.min) else None;
    var curMax := if view.Some? then Some(view.value.max) else None;
    if curMin.Some? && curMax.Some? && curMax.value > curMin.value && |xs| > 0 {
      var latestDataSec := xs[|xs| - 1];
      var oldLatestSec := curMax.value;
      var isWatchingLive := oldLatestSec >= (latestDataSec - LIVE_THRESHOLD_SEC) as real;
      if isWatchingLive && latestDataSec as real > oldLatestSec {
        var windowWidth := curMax.value - curMin.value;
        var newMax := latestDataSec as real;
        v := Some(View(newMax - windowWidth, newMax));
        if Truthy(sel.end)
           && RealAbs(ToSec(sel.end.value) - oldLatestSec) < LIVE_THRESHOLD_SEC as real {
          sel := sel.(end := Some(latestDataSec * 1000));
        }
      } else {
        v := Some(View(curMin.value, curMax.value));
      }
    } else if |xs| > 0 {
      v := Some(View(xs[0] as real, xs[|xs| - 1] as real));
    } else {
      v := None;
    }
  }

  class Dashboard {
    var xs: seq<int>
    var ys: seq<Option<real>>
    var es: seq<Option<real>>
    var selection: Selection
    var view: Option<View>
    var isLive: bool
    var lastDataTimestamp: Option<int>
    var shown: Option<WindowStats>
    var costPerKwh: real

    /** x and y run in parallel, and the newest-point timestamp is that of
        the last x once there is data. */
    ghost predicate Valid()
      reads this
    {
      && |xs| == |ys|
      && (|xs| > 0 ==> lastDataTimestamp == Some(Latest(xs) * 1000))
    }

    function UiState(): Ui
      reads this
    {
      Ui(selection, view, isLive, shown)
    }

    function SeriesState(): Series
      reads this
    {
      Series(xs, ys, es)
    }

    constructor()
      ensures Valid()
      ensures xs == [] && ys == [] && es == []
      ensures UiState() == Ui(Selection(None, None), None, true, None)
      ensures lastDataTimestamp == None && costPerKwh == DEFAULT_COST_PER_KWH
    {
      xs, ys, es := [], [], [];
      selection := Selection(None, None);
      view := None;
      isLive := true;
      lastDataTimestamp := None;
      shown := None;
      costPerKwh := DEFAULT_COST_PER_KWH;
    }

    method UpdateLiveIndicator()
      modifies this
      ensures UiState() == Live(xs, old(UiState()))
      ensures SeriesState() == old(SeriesState())
      ensures lastDataTimestamp == old(lastDataTimestamp) && costPerKwh == old(costPerKwh)
    {
      if |xs| == 0 {
        return;
      }
      var curMax := if view.Some? then Some(view.value.max) else None;
      var latestDataSec := xs[|xs| - 1];
      isLive := curMax.Some? && curMax.value >= (latestDataSec - LIVE_THRESHOLD_SEC) as real;
    }

    method ApplySelectionRange(startMs: Option<int>, endMs: Option<int>, clampToData: bool)
      requires Valid()
      modifies this
      ensures Valid()
      ensures UiState() == Select(xs, ys, es, costPerKwh, old(UiState()), startMs, endMs, clampToData)
      ensures SeriesState() == old(SeriesState())
      ensures lastDataTimestamp == old(lastDataTimestamp) && costPerKwh == old(costPerKwh)
    {
      if startMs.None? || endMs.None? {
        return;
      }
      var s, e := startMs.value, endMs.value;
      if clampToData && |xs| > 0 {
        var minMs := xs[0] * 1000;
        var maxMs := xs[|xs| - 1] * 1000;
        s := IntMax(minMs, IntMin(s, maxMs));
        e := IntMax(minMs, IntMin(e, maxMs));
        if e <= s {
          e := IntMin(maxMs, s + 1);
        }
      }
      if e <= s {
        assert AcceptedRange(xs, startMs, endMs, clampToData).None?;
        return;
      }
      assert AcceptedRange(xs, startMs, endMs, clampToData) == Some(Range(s, e));
      selection := Selection(Some(s), Some(e));
      view := Some(View(ToSec(s), ToSec(e)));
      UpdateLiveIndicator();
      var stats := ComputeStatsLocal(xs, ys, es, s, e, costPerKwh);
      if stats.Some? {
        shown := stats;
      }
      UpdateLiveIndicator();
    }

    method ClearSelection()
      modifies this
      ensures UiState() == Clear(xs, old(UiState()))
      ensures SeriesState() == old(SeriesState())
      ensures lastDataTimestamp == old(lastDataTimestamp) && costPerKwh == old(costPerKwh)
    {
      selection := Selection(None, None);
      shown := None;
      UpdateLiveIndicator();
    }

    method SelectRelativeRange(durationMs: int)
      requires Valid()
      modifies this
      ensures Valid()
      ensures |xs| == 0 ==> UiState() == old(UiState())
      ensures |xs| > 0 ==>
                UiState() == Select(xs, ys, es, costPerKwh, old(UiState()),
                                    Some(RelativeStart(xs, durationMs)), Some(Latest(xs) * 1000), true)
      ensures SeriesState() == old(SeriesState())
      ensures lastDataTimestamp == old(lastDataTimestamp) && costPerKwh == old(costPerKwh)
    {
      if |xs| == 0 {
        return;
      }
      var endMs := xs[|xs| - 1] * 1000;
      var startMs := IntMax(xs[0] * 1000, endMs - durationMs);
      ApplySelectionRange(Some(startMs), Some(endMs), true);
    }

    method SelectCalendarRange(startMs: int, endMs: int)
      requires Valid()
      modifies this
      ensures Valid()
      ensures |xs| == 0 ==> UiState() == old(UiState())
      ensures |xs| > 0 ==>
                UiState() == Select(xs, ys, es, costPerKwh, old(UiState()), Some(startMs), Some(endMs), true)
      ensures SeriesState() == old(SeriesState())
      ensures lastDataTimestamp == old(lastDataTimestamp) && costPerKwh == old(costPerKwh)
    {
      if |xs| == 0 {
        return;
      }
      ApplySelectionRange(Some(startMs), Some(endMs), true);
    }

    /** The end of a drag: startMs and endMs are the times under the two
        pixel positions (None when not finite); a drag shorter than
        MIN_DRAG_PX does nothing. */
    method FinalizePointerSelection(startPx: real, px: Option<real>, startMs: Option<int>, endMs: Option<int>)
      requires Valid()
      modifies this
      ensures Valid()
      ensures var endPx := if px.Some? then px.value else startPx;
              RealAbs(endPx - startPx) < MIN_DRAG_PX || DragRange(startMs, endMs).None? ==>
                UiState() == old(UiState())
      ensures var endPx := if px.Some? then px.value else startPx;
              RealAbs(endPx - startPx) >= MIN_DRAG_PX && DragRange(startMs, endMs).Some? ==>
                UiState() == Select(xs, ys, es, costPerKwh, old(UiState()),
                                    Some(DragRange(startMs, endMs).value.start),
                                    Some(DragRange(startMs, endMs).value.end), true)
      ensures SeriesState() == old(SeriesState())
      ensures lastDataTimestamp == old(lastDataTimestamp) && costPerKwh == old(costPerKwh)
    {
      var endPx := if px.Some? then px.value else startPx;
      var dragDistance := RealAbs(endPx - startPx);
      if dragDistance < MIN_DRAG_PX {
        return;
      }
      if startMs.None? || endMs.None? {
        return;
      }
      var from := IntMin(startMs.value, endMs.value);
      var to := IntMax(startMs.value, endMs.value);
      if to == from {
        to := from + 1;
      }
      ApplySelectionRange(Some(from), Some(to), true);
    }

    method UpdateChart()
      requires Valid()
      modifies this
      ensures Valid()
      ensures UiState() == Update(xs, ys, es, costPerKwh, old(UiState()))
      ensures SeriesState() == old(SeriesState())
      ensures lastDataTimestamp == old(lastDataTimestamp) && costPerKwh == old(costPerKwh)
    {
      var v, sel := FollowStep(xs, view, selection);
      view, selection := v, sel;
      if HasSelection(selection) {
        var stats := ComputeStatsLocal(xs, ys, es, selection.start.value, selection.end.value, costPerKwh);
        if stats.Some? {
          shown := stats;
        }
      }
      UpdateLiveIndicator();
    }

    /** The merge step of fetchReadings: append the new suffix of the batch
        when incremental and there is data, replace the series otherwise, and
        note the newest timestamp. */
    method MergeBatch(b: Series, incremental: bool)
      requires Valid() && |b.xs| == |b.ys| == |b.es|
      modifies this
      ensures Valid()
      ensures SeriesState() == Merged(old(SeriesState()), b, incremental)
      ensures |xs| == 0 ==> lastDataTimestamp == old(lastDataTimestamp)
      ensures UiState() == old(UiState()) && costPerKwh == old(costPerKwh)
    {
      if incremental && |xs| > 0 {
        var lastExistingTime := xs[|xs| - 1];
        var appendIndex := FindAppendIndex(b.xs, lastExistingTime);
        if appendIndex < |b.xs| {
          xs := xs + b.xs[appendIndex..];
          ys := ys + b.ys[appendIndex..];
          es := es + b.es[appendIndex..];
        } else {
          assert b.xs[appendIndex..] == [] && b.ys[appendIndex..] == [] && b.es[appendIndex..] == [];
          assert xs + [] == xs && ys + [] == ys && es + [] == es;
        }
      } else {
        var dx, dy := Lttb.DownsampleLTTB(b.xs, b.ys, Lttb.MAX_CHART_POINTS);
        ReplacedShape(b);
        xs, ys, es := dx, dy, b.es;
      }
      if |xs| > 0 {
        lastDataTimestamp := Some(xs[|xs| - 1] * 1000);
      }
    }

    /** A readings response: nothing happens for an empty one; otherwise the
        batch is merged, the newest timestamp noted and the chart updated. */
    method ApplyReadings(rows: seq<Reading>, incremental: bool)
      requires Valid()
      modifies this
      ensures Valid()
      ensures rows == [] ==> UiState() == old(UiState()) && SeriesState() == old(SeriesState())
                             && lastDataTimestamp == old(lastDataTimestamp)
      ensures rows != [] ==> SeriesState() == Merged(old(SeriesState()), BatchOf(rows), incremental)
      ensures rows != [] ==> UiState() == Update(xs, ys, es, costPerKwh, old(UiState()))
      ensures |xs| == 0 ==> lastDataTimestamp == old(lastDataTimestamp)
      ensures costPerKwh == old(costPerKwh)
    {
      if rows == [] {
        return;
      }
      var b := PrepareBatch(rows);
      FilteredShape(Mapped(rows), rows);
      MergeBatch(b, incremental);
      UpdateChart();
    }
  }
}
