/**
 * The time axis of the chart (src/components/GanttCHart.tsx:174-238): the
 * time domain spanned by the tasks, the zoomed window inside it, the layout
 * constants, the linear map from instants to pixels, and the month and week
 * tick loops.
 */
module Timeline {
  import opened Base
  import opened Records
  import opened Calendar

  // ---------------------------------------------------------------------
  // Time domain

  /** Some task with both dates starts at `v`. */
  predicate SomeStartIs(tasks: seq<Task>, v: int)
  {
    exists i :: 0 <= i < |tasks| && HasSpan(tasks[i]) && tasks[i].start.value == v
  }

  predicate SomeEndIs(tasks: seq<Task>, v: int)
  {
    exists i :: 0 <= i < |tasks| && HasSpan(tasks[i]) && tasks[i].end.value == v
  }

  predicate NoSpan(tasks: seq<Task>)
  {
    forall i :: 0 <= i < |tasks| ==> !HasSpan(tasks[i])
  }

  /**
   * `validTasks` (src/components/GanttCHart.tsx:175): the tasks that have
   * both a start and an end, in order; it is empty exactly when no task has both.
   */
  function ValidTasks(tasks: seq<Task>): (r: seq<Task>)
    ensures forall t :: t in r <==> t in tasks && HasSpan(t)
    ensures |r| == 0 <==> NoSpan(tasks)
  {
    var r := Filter(tasks, HasSpan);
    assert |r| == 0 <==> NoSpan(tasks) by {
      if |r| > 0 {
        assert r[0] in r;
      } else {
        forall i | 0 <= i < |tasks|
          ensures !HasSpan(tasks[i])
        {
          assert tasks[i] in tasks;
        }
      }
    }
    r
  }

  /** `Math.min` of the starts of the tasks that have a span; None when there are none. */
  function MinStart(tasks: seq<Task>): (r: Option<int>)
    ensures r.None? <==> NoSpan(tasks)
    ensures r.Some? ==> SomeStartIs(tasks, r.value)
    ensures r.Some? ==> forall i :: 0 <= i < |tasks| && HasSpan(tasks[i]) ==> r.value <= tasks[i].start.value
  {
    if tasks == [] then None
    else
      var rest := MinStart(tasks[1..]);
      var t := tasks[0];
      assert forall i :: 1 <= i < |tasks| ==> tasks[i] == tasks[1..][i - 1];
      assert rest.Some? ==> SomeStartIs(tasks, rest.value) by {
        if rest.Some? {
          var j :| 0 <= j < |tasks[1..]| && HasSpan(tasks[1..][j]) && tasks[1..][j].start.value == rest.value;
          assert tasks[j + 1] == tasks[1..][j];
        }
      }
      if !HasSpan(t) then rest
      else if rest.None? || t.start.value <= rest.value then Some(t.start.value)
      else rest
  }

  /** `Math.max` of the ends of the tasks that have a span; None when there are none. */
  function MaxEnd(tasks: seq<Task>): (r: Option<int>)
    ensures r.None? <==> NoSpan(tasks)
    ensures r.Some? ==> SomeEndIs(tasks, r.value)
    ensures r.Some? ==> forall i :: 0 <= i < |tasks| && HasSpan(tasks[i]) ==> tasks[i].end.value <= r.value
  {
    if tasks == [] then None
    else
      var rest := MaxEnd(tasks[1..]);
      var t := tasks[0];
      assert forall i :: 1 <= i < |tasks| ==> tasks[i] == tasks[1..][i - 1];
      assert rest.Some? ==> SomeEndIs(tasks, rest.value) by {
        if rest.Some? {
          var j :| 0 <= j < |tasks[1..]| && HasSpan(tasks[1..][j]) && tasks[1..][j].end.value == rest.value;
          assert tasks[j + 1] == tasks[1..][j];
        }
      }
      if !HasSpan(t) then rest
      else if rest.None? || t.end.value >= rest.value then Some(t.end.value)
      else rest
  }

  /** The full time domain `[allMinDate, allMaxDate]`. */
  datatype Domain = Domain(allMin: int, allMax: int)

  /**
   * `allMinDate` / `allMaxDate` (src/components/GanttCHart.tsx:175-177): the
   * least start and the greatest end over the tasks that have both, each
   * attained by some task; the current time `now` for both when no task has
   * both.
   */
  function DomainOf(tasks: seq<Task>, now: int): (d: Domain)
    ensures NoSpan(tasks) ==> d == Domain(now, now)
    ensures !NoSpan(tasks) ==> SomeStartIs(tasks, d.allMin) && SomeEndIs(tasks, d.allMax)
    ensures forall i :: 0 <= i < |tasks| && HasSpan(tasks[i]) ==>
              d.allMin <= tasks[i].start.value && tasks[i].end.value <= d.allMax
  {
    var lo, hi := MinStart(tasks), MaxEnd(tasks);
    if lo.Some? && hi.Some? then Domain(lo.value, hi.value) else Domain(now, now)
  }

  /**
   * The domain is ordered as soon as one task with a span does not end
   * before it starts (the chart itself never checks this).
   */
  lemma DomainOrdered(tasks: seq<Task>, now: int, i: nat)
    requires i < |tasks| && HasSpan(tasks[i]) && tasks[i].start.value <= tasks[i].end.value
    ensures DomainOf(tasks, now).allMin <= DomainOf(tasks, now).allMax
  {
  }

  // ---------------------------------------------------------------------
  // Zoom window

  /**
   * The zoom state as the slider sets it: two whole percents, the stored
   * fractions being these divided by 100 (src/components/GanttCHart.tsx:572-576).
   */
  datatype Zoom = Zoom(startPct: int, endPct: int)

  /** The initial zoom `{ start: 0, end: 1 }`. */
  const FullZoom: Zoom := Zoom(0, 100)

  /** What the range slider (0..100, handles may not cross) can produce. */
  predicate ValidZoom(z: Zoom)
  {
    0 <= z.startPct <= z.endPct <= 100
  }

  /**
   * Division by 100 truncating toward zero, as `new Date(x)` truncates a
   * fractional time value.
   */
  function Trunc100(a: int): int
  {
    if a >= 0 then a / 100 else -((-a) / 100)
  }

  lemma Trunc100Monotone(a: int, c: int)
    requires a <= c
    ensures Trunc100(a) <= Trunc100(c)
  {
  }

  lemma Trunc100Exact(x: int)
    ensures Trunc100(100 * x) == x
  {
  }

  /** The instant at `pct` percent of the domain: `allMin + pct/100 * totalMs`, truncated. */
  function ZoomPoint(d: Domain, pct: int): int
  {
    Trunc100(100 * d.allMin + pct * (d.allMax - d.allMin))
  }

  /** The visible window `[minDate, maxDate]`. */
  datatype Window = Window(minDate: int, maxDate: int)

  /** `minDate` and `maxDate` (src/components/GanttCHart.tsx:178-180). */
  function VisibleWindow(d: Domain, z: Zoom): Window
  {
    Window(ZoomPoint(d, z.startPct), ZoomPoint(d, z.endPct))
  }

  /**
   * A zoom the slider can produce selects a window nested in the domain:
   * `allMinDate <= minDate <= maxDate <= allMaxDate`.
   */
  lemma WindowInsideDomain(d: Domain, z: Zoom)
    requires ValidZoom(z) && d.allMin <= d.allMax
    ensures d.allMin <= VisibleWindow(d, z).minDate <= VisibleWindow(d, z).maxDate <= d.allMax
  {
    var span := d.allMax - d.allMin;
    ScaledPercents(z.startPct, z.endPct, span);
    Trunc100Exact(d.allMin);
    Trunc100Exact(d.allMax);
    Trunc100Monotone(100 * d.allMin, 100 * d.allMin + z.startPct * span);
    Trunc100Monotone(100 * d.allMin + z.startPct * span, 100 * d.allMin + z.endPct * span);
    Trunc100Monotone(100 * d.allMin + z.endPct * span, 100 * d.allMax);
  }

  lemma ScaledPercents(a: int, b: int, span: int)
    requires 0 <= a <= b <= 100 && span >= 0
    ensures 0 <= a * span <= b * span <= 100 * span
  {
    ProductNonNegative(a, span);
    ProductNonNegative(b - a, span);
    ProductNonNegative(100 - b, span);
    assert (b - a) * span == b * span - a * span;
    assert (100 - b) * span == 100 * span - b * span;
  }

  lemma ProductNonNegative(x: int, y: int)
    requires x >= 0 && y >= 0
    ensures x * y >= 0
  {
  }

  /** The initial zoom shows the whole domain. */
  lemma FullZoomWindow(d: Domain)
    ensures VisibleWindow(d, FullZoom) == Window(d.allMin, d.allMax)
  {
    Trunc100Exact(d.allMin);
    Trunc100Exact(d.allMax);
    assert 100 * d.allMin + 100 * (d.allMax - d.allMin) == 100 * d.allMax;
  }

  // ---------------------------------------------------------------------
  // Layout (src/components/GanttCHart.tsx:183-199)

  const LeftColBase: real := 220.0
  const ExtraColWidth: real := 110.0
  const PaddingLeft: real := 16.0
  const PaddingRight: real := 16.0
  const PaddingBottom: int := 16
  const RowHeight: int := 28
  const HeaderHeight: real := 56.0
  const ZoomBarHeight: real := 60.0
  const SliderHeight: real := 48.0
  const SliderMargin: real := 8.0

  /** Width of the left label column: a base plus one slot per extra column. */
  function LeftColWidth(extraCount: nat): real
  {
    LeftColBase + ExtraColWidth * extraCount as real
  }

  /** Width of the time area: the viewport less the label column and both paddings. */
  function ChartWidth(width: real, extraCount: nat): real
  {
    width - LeftColWidth(extraCount) - PaddingLeft - PaddingRight
  }

  /** Height of the chart body: one row height per row plus the bottom padding. */
  function ChartHeight(rowCount: nat): int
  {
    rowCount * RowHeight + PaddingBottom
  }

  /** Height of the scrollable body: the viewport less header, zoom bar and slider. */
  function BodyHeight(height: real): real
  {
    height - HeaderHeight - ZoomBarHeight - SliderHeight - SliderMargin
  }

  // ---------------------------------------------------------------------
  // The linear scale

  /** What `dateToX` closes over: the window, the viewport width and the extra-column count. */
  datatype Scale = Scale(window: Window, width: real, extraCount: nat)

  predicate PositiveSpan(s: Scale)
  {
    s.window.maxDate > s.window.minDate
  }

  /**
   * `dateToX` (src/components/GanttCHart.tsx:210-211): the instant's fraction
   * of the window, stretched over the time area and shifted right of the
   * label column and the left padding.
   */
  function DateToX(s: Scale, t: int): real
    requires PositiveSpan(s)
  {
    var w := s.window;
    ((t - w.minDate) as real / (w.maxDate - w.minDate) as real) * ChartWidth(s.width, s.extraCount)
      + LeftColWidth(s.extraCount) + PaddingLeft
  }

  /** The window's ends map to the ends of the time area. */
  lemma ScaleEndpoints(s: Scale)
    requires PositiveSpan(s)
    ensures DateToX(s, s.window.minDate) == LeftColWidth(s.extraCount) + PaddingLeft
    ensures DateToX(s, s.window.maxDate) == s.width - PaddingRight
  {
    var w := s.window;
    assert (w.maxDate - w.minDate) as real / (w.maxDate - w.minDate) as real == 1.0;
  }

  /** With a non-negative time area, later instants are never further left. */
  lemma ScaleMonotone(s: Scale, a: int, b: int)
    requires PositiveSpan(s) && ChartWidth(s.width, s.extraCount) >= 0.0
    requires a <= b
    ensures DateToX(s, a) <= DateToX(s, b)
  {
    var w := s.window;
    var span := (w.maxDate - w.minDate) as real;
    var cw := ChartWidth(s.width, s.extraCount);
    var fa, fb := (a - w.minDate) as real / span, (b - w.minDate) as real / span;
    assert fa <= fb by {
      assert fb - fa == (b - a) as real / span;
    }
    assert fa * cw <= fb * cw by {
      assert fb * cw - fa * cw == (fb - fa) * cw;
    }
  }

  /** The x position of each tick. */
  function TickXs(s: Scale, ticks: seq<int>): (xs: seq<real>)
    requires PositiveSpan(s)
    ensures |xs| == |ticks|
  {
    seq(|ticks|, i requires 0 <= i < |ticks| => DateToX(s, ticks[i]))
  }

  /**
   * Ticks not after `maxDate`, as both tick loops produce, are drawn at or
   * left of the time area's right edge, and those not before `minDate` at or
   * right of its left edge; a first month or week tick before `minDate`
   * falls left of the time area, under the label column.
   */
  lemma TickXsInTimeArea(s: Scale, ticks: seq<int>)
    requires PositiveSpan(s) && ChartWidth(s.width, s.extraCount) >= 0.0
    requires forall i :: 0 <= i < |ticks| ==> ticks[i] <= s.window.maxDate
    ensures forall i :: 0 <= i < |ticks| ==> TickXs(s, ticks)[i] <= s.width - PaddingRight
    ensures forall i :: 0 <= i < |ticks| && s.window.minDate <= ticks[i] ==>
              LeftColWidth(s.extraCount) + PaddingLeft <= TickXs(s, ticks)[i]
    ensures forall i :: 0 <= i < |ticks| && ticks[i] < s.window.minDate ==>
              TickXs(s, ticks)[i] <= LeftColWidth(s.extraCount) + PaddingLeft
  {
    ScaleEndpoints(s);
    forall i | 0 <= i < |ticks|
      ensures TickXs(s, ticks)[i] <= s.width - PaddingRight
      ensures s.window.minDate <= ticks[i] ==> LeftColWidth(s.extraCount) + PaddingLeft <= TickXs(s, ticks)[i]
      ensures ticks[i] < s.window.minDate ==> TickXs(s, ticks)[i] <= LeftColWidth(s.extraCount) + PaddingLeft
    {
      ScaleMonotone(s, ticks[i], s.window.maxDate);
      if s.window.minDate <= ticks[i] {
        ScaleMonotone(s, s.window.minDate, ticks[i]);
      } else {
        ScaleMonotone(s, ticks[i], s.window.minDate);
      }
    }
  }

  // ---------------------------------------------------------------------
  // Month ticks

  /**
   * `ticks` are the first local midnights of the consecutive months `k0`,
   * `k0 + 1`, ... that start no later than `maxDate`, and the month after
   * the last one starts after `maxDate`.
   */
  predicate IsMonthRun(ticks: seq<int>, k0: int, maxDate: int, offset: int)
  {
    && (forall i :: 0 <= i < |ticks| ==> ticks[i] == MonthStartMs(k0 + i, offset) && ticks[i] <= maxDate)
    && MonthStartMs(k0 + |ticks|, offset) > maxDate
  }

  /**
   * The month loop (src/components/GanttCHart.tsx:214-224): only when `validTasks`
   * is non-empty, start at the first of `minDate`'s month and step one
   * calendar month while the tick is not after `maxDate`.
   */
  method MonthTicks(tasks: seq<Task>, w: Window, offset: int) returns (ticks: seq<int>)
    ensures NoSpan(tasks) ==> ticks == []
    ensures !NoSpan(tasks) ==> IsMonthRun(ticks, MonthOf(w.minDate, offset), w.maxDate, offset)
  {
    ticks := [];
    if |ValidTasks(tasks)| > 0 {
      ticks := MonthsFrom(MonthOf(w.minDate, offset), w.maxDate, offset);
    }
  }

  /** The loop itself, from month `k0` on. */
  method MonthsFrom(k0: int, maxDate: int, offset: int) returns (ticks: seq<int>)
    ensures IsMonthRun(ticks, k0, maxDate, offset)
  {
    ticks := [];
    var k := k0;
    var d := MonthStartMs(k, offset);
    while d <= maxDate
      invariant k == k0 + |ticks| && d == MonthStartMs(k, offset)
      invariant forall i :: 0 <= i < |ticks| ==> ticks[i] == MonthStartMs(k0 + i, offset) && ticks[i] <= maxDate
      decreases maxDate - d
    {
      ticks := ticks + [d];
      MonthStartMsStep(k, offset);
      k := k + 1;
      d := MonthStartMs(k, offset);
    }
  }

  /** The next month starts at least 28 days later. */
  lemma MonthStartMsStep(k: int, offset: int)
    ensures MonthStartMs(k + 1, offset) >= MonthStartMs(k, offset) + 28 * DayMs
  {
    MonthStartStep(k);
  }

  /** Month ticks strictly increase. */
  lemma MonthRunIncreasing(ticks: seq<int>, k0: int, maxDate: int, offset: int)
    requires IsMonthRun(ticks, k0, maxDate, offset)
    ensures forall i, j :: 0 <= i < j < |ticks| ==> ticks[i] < ticks[j]
  {
    forall i, j | 0 <= i < j < |ticks| ensures ticks[i] < ticks[j] {
      MonthStartMonotone(k0 + i, k0 + j);
    }
  }

  /**
   * Each month tick is the 1st of its month at local midnight, and
   * consecutive ticks lie in consecutive months.
   */
  lemma MonthRunFirsts(ticks: seq<int>, k0: int, maxDate: int, offset: int)
    requires IsMonthRun(ticks, k0, maxDate, offset)
    ensures forall i :: 0 <= i < |ticks| ==> DateOf(ticks[i], offset).day == 1
    ensures forall i :: 0 <= i < |ticks| ==> MonthOf(ticks[i], offset) == k0 + i
  {
    forall i | 0 <= i < |ticks|
      ensures DateOf(ticks[i], offset).day == 1 && MonthOf(ticks[i], offset) == k0 + i
    {
      MonthStartIsFirst(k0 + i, offset);
    }
  }

  /** The first month tick is the first of `minDate`'s month, so not after `minDate`. */
  lemma MonthRunStart(ticks: seq<int>, minDate: int, maxDate: int, offset: int)
    requires IsMonthRun(ticks, MonthOf(minDate, offset), maxDate, offset)
    ensures |ticks| > 0 ==> ticks[0] <= minDate
  {
    MonthOfBrackets(minDate, offset);
  }

  /** When the window is ordered, there is at least one month tick. */
  lemma MonthRunNonEmpty(ticks: seq<int>, minDate: int, maxDate: int, offset: int)
    requires IsMonthRun(ticks, MonthOf(minDate, offset), maxDate, offset)
    requires minDate <= maxDate
    ensures |ticks| > 0
  {
    MonthOfBrackets(minDate, offset);
  }

  // ---------------------------------------------------------------------
  // Week ticks

  /** `minDate` moved back to the Sunday on or before it, keeping its time of day. */
  function WeekStart(minDate: int, offset: int): int
  {
    minDate - Weekday(LocalDay(minDate, offset)) * DayMs
  }

  /** `ticks` are `w0`, `w0` + 7 days, ..., as long as they are not after `maxDate`. */
  predicate IsWeekRun(ticks: seq<int>, w0: int, maxDate: int)
  {
    && (forall i :: 0 <= i < |ticks| ==> ticks[i] == w0 + i * WeekMs && ticks[i] <= maxDate)
    && w0 + |ticks| * WeekMs > maxDate
  }

  /**
   * The week loop (src/components/GanttCHart.tsx:226-238): only when `validTasks`
   * is non-empty, start at the Sunday on or before `minDate` and step
   * seven days while the tick is not after `maxDate`.
   */
  method WeekTicks(tasks: seq<Task>, w: Window, offset: int) returns (ticks: seq<int>)
    ensures NoSpan(tasks) ==> ticks == []
    ensures !NoSpan(tasks) ==> IsWeekRun(ticks, WeekStart(w.minDate, offset), w.maxDate)
  {
    ticks := [];
    if |ValidTasks(tasks)| > 0 {
      var w0 := WeekStart(w.minDate, offset);
      var d := w0;
      while d <= w.maxDate
        invariant d == w0 + |ticks| * WeekMs
        invariant forall i :: 0 <= i < |ticks| ==> ticks[i] == w0 + i * WeekMs && ticks[i] <= w.maxDate
        decreases w.maxDate - d
      {
        ticks := ticks + [d];
        d := d + WeekMs;
      }
    }
  }

  /**
   * Every week tick falls on a (local) Sunday, and the first one lies in
   * the seven days up to and including `minDate`.
   */
  lemma WeekRunSundays(ticks: seq<int>, minDate: int, maxDate: int, offset: int)
    requires IsWeekRun(ticks, WeekStart(minDate, offset), maxDate)
    ensures forall i :: 0 <= i < |ticks| ==> Weekday(LocalDay(ticks[i], offset)) == 0
    ensures WeekStart(minDate, offset) <= minDate < WeekStart(minDate, offset) + WeekMs
  {
    var day := LocalDay(minDate, offset);
    var wd := Weekday(day);
    forall i | 0 <= i < |ticks| ensures Weekday(LocalDay(ticks[i], offset)) == 0 {
      assert ticks[i] == minDate + (7 * i - wd) * DayMs;
      LocalDayShift(minDate, 7 * i - wd, offset);
      assert (day + 4) == 7 * ((day + 4) / 7) + wd;
      assert LocalDay(ticks[i], offset) + 4 == 7 * ((day + 4) / 7 + i);
    }
  }
}
