/**
 * What the chart computes for each item row (src/components/GanttCHart.tsx
 * 240-249, 454-547): the bar geometry, the progress and centred labels, the
 * text of the extra-column cells with the ISO-timestamp reformat, the row
 * captions and the tooltip text.
 */
module Bars {
  import opened Base
  import opened Text
  import opened Records
  import opened Timeline

  function Max(a: real, b: real): (r: real)
    ensures r >= a && r >= b && (r == a || r == b)
  {
    if a >= b then a else b
  }

  /** `Math.round`: the nearest integer, halves rounded up. */
  function Round(x: real): (n: int)
    ensures n as real - 0.5 <= x < n as real + 0.5
  {
    (x + 0.5).Floor
  }

  // ---------------------------------------------------------------------
  // Bar geometry

  /** The computed bar: clamped start, end, width, progress width and centre. */
  datatype Bar = Bar(startX: real, endX: real, width: real, progressWidth: real, centerX: real)

  /**
   * The bar of a task running from `start` to `end` with completion
   * `progress` (src/components/GanttCHart.tsx:494-498): the start is clamped
   * to the right edge of the label column, and the bar and its progress
   * overlay are at least 2 wide.
   */
  function BarGeometry(s: Scale, start: int, end: int, progress: real): (b: Bar)
    requires PositiveSpan(s)
    ensures b.startX >= LeftColWidth(s.extraCount)
    ensures b.startX == Max(DateToX(s, start), LeftColWidth(s.extraCount)) && b.endX == DateToX(s, end)
    ensures b.width >= 2.0 && b.width >= b.endX - b.startX
    ensures b.progressWidth >= 2.0
    ensures b.centerX == b.startX + b.width / 2.0
  {
    var startX := Max(DateToX(s, start), LeftColWidth(s.extraCount));
    var endX := DateToX(s, end);
    var width := Max(2.0, endX - startX);
    Bar(startX, endX, width, Max(2.0, (endX - startX) * progress), startX + width / 2.0)
  }

  /** A bar is drawn exactly for the tasks that have both a start and an end. */
  function BarFor(s: Scale, t: Task): (b: Option<Bar>)
    requires PositiveSpan(s)
    ensures b.Some? <==> HasSpan(t)
    ensures b.Some? ==> b.value == BarGeometry(s, t.start.value, t.end.value, t.progress)
  {
    if t.start.Some? && t.end.Some? then Some(BarGeometry(s, t.start.value, t.end.value, t.progress))
    else None
  }

  /**
   * An instant inside the window lands inside the time area, between the
   * left padding and the right padding.
   */
  lemma InWindowInChart(s: Scale, t: int)
    requires PositiveSpan(s) && ChartWidth(s.width, s.extraCount) >= 0.0
    requires s.window.minDate <= t <= s.window.maxDate
    ensures LeftColWidth(s.extraCount) + PaddingLeft <= DateToX(s, t) <= s.width - PaddingRight
  {
    ScaleEndpoints(s);
    ScaleMonotone(s, s.window.minDate, t);
    ScaleMonotone(s, t, s.window.maxDate);
  }

  /**
   * The clamp only acts on bars that start before the window: a start
   * inside or after the window keeps its own position.
   */
  lemma ClampOnlyBeforeWindow(s: Scale, start: int, end: int, progress: real)
    requires PositiveSpan(s) && ChartWidth(s.width, s.extraCount) >= 0.0
    requires s.window.minDate <= start
    ensures BarGeometry(s, start, end, progress).startX == DateToX(s, start)
  {
    ScaleEndpoints(s);
    ScaleMonotone(s, s.window.minDate, start);
  }

  /**
   * The bar of a task that lies within the window lies within the time
   * area: it starts at or right of the left padding, unclamped, and ends at
   * or left of the right padding; only a bar narrower than the 2-wide
   * minimum is widened past its end.
   */
  lemma BarInsideTimeArea(s: Scale, start: int, end: int, progress: real)
    requires PositiveSpan(s) && ChartWidth(s.width, s.extraCount) >= 0.0
    requires s.window.minDate <= start <= end <= s.window.maxDate
    ensures var b := BarGeometry(s, start, end, progress);
            && LeftColWidth(s.extraCount) + PaddingLeft <= b.startX <= b.endX <= s.width - PaddingRight
            && (b.endX - b.startX >= 2.0 ==> b.startX + b.width == b.endX)
  {
    ClampOnlyBeforeWindow(s, start, end, progress);
    InWindowInChart(s, start);
    InWindowInChart(s, end);
    ScaleMonotone(s, start, end);
  }

  /** A completion between 0 and 1 keeps the progress overlay within the bar. */
  lemma ProgressWithinBar(s: Scale, start: int, end: int, progress: real)
    requires PositiveSpan(s)
    requires 0.0 <= progress <= 1.0
    ensures BarGeometry(s, start, end, progress).progressWidth <= BarGeometry(s, start, end, progress).width
  {
    var b := BarGeometry(s, start, end, progress);
    var d := b.endX - b.startX;
    assert b.progressWidth == Max(2.0, d * progress) && b.width == Max(2.0, d);
    if d >= 0.0 {
      assert d - d * progress == d * (1.0 - progress);
      MulNonNegative(d, 1.0 - progress);
    } else {
      assert d * progress == -((-d) * progress);
      MulNonNegative(-d, progress);
    }
  }

  lemma MulNonNegative(x: real, y: real)
    requires x >= 0.0 && y >= 0.0
    ensures x * y >= 0.0
  {
  }

  /** A finished task's overlay covers the whole bar; an unstarted one is the 2-wide minimum. */
  lemma ProgressExtremes(s: Scale, start: int, end: int)
    requires PositiveSpan(s)
    ensures BarGeometry(s, start, end, 1.0).progressWidth == BarGeometry(s, start, end, 1.0).width
    ensures BarGeometry(s, start, end, 0.0).progressWidth == 2.0
  {
  }

  // ---------------------------------------------------------------------
  // Labels inside the bar

  /** The label drawn centred in the bar (src/components/GanttCHart.tsx:545). */
  function CenterLabel(b: Bar, text: string): (r: string)
    ensures r == "" || r == text
    ensures r != "" <==> b.width > 75.0 && text != ""
  {
    if b.width > 75.0 then text else ""
  }

  /**
   * The progress text in the bar (src/components/GanttCHart.tsx:533): a
   * decimal number followed by '%'.
   */
  function ProgressText(progress: real): (r: string)
    ensures |r| >= 2 && r[|r| - 1] == '%'
    ensures forall i :: 0 <= i < |r| - 1 ==> IsDigit(r[i])
    ensures progress <= 0.0 ==> r == "0%"
  {
    if progress > 0.0 then NatToString(Round(progress * 100.0)) + "%" else "0%"
  }

  /**
   * The number in the progress text is 0 for a non-positive completion and
   * the completion in whole percents, rounded half up, otherwise; for a
   * completion in [0, 1] it is at most 100.
   */
  lemma ProgressTextValue(progress: real)
    ensures DigitsValue(ProgressText(progress)[..|ProgressText(progress)| - 1])
            == (if progress > 0.0 then Round(progress * 100.0) else 0)
    ensures progress <= 1.0 ==> DigitsValue(ProgressText(progress)[..|ProgressText(progress)| - 1]) <= 100
  {
    var r := ProgressText(progress);
    if progress > 0.0 {
      var n := Round(progress * 100.0);
      assert r[..|r| - 1] == NatToString(n);
      NatToStringRoundTrip(n);
    } else {
      assert r[..|r| - 1] == "0";
    }
  }

  // ---------------------------------------------------------------------
  // ISO timestamps in extra columns

  /**
   * The pattern `^\d{4}-\d{2}-\d{2}T\d{2}:\d{2}:\d{2}\.\d{3}Z$`
   * (src/components/GanttCHart.tsx:471), `\d` being the ASCII digits.
   */
  predicate IsIsoTimestamp(s: string)
  {
    && |s| == 24
    && DigitsAt(s, 0, 4) && s[4] == '-' && DigitsAt(s, 5, 7) && s[7] == '-' && DigitsAt(s, 8, 10)
    && s[10] == 'T' && DigitsAt(s, 11, 13) && s[13] == ':' && DigitsAt(s, 14, 16) && s[16] == ':'
    && DigitsAt(s, 17, 19) && s[19] == '.' && DigitsAt(s, 20, 23) && s[23] == 'Z'
  }

  /** `s[lo..hi]` is a run of ASCII digits. */
  predicate DigitsAt(s: string, lo: int, hi: int)
    requires 0 <= lo <= hi <= |s|
  {
    forall i :: lo <= i < hi ==> IsDigit(s[i])
  }

  lemma RunDigits(s: string, lo: int, hi: int)
    requires 0 <= lo <= hi <= |s| && DigitsAt(s, lo, hi)
    ensures forall i :: 0 <= i < |s[lo..hi]| ==> IsDigit(s[lo..hi][i])
  {
    assert forall i :: 0 <= i < |s[lo..hi]| ==> s[lo..hi][i] == s[lo + i];
  }

  /** A digit run is the padded text of its value. */
  lemma RunPadded(s: string, lo: int, hi: int)
    requires 0 <= lo <= hi <= |s| && DigitsAt(s, lo, hi)
    ensures forall i :: 0 <= i < |s[lo..hi]| ==> IsDigit(s[lo..hi][i])
    ensures Padded(DigitsValue(s[lo..hi]), hi - lo) == s[lo..hi]
  {
    RunDigits(s, lo, hi);
    PaddedDigits(s[lo..hi]);
  }

  /** The `w` low decimal digits of `n`, zero-padded. */
  function Padded(n: nat, w: nat): (r: string)
    ensures |r| == w && forall i :: 0 <= i < w ==> IsDigit(r[i])
  {
    if w == 0 then "" else Padded(n / 10, w - 1) + [DigitChar(n % 10)]
  }

  /** A digit string is the padded text of its own value. */
  lemma {:induction false} PaddedDigits(ds: string)
    requires forall i :: 0 <= i < |ds| ==> IsDigit(ds[i])
    ensures Padded(DigitsValue(ds), |ds|) == ds
  {
    if ds != [] {
      var init := ds[..|ds| - 1];
      var last := ds[|ds| - 1] as int - '0' as int;
      PaddedDigits(init);
      assert DigitsValue(ds) / 10 == DigitsValue(init) && DigitsValue(ds) % 10 == last;
      assert DigitChar(last) == ds[|ds| - 1];
      assert ds == init + [ds[|ds| - 1]];
    }
  }

  /** The seven fields of a timestamp. */
  datatype Stamp = Stamp(year: nat, month: nat, day: nat, hour: nat, minute: nat, second: nat, milli: nat)

  /** The ISO text of a stamp, each field padded to its width. */
  function StampText(st: Stamp): (s: string)
    ensures IsIsoTimestamp(s)
  {
    Padded(st.year, 4) + "-" + Padded(st.month, 2) + "-" + Padded(st.day, 2) + "T"
      + Padded(st.hour, 2) + ":" + Padded(st.minute, 2) + ":" + Padded(st.second, 2) + "."
      + Padded(st.milli, 3) + "Z"
  }

  /** The fields a matching string spells. */
  function ParseStamp(s: string): Stamp
    requires IsIsoTimestamp(s)
  {
    RunDigits(s, 0, 4);
    RunDigits(s, 5, 7);
    RunDigits(s, 8, 10);
    RunDigits(s, 11, 13);
    RunDigits(s, 14, 16);
    RunDigits(s, 17, 19);
    RunDigits(s, 20, 23);
    Stamp(DigitsValue(s[0..4]), DigitsValue(s[5..7]), DigitsValue(s[8..10]),
          DigitsValue(s[11..13]), DigitsValue(s[14..16]), DigitsValue(s[17..19]),
          DigitsValue(s[20..23]))
  }

  /**
   * Every string the pattern accepts is the text of the stamp it spells, so
   * the pattern accepts exactly the texts of stamps whose fields fit their
   * widths.
   */
  lemma IsoRoundTrip(s: string)
    requires IsIsoTimestamp(s)
    ensures StampText(ParseStamp(s)) == s
  {
    RunPadded(s, 0, 4);
    RunPadded(s, 5, 7);
    RunPadded(s, 8, 10);
    RunPadded(s, 11, 13);
    RunPadded(s, 14, 16);
    RunPadded(s, 17, 19);
    RunPadded(s, 20, 23);
    StampTextOf(ParseStamp(s), s[0..4], s[5..7], s[8..10], s[11..13], s[14..16], s[17..19], s[20..23]);
    IsoSlices(s);
  }

  /** The text of a stamp whose padded fields are known. */
  lemma StampTextOf(st: Stamp, y: string, mo: string, d: string, h: string, mi: string, sec: string, ms: string)
    requires Padded(st.year, 4) == y && Padded(st.month, 2) == mo && Padded(st.day, 2) == d
    requires Padded(st.hour, 2) == h && Padded(st.minute, 2) == mi && Padded(st.second, 2) == sec
    requires Padded(st.milli, 3) == ms
    ensures StampText(st) == y + "-" + mo + "-" + d + "T" + h + ":" + mi + ":" + sec + "." + ms + "Z"
  {
  }

  /** A matching string is its seven digit runs with the fixed punctuation between them. */
  lemma IsoSlices(s: string)
    requires |s| == 24 && s[4] == '-' && s[7] == '-' && s[10] == 'T' && s[13] == ':'
    requires s[16] == ':' && s[19] == '.' && s[23] == 'Z'
    ensures s == s[0..4] + "-" + s[5..7] + "-" + s[8..10] + "T" + s[11..13] + ":" + s[14..16] + ":"
                 + s[17..19] + "." + s[20..23] + "Z"
  {
    GlueChar(s, 4);
    Glue(s, 0, 5, 7);
    GlueChar(s, 7);
    Glue(s, 0, 8, 10);
    GlueChar(s, 10);
    Glue(s, 0, 11, 13);
    GlueChar(s, 13);
    Glue(s, 0, 14, 16);
    GlueChar(s, 16);
    Glue(s, 0, 17, 19);
    GlueChar(s, 19);
    Glue(s, 0, 20, 23);
    GlueChar(s, 23);
    assert s[0..24] == s;
  }

  lemma GlueChar(s: string, k: int)
    requires 0 <= k < |s|
    ensures s[0..k] + [s[k]] == s[0..k + 1]
  {
  }

  lemma Glue(s: string, i: int, j: int, k: int)
    requires 0 <= i <= j <= k <= |s|
    ensures s[i..j] + s[j..k] == s[i..k]
  {
  }

  // ---------------------------------------------------------------------
  // Cell and caption text

  /**
   * An item row shows the same text for a cell as the tooltip's `${v ?? ""}`
   * and `getString` do, except that an ISO timestamp is reformatted and a
   * boolean is drawn as nothing.
   */
  lemma CellTextAgreesWithString(c: Cell, localDate: string -> string)
    ensures !c.Boolean? && !(c.Text? && IsIsoTimestamp(c.s)) ==> CellText(c, localDate) == CellString(c)
    ensures c.Boolean? ==> CellText(c, localDate) == "" != CellString(c)
  {
  }

  /** The value of extra column `key` on a task; a key it lacks reads as undefined. */
  function ExtraValue(t: Task, key: string): (c: Cell)
    ensures key !in t.extra ==> c == Undefined
  {
    if key in t.extra then t.extra[key] else Undefined
  }

  /**
   * The text of an extra-column cell in an item row
   * (src/components/GanttCHart.tsx:466-484): an ISO timestamp string is
   * reformatted by the locale date formatter `localDate`; a missing value
   * (`?? ""`) and a boolean (which the renderer draws as nothing) show as
   * empty; other text and numbers show as they are.
   */
  function CellText(c: Cell, localDate: string -> string): (r: string)
    ensures c.Null? || c.Undefined? || c.Boolean? ==> r == ""
    ensures c.Text? ==> r == (if IsIsoTimestamp(c.s) then localDate(c.s) else c.s)
    ensures c.Number? ==> r == c.shown
  {
    match c
    case Null => ""
    case Undefined => ""
    case Boolean(_) => ""
    case Text(s) => if IsIsoTimestamp(s) then localDate(s) else s
    case Number(shown) => shown
  }

  // ---------------------------------------------------------------------
  // Tooltip

  /** `d?.toLocaleDateString()` in a template: "undefined" when there is no date. */
  function DateText(d: Option<int>, localDate: int -> string): string
  {
    if d.Some? then localDate(d.value) else "undefined"
  }

  /** One extra column's line in the tooltip. */
  function TooltipLine(col: ExtraColumn, t: Task): string
  {
    "<br/><b>" + col.displayName + ":</b> " + CellString(ExtraValue(t, col.key))
  }

  /** The extra columns' lines, in column order (`map(...).join("")`). */
  function TooltipLines(cols: seq<ExtraColumn>, t: Task): (r: string)
    ensures cols == [] ==> r == ""
  {
    if cols == [] then "" else TooltipLines(cols[..|cols| - 1], t) + TooltipLine(cols[|cols| - 1], t)
  }

  /** The lines of two runs of columns are the lines of each, one after the other. */
  lemma {:induction false} TooltipLinesAppend(a: seq<ExtraColumn>, b: seq<ExtraColumn>, t: Task)
    ensures TooltipLines(a + b, t) == TooltipLines(a, t) + TooltipLines(b, t)
    decreases |b|
  {
    if b == [] {
      assert a + b == a;
    } else {
      var init, last := b[..|b| - 1], b[|b| - 1];
      TooltipLinesAppend(a, init, t);
      AppendInit(a, b);
      AppendAssoc(TooltipLines(a, t), TooltipLines(init, t), TooltipLine(last, t));
    }
  }

  /** A column whose value is missing contributes its caption and nothing after it. */
  lemma TooltipMissingValue(col: ExtraColumn, t: Task)
    requires col.key !in t.extra || t.extra[col.key].Null? || t.extra[col.key].Undefined?
    ensures TooltipLine(col, t) == "<br/><b>" + col.displayName + ":</b> "
  {
  }

  /** The label line: present exactly when the label's display name is non-empty. */
  function LabelLine(labelName: string, text: string): (r: string)
    ensures r == "" <==> labelName == ""
    ensures labelName != "" ==> r == "<br/>" + labelName + ": " + text + "<br/>"
  {
    if labelName != "" then "<br/>" + labelName + ": " + text + "<br/>" else ""
  }

  /** The fixed first part of the tooltip. */
  function TooltipHead(t: Task, parentName: string, localDate: int -> string): string
  {
    "<b>" + t.name + "</b><br/>" + parentName + ": " + t.group
      + "<br/>Start: " + DateText(t.start, localDate) + "<br/>End: " + DateText(t.end, localDate)
      + "<br/>Progress: " + IntToString(Round(t.progress * 100.0)) + "%"
  }

  /**
   * The tooltip text of a bar (src/components/GanttCHart.tsx:241-249): the
   * name, group, dates and rounded progress; the label line; then one line
   * per extra column.
   */
  function TooltipContent(t: Task, parentName: string, labelName: string, cols: seq<ExtraColumn>,
                          localDate: int -> string): string
  {
    TooltipHead(t, parentName, localDate) + LabelLine(labelName, t.labelText) + TooltipLines(cols, t)
  }

  /**
   * More extra columns only add lines at the end of the tooltip: the
   * tooltip for columns `a + b` is the tooltip for `a` followed by the lines
   * of `b`, in order.
   */
  lemma TooltipColumnsAppend(t: Task, parentName: string, labelName: string, a: seq<ExtraColumn>,
                             b: seq<ExtraColumn>, localDate: int -> string)
    ensures TooltipContent(t, parentName, labelName, a + b, localDate)
            == TooltipContent(t, parentName, labelName, a, localDate) + TooltipLines(b, t)
  {
    var head := TooltipHead(t, parentName, localDate) + LabelLine(labelName, t.labelText);
    TooltipLinesAppend(a, b, t);
    AppendAssoc(head, TooltipLines(a, t), TooltipLines(b, t));
  }
}
