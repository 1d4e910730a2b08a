# Gantt chart visual — verified model

This project models the core of a Power BI custom visual that draws a Gantt
chart. The model covers two parts of the visual.

**The `update` step (`src/visual.tsx`)** turns the host's data table into task records:
- it finds each data role's column;
- it reads cells as strings, numbers or dates;
- it collects the extra ("additional") columns and the label and parent captions;
- it gives each distinct legend value a colour from an eight-entry palette, cycling in the order the values first appear.

**The chart component (`src/components/GanttCHart.tsx`)** turns the tasks into what is drawn:
- it files the tasks under the trimmed, comma-separated keys of their `group` field, in an object whose keys keep first-insertion order;
- it flattens the groups into header and item rows under the collapse map;
- it computes the time domain and the zoomed window, the layout constants and the `dateToX` scale;
- it runs the month-tick and week-tick loops;
- it computes each bar's geometry and its progress and centred labels;
- it formats the extra-column cells, reformatting ISO timestamps;
- it builds the tooltip text and the legend map;
- it has the selection and context-menu guards, and the zoom slider.

**Modelling choices:**
- Instants are whole milliseconds since the epoch.
- Local time is UTC plus a fixed offset.
- The calendar is the proleptic Gregorian one. A month is numbered `12 * year + month`, so "next month" is `+ 1`, as the `Date` constructor normalises it.
- Slider positions are whole percents.
- Pixel positions are real numbers.
- A cell is `Null`, `Undefined`, text, a number (carried as its `String(n)` text) or a boolean.
- Calls whose internals belong to the host or the browser are parameters:
  - `Number(text)`;
  - `new Date(value)`;
  - `toLocaleDateString`;
  - the current time;
  - what `host.createSelectionId` returns.

Loops that update variables are methods, each proved against a function that states its result:
- grouping;
- flattening;
- de-duplication;
- the legend scan;
- the tick loops;
- the task mapping with its colour bookkeeping.

Modules, one per file: `Base` (first-seen order, sequence helpers), `Text` (split, trim, decimal text), `Records`, `Calendar`, `Grouping`, `Timeline`, `Bars`, `Legend`, `Interaction` and `Normalize`.

The progress overlay is `max(2, (barEndX - barStartX) * progress)`: it is based on the difference `barEndX - barStartX` before the 2-pixel floor, not on the bar width.

## Model

| member | source | states |
|---|---|---|
| Base.FirstSeen | src/components/GanttCHart.tsx:165 | The keys of an object filled in order: no repeats, and exactly the values of the input. |
| Text.Split | src/components/GanttCHart.tsx:153 | `split(',')` gives at least one piece, and no piece holds the separator. |
| Text.JoinSplit | src/components/GanttCHart.tsx:153 | Joining the pieces of a split with the separator gives the original string. |
| Text.SplitJoin | src/components/GanttCHart.tsx:153 | Splitting a join of separator-free pieces gives the pieces back. |
| Text.Trim | src/components/GanttCHart.tsx:155 | `trim` cuts a white-space prefix and suffix; the result neither starts nor ends with white space. |
| Text.TrimBlankOnly | src/components/GanttCHart.tsx:155 | Only a blank string trims to "". |
| Text.TrimAllSpace | src/components/GanttCHart.tsx:155 | A blank string trims to "". |
| Text.TrimKeeps | src/components/GanttCHart.tsx:155 | A string with no white space at either end is left unchanged. |
| Text.NatToString | src/components/GanttCHart.tsx:533 | The decimal text of a natural number: digits only, no leading zero. |
| Text.NatToStringRoundTrip | src/components/GanttCHart.tsx:533 | Reading the decimal text back gives the number. |
| Text.IntToString | src/components/GanttCHart.tsx:245 | An integer's text is '-' and the decimal text of its magnitude when it is negative, the decimal text of the number otherwise; the digits read back to the magnitude. |
| Records.CellString | src/visual.tsx:84 | `getString`: null and undefined give ""; text, numbers and booleans give their `String` text. |
| Grouping.GroupKeys | src/components/GanttCHart.tsx:153-155 | Key i is piece i of the field's comma split, trimmed; there is one key per piece and none holds a comma. |
| Grouping.BlankGroupKey | src/components/GanttCHart.tsx:153-155 | A blank group field files the task under the single key "". |
| Grouping.GroupCaptions | src/components/GanttCHart.tsx:448 | Under the header caption `Caption` (`row.parent \|\| "Not Assigned"`), a task with a blank group field appears under one header, "Not Assigned"; a non-blank piece appears under its trimmed text. |
| Grouping.MembershipIn | src/components/GanttCHart.tsx:152-158 | The loop files (key, task) exactly when the task is an input that lists the key. |
| Grouping.GroupAllSpec | src/components/GanttCHart.tsx:150-161 | Of the filing object `GroupAll`: keys are the distinct filed keys in first-seen order; each key has a list of exactly its tasks, in filing order. |
| Grouping.GroupTasks | src/components/GanttCHart.tsx:150-161 | The nested grouping loop builds the object that `GroupAll` specifies. |
| Grouping.FileTask | src/components/GanttCHart.tsx:153-158 | The inner loop files one task under each of its keys, creating missing lists. |
| Grouping.TasksUnderInOrder | src/components/GanttCHart.tsx:152-157 | Each key's list holds the input tasks in input order, a task once per time it lists the key. |
| Grouping.GroupTasksComplete | src/components/GanttCHart.tsx:150-161 | A key is present iff some task lists it; a task is in a key's list iff it lists that key. |
| Grouping.Flatten | src/components/GanttCHart.tsx:164-172 | The flattening loop yields `Rows`: per group in key order, a header, then its items unless the group is collapsed. |
| Grouping.PushGroup | src/components/GanttCHart.tsx:165-171 | One group's pass appends `Block`: that group's header and, unless it is collapsed, its items. |
| Grouping.PushItems | src/components/GanttCHart.tsx:168-170 | The inner loop appends one item row per task, in list order. |
| Grouping.RowsCount | src/components/GanttCHart.tsx:164-172 | Row count = number of groups + sizes of the groups that are not collapsed. |
| Grouping.RowsHeaders | src/components/GanttCHart.tsx:164-172 | Exactly one header row per group, in key order. |
| Grouping.ItemRowIn | src/components/GanttCHart.tsx:164-172 | An item row (g, t) appears iff g is a group, not collapsed, and t is in its list. |
| Grouping.RowsFollowCollapse | src/components/GanttCHart.tsx:167 | The rows depend only on which groups are collapsed (`!== false`). |
| Grouping.TaskRowUnderEachGroup | src/components/GanttCHart.tsx:150-172 | A task listing "A, B" gets an item row under each key that is not collapsed. |
| Grouping.DedupById | src/components/GanttCHart.tsx:140-147 | The `seen`-set filter computes `Dedup`, which keeps a task iff its id has not been seen. |
| Grouping.DedupIds | src/components/GanttCHart.tsx:140-147 | De-duplication keeps every id and adds none. |
| Grouping.DedupDistinct | src/components/GanttCHart.tsx:140-147 | The kept tasks have pairwise distinct ids. |
| Grouping.DedupKeepsFirst | src/components/GanttCHart.tsx:140-147 | A task is kept iff it is the first occurrence of its id. |
| Calendar.MonthStartStep | src/components/GanttCHart.tsx:222 | In the proleptic Gregorian calendar behind `new Date(y, m, 1)` (`MonthStartDay`, counted month by month from January 1970, with `MonthLength` 28–31 days, leap Februaries included), the next month starts one month length later. |
| Calendar.MonthStartMonotone | src/components/GanttCHart.tsx:222 | Month starts strictly increase, by at least 28 days per month. |
| Calendar.MonthOfDay | src/components/GanttCHart.tsx:216 | `getFullYear`/`getMonth` of a day: the month whose range contains it. |
| Calendar.MonthUnique | src/components/GanttCHart.tsx:216 | Only one month contains a given day. |
| Calendar.LocalDayShift | src/components/GanttCHart.tsx:229 | Moving an instant by n days moves its local day number (`LocalDay`, behind `getDate`) by n. |
| Calendar.MonthOfBrackets | src/components/GanttCHart.tsx:216 | An instant lies between the first local midnight (`MonthStartMs`) of its month (`MonthOf`, i.e. `getFullYear`/`getMonth`) and the next month's. |
| Calendar.MonthStartIsFirst | src/components/GanttCHart.tsx:216 | `new Date(y, m, 1)` (`MonthStartMs`) is local day 1 of month (y, m), and reads back as that month. |
| Timeline.MinStart | src/components/GanttCHart.tsx:176 | None iff no task has both dates; otherwise the least such start, attained by a task. |
| Timeline.MaxEnd | src/components/GanttCHart.tsx:177 | None iff no task has both dates; otherwise the greatest such end, attained by a task. |
| Timeline.DomainOf | src/components/GanttCHart.tsx:175-177 | Bounds every task that has both dates and is attained by one; "now" for both ends when there is none. |
| Timeline.ValidTasks | src/components/GanttCHart.tsx:175 | `validTasks` holds exactly the tasks with both dates, and is empty iff no task has both. |
| Timeline.DomainOrdered | src/components/GanttCHart.tsx:175-177 | One task that does not end before it starts makes the domain ordered. |
| Timeline.WindowInsideDomain | src/components/GanttCHart.tsx:178-180 | For the window `VisibleWindow`, whose ends are the zoom points `ZoomPoint` (`allMin + pct/100 * totalMs`, truncated), a slider zoom gives `allMin <= minDate <= maxDate <= allMax`. |
| Timeline.FullZoomWindow | src/components/GanttCHart.tsx:178-180 | The initial zoom {0, 1} shows exactly the domain. |
| Timeline.ScaleEndpoints | src/components/GanttCHart.tsx:210-211 | `dateToX` (`DateToX`, over `LeftColWidth` = 220 + 110 per extra column and `ChartWidth` = width − leftColWidth − 32) maps minDate to the time area's left edge `leftColWidth + 16` and maxDate to its right edge `width − 16`. |
| Timeline.ScaleMonotone | src/components/GanttCHart.tsx:210-211 | With a non-negative time area, later instants are never further left. |
| Timeline.TickXsInTimeArea | src/components/GanttCHart.tsx:210-211 | Tick positions (`TickXs`) of ticks not after maxDate lie at or left of the time area's right edge; those not before minDate at or right of its left edge; an earlier first tick falls left of it. |
| Timeline.MonthTicks | src/components/GanttCHart.tsx:214-224 | Guarded by `ValidTasks` being non-empty: no ticks without a task that has both dates; otherwise the month starts from minDate's month while not after maxDate. |
| Timeline.MonthsFrom | src/components/GanttCHart.tsx:216-223 | The month loop gives consecutive month starts up to maxDate, and the next start is after maxDate. |
| Timeline.MonthStartMsStep | src/components/GanttCHart.tsx:222 | Each step of the loop advances at least 28 days, so the loop ends. |
| Timeline.MonthRunIncreasing | src/components/GanttCHart.tsx:214-224 | Month ticks strictly increase. |
| Timeline.MonthRunFirsts | src/components/GanttCHart.tsx:216-222 | Each tick is local day 1, and tick i lies in month k0 + i. |
| Timeline.MonthRunStart | src/components/GanttCHart.tsx:216 | The first tick is not after minDate. |
| Timeline.MonthRunNonEmpty | src/components/GanttCHart.tsx:215-217 | An ordered window yields at least one month tick. |
| Timeline.WeekTicks | src/components/GanttCHart.tsx:226-238 | Guarded by `ValidTasks` being non-empty: no ticks without a task that has both dates; otherwise 7-day steps from `WeekStart`, the Sunday on or before minDate, while not after maxDate. |
| Timeline.WeekRunSundays | src/components/GanttCHart.tsx:228-229 | Every week tick is a local Sunday (`Weekday`, i.e. `getDay`, is 0); the first is in the 7 days up to minDate. |
| Bars.Round | src/components/GanttCHart.tsx:245 | `Math.round`: the integer within half a unit, halves rounded up. |
| Bars.BarGeometry | src/components/GanttCHart.tsx:494-498 | Start clamped to the label column; width and progress ≥ 2; width ≥ end − start; centre = start + width/2. |
| Bars.BarFor | src/components/GanttCHart.tsx:491 | A bar is drawn iff the task has both dates. |
| Bars.InWindowInChart | src/components/GanttCHart.tsx:494-495 | An instant inside the window lands inside the time area. |
| Bars.BarInsideTimeArea | src/components/GanttCHart.tsx:494-498 | The bar of a task inside the window runs, unclamped, between `leftColWidth + 16` and `width − 16`; only a bar narrower than 2 is widened past its end. |
| Bars.ClampOnlyBeforeWindow | src/components/GanttCHart.tsx:494 | The clamp changes only bars that start before the window. |
| Bars.ProgressWithinBar | src/components/GanttCHart.tsx:496-497 | A completion in [0, 1] keeps the overlay within the bar. |
| Bars.ProgressExtremes | src/components/GanttCHart.tsx:497 | A completion of 1 fills the bar; a completion of 0 gives the 2-wide minimum. |
| Bars.CenterLabel | src/components/GanttCHart.tsx:545 | The label is shown iff the bar is wider than 75 and the label is non-empty. |
| Bars.ProgressText | src/components/GanttCHart.tsx:533 | Digits followed by '%'; "0%" for a completion ≤ 0. |
| Bars.ProgressTextValue | src/components/GanttCHart.tsx:533 | The number is the rounded percentage (0 when ≤ 0), and at most 100 for a completion ≤ 1. |
| Bars.StampText | src/components/GanttCHart.tsx:471 | A stamp's padded text matches the ISO timestamp pattern `IsIsoTimestamp` (the regular expression of line 471). |
| Bars.IsoRoundTrip | src/components/GanttCHart.tsx:471 | Every string the pattern accepts is the text of the stamp it spells. |
| Bars.CellTextAgreesWithString | src/components/GanttCHart.tsx:466-485 | A row cell shows the same text as `getString` and the tooltip, except that ISO timestamps are reformatted and booleans show nothing. |
| Bars.ExtraValue | src/components/GanttCHart.tsx:467 | A key the task lacks reads as undefined. |
| Bars.CellText | src/components/GanttCHart.tsx:466-485 | ISO text is reformatted by the locale formatter; missing values and booleans show nothing; other values show as they are. |
| Bars.TooltipLinesAppend | src/components/GanttCHart.tsx:247 | The extra-column lines `TooltipLines` of two runs of columns are the lines of each, one after the other. |
| Bars.TooltipMissingValue | src/components/GanttCHart.tsx:247 | A missing value contributes the caption only (`?? ""`). |
| Bars.LabelLine | src/components/GanttCHart.tsx:246 | The label line is present iff the label caption is non-empty. |
| Bars.TooltipColumnsAppend | src/components/GanttCHart.tsx:245-247 | More extra columns only append lines, in column order, to the tooltip `TooltipContent` (the head `TooltipHead` with its `DateText` dates, the label line, the column lines). |
| Legend.LegendValues | src/components/GanttCHart.tsx:254-255 | Exactly the non-empty legend values of the tasks. |
| Legend.LegendScanSpec | src/components/GanttCHart.tsx:253-257 | The scan `LegendScan`, one `LegendAdd` per task: entries are the distinct non-empty values in first-seen order; each colour is `LegendColor`. |
| Legend.BuildLegend | src/components/GanttCHart.tsx:253-257 | The `legendMap` loop computes that scan. |
| Legend.LegendColorFirst | src/components/GanttCHart.tsx:255 | The entry's colour is that of the first task with the value and a non-empty colour. |
| Legend.LegendColorNone | src/components/GanttCHart.tsx:255 | With no such task, the entry's colour stays "". |
| Legend.LegendFirstTaskColor | src/components/GanttCHart.tsx:255 | When every task has a colour, the entry takes the first task's colour. |
| Interaction.Toggle | src/components/GanttCHart.tsx:425 | A header click flips whether the group is collapsed; other entries are unchanged. |
| Interaction.ToggleOnlyClicked | src/components/GanttCHart.tsx:425 | Only the clicked group changes between collapsed and expanded. |
| Interaction.ToggleTwiceSameRows | src/components/GanttCHart.tsx:425 | Two clicks on the same header give back the same rows. |
| Interaction.CollapseHidesItems | src/components/GanttCHart.tsx:425 | Collapsing a group removes exactly its items from the row count. |
| Interaction.ChartHeightOfRows | src/components/GanttCHart.tsx:190 | `chartHeight` (`ChartHeight`) is 28 per group header and per item of an expanded group, plus 16. |
| Interaction.CollapseShrinksChart | src/components/GanttCHart.tsx:425 | Collapsing a group shortens the chart by 28 per item of the group. |
| Interaction.ExpandedSizeToggle | src/components/GanttCHart.tsx:425 | Collapsing g lowers the expanded size by g's list size. |
| Interaction.BarClick | src/components/GanttCHart.tsx:291-296 | Selects `[identity]`, not multi-select, iff there are a manager, a host and an identity. |
| Interaction.BarContextMenu | src/components/GanttCHart.tsx:297-306 | Default prevented iff there are a manager and a host; the menu is launched iff the host also creates an id and can launch it. |
| Interaction.ContextMenuIgnoresTask | src/components/GanttCHart.tsx:297-306 | The context menu does not depend on which bar was clicked. |
| Interaction.OnSlide | src/components/GanttCHart.tsx:572-578 | A two-handle value becomes the zoom, read back by the slider's `value` (`SliderValue`); a single value is ignored. |
| Interaction.SlideKeepsWindowInDomain | src/components/GanttCHart.tsx:568-579 | Slider values in 0..100 that do not cross keep the window inside the domain. |
| Normalize.ColumnIndex | src/visual.tsx:69-70 | `findIndex`: the least index with the role, −1 iff there is none; `RolesOf` holds the eight lookups of src/visual.tsx:72-79. |
| Normalize.CellAt | src/visual.tsx:124-137 | `row[idx]`: outside the row, including −1, is undefined. |
| Normalize.GetNumber | src/visual.tsx:86-89 | `Number(v)` with NaN read as 0: null and undefined give 0; booleans give 1 or 0. |
| Normalize.GetDate | src/visual.tsx:91-99 | Falsy values (`Falsy`) and booleans give no date; text and numbers give the parsed date. |
| Normalize.AdditionalColumnsSpec | src/visual.tsx:109-111 | The extra columns `AdditionalColumns` are the role's columns in order, with key, caption, index and format carried over. |
| Normalize.ColumnsWithRoleSpec | src/visual.tsx:110 | A column is in the filtered list iff it has the role. |
| Normalize.RoleCaption | src/visual.tsx:112-113 | The role column's display name, or the fallback when the role is absent; `LabelDisplayName` and `LabelParentName` are this caption for the label and parent roles. |
| Normalize.CaptionDefaults | src/visual.tsx:112-113 | Without label or parent columns the captions are "Label" and "Parent". |
| Normalize.PaletteColor | src/visual.tsx:102-104 | Every colour is a non-empty palette entry. |
| Normalize.ExtraFieldsSpec | src/visual.tsx:136-138 | In `ExtraFields`, each column key holds the cell at the last column with that key. |
| Normalize.ExtraFieldsKeys | src/visual.tsx:136-138 | The extra fields hold exactly the columns' keys. |
| Normalize.TaskFallbacks | src/visual.tsx:123-135 | Field fallbacks: owner = legend value; group ""; name = id; progress 0; label "". |
| Normalize.BuildTasks | src/visual.tsx:116-140 | One task per row, each pass (`MapRow`) giving the task literal `TaskOf` over the column positions `RolesOf`; the colour is the palette entry of the value's first-seen rank; equal values get equal colours; "" gets the default. |
| Normalize.RowColor | src/visual.tsx:117-121 | One row's colour bookkeeping gives the colour its value has over all rows. |
| Normalize.AssignColor | src/visual.tsx:118-121 | A new non-empty value takes the entry at the counter modulo 8 and the counter advances. |
| Normalize.BuildTask | src/visual.tsx:123-138 | One row's task literal `TaskOf` (legend value `LegendValueOf`, identity `IdentityAt`) with its extra fields `ExtraFields`. |
| Normalize.WriteExtras | src/visual.tsx:136-138 | The extra-field loop writes the fields that `ExtraFields` specifies. |
| Normalize.ExpectedColors | src/visual.tsx:116-131 | In the task list, colour depends only on the legend value, and "" gets the default. |
| Normalize.KthDistinctColor | src/visual.tsx:118-120 | The k-th distinct value gets palette entry k mod 8. |
| Normalize.FirstEightDistinct | src/visual.tsx:102-120 | The first eight distinct values get eight different colours. |

## Left out

- Rendering is not modelled: React, SVG, styles, icons, the tooltip's position state and the legend layout by `legendPosition` and font size (the markup of src/components/GanttCHart.tsx:263-288 and 308-606). The expressions inside that markup that the rows above cite are modelled: the header toggle (425), the captions (448), the cell text (466-485), the bar geometry (491-498), the progress text (533), the centred label (545) and the slider handler (568-579).
- The item caption `row.task.name || "Not Assigned"` (src/components/GanttCHart.tsx:464) and its red colour are display text and are left out. Without an item-name column a task's name is its item text (`Normalize.TaskFallbacks`); with one, a blank name cell gives an empty name, which the source shows as "Not Assigned" and the model does not cover.
- `Timeline.BodyHeight` (`chartBodyHeight`, src/components/GanttCHart.tsx:195-199) only sizes the scrollable container; no property is stated about it. The SVG width `max(width, chartWidth + leftColWidth + 32)` is not modelled.
- The slider's `handleRender` (src/components/GanttCHart.tsx:580-596) only draws date captions, so it is left out.
- Console logging is left out.
- Locale-dependent text comes in as parameters:
  - `toLocaleDateString` and `toLocaleString`;
  - the month and week tick captions.
- Ticks are modelled as instants and their x positions as `TickXs`; tick captions are left out. The bar's vertical placement (`barHeight` and `barYOffset`, src/components/GanttCHart.tsx:185 and 207) is not modelled.
- Time zones are a fixed offset from UTC. Daylight-saving changes are not modelled.
- The `Date` constructor's mapping of years 0–99 to 1900–1999 is not modelled.
- The current time is one parameter `now`. The source reads `new Date()` four separate times (src/components/GanttCHart.tsx:176, 177, 260 and 347: the empty domain's two ends, `todayX`, and the today caption); the model folds only the two reads at 176-177, the empty domain's ends, into that one instant. `todayX` (line 261) is left out with the markup that uses it (lines 332-341 and 400): it would be `DateToX` at the current time, but with no valid task the window is `[now, now]`, exactly the single-instant window that `Timeline.DateToX` excludes. The fourth read only feeds the today caption's `toLocaleDateString()`, which is left out with the other locale captions.
- Numbers are exact reals and integers, not IEEE doubles. Zoom fractions are whole percents over 100. Truncation to whole milliseconds is explicit (`Trunc100`).
- `Number(text)` and `new Date(value)` on a cell are parameters of `Normalize.Readers`.
- The model's `Cell` has no `Date` variant, so Date-valued cells are out of scope: `getDate`'s `instanceof Date` branch (src/visual.tsx:93), `getString` on a Date (src/visual.tsx:84), the cell text of an item row (src/components/GanttCHart.tsx:466-485) and the tooltip's `${task[col.key] ?? ""}` (src/components/GanttCHart.tsx:247) would each handle one.
- Object keys that clash with `Object.prototype` members (such as "constructor") are not modelled. Nor is the engine's ordering of integer-like keys ahead of the others. Key order is first-insertion order throughout.
- `select` and `launchContextMenu` are asynchronous host calls. The model stops at which call is made with which arguments.
- `legendValueIdx` and `additionalColumnsIdx` are computed by the visual but never used, so they are left out.
- An extra-column key equal to a core task field (such as "id") would overwrite that field. The model keeps extra fields in a separate map.
- Timeline.DateToX: requires `maxDate > minDate`. The source divides by zero when the window is a single instant, and the NaN positions that result are not modelled. The requires also excludes a reversed window (`maxDate < minDate`), which arises when the latest end precedes the earliest start (one task starting at 10 and ending at 5 gives allMin 10 and allMax 5): `validTasks` keeps such tasks and `dateToX` maps them without error, drawing mirrored positions, which the model does not cover. `DomainOf` still carries such a domain; only `DomainOrdered` and `WindowInsideDomain` assume an ordered one.
- Bars.ProgressText: for a completion above 0 that rounds to 0, the text is "0%". This follows from `Math.round` and is not singled out.
- Calendar.DateOf: only bounds the month and day. That ticks fall on the 1st is stated by `Calendar.MonthStartIsFirst`.
- The de-duplicated list (`dedupedTasks`) is not used by the chart. Grouping and the legend scan all tasks, as the source does.
