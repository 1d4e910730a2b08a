/**
 * The visual's `update` step that turns the host's table into the chart's
 * inputs (src/visual.tsx:68-140): role lookup, cell readers, the extra
 * columns, the header captions, and the task records with their legend
 * colours assigned round-robin from a fixed palette.
 */
module Normalize {
  import opened Base
  import opened Records

  // ---------------------------------------------------------------------
  // Columns and roles

  /** A table column: the roles it fills, its query and display names, position and format. */
  datatype Column = Column(roles: map<string, bool>, queryName: string, displayName: string,
                           index: int, format: Option<string>)

  /** `col.roles && col.roles[role]`: the role is present and set. */
  predicate HasRole(c: Column, role: string)
  {
    role in c.roles && c.roles[role]
  }

  /**
   * `getColumnIndex` (src/visual.tsx:69-70): the least index of a column
   * with the role, or -1 when no column has it.
   */
  function ColumnIndex(columns: seq<Column>, role: string): (k: int)
    ensures -1 <= k < |columns|
    ensures k == -1 <==> forall j :: 0 <= j < |columns| ==> !HasRole(columns[j], role)
    ensures k >= 0 ==> HasRole(columns[k], role) && forall j :: 0 <= j < k ==> !HasRole(columns[j], role)
  {
    if columns == [] then -1
    else if HasRole(columns[0], role) then 0
    else
      var r := ColumnIndex(columns[1..], role);
      assert forall j :: 1 <= j < |columns| ==> columns[j] == columns[1..][j - 1];
      if r == -1 then -1 else r + 1
  }

  /** The column positions of the roles the tasks are built from. */
  datatype RoleIndices = RoleIndices(itemIdx: int, parentIdx: int, itemNameIdx: int, startIdx: int,
                                     endIdx: int, progressIdx: int, legendIdx: int, labelIdx: int)

  /**
   * The eight `getColumnIndex` lookups of the update step
   * (src/visual.tsx:72-79), each -1 when the role has no column.
   */
  function RolesOf(columns: seq<Column>): RoleIndices
  {
    RoleIndices(ColumnIndex(columns, "item"), ColumnIndex(columns, "parent"),
                ColumnIndex(columns, "itemName"), ColumnIndex(columns, "startDate"),
                ColumnIndex(columns, "endDate"), ColumnIndex(columns, "progress"),
                ColumnIndex(columns, "legend"), ColumnIndex(columns, "label"))
  }

  /** `row[idx]`: a position outside the row (including -1) reads as undefined. */
  function CellAt(row: seq<Cell>, idx: int): (c: Cell)
    ensures 0 <= idx < |row| ==> c == row[idx]
    ensures !(0 <= idx < |row|) ==> c == Undefined
  {
    if 0 <= idx < |row| then row[idx] else Undefined
  }

  // ---------------------------------------------------------------------
  // Cell readers

  /**
   * `getNumber` (src/visual.tsx:86-89): `Number(v)`, with NaN read as 0.
   * `parseNumber` stands for `Number` on text (None for NaN).
   */
  function GetNumber(c: Cell, parseNumber: string -> Option<real>): (r: real)
    ensures c.Null? || c.Undefined? ==> r == 0.0
    ensures c.Boolean? ==> r == (if c.b then 1.0 else 0.0)
    ensures c.Text? ==> r == (if parseNumber(c.s).Some? then parseNumber(c.s).value else 0.0)
    ensures c.Number? ==> r == (if parseNumber(c.shown).Some? then parseNumber(c.shown).value else 0.0)
  {
    match c
    case Null => 0.0
    case Undefined => 0.0
    case Boolean(b) => if b then 1.0 else 0.0
    case Text(s) => if parseNumber(s).Some? then parseNumber(s).value else 0.0
    case Number(shown) => if parseNumber(shown).Some? then parseNumber(shown).value else 0.0
  }

  /** The JavaScript falsy cell values: null, undefined, false, "", 0 and NaN. */
  predicate Falsy(c: Cell)
  {
    c.Null? || c.Undefined? || c == Boolean(false) || c == Text("")
    || c == Number("0") || c == Number("NaN")
  }

  /**
   * `getDate` (src/visual.tsx:91-99): no date for a falsy value or a
   * boolean; for text and numbers, what `new Date(v)` gives, None when that
   * is an invalid date. `parseDate` stands for `new Date` on a value's text.
   */
  function GetDate(c: Cell, parseDate: Cell -> Option<int>): (r: Option<int>)
    ensures Falsy(c) || c.Boolean? ==> r == None
    ensures !Falsy(c) && (c.Text? || c.Number?) ==> r == parseDate(c)
  {
    if Falsy(c) then None
    else if c.Text? || c.Number? then parseDate(c)
    else None
  }

  // ---------------------------------------------------------------------
  // Extra columns and captions

  /** The columns with the extra-column role, in column order, as descriptors. */
  function AdditionalColumns(columns: seq<Column>): (r: seq<ExtraColumn>)
    ensures |r| <= |columns|
  {
    if columns == [] then []
    else
      var c := columns[|columns| - 1];
      var d := AdditionalColumns(columns[..|columns| - 1]);
      if HasRole(c, "additionalColumns") then d + [ExtraColumn(c.queryName, c.displayName, c.index, c.format)]
      else d
  }

  /** The role's columns, in column order. */
  function ColumnsWithRole(columns: seq<Column>, role: string): (r: seq<Column>)
  {
    if columns == [] then []
    else
      var c := columns[|columns| - 1];
      ColumnsWithRole(columns[..|columns| - 1], role) + (if HasRole(c, role) then [c] else [])
  }

  /**
   * `additionalColumns` (src/visual.tsx:109-111) is the extra-column-role
   * sub-list of the columns in their original order, each column's query
   * name, display name, position and format carried over.
   */
  lemma {:induction false} AdditionalColumnsSpec(columns: seq<Column>)
    ensures var sub := ColumnsWithRole(columns, "additionalColumns");
            var r := AdditionalColumns(columns);
            |r| == |sub|
            && forall j :: 0 <= j < |r| ==>
                 r[j] == ExtraColumn(sub[j].queryName, sub[j].displayName, sub[j].index, sub[j].format)
  {
    if columns != [] {
      AdditionalColumnsSpec(columns[..|columns| - 1]);
    }
  }

  /** Every column of the sub-list has the role, and every column with the role is in it. */
  lemma {:induction false} ColumnsWithRoleSpec(columns: seq<Column>, role: string)
    ensures forall c :: c in ColumnsWithRole(columns, role) <==> c in columns && HasRole(c, role)
  {
    if columns != [] {
      var n := |columns| - 1;
      ColumnsWithRoleSpec(columns[..n], role);
      assert columns == columns[..n] + [columns[n]];
    }
  }

  /**
   * The display names of the label and parent columns, "Label" and "Parent"
   * when the role is absent (src/visual.tsx:112-113).
   */
  function RoleCaption(columns: seq<Column>, role: string, fallback: string): (r: string)
    ensures ColumnIndex(columns, role) == -1 ==> r == fallback
    ensures ColumnIndex(columns, role) >= 0 ==> r == columns[ColumnIndex(columns, role)].displayName
  {
    var k := ColumnIndex(columns, role);
    if k >= 0 then columns[k].displayName else fallback
  }

  function LabelDisplayName(columns: seq<Column>): string
  {
    RoleCaption(columns, "label", "Label")
  }

  function LabelParentName(columns: seq<Column>): string
  {
    RoleCaption(columns, "parent", "Parent")
  }

  /** With no label or parent column the captions are the defaults. */
  lemma CaptionDefaults(columns: seq<Column>)
    ensures (forall j :: 0 <= j < |columns| ==> !HasRole(columns[j], "label")) ==> LabelDisplayName(columns) == "Label"
    ensures (forall j :: 0 <= j < |columns| ==> !HasRole(columns[j], "parent")) ==> LabelParentName(columns) == "Parent"
  {
  }

  // ---------------------------------------------------------------------
  // Legend colours

  const Palette: seq<string> := ["#0078d4", "#e3008c", "#ffaa44", "#00b7c3", "#bad80a", "#b146c2", "#ff8c00", "#a80000"]

  /** The colour of a task without a legend value. */
  const DefaultColor: string := "#0078d4"

  /** A row's legend value: the text of its legend cell, "" without a legend column. */
  function LegendValueOf(roles: RoleIndices, row: seq<Cell>): string
  {
    if roles.legendIdx >= 0 then CellString(CellAt(row, roles.legendIdx)) else ""
  }

  /** The non-empty legend values of the rows, in row order, repeats kept. */
  function LegendValuesOf(roles: RoleIndices, rows: seq<seq<Cell>>): (r: seq<string>)
    ensures forall v :: v in r ==> v != ""
  {
    if rows == [] then []
    else
      var v := LegendValueOf(roles, rows[|rows| - 1]);
      LegendValuesOf(roles, rows[..|rows| - 1]) + (if v != "" then [v] else [])
  }

  /**
   * The colour a legend value gets: the palette entry, cycling every eight,
   * at the position of the value among the distinct values by first
   * appearance; the default colour for "".
   */
  function PaletteColor(distinct: seq<string>, v: string): (c: string)
    ensures c != ""
    ensures c in Palette
  {
    if v != "" && v in distinct then Palette[FirstIndex(distinct, v) % |Palette|] else DefaultColor
  }

  // ---------------------------------------------------------------------
  // Tasks

  /** `identities ? identities[i] : undefined`. */
  function IdentityAt(identities: Option<seq<Identity>>, i: nat): Option<Identity>
  {
    if identities.Some? && i < |identities.value| then Some(identities.value[i]) else None
  }

  /**
   * The extra fields written into a task, one per extra column in column
   * order, a later column with the same key overwriting an earlier one.
   */
  function ExtraFields(cols: seq<ExtraColumn>, row: seq<Cell>): map<string, Cell>
  {
    if cols == [] then map[]
    else
      var c := cols[|cols| - 1];
      ExtraFields(cols[..|cols| - 1], row)[c.key := CellAt(row, c.idx)]
  }

  /**
   * The extra fields hold exactly the columns' keys, each with the cell at
   * the position of the last column with that key.
   */
  lemma {:induction false} ExtraFieldsSpec(cols: seq<ExtraColumn>, row: seq<Cell>, j: nat)
    requires j < |cols|
    requires forall l :: j < l < |cols| ==> cols[l].key != cols[j].key
    ensures cols[j].key in ExtraFields(cols, row)
    ensures ExtraFields(cols, row)[cols[j].key] == CellAt(row, cols[j].idx)
  {
    var n := |cols| - 1;
    if j < n {
      ExtraFieldsSpec(cols[..n], row, j);
    }
  }

  lemma {:induction false} ExtraFieldsKeys(cols: seq<ExtraColumn>, row: seq<Cell>, k: string)
    ensures k in ExtraFields(cols, row) <==> exists j :: 0 <= j < |cols| && cols[j].key == k
  {
    if cols != [] {
      var n := |cols| - 1;
      ExtraFieldsKeys(cols[..n], row, k);
      if exists j :: 0 <= j < |cols| && cols[j].key == k {
        var j :| 0 <= j < |cols| && cols[j].key == k;
        if j < n {
          assert cols[..n][j].key == k;
        }
      }
    }
  }

  /** How the visual reads the host's cells. */
  datatype Readers = Readers(parseNumber: string -> Option<real>, parseDate: Cell -> Option<int>)

  /**
   * The task literal built for one row (src/visual.tsx:123-138), given its
   * colour and identity.
   */
  function TaskOf(roles: RoleIndices, cols: seq<ExtraColumn>, row: seq<Cell>, identity: Option<Identity>,
                  color: string, rd: Readers): Task
  {
    var legendValue := LegendValueOf(roles, row);
    Task(
      CellString(CellAt(row, roles.itemIdx)),
      if roles.parentIdx >= 0 then CellString(CellAt(row, roles.parentIdx)) else "",
      legendValue,
      if roles.itemNameIdx >= 0 then CellString(CellAt(row, roles.itemNameIdx)) else CellString(CellAt(row, roles.itemIdx)),
      GetDate(CellAt(row, roles.startIdx), rd.parseDate),
      GetDate(CellAt(row, roles.endIdx), rd.parseDate),
      if roles.progressIdx >= 0 then GetNumber(CellAt(row, roles.progressIdx), rd.parseNumber) else 0.0,
      color,
      legendValue,
      if roles.labelIdx >= 0 then CellString(CellAt(row, roles.labelIdx)) else "",
      identity,
      ExtraFields(cols, row))
  }

  /**
   * The field fallbacks (src/visual.tsx:84, 124-133): the owner is the
   * legend value; without a parent column the group is ""; without a
   * name column the name is the item text; without a progress column the
   * progress is 0; without a label column the label is ""; a missing id
   * cell reads as "".
   */
  lemma TaskFallbacks(roles: RoleIndices, cols: seq<ExtraColumn>, row: seq<Cell>,
                      identity: Option<Identity>, color: string, rd: Readers)
    ensures var t := TaskOf(roles, cols, row, identity, color, rd);
            && t.owner == t.legendValue
            && (roles.parentIdx < 0 ==> t.group == "")
            && (roles.itemNameIdx < 0 ==> t.name == t.id)
            && (roles.progressIdx < 0 ==> t.progress == 0.0)
            && (roles.labelIdx < 0 ==> t.labelText == "")
            && (roles.legendIdx < 0 ==> t.legendValue == "")
            && (!(0 <= roles.itemIdx < |row|) || row[roles.itemIdx].Null? || row[roles.itemIdx].Undefined? ==> t.id == "")
  {
  }

  /**
   * The `tasks` mapping (src/visual.tsx:105-140): one task per row, in
   * row order. A row with a non-empty legend value not seen before takes
   * the next palette entry and advances the counter; a value seen before
   * keeps its colour; an empty value gets the default colour.
   */
  method BuildTasks(columns: seq<Column>, rows: seq<seq<Cell>>, identities: Option<seq<Identity>>, rd: Readers)
    returns (tasks: seq<Task>)
    ensures |tasks| == |rows|
    ensures forall i :: 0 <= i < |rows| ==>
              tasks[i] == TaskOf(RolesOf(columns), AdditionalColumns(columns), rows[i], IdentityAt(identities, i),
                                 PaletteColor(FirstSeen(LegendValuesOf(RolesOf(columns), rows)),
                                              LegendValueOf(RolesOf(columns), rows[i])), rd)
    ensures forall i, j :: 0 <= i < |rows| && 0 <= j < |rows| && tasks[i].legendValue == tasks[j].legendValue
              ==> tasks[i].color == tasks[j].color
    ensures forall i :: 0 <= i < |rows| && tasks[i].legendValue == "" ==> tasks[i].color == DefaultColor
  {
    var roles := RolesOf(columns);
    var cols := AdditionalColumns(columns);
    ghost var expected := ExpectedTasks(roles, cols, rows, identities, rd);
    var legendColorMap: map<string, string> := map[];
    var colorIdx := 0;
    tasks := [];
    for i := 0 to |rows|
      invariant ColorsFor(legendColorMap, colorIdx, FirstSeen(LegendValuesOf(roles, rows[..i])))
      invariant tasks == expected[..i]
    {
      var task;
      legendColorMap, colorIdx, task := MapRow(legendColorMap, colorIdx, roles, cols, rows, identities, rd, i);
      PrefixSnoc(expected, i);
      tasks := tasks + [task];
    }
    assert expected[..|rows|] == expected;
    ExpectedColors(roles, cols, rows, identities, rd);
  }

  /** One pass of the mapping: row `i`'s colour bookkeeping, then its task. */
  method MapRow(m: map<string, string>, colorIdx: int, roles: RoleIndices, cols: seq<ExtraColumn>,
                rows: seq<seq<Cell>>, identities: Option<seq<Identity>>, rd: Readers, i: nat)
    returns (m': map<string, string>, colorIdx': int, task: Task)
    requires i < |rows|
    requires ColorsFor(m, colorIdx, FirstSeen(LegendValuesOf(roles, rows[..i])))
    ensures ColorsFor(m', colorIdx', FirstSeen(LegendValuesOf(roles, rows[..i + 1])))
    ensures task == ExpectedTasks(roles, cols, rows, identities, rd)[i]
  {
    var color;
    m', colorIdx', color := RowColor(m, colorIdx, roles, rows, i);
    task := BuildTask(roles, cols, rows[i], IdentityAt(identities, i), color, rd);
    ExpectedAt(roles, cols, rows, identities, rd, i);
  }

  /** The task list the mapping produces, colours taken from all rows' distinct legend values. */
  function ExpectedTasks(roles: RoleIndices, cols: seq<ExtraColumn>, rows: seq<seq<Cell>>,
                         identities: Option<seq<Identity>>, rd: Readers): (r: seq<Task>)
    ensures |r| == |rows|
  {
    var all := FirstSeen(LegendValuesOf(roles, rows));
    seq(|rows|, i requires 0 <= i < |rows| =>
      TaskOf(roles, cols, rows[i], IdentityAt(identities, i), PaletteColor(all, LegendValueOf(roles, rows[i])), rd))
  }

  lemma ExpectedAt(roles: RoleIndices, cols: seq<ExtraColumn>, rows: seq<seq<Cell>>,
                   identities: Option<seq<Identity>>, rd: Readers, i: nat)
    requires i < |rows|
    ensures ExpectedTasks(roles, cols, rows, identities, rd)[i]
            == TaskOf(roles, cols, rows[i], IdentityAt(identities, i),
                      PaletteColor(FirstSeen(LegendValuesOf(roles, rows)), LegendValueOf(roles, rows[i])), rd)
  {
  }

  /**
   * The colour of row `i` (src/visual.tsx:117-121): the legend value is read,
   * the map and counter are brought up to date, and the value's colour, or
   * the default for an empty value, is taken.
   */
  method RowColor(m: map<string, string>, colorIdx: int, roles: RoleIndices, rows: seq<seq<Cell>>, i: nat)
    returns (m': map<string, string>, colorIdx': int, color: string)
    requires i < |rows|
    requires ColorsFor(m, colorIdx, FirstSeen(LegendValuesOf(roles, rows[..i])))
    ensures ColorsFor(m', colorIdx', FirstSeen(LegendValuesOf(roles, rows[..i + 1])))
    ensures color == PaletteColor(FirstSeen(LegendValuesOf(roles, rows)), LegendValueOf(roles, rows[i]))
  {
    var row := rows[i];
    var legendValue := if roles.legendIdx >= 0 then CellString(CellAt(row, roles.legendIdx)) else "";
    assert legendValue == LegendValueOf(roles, row);
    ColorStep(roles, rows, i);
    m', colorIdx' := AssignColor(m, colorIdx, legendValue, FirstSeen(LegendValuesOf(roles, rows[..i])));
    color := if legendValue != "" then m'[legendValue] else DefaultColor;
    RowColorFinal(m', colorIdx', roles, rows, i, legendValue);
  }

  /** The colour a row takes from the updated map is its value's colour over all rows. */
  lemma RowColorFinal(m': map<string, string>, colorIdx': int, roles: RoleIndices, rows: seq<seq<Cell>>,
                      i: nat, v: string)
    requires i < |rows|
    requires ColorsFor(m', colorIdx', FirstSeen(LegendValuesOf(roles, rows[..i + 1])))
    requires v != "" ==> v in m'
    ensures v != "" ==> m'[v] == PaletteColor(FirstSeen(LegendValuesOf(roles, rows)), v)
    ensures v == "" ==> DefaultColor == PaletteColor(FirstSeen(LegendValuesOf(roles, rows)), v)
  {
    StableColor(roles, rows, i + 1, v);
  }

  /** In the produced list, colours depend on the legend value only, and "" gets the default. */
  lemma ExpectedColors(roles: RoleIndices, cols: seq<ExtraColumn>, rows: seq<seq<Cell>>,
                       identities: Option<seq<Identity>>, rd: Readers)
    ensures var ts := ExpectedTasks(roles, cols, rows, identities, rd);
            && (forall i :: 0 <= i < |rows| ==>
                  ts[i] == TaskOf(roles, cols, rows[i], IdentityAt(identities, i),
                                  PaletteColor(FirstSeen(LegendValuesOf(roles, rows)), LegendValueOf(roles, rows[i])), rd))
            && (forall i, j :: 0 <= i < |rows| && 0 <= j < |rows| && ts[i].legendValue == ts[j].legendValue
                  ==> ts[i].color == ts[j].color)
            && (forall i :: 0 <= i < |rows| && ts[i].legendValue == "" ==> ts[i].color == DefaultColor)
  {
  }

  /** One row's task literal, then its extra fields (src/visual.tsx:123-138). */
  method BuildTask(roles: RoleIndices, cols: seq<ExtraColumn>, row: seq<Cell>, identity: Option<Identity>,
                   color: string, rd: Readers) returns (task: Task)
    ensures task == TaskOf(roles, cols, row, identity, color, rd)
  {
    task := TaskOf(roles, [], row, identity, color, rd);
    var extra := WriteExtras(cols, row);
    task := task.(extra := extra);
  }

  /** The colour map and counter after the values in `seen` have been met. */
  ghost predicate ColorsFor(m: map<string, string>, colorIdx: int, seen: seq<string>)
  {
    && colorIdx == |seen|
    && NoDup(seen)
    && (forall v :: v in m <==> v in seen)
    && (forall v :: v in m ==> m[v] == PaletteColor(seen, v))
  }

  /**
   * The colour bookkeeping for one row (src/visual.tsx:117-121): a
   * non-empty value with no truthy colour yet takes the palette entry at
   * the counter, modulo 8, and the counter advances.
   */
  method AssignColor(m: map<string, string>, colorIdx: int, v: string, ghost seen: seq<string>)
    returns (m': map<string, string>, colorIdx': int)
    requires ColorsFor(m, colorIdx, seen)
    ensures ColorsFor(m', colorIdx', if v != "" && v !in seen then seen + [v] else seen)
    ensures v != "" ==> v in m'
  {
    m', colorIdx' := m, colorIdx;
    if v != "" && !(v in m && m[v] != "") {
      m' := m[v := Palette[colorIdx % |Palette|]];
      colorIdx' := colorIdx + 1;
      ghost var next := seen + [v];
      assert next[..|seen|] == seen;
      forall u | u in seen ensures FirstIndex(next, u) == FirstIndex(seen, u) {
        FirstIndexPrefix(next, |seen|, u);
      }
      FirstIndexUnique(next, v, |seen|);
      assert NoDup(next);
    }
  }

  /** The `forEach` writing each extra column's cell into the task (src/visual.tsx:136-138). */
  method WriteExtras(cols: seq<ExtraColumn>, row: seq<Cell>) returns (extra: map<string, Cell>)
    ensures extra == ExtraFields(cols, row)
  {
    extra := map[];
    for j := 0 to |cols|
      invariant extra == ExtraFields(cols[..j], row)
    {
      assert cols[..j + 1][..j] == cols[..j];
      extra := extra[cols[j].key := CellAt(row, cols[j].idx)];
    }
    assert cols[..|cols|] == cols;
  }

  /** How one more row extends the distinct legend values. */
  lemma ColorStep(roles: RoleIndices, rows: seq<seq<Cell>>, i: nat)
    requires i < |rows|
    ensures var v := LegendValueOf(roles, rows[i]);
            var before := FirstSeen(LegendValuesOf(roles, rows[..i]));
            FirstSeen(LegendValuesOf(roles, rows[..i + 1]))
            == if v != "" && v !in before then before + [v] else before
  {
    assert rows[..i + 1][..i] == rows[..i];
    var v := LegendValueOf(roles, rows[i]);
    assert rows[..i + 1][i] == rows[i];
    if v != "" {
      assert LegendValuesOf(roles, rows[..i + 1]) == LegendValuesOf(roles, rows[..i]) + [v];
      FirstSeenSnoc(LegendValuesOf(roles, rows[..i]), v);
    } else {
      assert LegendValuesOf(roles, rows[..i + 1]) == LegendValuesOf(roles, rows[..i]) + [];
      assert LegendValuesOf(roles, rows[..i]) + [] == LegendValuesOf(roles, rows[..i]);
    }
  }

  /**
   * A value already among the first `i` rows' distinct values has the same
   * palette position among all the rows' distinct values.
   */
  lemma StableColor(roles: RoleIndices, rows: seq<seq<Cell>>, i: nat, v: string)
    requires i <= |rows|
    ensures v in FirstSeen(LegendValuesOf(roles, rows[..i])) ==>
              PaletteColor(FirstSeen(LegendValuesOf(roles, rows[..i])), v)
              == PaletteColor(FirstSeen(LegendValuesOf(roles, rows)), v)
  {
    var p := FirstSeen(LegendValuesOf(roles, rows[..i]));
    var q := FirstSeen(LegendValuesOf(roles, rows));
    if v in p {
      LegendValuesPrefix(roles, rows, i);
      var vals := LegendValuesOf(roles, rows);
      var m := |LegendValuesOf(roles, rows[..i])|;
      FirstSeenPrefix(vals, m, |vals|);
      assert vals[..|vals|] == vals;
      assert p == q[..|p|];
      FirstIndexPrefix(q, |p|, v);
    }
  }

  /** The legend values of a prefix of the rows are a prefix of the legend values. */
  lemma {:induction false} LegendValuesPrefix(roles: RoleIndices, rows: seq<seq<Cell>>, i: nat)
    requires i <= |rows|
    ensures var vals := LegendValuesOf(roles, rows);
            |LegendValuesOf(roles, rows[..i])| <= |vals|
            && LegendValuesOf(roles, rows[..i]) == vals[..|LegendValuesOf(roles, rows[..i])|]
    decreases |rows| - i
  {
    if i < |rows| {
      var n := |rows| - 1;
      LegendValuesPrefix(roles, rows[..n], i);
      assert rows[..n][..i] == rows[..i];
      var a := LegendValuesOf(roles, rows[..n]);
      var b := LegendValuesOf(roles, rows);
      assert b[..|a|] == a;
    } else {
      assert rows[..i] == rows;
    }
  }

  // ---------------------------------------------------------------------
  // Properties of the colour assignment

  /**
   * The k-th distinct non-empty legend value (from 0, by first appearance)
   * gets palette entry k modulo 8.
   */
  lemma KthDistinctColor(distinct: seq<string>, k: nat)
    requires NoDup(distinct) && k < |distinct| && distinct[k] != ""
    ensures PaletteColor(distinct, distinct[k]) == Palette[k % 8]
  {
    FirstIndexUnique(distinct, distinct[k], k);
  }

  /** The first eight distinct values get eight different colours. */
  lemma FirstEightDistinct(distinct: seq<string>, a: nat, b: nat)
    requires NoDup(distinct) && a < b < |distinct| && b < 8 && distinct[a] != "" && distinct[b] != ""
    ensures PaletteColor(distinct, distinct[a]) != PaletteColor(distinct, distinct[b])
  {
    KthDistinctColor(distinct, a);
    KthDistinctColor(distinct, b);
  }
}
