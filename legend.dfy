/**
 * The chart's legend (src/components/GanttCHart.tsx:252-257): one entry per
 * distinct non-empty legend value, in the order the values first occur,
 * each with the colour of a task carrying that value.
 */
module Legend {
  import opened Base
  import opened Records

  /** The non-empty legend values of the tasks, in task order, repeats kept. */
  function LegendValues(tasks: seq<Task>): (r: seq<string>)
    ensures forall v :: v in r <==> v != "" && exists i :: 0 <= i < |tasks| && tasks[i].legendValue == v
  {
    if tasks == [] then []
    else
      var p := tasks[..|tasks| - 1];
      var t := tasks[|tasks| - 1];
      var d := LegendValues(p);
      assert forall i :: 0 <= i < |p| ==> p[i] == tasks[i];
      if t.legendValue != "" then d + [t.legendValue] else d
  }

  /**
   * The colour an entry ends up with: that of the first task with value `v`
   * whose colour is non-empty, or "" when there is none. An entry holding
   * "" counts as unset, so a later task with that value overwrites it.
   */
  function LegendColor(tasks: seq<Task>, v: string): string
  {
    if tasks == [] then ""
    else
      var c := LegendColor(tasks[..|tasks| - 1], v);
      var t := tasks[|tasks| - 1];
      if c != "" then c else if t.legendValue == v then t.color else ""
  }

  /** The legend entries: keys in insertion order and the colour stored under each. */
  datatype LegendMap = LegendMap(order: seq<string>, colors: map<string, string>)

  /**
   * One step of the `legendMap` scan: a task with a non-empty value stores
   * its colour when the map holds no truthy colour for that value yet; a
   * new key goes to the end of the key order.
   */
  function LegendAdd(l: LegendMap, t: Task): LegendMap
  {
    var v := t.legendValue;
    if v != "" && !(v in l.colors && l.colors[v] != "") then
      LegendMap(if v in l.colors then l.order else l.order + [v], l.colors[v := t.color])
    else l
  }

  /** The scan over a task list. */
  function LegendScan(tasks: seq<Task>): LegendMap
  {
    if tasks == [] then LegendMap([], map[])
    else LegendAdd(LegendScan(tasks[..|tasks| - 1]), tasks[|tasks| - 1])
  }

  /**
   * The scan lists the distinct non-empty values in first-occurrence order,
   * holds a colour for exactly those, and that colour is `LegendColor`.
   */
  lemma {:induction false} LegendScanSpec(tasks: seq<Task>)
    ensures LegendScan(tasks).order == FirstSeen(LegendValues(tasks))
    ensures forall v :: v in LegendScan(tasks).colors <==> v in LegendScan(tasks).order
    ensures forall v :: v in LegendScan(tasks).colors ==> LegendScan(tasks).colors[v] == LegendColor(tasks, v)
  {
    if tasks != [] {
      var n := |tasks| - 1;
      LegendScanSpec(tasks[..n]);
      LegendScanStep(tasks, n);
    }
  }

  /** The three facts of `LegendScanSpec` about one list. */
  ghost predicate ScanMatches(tasks: seq<Task>)
  {
    var l := LegendScan(tasks);
    && l.order == FirstSeen(LegendValues(tasks))
    && (forall v :: v in l.colors <==> v in l.order)
    && (forall v :: v in l.colors ==> l.colors[v] == LegendColor(tasks, v))
  }

  /** The facts carry over from a list to the list one task longer. */
  lemma LegendScanStep(tasks: seq<Task>, n: nat)
    requires n == |tasks| - 1 && ScanMatches(tasks[..n])
    ensures ScanMatches(tasks)
  {
    var p, t := tasks[..n], tasks[n];
    var v := t.legendValue;
    var l := LegendScan(p);
    assert LegendScan(tasks) == LegendAdd(l, t);
    LegendValuesStep(tasks, n);
    if v != "" {
      FirstSeenSnoc(LegendValues(p), v);
    }
    var l' := LegendScan(tasks);
    forall u | u in l'.colors ensures l'.colors[u] == LegendColor(tasks, u) {
      LegendColorStep(tasks, n, u);
      if u == v && v !in l.colors {
        LegendColorNone(p, v);
      }
    }
  }

  lemma LegendValuesStep(tasks: seq<Task>, n: nat)
    requires n == |tasks| - 1
    ensures LegendValues(tasks)
            == LegendValues(tasks[..n]) + (if tasks[n].legendValue != "" then [tasks[n].legendValue] else [])
  {
  }

  lemma LegendColorStep(tasks: seq<Task>, n: nat, u: string)
    requires n == |tasks| - 1
    ensures LegendColor(tasks, u)
            == if LegendColor(tasks[..n], u) != "" then LegendColor(tasks[..n], u)
               else if tasks[n].legendValue == u then tasks[n].color else ""
  {
  }

  /** The `legendMap` loop (src/components/GanttCHart.tsx:253-257). */
  method BuildLegend(tasks: seq<Task>) returns (legend: LegendMap)
    ensures legend == LegendScan(tasks)
    ensures legend.order == FirstSeen(LegendValues(tasks))
    ensures forall v :: v in legend.colors <==> v in legend.order
    ensures forall v :: v in legend.colors ==> legend.colors[v] == LegendColor(tasks, v)
  {
    var order: seq<string> := [];
    var colors: map<string, string> := map[];
    for i := 0 to |tasks|
      invariant LegendMap(order, colors) == LegendScan(tasks[..i])
    {
      var t := tasks[i];
      assert tasks[..i + 1][..i] == tasks[..i];
      if t.legendValue != "" && !(t.legendValue in colors && colors[t.legendValue] != "") {
        if t.legendValue !in colors {
          order := order + [t.legendValue];
        }
        colors := colors[t.legendValue := t.color];
      }
    }
    assert tasks[..|tasks|] == tasks;
    legend := LegendMap(order, colors);
    LegendScanSpec(tasks);
  }

  /**
   * The stored colour is that of the first task with value `v` and a
   * non-empty colour.
   */
  lemma {:induction false} LegendColorFirst(tasks: seq<Task>, v: string, i: nat)
    requires i < |tasks| && tasks[i].legendValue == v && tasks[i].color != ""
    requires forall j :: 0 <= j < i && tasks[j].legendValue == v ==> tasks[j].color == ""
    ensures LegendColor(tasks, v) == tasks[i].color
  {
    var n := |tasks| - 1;
    if i < n {
      LegendColorFirst(tasks[..n], v, i);
    } else {
      LegendColorNone(tasks[..n], v);
    }
  }

  /** Without a task with value `v` and a non-empty colour, the colour is "". */
  lemma {:induction false} LegendColorNone(tasks: seq<Task>, v: string)
    requires forall j :: 0 <= j < |tasks| && tasks[j].legendValue == v ==> tasks[j].color == ""
    ensures LegendColor(tasks, v) == ""
  {
    if tasks != [] {
      LegendColorNone(tasks[..|tasks| - 1], v);
    }
  }

  /**
   * When every task has a non-empty colour (as the colour assignment in the
   * visual guarantees), each entry has the colour of the first task
   * carrying its value.
   */
  lemma LegendFirstTaskColor(tasks: seq<Task>, v: string, i: nat)
    requires forall j :: 0 <= j < |tasks| ==> tasks[j].color != ""
    requires i < |tasks| && tasks[i].legendValue == v
    requires forall j :: 0 <= j < i ==> tasks[j].legendValue != v
    ensures LegendColor(tasks, v) == tasks[i].color
  {
    LegendColorFirst(tasks, v, i);
  }
}
