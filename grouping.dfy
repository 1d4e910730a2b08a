/**
 * Grouping of tasks by their comma-separated `group` field, flattening of
 * the groups into header and item rows under the collapse map, and the
 * id-based de-duplication pass (src/components/GanttCHart.tsx:140-172).
 *
 * The grouped lists live in a JavaScript object; its keys are taken in
 * insertion (first-seen) order.
 */
module Grouping {
  import opened Base
  import opened Text
  import opened Records

  // ---------------------------------------------------------------------
  // Group keys and memberships

  /** The keys a task is filed under: `group.split(',')`, each piece trimmed. */
  function GroupKeys(group: string): (r: seq<string>)
    ensures |r| == |Split(group, ',')| >= 1
    ensures forall i {:trigger Split(group, ',')[i]} :: 0 <= i < |r| ==> r[i] == Trim(Split(group, ',')[i])
    ensures forall i :: 0 <= i < |r| ==> ',' !in r[i]
  {
    var pieces := Split(group, ',');
    seq(|pieces|, i requires 0 <= i < |pieces| => Trim(pieces[i]))
  }

  /** An empty (or blank) group field files the task under the single key "". */
  lemma BlankGroupKey(group: string)
    requires AllSpace(group)
    ensures GroupKeys(group) == [""]
  {
    assert ',' !in group by {
      assert !IsSpace(',');
    }
    SplitPiece(group, ',');
    TrimAllSpace(group);
    var r := GroupKeys(group);
    assert |r| == 1 && r[0] == Trim(group);
  }

  /** A header row's caption, `row.parent || "Not Assigned"`: the group key, or the fallback for "". */
  function Caption(key: string): (r: string)
    ensures r != ""
    ensures key != "" ==> r == key
  {
    if key != "" then key else "Not Assigned"
  }

  /**
   * A task whose group field is blank is shown under one header only, the
   * one captioned "Not Assigned"; a non-blank piece of the field is shown
   * under its own trimmed text.
   */
  lemma GroupCaptions(group: string)
    ensures AllSpace(group) ==> |GroupKeys(group)| == 1 && Caption(GroupKeys(group)[0]) == "Not Assigned"
    ensures forall i :: 0 <= i < |GroupKeys(group)| && !AllSpace(Split(group, ',')[i]) ==>
              Caption(GroupKeys(group)[i]) == Trim(Split(group, ',')[i])
  {
    if AllSpace(group) {
      BlankGroupKey(group);
    }
    var pieces := Split(group, ',');
    forall i | 0 <= i < |pieces| && !AllSpace(pieces[i])
      ensures Trim(pieces[i]) != ""
    {
      TrimBlankOnly(pieces[i]);
    }
  }

  /** A task filed under one key. */
  datatype Membership = Membership(key: string, task: Task)

  /** `t` filed under each of `keys`, in order. */
  function Pair(keys: seq<string>, t: Task): (r: seq<Membership>)
    ensures |r| == |keys|
    ensures forall i :: 0 <= i < |r| ==> r[i] == Membership(keys[i], t)
  {
    if keys == [] then [] else Pair(keys[..|keys| - 1], t) + [Membership(keys[|keys| - 1], t)]
  }

  /** Every (key, task) filing the grouping loop performs, in loop order. */
  function Memberships(tasks: seq<Task>): seq<Membership>
  {
    if tasks == [] then []
    else
      var t := tasks[|tasks| - 1];
      Memberships(tasks[..|tasks| - 1]) + Pair(GroupKeys(t.group), t)
  }

  lemma PairIn(keys: seq<string>, u: Task, k: string, t: Task)
    ensures Membership(k, t) in Pair(keys, u) <==> u == t && k in keys
  {
    var p := Pair(keys, u);
    if Membership(k, t) in p {
      var j :| 0 <= j < |p| && p[j] == Membership(k, t);
    }
    if u == t && k in keys {
      var j :| 0 <= j < |keys| && keys[j] == k;
      assert p[j] == Membership(k, t);
    }
  }

  /** Task `t` lists key `k` and occurs among the first `n` tasks. */
  predicate FiledAmong(tasks: seq<Task>, n: nat, k: string, t: Task)
    requires n <= |tasks|
  {
    exists i :: 0 <= i < n && tasks[i] == t && k in GroupKeys(t.group)
  }

  /** A filing occurs exactly when the task is in the input and lists that key. */
  lemma {:induction false} MembershipIn(tasks: seq<Task>, k: string, t: Task)
    ensures Membership(k, t) in Memberships(tasks) <==> FiledAmong(tasks, |tasks|, k, t)
  {
    if tasks != [] {
      var n := |tasks| - 1;
      var p := tasks[..n];
      MembershipIn(p, k, t);
      PairIn(GroupKeys(tasks[n].group), tasks[n], k, t);
      assert Memberships(tasks) == Memberships(p) + Pair(GroupKeys(tasks[n].group), tasks[n]);
      FiledAmongPrefix(tasks, n, k, t);
      FiledAmongStep(tasks, n, k, t);
    }
  }

  lemma FiledAmongPrefix(tasks: seq<Task>, n: nat, k: string, t: Task)
    requires n <= |tasks|
    ensures FiledAmong(tasks[..n], n, k, t) <==> FiledAmong(tasks, n, k, t)
  {
    var p := tasks[..n];
    if FiledAmong(p, n, k, t) {
      var i :| 0 <= i < n && p[i] == t && k in GroupKeys(t.group);
      assert tasks[i] == t;
    }
    if FiledAmong(tasks, n, k, t) {
      var i :| 0 <= i < n && tasks[i] == t && k in GroupKeys(t.group);
      assert p[i] == t;
    }
  }

  lemma FiledAmongStep(tasks: seq<Task>, n: nat, k: string, t: Task)
    requires n < |tasks|
    ensures FiledAmong(tasks, n + 1, k, t) <==> FiledAmong(tasks, n, k, t) || (tasks[n] == t && k in GroupKeys(t.group))
  {
  }

  // ---------------------------------------------------------------------
  // The grouped object

  /** The grouped object: its keys in insertion order and the list under each key. */
  datatype Grouped = Grouped(order: seq<string>, lists: map<string, seq<Task>>)

  /** One filing: create the key's list when it is missing, then append. */
  function Push(g: Grouped, m: Membership): Grouped
  {
    if m.key in g.lists then Grouped(g.order, g.lists[m.key := g.lists[m.key] + [m.task]])
    else Grouped(g.order + [m.key], g.lists[m.key := [m.task]])
  }

  /** The grouped object after performing `ms` from an empty object. */
  function GroupAll(ms: seq<Membership>): Grouped
  {
    if ms == [] then Grouped([], map[]) else Push(GroupAll(ms[..|ms| - 1]), ms[|ms| - 1])
  }

  /** The keys of a list of filings. */
  function Keys(ms: seq<Membership>): (r: seq<string>)
    ensures |r| == |ms| && forall i :: 0 <= i < |ms| ==> r[i] == ms[i].key
  {
    seq(|ms|, i requires 0 <= i < |ms| => ms[i].key)
  }

  /** The tasks filed under `k`, in filing order. */
  function TasksUnder(ms: seq<Membership>, k: string): seq<Task>
  {
    if ms == [] then []
    else
      var m := ms[|ms| - 1];
      TasksUnder(ms[..|ms| - 1], k) + (if m.key == k then [m.task] else [])
  }

  /**
   * The grouped object's keys are the distinct filed keys in first-seen
   * order, each key has a list, and the list under a key is exactly the
   * tasks filed under it, in filing order.
   */
  lemma {:induction false} GroupAllSpec(ms: seq<Membership>)
    ensures GroupAll(ms).order == FirstSeen(Keys(ms))
    ensures forall k :: k in GroupAll(ms).lists <==> k in GroupAll(ms).order
    ensures forall k :: k in GroupAll(ms).lists ==> GroupAll(ms).lists[k] == TasksUnder(ms, k)
  {
    if ms != [] {
      var n := |ms| - 1;
      var m := ms[n];
      var g := GroupAll(ms[..n]);
      GroupAllSpec(ms[..n]);
      assert GroupAll(ms) == Push(g, m);
      var ks := Keys(ms);
      assert ks[..n] == Keys(ms[..n]);
      assert ks[n] == m.key;
      assert FirstSeen(ks) == if m.key in g.order then g.order else g.order + [m.key];
      forall k | k in GroupAll(ms).lists
        ensures GroupAll(ms).lists[k] == TasksUnder(ms, k)
      {
        assert TasksUnder(ms, k) == TasksUnder(ms[..n], k) + (if m.key == k then [m.task] else []);
        if k !in g.lists {
          TasksUnderAbsent(ms[..n], k);
        }
      }
    }
  }

  lemma {:induction false} TasksUnderAbsent(ms: seq<Membership>, k: string)
    requires k !in Keys(ms)
    ensures TasksUnder(ms, k) == []
  {
    if ms != [] {
      var n := |ms| - 1;
      assert Keys(ms[..n]) == Keys(ms)[..n];
      TasksUnderAbsent(ms[..n], k);
    }
  }

  /**
   * The grouping loop (src/components/GanttCHart.tsx:150-161): for each task,
   * for each piece of its group field, trim it, create the key's list if it
   * is missing and push the task.
   */
  method GroupTasks(tasks: seq<Task>) returns (g: Grouped)
    ensures g == GroupAll(Memberships(tasks))
  {
    g := Grouped([], map[]);
    for i := 0 to |tasks|
      invariant g == GroupAll(Memberships(tasks[..i]))
    {
      g := FileTask(g, tasks[i], Memberships(tasks[..i]));
      MembershipsStep(tasks, i);
    }
    assert tasks[..|tasks|] == tasks;
  }

  /** The inner `forEach` of the grouping loop: file one task under each of its keys. */
  method FileTask(g0: Grouped, t: Task, ghost before: seq<Membership>) returns (g: Grouped)
    requires g0 == GroupAll(before)
    ensures g == GroupAll(before + Pair(GroupKeys(t.group), t))
  {
    g := g0;
    var parents := Split(t.group, ',');
    ghost var keys := GroupKeys(t.group);
    assert before + Pair(keys[..0], t) == before;
    for j := 0 to |parents|
      invariant g == GroupAll(before + Pair(keys[..j], t))
    {
      var parent := Trim(parents[j]);
      assert parent == keys[j];
      ghost var g1 := g;
      if parent !in g.lists {
        g := Grouped(g.order + [parent], g.lists[parent := []]);
      }
      g := Grouped(g.order, g.lists[parent := g.lists[parent] + [t]]);
      PushInTwoSteps(g1, parent, t);
      GroupAllStep(before, keys, j, t);
    }
    assert keys[..|parents|] == keys;
  }

  /** Creating a missing list and then appending to it is one `Push`. */
  lemma PushInTwoSteps(g1: Grouped, parent: string, t: Task)
    ensures var g2 := if parent !in g1.lists then Grouped(g1.order + [parent], g1.lists[parent := []]) else g1;
            Grouped(g2.order, g2.lists[parent := g2.lists[parent] + [t]]) == Push(g1, Membership(parent, t))
  {
    assert [] + [t] == [t];
  }

  lemma GroupAllStep(before: seq<Membership>, keys: seq<string>, j: nat, t: Task)
    requires j < |keys|
    ensures GroupAll(before + Pair(keys[..j + 1], t))
            == Push(GroupAll(before + Pair(keys[..j], t)), Membership(keys[j], t))
  {
    assert keys[..j + 1][..j] == keys[..j];
    var done := before + Pair(keys[..j + 1], t);
    assert done[..|done| - 1] == before + Pair(keys[..j], t);
  }

  lemma MembershipsStep(tasks: seq<Task>, i: nat)
    requires i < |tasks|
    ensures Memberships(tasks[..i + 1]) == Memberships(tasks[..i]) + Pair(GroupKeys(tasks[i].group), tasks[i])
  {
    assert tasks[..i + 1][..i] == tasks[..i];
  }

  /** `x` repeated `n` times. */
  function Repeat(x: Task, n: nat): (r: seq<Task>)
    ensures |r| == n && forall i :: 0 <= i < n ==> r[i] == x
  {
    seq(n, _ => x)
  }

  /** How often `k` occurs in `keys`. */
  function Count(keys: seq<string>, k: string): nat
  {
    if keys == [] then 0
    else Count(keys[..|keys| - 1], k) + (if keys[|keys| - 1] == k then 1 else 0)
  }

  /**
   * The list a key should have, read off the input directly: the tasks in
   * input order, each once per time it lists the key.
   */
  function ExpectedList(tasks: seq<Task>, k: string): seq<Task>
  {
    if tasks == [] then []
    else
      var t := tasks[|tasks| - 1];
      ExpectedList(tasks[..|tasks| - 1], k) + Repeat(t, Count(GroupKeys(t.group), k))
  }

  lemma {:induction false} TasksUnderAppend(a: seq<Membership>, b: seq<Membership>, k: string)
    ensures TasksUnder(a + b, k) == TasksUnder(a, k) + TasksUnder(b, k)
  {
    if b == [] {
      assert a + b == a;
    } else {
      var n := |b| - 1;
      TasksUnderAppend(a, b[..n], k);
      AppendInit(a, b);
    }
  }

  lemma {:induction false} TasksUnderPair(keys: seq<string>, t: Task, k: string)
    ensures TasksUnder(Pair(keys, t), k) == Repeat(t, Count(keys, k))
  {
    if keys != [] {
      var n := |keys| - 1;
      TasksUnderPair(keys[..n], t, k);
      assert Pair(keys, t)[..n] == Pair(keys[..n], t);
    }
  }

  /** The list under each key keeps input order (src/components/GanttCHart.tsx:152-157). */
  lemma {:induction false} TasksUnderInOrder(tasks: seq<Task>, k: string)
    ensures TasksUnder(Memberships(tasks), k) == ExpectedList(tasks, k)
  {
    if tasks != [] {
      var n := |tasks| - 1;
      var t := tasks[n];
      TasksUnderInOrder(tasks[..n], k);
      TasksUnderAppend(Memberships(tasks[..n]), Pair(GroupKeys(t.group), t), k);
      TasksUnderPair(GroupKeys(t.group), t, k);
    }
  }

  lemma {:induction false} TasksUnderIn(ms: seq<Membership>, k: string, t: Task)
    ensures t in TasksUnder(ms, k) <==> Membership(k, t) in ms
  {
    if ms != [] {
      var n := |ms| - 1;
      TasksUnderIn(ms[..n], k, t);
      assert ms == ms[..n] + [ms[n]];
    }
  }

  lemma {:induction false} KeyIn(ms: seq<Membership>, k: string)
    ensures k in Keys(ms) <==> exists t :: Membership(k, t) in ms
  {
    if k in Keys(ms) {
      var i :| 0 <= i < |ms| && Keys(ms)[i] == k;
      assert Membership(k, ms[i].task) == ms[i];
    }
    if exists t :: Membership(k, t) in ms {
      var t :| Membership(k, t) in ms;
      var i :| 0 <= i < |ms| && ms[i] == Membership(k, t);
      assert Keys(ms)[i] == k;
    }
  }

  /**
   * The result of grouping: a key is present exactly when some task lists
   * it, and a task is in a key's list exactly when it is an input task that
   * lists that key (every trimmed token of its group field).
   */
  lemma GroupTasksComplete(tasks: seq<Task>, k: string, t: Task)
    ensures var g := GroupAll(Memberships(tasks));
      && (k in g.order <==> exists i :: 0 <= i < |tasks| && k in GroupKeys(tasks[i].group))
      && (k in g.lists ==>
           (t in g.lists[k] <==> exists i :: 0 <= i < |tasks| && tasks[i] == t && k in GroupKeys(t.group)))
  {
    var ms := Memberships(tasks);
    GroupAllSpec(ms);
    KeyIn(ms, k);
    TasksUnderIn(ms, k, t);
    MembershipIn(tasks, k, t);
    if exists i :: 0 <= i < |tasks| && k in GroupKeys(tasks[i].group) {
      var i :| 0 <= i < |tasks| && k in GroupKeys(tasks[i].group);
      MembershipIn(tasks, k, tasks[i]);
      assert FiledAmong(tasks, |tasks|, k, tasks[i]);
    }
    if exists u :: Membership(k, u) in ms {
      var u :| Membership(k, u) in ms;
      MembershipIn(tasks, k, u);
      var i :| 0 <= i < |tasks| && tasks[i] == u && k in GroupKeys(u.group);
    }
  }

  // ---------------------------------------------------------------------
  // Flattening into rows

  /** A header row for a group, or an item row for one task under a group. */
  datatype Row = Header(group: string) | Item(group: string, task: Task)

  /** The collapse map says "collapsed" only for an explicit `false`. */
  predicate Collapsed(expanded: map<string, bool>, g: string)
  {
    g in expanded && !expanded[g]
  }

  function ListOf(lists: map<string, seq<Task>>, g: string): seq<Task>
  {
    if g in lists then lists[g] else []
  }

  function Items(g: string, ts: seq<Task>): (r: seq<Row>)
    ensures |r| == |ts| && forall i :: 0 <= i < |ts| ==> r[i] == Item(g, ts[i])
  {
    seq(|ts|, i requires 0 <= i < |ts| => Item(g, ts[i]))
  }

  /** One group's rows: its header, then its items unless it is collapsed. */
  function Block(g: string, lists: map<string, seq<Task>>, expanded: map<string, bool>): seq<Row>
  {
    [Header(g)] + (if Collapsed(expanded, g) then [] else Items(g, ListOf(lists, g)))
  }

  /** The flattened rows of the groups in `order`. */
  function Rows(order: seq<string>, lists: map<string, seq<Task>>, expanded: map<string, bool>): seq<Row>
  {
    if order == [] then []
    else Rows(order[..|order| - 1], lists, expanded) + Block(order[|order| - 1], lists, expanded)
  }

  /**
   * The flattening loop (src/components/GanttCHart.tsx:164-172): for each
   * group a header row, then, unless the collapse map holds `false` for it,
   * one item row per task in its list.
   */
  method Flatten(g: Grouped, expanded: map<string, bool>) returns (rows: seq<Row>)
    ensures rows == Rows(g.order, g.lists, expanded)
  {
    rows := [];
    for i := 0 to |g.order|
      invariant rows == Rows(g.order[..i], g.lists, expanded)
    {
      RowsStep(g.order, i, g.lists, expanded);
      rows := PushGroup(rows, g.order[i], g.lists, expanded);
    }
    assert g.order[..|g.order|] == g.order;
  }

  /** One pass of the outer `forEach`: the header row, then the items unless collapsed. */
  method PushGroup(rows0: seq<Row>, parent: string, lists: map<string, seq<Task>>, expanded: map<string, bool>)
    returns (rows: seq<Row>)
    ensures rows == rows0 + Block(parent, lists, expanded)
  {
    rows := rows0 + [Header(parent)];
    if !(parent in expanded && expanded[parent] == false) {
      rows := PushItems(rows, parent, ListOf(lists, parent));
      assert rows == rows0 + ([Header(parent)] + Items(parent, ListOf(lists, parent)));
    } else {
      assert rows == rows0 + ([Header(parent)] + []);
    }
  }

  /** The rows of one more group are its block after the rows so far. */
  lemma RowsStep(order: seq<string>, i: nat, lists: map<string, seq<Task>>, expanded: map<string, bool>)
    requires i < |order|
    ensures Rows(order[..i + 1], lists, expanded) == Rows(order[..i], lists, expanded) + Block(order[i], lists, expanded)
  {
    assert order[..i + 1][..i] == order[..i];
  }

  /** The inner `forEach`: one item row per task of the group, pushed in list order. */
  method PushItems(rows0: seq<Row>, parent: string, ts: seq<Task>) returns (rows: seq<Row>)
    ensures rows == rows0 + Items(parent, ts)
  {
    rows := rows0;
    for j := 0 to |ts|
      invariant rows == rows0 + Items(parent, ts[..j])
    {
      rows := rows + [Item(parent, ts[j])];
      assert Items(parent, ts[..j + 1]) == Items(parent, ts[..j]) + [Item(parent, ts[j])];
    }
    assert ts[..|ts|] == ts;
  }

  /** The total of the list sizes of the groups in `order` that are not collapsed. */
  function ExpandedSize(order: seq<string>, lists: map<string, seq<Task>>, expanded: map<string, bool>): nat
  {
    if order == [] then 0
    else
      var g := order[|order| - 1];
      ExpandedSize(order[..|order| - 1], lists, expanded)
        + (if Collapsed(expanded, g) then 0 else |ListOf(lists, g)|)
  }

  /** The group of every header row, in row order. */
  function Headers(rows: seq<Row>): seq<string>
  {
    if rows == [] then []
    else
      var r := rows[|rows| - 1];
      Headers(rows[..|rows| - 1]) + (if r.Header? then [r.group] else [])
  }

  lemma {:induction false} HeadersAppend(a: seq<Row>, b: seq<Row>)
    ensures Headers(a + b) == Headers(a) + Headers(b)
  {
    if b == [] {
      assert a + b == a;
    } else {
      var n := |b| - 1;
      HeadersAppend(a, b[..n]);
      AppendInit(a, b);
    }
  }

  lemma {:induction false} HeadersOfItems(g: string, ts: seq<Task>)
    ensures Headers(Items(g, ts)) == []
  {
    if ts != [] {
      HeadersOfItems(g, ts[..|ts| - 1]);
      assert Items(g, ts)[..|ts| - 1] == Items(g, ts[..|ts| - 1]);
    }
  }

  /**
   * Row count: the number of groups plus the sizes of the groups that are
   * not collapsed.
   */
  lemma {:induction false} RowsCount(order: seq<string>, lists: map<string, seq<Task>>, expanded: map<string, bool>)
    ensures |Rows(order, lists, expanded)| == |order| + ExpandedSize(order, lists, expanded)
  {
    if order != [] {
      var n := |order| - 1;
      RowsCount(order[..n], lists, expanded);
      assert Rows(order, lists, expanded) == Rows(order[..n], lists, expanded) + Block(order[n], lists, expanded);
    }
  }

  /** There is exactly one header row per group, in group order. */
  lemma {:induction false} RowsHeaders(order: seq<string>, lists: map<string, seq<Task>>, expanded: map<string, bool>)
    ensures Headers(Rows(order, lists, expanded)) == order
  {
    if order != [] {
      var n := |order| - 1;
      RowsHeaders(order[..n], lists, expanded);
      HeadersAppend(Rows(order[..n], lists, expanded), Block(order[n], lists, expanded));
      BlockHeaders(order[n], lists, expanded);
      assert order == order[..n] + [order[n]];
    }
  }

  lemma BlockHeaders(g: string, lists: map<string, seq<Task>>, expanded: map<string, bool>)
    ensures Headers(Block(g, lists, expanded)) == [g]
  {
    var tail := if Collapsed(expanded, g) then [] else Items(g, ListOf(lists, g));
    HeadersAppend([Header(g)], tail);
    HeadersOfItems(g, ListOf(lists, g));
    assert Headers([Header(g)]) == [g] by {
      assert [Header(g)][..0] == [];
    }
  }

  /**
   * An item row for task `t` under group `g` appears exactly when `g` is a
   * listed group that is not collapsed and `t` is in its list.
   */
  lemma {:induction false} ItemRowIn(order: seq<string>, lists: map<string, seq<Task>>,
                                    expanded: map<string, bool>, g: string, t: Task)
    ensures Item(g, t) in Rows(order, lists, expanded)
            <==> g in order && !Collapsed(expanded, g) && t in ListOf(lists, g)
  {
    if order != [] {
      var n := |order| - 1;
      ItemRowIn(order[..n], lists, expanded, g, t);
      var h := order[n];
      BlockItemIn(h, lists, expanded, g, t);
      assert order == order[..n] + [h];
    }
  }

  /** An item row for `t` under `g` is in `h`'s block exactly when `g` is `h`, expanded, and lists `t`. */
  lemma BlockItemIn(h: string, lists: map<string, seq<Task>>, expanded: map<string, bool>, g: string, t: Task)
    ensures Item(g, t) in Block(h, lists, expanded)
            <==> g == h && !Collapsed(expanded, g) && t in ListOf(lists, g)
  {
    var r := Block(h, lists, expanded);
    if Item(g, t) in r {
      var i :| 0 <= i < |r| && r[i] == Item(g, t);
    }
    if g == h && !Collapsed(expanded, g) && t in ListOf(lists, g) {
      var ts := ListOf(lists, g);
      var i :| 0 <= i < |ts| && ts[i] == t;
      assert r[i + 1] == Item(g, t);
    }
  }

  /** The rows only depend on which groups are collapsed. */
  lemma {:induction false} RowsFollowCollapse(order: seq<string>, lists: map<string, seq<Task>>,
                                             e1: map<string, bool>, e2: map<string, bool>)
    requires forall g :: Collapsed(e1, g) == Collapsed(e2, g)
    ensures Rows(order, lists, e1) == Rows(order, lists, e2)
  {
    if order != [] {
      RowsFollowCollapse(order[..|order| - 1], lists, e1, e2);
      assert Collapsed(e1, order[|order| - 1]) == Collapsed(e2, order[|order| - 1]);
    }
  }

  /**
   * Grouping completeness: a task that lists group `k` (for instance both
   * "A" and "B" of "A, B") gets an item row under `k` unless `k` is collapsed.
   */
  lemma TaskRowUnderEachGroup(tasks: seq<Task>, expanded: map<string, bool>, i: nat, k: string)
    requires i < |tasks| && k in GroupKeys(tasks[i].group)
    requires !Collapsed(expanded, k)
    ensures var g := GroupAll(Memberships(tasks));
            Item(k, tasks[i]) in Rows(g.order, g.lists, expanded)
  {
    var g := GroupAll(Memberships(tasks));
    GroupTasksComplete(tasks, k, tasks[i]);
    GroupAllSpec(Memberships(tasks));
    ItemRowIn(g.order, g.lists, expanded, k, tasks[i]);
  }

  // ---------------------------------------------------------------------
  // De-duplication by id

  function Ids(ts: seq<Task>): set<string>
  {
    set t | t in ts :: t.id
  }

  /** The tasks whose id has not occurred before them, in order. */
  function Dedup(tasks: seq<Task>): seq<Task>
  {
    if tasks == [] then []
    else
      var d := Dedup(tasks[..|tasks| - 1]);
      var t := tasks[|tasks| - 1];
      if t.id in Ids(d) then d else d + [t]
  }

  /**
   * The `seen`-set filter (src/components/GanttCHart.tsx:141-147). Its result
   * is not used by the chart: grouping and the legend scan the full list.
   */
  method DedupById(tasks: seq<Task>) returns (out: seq<Task>)
    ensures out == Dedup(tasks)
  {
    var seen: set<string> := {};
    out := [];
    for i := 0 to |tasks|
      invariant out == Dedup(tasks[..i])
      invariant seen == Ids(out)
    {
      var key := tasks[i].id;
      assert tasks[..i + 1][..i] == tasks[..i];
      if key !in seen {
        seen := seen + {key};
        out := out + [tasks[i]];
      }
    }
    assert tasks[..|tasks|] == tasks;
  }

  /** The first task that has a given id. */
  predicate FirstWithId(tasks: seq<Task>, i: nat)
    requires i < |tasks|
  {
    forall j :: 0 <= j < i ==> tasks[j].id != tasks[i].id
  }

  lemma IdsSnoc(a: seq<Task>, t: Task)
    ensures Ids(a + [t]) == Ids(a) + {t.id}
  {
    assert forall u :: u in a + [t] <==> u in a || u == t;
  }

  /** Every input id survives de-duplication, and no other id appears. */
  lemma {:induction false} DedupIds(tasks: seq<Task>)
    ensures Ids(Dedup(tasks)) == Ids(tasks)
  {
    if tasks != [] {
      var n := |tasks| - 1;
      DedupIds(tasks[..n]);
      IdsSnoc(Dedup(tasks[..n]), tasks[n]);
      IdsSnoc(tasks[..n], tasks[n]);
      assert tasks == tasks[..n] + [tasks[n]];
    }
  }

  /** The ids of the de-duplicated list are pairwise distinct. */
  lemma {:induction false} DedupDistinct(tasks: seq<Task>)
    ensures forall a, b :: 0 <= a < b < |Dedup(tasks)| ==> Dedup(tasks)[a].id != Dedup(tasks)[b].id
  {
    if tasks != [] {
      var n := |tasks| - 1;
      var d := Dedup(tasks[..n]);
      DedupDistinct(tasks[..n]);
      forall a | 0 <= a < |d| ensures d[a].id in Ids(d) {
        assert d[a] in d;
      }
    }
  }

  /**
   * De-duplication keeps exactly the first task of every id: a task is kept
   * exactly when it is the first occurrence of its id.
   */
  lemma DedupKeepsFirst(tasks: seq<Task>, t: Task)
    ensures t in Dedup(tasks) <==> exists i :: 0 <= i < |tasks| && tasks[i] == t && FirstWithId(tasks, i)
  {
    if t in Dedup(tasks) {
      DedupOnlyFirst(tasks, t);
    }
    if exists i :: 0 <= i < |tasks| && tasks[i] == t && FirstWithId(tasks, i) {
      var i :| 0 <= i < |tasks| && tasks[i] == t && FirstWithId(tasks, i);
      DedupKeepsEachFirst(tasks, i);
    }
  }

  /** A kept task is the first of its id. */
  lemma {:induction false} DedupOnlyFirst(tasks: seq<Task>, t: Task)
    requires t in Dedup(tasks)
    ensures exists i :: 0 <= i < |tasks| && tasks[i] == t && FirstWithId(tasks, i)
  {
    var n := |tasks| - 1;
    var p := tasks[..n];
    var d := Dedup(p);
    if t in d {
      DedupOnlyFirst(p, t);
      var i :| 0 <= i < |p| && p[i] == t && FirstWithId(p, i);
      assert tasks[i] == t && FirstWithId(tasks, i);
    } else {
      assert t == tasks[n] && t.id !in Ids(d);
      DedupIds(p);
      forall j | 0 <= j < n ensures tasks[j].id != t.id {
        assert p[j] in p;
      }
      assert FirstWithId(tasks, n);
    }
  }

  /** The first task of each id is kept. */
  lemma {:induction false} DedupKeepsEachFirst(tasks: seq<Task>, i: nat)
    requires i < |tasks| && FirstWithId(tasks, i)
    ensures tasks[i] in Dedup(tasks)
  {
    var n := |tasks| - 1;
    var p := tasks[..n];
    var d := Dedup(p);
    if i < n {
      assert p[i] == tasks[i] && FirstWithId(p, i);
      DedupKeepsEachFirst(p, i);
    } else {
      DedupIds(p);
      assert tasks[n].id !in Ids(p);
    }
  }
}
