/**
 * The chart's reactions to the user: the collapse toggle on a group header
 * (src/components/GanttCHart.tsx:425), the guards around selection on a bar
 * click and around the context menu (291-306), and the zoom slider
 * (568-579).
 */
module Interaction {
  import opened Base
  import opened Records
  import opened Grouping
  import opened Timeline

  // ---------------------------------------------------------------------
  // Collapse toggle

  /**
   * A header click stores, for the clicked group, whether its old entry was
   * an explicit `false`: an absent or `true` entry becomes `false`, a
   * `false` one becomes `true`. The other entries are kept.
   */
  function Toggle(expanded: map<string, bool>, g: string): (r: map<string, bool>)
    ensures g in r && (r[g] <==> Collapsed(expanded, g))
    ensures Collapsed(r, g) <==> !Collapsed(expanded, g)
    ensures forall h :: h != g ==> (h in r <==> h in expanded)
    ensures forall h :: h != g && h in expanded ==> r[h] == expanded[h]
  {
    expanded[g := g in expanded && expanded[g] == false]
  }

  /** A toggle flips whether the clicked group is collapsed and no other. */
  lemma ToggleOnlyClicked(expanded: map<string, bool>, g: string, h: string)
    ensures h == g ==> Collapsed(Toggle(expanded, g), h) != Collapsed(expanded, h)
    ensures h != g ==> Collapsed(Toggle(expanded, g), h) == Collapsed(expanded, h)
  {
  }

  /** Toggling the same group twice gives back the same rows, from any state. */
  lemma ToggleTwiceSameRows(order: seq<string>, lists: map<string, seq<Task>>,
                            expanded: map<string, bool>, g: string)
    ensures Rows(order, lists, Toggle(Toggle(expanded, g), g)) == Rows(order, lists, expanded)
  {
    var twice := Toggle(Toggle(expanded, g), g);
    forall h ensures Collapsed(twice, h) == Collapsed(expanded, h) {
      ToggleOnlyClicked(expanded, g, h);
      ToggleOnlyClicked(Toggle(expanded, g), g, h);
    }
    RowsFollowCollapse(order, lists, twice, expanded);
  }

  /**
   * Collapsing a group hides exactly its items: after a toggle that
   * collapses `g`, the row count drops by the size of `g`'s list.
   */
  lemma {:induction false} CollapseHidesItems(order: seq<string>, lists: map<string, seq<Task>>,
                                             expanded: map<string, bool>, g: string)
    requires NoDup(order) && g in order && !Collapsed(expanded, g)
    ensures |Rows(order, lists, Toggle(expanded, g))| + |ListOf(lists, g)| == |Rows(order, lists, expanded)|
  {
    RowsCount(order, lists, expanded);
    RowsCount(order, lists, Toggle(expanded, g));
    ExpandedSizeToggle(order, lists, expanded, g);
  }

  /**
   * The chart body is one row height per group header and per item of an
   * expanded group, plus the bottom padding (src/components/GanttCHart.tsx:190).
   */
  lemma ChartHeightOfRows(order: seq<string>, lists: map<string, seq<Task>>, expanded: map<string, bool>)
    ensures ChartHeight(|Rows(order, lists, expanded)|)
            == (|order| + ExpandedSize(order, lists, expanded)) * RowHeight + PaddingBottom
  {
    RowsCount(order, lists, expanded);
  }

  /** Collapsing a group shortens the chart body by one row height per item of the group. */
  lemma CollapseShrinksChart(order: seq<string>, lists: map<string, seq<Task>>,
                             expanded: map<string, bool>, g: string)
    requires NoDup(order) && g in order && !Collapsed(expanded, g)
    ensures ChartHeight(|Rows(order, lists, Toggle(expanded, g))|) + |ListOf(lists, g)| * RowHeight
            == ChartHeight(|Rows(order, lists, expanded)|)
  {
    CollapseHidesItems(order, lists, expanded, g);
  }

  lemma {:induction false} ExpandedSizeToggle(order: seq<string>, lists: map<string, seq<Task>>,
                                             expanded: map<string, bool>, g: string)
    requires NoDup(order) && !Collapsed(expanded, g)
    ensures ExpandedSize(order, lists, Toggle(expanded, g))
            + (if g in order then |ListOf(lists, g)| else 0)
            == ExpandedSize(order, lists, expanded)
  {
    if order != [] {
      var n := |order| - 1;
      var init := order[..n];
      assert NoDup(init);
      ExpandedSizeToggle(init, lists, expanded, g);
      ToggleOnlyClicked(expanded, g, order[n]);
      assert order == init + [order[n]];
      assert g in order <==> g in init || g == order[n];
      if g == order[n] {
        assert g !in init;
      }
    }
  }

  // ---------------------------------------------------------------------
  // Selection guards

  /** What a bar click asks of the selection manager. */
  datatype ClickEffect = NoSelection | Select(ids: seq<Identity>, multiSelect: bool)

  /**
   * A bar click (src/components/GanttCHart.tsx:291-296) selects the task's
   * identity alone, replacing the selection, exactly when there is a
   * selection manager, a host and an identity.
   */
  function BarClick(hasSelectionManager: bool, hasHost: bool, t: Task): (e: ClickEffect)
    ensures e.Select? <==> hasSelectionManager && hasHost && t.identity.Some?
    ensures e.Select? ==> e.ids == [t.identity.value] && !e.multiSelect
  {
    if hasSelectionManager && hasHost && t.identity.Some? then Select([t.identity.value], false)
    else NoSelection
  }

  /** What a right-click on a bar does. */
  datatype MenuEffect =
    | BrowserMenu                                   // default handling left alone
    | Suppressed                                    // default prevented, no menu launched
    | Launch(id: Identity, x: real, y: real)        // host menu at the pointer

  /**
   * A bar right-click (src/components/GanttCHart.tsx:297-306). `created` is
   * what `host.createSelectionId` gives, None when the host lacks it or it
   * gives nothing; `canLaunch` says whether the host has `launchContextMenu`.
   */
  function BarContextMenu(hasSelectionManager: bool, hasHost: bool, created: Option<Identity>,
                          canLaunch: bool, t: Task, clientX: real, clientY: real): (e: MenuEffect)
    ensures !e.BrowserMenu? <==> hasSelectionManager && hasHost
    ensures e.Launch? <==> hasSelectionManager && hasHost && created.Some? && canLaunch
    ensures e.Launch? ==> e.id == created.value && e.x == clientX && e.y == clientY
  {
    if !(hasSelectionManager && hasHost) then BrowserMenu
    else if created.Some? && canLaunch then Launch(created.value, clientX, clientY)
    else Suppressed
  }

  /** The context menu does not carry the bar's own identity: any two bars behave alike. */
  lemma ContextMenuIgnoresTask(hasSelectionManager: bool, hasHost: bool, created: Option<Identity>,
                               canLaunch: bool, t1: Task, t2: Task, x: real, y: real)
    ensures BarContextMenu(hasSelectionManager, hasHost, created, canLaunch, t1, x, y)
            == BarContextMenu(hasSelectionManager, hasHost, created, canLaunch, t2, x, y)
  {
  }

  // ---------------------------------------------------------------------
  // Zoom slider

  /** What the range slider reports: both handles, or (outside range mode) one value. */
  datatype SlideEvent = Range(lo: int, hi: int) | Single(v: int)

  /** The handle positions the slider shows for a zoom state. */
  function SliderValue(z: Zoom): (int, int)
  {
    (z.startPct, z.endPct)
  }

  /**
   * The slider's change handler (src/components/GanttCHart.tsx:573-578):
   * two handle values become the zoom; a single value is ignored.
   */
  function OnSlide(z: Zoom, e: SlideEvent): (r: Zoom)
    ensures e.Single? ==> r == z
    ensures e.Range? ==> SliderValue(r) == (e.lo, e.hi)
  {
    match e
    case Range(lo, hi) => Zoom(lo, hi)
    case Single(_) => z
  }

  /**
   * Handles kept within 0..100 and not crossing (the slider's bounds and
   * `allowCross={false}`) keep the zoom valid, so the visible window stays
   * inside the domain.
   */
  lemma SlideKeepsWindowInDomain(z: Zoom, e: SlideEvent, d: Domain)
    requires ValidZoom(z) && d.allMin <= d.allMax
    requires e.Range? ==> 0 <= e.lo <= e.hi <= 100
    ensures ValidZoom(OnSlide(z, e))
    ensures d.allMin <= VisibleWindow(d, OnSlide(z, e)).minDate
            <= VisibleWindow(d, OnSlide(z, e)).maxDate <= d.allMax
  {
    WindowInsideDomain(d, OnSlide(z, e));
  }
}
