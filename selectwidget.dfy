/**
 * The earlier multiple-select widget: the same committed/pending flags per item as the list
 * filter widget, except that the constructor leaves the outer element unmarked, and OK commits
 * and closes first and then hands the committed codes to the callback. Its page callback puts
 * the codes straight after the base query, with no parameter name.
 */
module SelectWidget {

  import opened Wrappers
  import opened Strings
  import opened FilterWidget

  class MultipleSelect {
    const items: seq<Item>
    const hasOnSelect: bool
    var order: seq<string>
    var selected: map<string, bool>
    var active: map<string, bool>
    var isOpen: bool
    var collapsed: bool
    var empty: bool
    var full: bool

    ghost predicate Valid()
      reads this
    {
      order == Keys(items) &&
      (forall c :: c in selected <==> c in order) &&
      (forall c :: c in active <==> c in order)
    }

    /** The constructor: flags from the initial list, closed, and neither empty nor full marked. */
    constructor (items: seq<Item>, initial: seq<string>, hasOnSelect: bool)
      ensures Valid() && this.items == items && this.hasOnSelect == hasOnSelect
      ensures selected == Initial(order, initial) && active == selected
      ensures !isOpen && collapsed && !empty && !full
    {
      this.items := items;
      this.hasOnSelect := hasOnSelect;
      var k := 0;
      var codes: seq<string> := [];
      var flags: map<string, bool> := map[];
      while k < |items|
        invariant 0 <= k <= |items|
        invariant codes == Keys(items[..k])
        invariant forall c :: c in flags <==> c in codes
        invariant forall c :: c in flags ==> (flags[c] <==> c in initial)
      {
        assert items[..k + 1][..k] == items[..k];
        var code := items[k].0;
        if code !in codes {
          codes := codes + [code];
        }
        flags := flags[code := code in initial];
        k := k + 1;
      }
      assert items[..k] == items;
      assert flags == Initial(codes, initial);
      order := codes;
      selected := flags;
      active := flags;
      isOpen := false;
      collapsed := true;
      empty := false;
      full := false;
    }

    /** A click on the outer element opens a closed widget. */
    method ClickOuter()
      requires Valid()
      modifies this
      ensures Valid() && isOpen
      ensures selected == old(selected) && active == old(active)
      ensures old(isOpen) ==> collapsed == old(collapsed) && empty == old(empty) && full == old(full)
      ensures !old(isOpen) ==> !collapsed && !empty && !full
    {
      if !isOpen {
        Open();
      }
    }

    /** `open`: active, and no longer marked collapsed, empty or full. */
    method Open()
      requires Valid()
      modifies this
      ensures Valid() && isOpen && !collapsed && !empty && !full
      ensures selected == old(selected) && active == old(active)
    {
      collapsed := false;
      empty := false;
      full := false;
      isOpen := true;
    }

    /**
     * A click on an item toggles its pending flag while the widget is open; on a closed widget
     * the click is not stopped and reaches the outer element, which opens the widget.
     */
    method ClickItem(code: string)
      requires Valid() && code in order
      modifies this
      ensures Valid() && selected == old(selected) && isOpen
      ensures old(isOpen) ==> active == old(active)[code := !old(active)[code]]
      ensures old(isOpen) ==> collapsed == old(collapsed) && empty == old(empty) && full == old(full)
      ensures !old(isOpen) ==> active == old(active) && !collapsed && !empty && !full
    {
      if isOpen {
        active := active[code := !active[code]];
      } else {
        Open();
      }
    }

    /** `doSelectAll`: every pending flag set, the committed flags untouched. */
    method DoSelectAll(allState: bool)
      requires Valid()
      modifies this
      ensures Valid() && selected == old(selected)
      ensures forall c :: c in active ==> active[c] == allState
      ensures isOpen == old(isOpen) && collapsed == old(collapsed) && empty == old(empty) && full == old(full)
    {
      active := SetAllLoop(order, active, allState);
    }

    /** `close`: revert or commit the pending flags, close, and mark empty or full by the committed flags. */
    method Close(reset: bool)
      requires Valid()
      modifies this
      ensures Valid()
      ensures selected == (if reset then old(selected) else old(active))
      ensures active == selected
      ensures !isOpen && collapsed
      ensures empty <==> CountTrue(order, selected) == 0
      ensures full <==> CountTrue(order, selected) != 0 && CountTrue(order, selected) == |order|
    {
      var newSelected, newActive, numSelected := CloseLoop(order, selected, active, reset);
      selected := newSelected;
      active := newActive;
      isOpen := false;
      collapsed := true;
      empty := numSelected == 0;
      full := numSelected != 0 && numSelected == |order|;
    }

    /** The Cancel button. */
    method Cancel()
      requires Valid()
      modifies this
      ensures Valid() && selected == old(selected) && active == selected && !isOpen
    {
      Close(true);
    }

    /**
     * The OK button: commit and close, then, when a callback is set, hand it the codes now
     * selected, which are the ones that were pending.
     */
    method Ok() returns (passed: Option<seq<string>>)
      requires Valid()
      modifies this
      ensures Valid() && selected == old(active) && active == selected && !isOpen
      ensures passed == (if hasOnSelect then Some(ActiveCodes(order, selected)) else None)
    {
      Close(false);
      passed := None;
      if hasOnSelect {
        passed := Some(ActiveCodes(order, active));
      }
    }
  }

  /** This page's OK callback: all chosen means no filter, some means the codes after the base query, none the null query. */
  function SelectQuery(baseQuery: string, noItemsQuery: string, itemCount: nat, newSelected: seq<string>): (r: string)
    ensures |newSelected| == itemCount ==> r == baseQuery
    ensures |newSelected| != itemCount && newSelected != [] ==> r == baseQuery + Amp(baseQuery) + Join(",", newSelected)
    ensures |newSelected| != itemCount && newSelected == [] ==> r == noItemsQuery
  {
    if |newSelected| == itemCount then baseQuery
    else if |newSelected| > 0 then baseQuery + Amp(baseQuery) + Join(",", newSelected)
    else noItemsQuery
  }

  /**
   * Where the page goes after OK: with every item chosen to the unfiltered list, with none
   * (and at least one item) to the null-values query, otherwise to the chosen codes.
   */
  lemma SelectQueryFollowsFlags(baseQuery: string, noItemsQuery: string, items: seq<Item>, m: map<string, bool>)
    requires forall i, j :: 0 <= i < j < |items| ==> items[i].0 != items[j].0
    requires Covers(Keys(items), m)
    ensures (forall c :: c in Keys(items) ==> m[c]) ==>
      SelectQuery(baseQuery, noItemsQuery, |items|, ActiveCodes(Keys(items), m)) == baseQuery
    ensures items != [] && (forall c :: c in Keys(items) ==> !m[c]) ==>
      SelectQuery(baseQuery, noItemsQuery, |items|, ActiveCodes(Keys(items), m)) == noItemsQuery
    ensures (exists c :: c in Keys(items) && m[c]) && (exists c :: c in Keys(items) && !m[c]) ==>
      SelectQuery(baseQuery, noItemsQuery, |items|, ActiveCodes(Keys(items), m)) ==
        baseQuery + Amp(baseQuery) + Join(",", ActiveCodes(Keys(items), m))
  {
    SelectionCount(items, m);
    CountInitialDistinct(items, []);
  }

  /**
   * The selection the page's OK sends as written: `loadMultipleSelectFilter` calls the widget
   * constructor without `new`, so the widget's state lives on the global object, whose own
   * `open` and `close` run instead of the widget's and which has no `doSelectAll`. The widget
   * never becomes active, so no item flag ever toggles, and OK sends the initially selected
   * codes whatever the user clicked.
   */
  function SubmittedAsWritten(items: seq<Item>, initial: seq<string>): (r: seq<string>)
    ensures forall c :: c in r <==> c in Keys(items) && c in initial
  {
    ActiveCodes(Keys(items), Initial(Keys(items), initial))
  }

  /**
   * The widget as evidently meant, constructed with `new`: the user opens it, clicks one item
   * and presses OK; the codes sent include that item exactly when it was not selected before,
   * and every other code exactly when it was.
   */
  method ChooseOne(items: seq<Item>, initial: seq<string>, code: string) returns (submitted: seq<string>)
    requires exists i :: 0 <= i < |items| && items[i].0 == code
    ensures code in submitted <==> code !in initial
    ensures forall c :: c != code ==> (c in submitted <==> c in Keys(items) && c in initial)
  {
    var widget := new MultipleSelect(items, initial, true);
    KeysMembers(items, code);
    widget.ClickOuter();
    widget.ClickItem(code);
    var passed := widget.Ok();
    submitted := passed.value;
  }

  /**
   * As written, a user who starts from nothing selected, opens the list and picks the first of
   * two items is sent to the null-values query instead of a filter on that item.
   */
  lemma UnboundWidgetFinding(baseQuery: string, noItemsQuery: string)
    ensures SubmittedAsWritten([("a", "A"), ("b", "B")], []) == []
    ensures SelectQuery(baseQuery, noItemsQuery, 2, SubmittedAsWritten([("a", "A"), ("b", "B")], [])) == noItemsQuery
  {
    var order := Keys([("a", "A"), ("b", "B")]);
    CountTrueZero(order, Initial(order, []));
  }
}
