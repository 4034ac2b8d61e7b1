/**
 * The multiple-select list filter widget of the admin's change lists: each item has a committed
 * `selected` flag and a pending `active` flag; the widget opens on a click, items toggle while
 * it is open, All/None set every pending flag, Cancel reverts and OK hands the pending codes to
 * a callback. The page's callback turns the codes into a query string; the numeric range form
 * builds its own. The page elements are reduced to the outer element's classes.
 */
module FilterWidget {

  import opened Wrappers
  import opened Strings
  import Lists
  import Filters

  /** One option of the widget: its code and its display text. */
  type Item = (string, string)

  /**
   * The keys of the widget's selection object: each item's code once, in the order the codes
   * first appear (a repeated code overwrites its entry in place).
   */
  function Keys(items: seq<Item>): (r: seq<string>)
  {
    if items == [] then []
    else
      var n := |items| - 1;
      var prev := Keys(items[..n]);
      if items[n].0 in prev then prev else prev + [items[n].0]
  }

  /** Every item's code is a key, and nothing else is. */
  lemma {:induction false} KeysMembers(items: seq<Item>, c: string)
    ensures c in Keys(items) <==> exists i :: 0 <= i < |items| && items[i].0 == c
  {
    if items != [] {
      var n := |items| - 1;
      KeysMembers(items[..n], c);
      if exists i :: 0 <= i < |items| && items[i].0 == c {
        var i :| 0 <= i < |items| && items[i].0 == c;
        if i < n {
          assert items[..n][i] == items[i];
        }
      }
      if exists i :: 0 <= i < n && items[..n][i].0 == c {
        var i :| 0 <= i < n && items[..n][i].0 == c;
        assert items[i] == items[..n][i];
      }
    }
  }

  /** No code is a key twice. */
  lemma {:induction false} KeysDistinct(items: seq<Item>)
    ensures Lists.NoDuplicates(Keys(items))
  {
    if items != [] {
      KeysDistinct(items[..|items| - 1]);
    }
  }

  /** The initial flags: a code is on exactly when the initial list includes it. */
  function Initial(order: seq<string>, initial: seq<string>): (r: map<string, bool>)
    ensures forall c :: c in r <==> c in order
    ensures forall c :: c in r ==> (r[c] <==> c in initial)
  {
    map c | c in order :: c in initial
  }

  /** Flags defined for every code of the order. */
  predicate Covers(order: seq<string>, m: map<string, bool>)
  {
    forall c :: c in order ==> c in m
  }

  /** How many codes of the order have their flag on. */
  function CountTrue(order: seq<string>, m: map<string, bool>): (r: nat)
    requires Covers(order, m)
    ensures r <= |order|
  {
    if order == [] then 0
    else
      var n := |order| - 1;
      CountTrue(order[..n], m) + (if m[order[n]] then 1 else 0)
  }

  /** No flag is on exactly when the count is zero. */
  lemma {:induction false} CountTrueZero(order: seq<string>, m: map<string, bool>)
    requires Covers(order, m)
    ensures CountTrue(order, m) == 0 <==> forall c :: c in order ==> !m[c]
  {
    if order != [] {
      var n := |order| - 1;
      CountTrueZero(order[..n], m);
      assert order == order[..n] + [order[n]];
    }
  }

  /** Every flag is on exactly when the count is the number of codes. */
  lemma {:induction false} CountTrueAll(order: seq<string>, m: map<string, bool>)
    requires Covers(order, m)
    ensures CountTrue(order, m) == |order| <==> forall c :: c in order ==> m[c]
  {
    if order != [] {
      var n := |order| - 1;
      CountTrueAll(order[..n], m);
      assert order == order[..n] + [order[n]];
    }
  }

  /** The codes whose flag is on, in order: what OK hands to the callback. */
  function ActiveCodes(order: seq<string>, m: map<string, bool>): (r: seq<string>)
    requires Covers(order, m)
    ensures forall c :: c in r <==> c in order && m[c]
    ensures |r| == CountTrue(order, m)
  {
    if order == [] then []
    else
      var n := |order| - 1;
      assert forall c :: c in order <==> c in order[..n] || c == order[n];
      ActiveCodes(order[..n], m) + (if m[order[n]] then [order[n]] else [])
  }

  /** How many items (repeats included) the initial list includes: the constructor's counter. */
  function CountInitial(items: seq<Item>, initial: seq<string>): (r: nat)
    ensures r <= |items|
  {
    if items == [] then 0
    else
      var n := |items| - 1;
      CountInitial(items[..n], initial) + (if items[n].0 in initial then 1 else 0)
  }

  /** With distinct codes, the constructor's counter is the number of initially selected codes. */
  lemma {:induction false} CountInitialDistinct(items: seq<Item>, initial: seq<string>)
    requires forall i, j :: 0 <= i < j < |items| ==> items[i].0 != items[j].0
    ensures |Keys(items)| == |items|
    ensures CountInitial(items, initial) == CountTrue(Keys(items), Initial(Keys(items), initial))
  {
    if items != [] {
      var n := |items| - 1;
      var front := items[..n];
      forall i, j | 0 <= i < j < |front|
        ensures front[i].0 != front[j].0
      {
        assert front[i] == items[i] && front[j] == items[j];
      }
      CountInitialDistinct(front, initial);
      var prev := Keys(front);
      KeysMembers(front, items[n].0);
      var order := Keys(items);
      assert order == prev + [items[n].0];
      assert order[..n] == prev;
      CountTrueSameFlags(prev, Initial(prev, initial), Initial(order, initial));
    }
  }

  lemma {:induction false} CountTrueSameFlags(order: seq<string>, m1: map<string, bool>, m2: map<string, bool>)
    requires Covers(order, m1) && Covers(order, m2)
    requires forall c :: c in order ==> m1[c] == m2[c]
    ensures CountTrue(order, m1) == CountTrue(order, m2)
  {
    if order != [] {
      var n := |order| - 1;
      CountTrueSameFlags(order[..n], m1, m2);
    }
  }

  /**
   * The loop of `close` over the selection's entries: each entry's pending flag reverted to its
   * committed one (`reset`) or committed, and the committed flags that end on counted.
   */
  method CloseLoop(order: seq<string>, selected: map<string, bool>, active: map<string, bool>, reset: bool)
    returns (newSelected: map<string, bool>, newActive: map<string, bool>, numSelected: nat)
    requires forall c :: c in selected <==> c in order
    requires forall c :: c in active <==> c in order
    ensures newSelected == (if reset then selected else active) && newActive == newSelected
    ensures numSelected == CountTrue(order, newSelected)
  {
    ghost var target := if reset then selected else active;
    newSelected := selected;
    newActive := active;
    numSelected := 0;
    var k := 0;
    while k < |order|
      invariant 0 <= k <= |order|
      invariant reset ==> newSelected == selected && newActive == Overlay(active, selected, order[..k])
      invariant !reset ==> newActive == active && newSelected == Overlay(selected, active, order[..k])
      invariant numSelected == CountTrue(order[..k], target)
    {
      var code := order[k];
      assert order[..k + 1][..k] == order[..k];
      var sel;
      if reset {
        sel := newSelected[code];
        newActive := newActive[code := sel];
      } else {
        sel := newActive[code];
        newSelected := newSelected[code := sel];
      }
      if sel {
        numSelected := numSelected + 1;
      }
      k := k + 1;
    }
    assert order[..k] == order;
    if reset {
      OverlayAll(active, selected, order);
    } else {
      OverlayAll(selected, active, order);
    }
  }

  /** The loop of `doSelectAll`: every entry of the selection set to the same state. */
  method SetAllLoop(order: seq<string>, flags: map<string, bool>, allState: bool) returns (r: map<string, bool>)
    requires forall c :: c in flags <==> c in order
    ensures forall c :: c in r <==> c in order
    ensures forall c :: c in r ==> r[c] == allState
  {
    r := flags;
    var k := 0;
    while k < |order|
      invariant 0 <= k <= |order|
      invariant forall c :: c in r <==> c in order
      invariant forall i :: 0 <= i < k ==> r[order[i]] == allState
    {
      r := r[order[k] := allState];
      k := k + 1;
    }
  }

  /** `base` with the flags of the given codes taken from `top`, where `top` has them. */
  function Overlay(base: map<string, bool>, top: map<string, bool>, codes: seq<string>): map<string, bool>
  {
    if codes == [] then base
    else
      var n := |codes| - 1;
      var prev := Overlay(base, top, codes[..n]);
      if codes[n] in top then prev[codes[n] := top[codes[n]]] else prev
  }

  lemma {:induction false} OverlayMeaning(base: map<string, bool>, top: map<string, bool>, codes: seq<string>)
    ensures forall c :: c in Overlay(base, top, codes) <==> c in base || (c in codes && c in top)
    ensures forall c :: c in Overlay(base, top, codes) ==>
      Overlay(base, top, codes)[c] == if c in codes && c in top then top[c] else base[c]
  {
    if codes != [] {
      var n := |codes| - 1;
      OverlayMeaning(base, top, codes[..n]);
      assert codes == codes[..n] + [codes[n]];
    }
  }

  /** Overlaying every code onto flags with the same codes gives the overlaid flags. */
  lemma OverlayAll(base: map<string, bool>, top: map<string, bool>, codes: seq<string>)
    requires forall c :: c in base <==> c in codes
    requires forall c :: c in top <==> c in codes
    ensures Overlay(base, top, codes) == top
  {
    OverlayMeaning(base, top, codes);
  }

  /** The widget. `isOpen` is the widget's own `active` flag; the last three are classes of the outer element. */
  class MultipleSelect {
    const items: seq<Item>
    const hasOnSelect: bool
    var order: seq<string>
    var selected: map<string, bool>
    var active: map<string, bool>
    var isOpen: bool
    var collapsed: bool
    var empty: bool
    var full: bool

    ghost predicate Valid()
      reads this
    {
      order == Keys(items) &&
      (forall c :: c in selected <==> c in order) &&
      (forall c :: c in active <==> c in order)
    }

    /**
     * The constructor: every item starts with both flags set exactly when the initial list
     * includes its code; the widget is closed, and the outer element is marked empty when no
     * item was counted as selected and full when the count reaches the number of codes.
     */
    constructor (items: seq<Item>, initial: seq<string>, hasOnSelect: bool)
      ensures Valid() && this.items == items && this.hasOnSelect == hasOnSelect
      ensures selected == Initial(order, initial) && active == selected
      ensures !isOpen && collapsed
      ensures empty <==> CountInitial(items, initial) == 0
      ensures full <==> CountInitial(items, initial) != 0 && CountInitial(items, initial) == |order|
    {
      this.items := items;
      this.hasOnSelect := hasOnSelect;
      var numSelected := 0;
      var k := 0;
      var codes: seq<string> := [];
      var flags: map<string, bool> := map[];
      while k < |items|
        invariant 0 <= k <= |items|
        invariant codes == Keys(items[..k])
        invariant forall c :: c in flags <==> c in codes
        invariant forall c :: c in flags ==> (flags[c] <==> c in initial)
        invariant numSelected == CountInitial(items[..k], initial)
      {
        assert items[..k + 1][..k] == items[..k];
        var code := items[k].0;
        var initSel := code in initial;
        if initSel {
          numSelected := numSelected + 1;
        }
        if code !in codes {
          codes := codes + [code];
        }
        flags := flags[code := initSel];
        k := k + 1;
      }
      assert items[..k] == items;
      assert flags == Initial(codes, initial);
      order := codes;
      selected := flags;
      active := flags;
      isOpen := false;
      collapsed := true;
      empty := numSelected == 0;
      full := numSelected != 0 && numSelected == |codes|;
    }

    /** A click on the outer element opens a closed widget. */
    method ClickOuter()
      requires Valid()
      modifies this
      ensures Valid() && isOpen
      ensures selected == old(selected) && active == old(active)
      ensures old(isOpen) ==> collapsed == old(collapsed) && empty == old(empty) && full == old(full)
      ensures !old(isOpen) ==> !collapsed && !empty && !full
    {
      if !isOpen {
        Open();
      }
    }

    /** `open`: the widget is active and the outer element loses its collapsed, empty and full marks. */
    method Open()
      requires Valid()
      modifies this
      ensures Valid() && isOpen && !collapsed && !empty && !full
      ensures selected == old(selected) && active == old(active)
    {
      collapsed := false;
      empty := false;
      full := false;
      isOpen := true;
    }

    /**
     * A click on an item toggles its pending flag while the widget is open; on a closed widget
     * the click is not stopped and reaches the outer element, which opens the widget.
     */
    method ClickItem(code: string)
      requires Valid() && code in order
      modifies this
      ensures Valid() && selected == old(selected) && isOpen
      ensures old(isOpen) ==> active == old(active)[code := !old(active)[code]]
      ensures old(isOpen) ==> collapsed == old(collapsed) && empty == old(empty) && full == old(full)
      ensures !old(isOpen) ==> active == old(active) && !collapsed && !empty && !full
    {
      if isOpen {
        active := active[code := !active[code]];
      } else {
        Open();
      }
    }

    /** `doSelectAll`: every pending flag set to `allState`, the committed flags untouched. */
    method DoSelectAll(allState: bool)
      requires Valid()
      modifies this
      ensures Valid() && selected == old(selected)
      ensures forall c :: c in active ==> active[c] == allState
      ensures isOpen == old(isOpen) && collapsed == old(collapsed) && empty == old(empty) && full == old(full)
    {
      active := SetAllLoop(order, active, allState);
    }

    /**
     * `close`: with `reset` the pending flags go back to the committed ones, otherwise the
     * pending flags are committed; either way both end equal, the widget is closed and the
     * outer element is marked empty or full by the committed flags.
     */
    method Close(reset: bool)
      requires Valid()
      modifies this
      ensures Valid()
      ensures selected == (if reset then old(selected) else old(active))
      ensures active == selected
      ensures !isOpen && collapsed
      ensures empty <==> CountTrue(order, selected) == 0
      ensures full <==> CountTrue(order, selected) != 0 && CountTrue(order, selected) == |order|
    {
      var newSelected, newActive, numSelected := CloseLoop(order, selected, active, reset);
      selected := newSelected;
      active := newActive;
      isOpen := false;
      collapsed := true;
      empty := numSelected == 0;
      full := numSelected != 0 && numSelected == |order|;
    }

    /** The Cancel button. */
    method Cancel()
      requires Valid()
      modifies this
      ensures Valid() && selected == old(selected) && active == selected && !isOpen
    {
      Close(true);
    }

    /**
     * The OK button: when a callback is set, the pending codes go to it, and the widget commits
     * them and closes only if the callback answers with a true value (`accepted`).
     */
    method Ok(accepted: bool) returns (passed: Option<seq<string>>)
      requires Valid()
      modifies this
      ensures Valid()
      ensures passed == (if hasOnSelect then Some(ActiveCodes(old(order), old(active))) else None)
      ensures hasOnSelect && accepted ==> selected == old(active) && active == selected && !isOpen
      ensures !(hasOnSelect && accepted) ==> selected == old(selected) && active == old(active) && isOpen == old(isOpen)
    {
      passed := None;
      if hasOnSelect {
        passed := Some(ActiveCodes(order, active));
        if accepted {
          Close(false);
        }
      }
    }
  }

  // ---------------------------------------------------------------- query strings

  /** The separator before a new parameter: none right after a bare '?'. */
  function Amp(baseQuery: string): string
  {
    if baseQuery == "?" then "" else "&"
  }

  /**
   * The page's OK callback (`loadMultipleSelectFilter`): every item chosen means no filter,
   * some means `lookup=` and the codes joined by commas, none means the query for null values.
   * The callback answers nothing, so OK never closes the widget on this page.
   */
  function FilterQuery(baseQuery: string, noItemsQuery: string, lookup: string, itemCount: nat,
                       newSelected: seq<string>): (r: string)
    ensures |newSelected| == itemCount ==> r == baseQuery
    ensures |newSelected| != itemCount && newSelected != [] ==>
      r == baseQuery + Amp(baseQuery) + lookup + "=" + Join(",", newSelected)
    ensures |newSelected| != itemCount && newSelected == [] ==> r == noItemsQuery
  {
    if |newSelected| == itemCount then baseQuery
    else if |newSelected| > 0 then baseQuery + Amp(baseQuery) + lookup + "=" + Join(",", newSelected)
    else noItemsQuery
  }

  /**
   * The codes a partial selection puts in the query come back unchanged when the server
   * prepares the `__in` parameter, provided no code contains a comma.
   */
  lemma SelectionSurvivesQuery(lookup: string, newSelected: seq<string>)
    requires newSelected != [] && Filters.EndsWith(lookup, "__in")
    requires forall i :: 0 <= i < |newSelected| ==> ',' !in newSelected[i]
    ensures Filters.PrepareLookupValue(lookup, Join(",", newSelected)) == Filters.Items(newSelected)
  {
    assert Filters.LIST_SEPARATOR == [','];
    SplitJoin(newSelected, ',');
  }

  /**
   * With distinct codes, the codes OK passes number as many as the items exactly when every
   * flag is on, and are none exactly when every flag is off: the widget's full and empty marks.
   */
  lemma {:induction false} SelectionCount(items: seq<Item>, m: map<string, bool>)
    requires forall i, j :: 0 <= i < j < |items| ==> items[i].0 != items[j].0
    requires Covers(Keys(items), m)
    ensures |ActiveCodes(Keys(items), m)| == |items| <==> forall c :: c in Keys(items) ==> m[c]
    ensures ActiveCodes(Keys(items), m) == [] <==> forall c :: c in Keys(items) ==> !m[c]
  {
    CountInitialDistinct(items, []);
    CountTrueAll(Keys(items), m);
    CountTrueZero(Keys(items), m);
  }

  /**
   * Where the page goes after OK: with every item chosen to the unfiltered list, with none
   * (and at least one item) to the null-values query, otherwise to a filter on the chosen codes.
   */
  lemma FilterQueryFollowsFlags(baseQuery: string, noItemsQuery: string, lookup: string, items: seq<Item>, m: map<string, bool>)
    requires forall i, j :: 0 <= i < j < |items| ==> items[i].0 != items[j].0
    requires Covers(Keys(items), m)
    ensures (forall c :: c in Keys(items) ==> m[c]) ==>
      FilterQuery(baseQuery, noItemsQuery, lookup, |items|, ActiveCodes(Keys(items), m)) == baseQuery
    ensures items != [] && (forall c :: c in Keys(items) ==> !m[c]) ==>
      FilterQuery(baseQuery, noItemsQuery, lookup, |items|, ActiveCodes(Keys(items), m)) == noItemsQuery
    ensures (exists c :: c in Keys(items) && m[c]) && (exists c :: c in Keys(items) && !m[c]) ==>
      FilterQuery(baseQuery, noItemsQuery, lookup, |items|, ActiveCodes(Keys(items), m)) ==
        baseQuery + Amp(baseQuery) + lookup + "=" + Join(",", ActiveCodes(Keys(items), m))
  {
    SelectionCount(items, m);
    CountInitialDistinct(items, []);
  }

  /** The separator `loadNumericRangeFilter` puts before a bound: none after a trailing '?'. */
  function AmpAfter(qs: string): string
  {
    if qs != [] && qs[|qs| - 1] == '?' then "" else "&"
  }

  /** `loadNumericRangeFilter`'s submit: each non-empty bound appended as `lookup=value`. */
  function RangeQuery(baseQuery: string, lookupGte: string, lookupLte: string, gte: string, lte: string): (r: string)
    ensures gte == "" && lte == "" ==> r == baseQuery
    ensures gte != "" && lte == "" ==> r == baseQuery + AmpAfter(baseQuery) + lookupGte + "=" + gte
    ensures gte == "" && lte != "" ==> r == baseQuery + AmpAfter(baseQuery) + lookupLte + "=" + lte
    ensures gte != "" && lte != "" && gte[|gte| - 1] != '?' ==>
      r == baseQuery + AmpAfter(baseQuery) + lookupGte + "=" + gte + "&" + lookupLte + "=" + lte
  {
    var withGte := if gte != "" then baseQuery + AmpAfter(baseQuery) + lookupGte + "=" + gte else baseQuery;
    if lte != "" then withGte + AmpAfter(withGte) + lookupLte + "=" + lte else withGte
  }

  /** The parameters the range form adds: each given bound as `lookup=value`, lower bound first. */
  function BoundParams(lookupGte: string, lookupLte: string, gte: string, lte: string): seq<string>
  {
    (if gte != "" then [lookupGte + "=" + gte] else []) + (if lte != "" then [lookupLte + "=" + lte] else [])
  }

  /**
   * After a base query ending in '?', the range form's query is the base followed by the given
   * bounds joined by '&'; when no part holds an '&', splitting what follows the base at '&'
   * gives back exactly those bound parameters.
   */
  lemma RangeQueryParameters(baseQuery: string, lookupGte: string, lookupLte: string, gte: string, lte: string)
    requires baseQuery != [] && baseQuery[|baseQuery| - 1] == '?'
    requires gte == "" || gte[|gte| - 1] != '?'
    requires '&' !in lookupGte && '&' !in lookupLte && '&' !in gte && '&' !in lte
    ensures RangeQuery(baseQuery, lookupGte, lookupLte, gte, lte) == baseQuery + Join("&", BoundParams(lookupGte, lookupLte, gte, lte))
    ensures BoundParams(lookupGte, lookupLte, gte, lte) != [] ==>
      Split(RangeQuery(baseQuery, lookupGte, lookupLte, gte, lte)[|baseQuery|..], "&") == BoundParams(lookupGte, lookupLte, gte, lte)
  {
    var params := BoundParams(lookupGte, lookupLte, gte, lte);
    RangeQueryJoins(baseQuery, lookupGte, lookupLte, gte, lte);
    if params != [] {
      var r := RangeQuery(baseQuery, lookupGte, lookupLte, gte, lte);
      assert r[|baseQuery|..] == Join("&", params);
      BoundParamsFree(lookupGte, lookupLte, gte, lte);
      SplitJoin(params, '&');
    }
  }

  lemma RangeQueryJoins(baseQuery: string, lookupGte: string, lookupLte: string, gte: string, lte: string)
    requires baseQuery != [] && baseQuery[|baseQuery| - 1] == '?'
    requires gte == "" || gte[|gte| - 1] != '?'
    ensures RangeQuery(baseQuery, lookupGte, lookupLte, gte, lte) == baseQuery + Join("&", BoundParams(lookupGte, lookupLte, gte, lte))
  {
    var params := BoundParams(lookupGte, lookupLte, gte, lte);
    var g := lookupGte + "=" + gte;
    var l := lookupLte + "=" + lte;
    assert AmpAfter(baseQuery) == "";
    if gte != "" && lte != "" {
      assert params == [g, l] && params[1..] == [l];
      assert Join("&", params) == g + "&" + l;
      assert baseQuery + "" + lookupGte + "=" + gte + "&" + lookupLte + "=" + lte == baseQuery + (g + "&" + l);
    } else if gte != "" {
      assert params == [g];
      assert baseQuery + "" + lookupGte + "=" + gte == baseQuery + g;
    } else if lte != "" {
      assert params == [l];
      assert baseQuery + "" + lookupLte + "=" + lte == baseQuery + l;
    } else {
      assert params == [];
    }
  }

  lemma BoundParamsFree(lookupGte: string, lookupLte: string, gte: string, lte: string)
    requires '&' !in lookupGte && '&' !in lookupLte && '&' !in gte && '&' !in lte
    ensures forall i :: 0 <= i < |BoundParams(lookupGte, lookupLte, gte, lte)| ==> '&' !in BoundParams(lookupGte, lookupLte, gte, lte)[i]
  {
    var params := BoundParams(lookupGte, lookupLte, gte, lte);
    forall i | 0 <= i < |params|
      ensures '&' !in params[i]
    {
      if gte != "" && i == 0 {
        assert params[i] == lookupGte + "=" + gte;
      } else {
        assert params[i] == lookupLte + "=" + lte;
      }
    }
  }
}
