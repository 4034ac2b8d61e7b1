/**
 * The admin list filters: how a filter takes its parameters out of the query string, the
 * hierarchical and two-field range filters, and the multiple-choice filter with its
 * choice list, its selected set and the rows it keeps.
 */
module Filters {

  import opened Wrappers
  import opened Strings
  import opened Values
  import opened Numbers
  import opened Quoting

  /** A prepared lookup value: a plain string, a split `__in` list, or an `__isnull` flag. */
  datatype LookupValue = Text(s: string) | Items(items: seq<string>) | Flag(b: bool)

  /** A table row as the filters see it: field name to stored value; a missing field reads as null. */
  type Row = map<string, Value>

  function FieldValue(row: Row, field: string): Value
  {
    if field in row then row[field] else Null
  }

  predicate EndsWith(s: string, suffix: string)
  {
    |suffix| <= |s| && s[|s| - |suffix|..] == suffix
  }

  const LIST_SEPARATOR := ","

  /** The strings an `__isnull` parameter treats as false, after lower-casing. */
  const FALSE_FLAGS := ["", "false", "0"]

  /**
   * Django's `prepare_lookup_value`: an `__in` value is split on the separator, an
   * `__isnull` value becomes a flag, any other value is kept as it is.
   */
  function PrepareLookupValue(key: string, value: string): (r: LookupValue)
    ensures EndsWith(key, "__in") ==> r.Items? && Join(LIST_SEPARATOR, r.items) == value && |r.items| >= 1
    ensures !EndsWith(key, "__in") && EndsWith(key, "__isnull") ==> r == Flag(Lower(value) !in FALSE_FLAGS)
    ensures !EndsWith(key, "__in") && !EndsWith(key, "__isnull") ==> r == Text(value)
  {
    if EndsWith(key, "__in") then Items(Split(value, LIST_SEPARATOR))
    else if EndsWith(key, "__isnull") then Flag(Lower(value) !in FALSE_FLAGS)
    else Text(value)
  }

  /** The parameters a filter takes: each expected one that is present, prepared. */
  function Used(entries: map<string, string>, expected: seq<string>): (r: map<string, LookupValue>)
    ensures forall p :: p in r <==> p in expected && p in entries
    ensures forall p :: p in r ==> r[p] == PrepareLookupValue(p, entries[p])
  {
    map p | p in expected && p in entries :: PrepareLookupValue(p, entries[p])
  }

  /** The query-string parameters of one request, shared by every filter of the list. */
  class QueryParams {
    var entries: map<string, string>

    constructor (entries: map<string, string>)
      ensures this.entries == entries
    {
      this.entries := entries;
    }
  }

  /**
   * The loop of `MyListFilter.__init__` (and of Django's field filters): every expected
   * parameter present is popped out of the shared parameters into the filter's own.
   */
  method ConsumeParameters(params: QueryParams, expected: seq<string>) returns (used: map<string, LookupValue>)
    modifies params
    ensures used == Used(old(params.entries), expected)
    ensures forall p :: p in params.entries <==> p in old(params.entries) && p !in expected
    ensures forall p :: p in params.entries ==> params.entries[p] == old(params.entries)[p]
  {
    ghost var entries := params.entries;
    var rest := params.entries;
    used := map[];
    var k := 0;
    while k < |expected|
      invariant 0 <= k <= |expected|
      invariant forall q :: q in used <==> q in entries && q in expected[..k]
      invariant forall q :: q in used ==> used[q] == PrepareLookupValue(q, entries[q])
      invariant forall q :: q in rest <==> q in entries && q !in expected[..k]
      invariant forall q :: q in rest ==> rest[q] == entries[q]
    {
      var p := expected[k];
      if p in rest {
        var value := rest[p];
        rest := rest - {p};
        used := used[p := PrepareLookupValue(p, value)];
      }
      assert expected[..k + 1] == expected[..k] + [p];
      k := k + 1;
    }
    assert expected[..k] == expected;
    params.entries := rest;
  }

  /** The two shapes of `field_spec`: levels of (field, filter) pairs, or a (lower field, upper field) pair. */
  datatype FieldSpec = Levels(levels: seq<(string, string)>) | Bounds(gteField: string, lteField: string)

  /** A filter class made by `MyListFilter.create`. */
  datatype FilterClass = FilterClass(title: string, fieldSpec: FieldSpec)

  /** `create`: a subclass carrying the given title and field spec. */
  function Create(title: string, fieldSpec: FieldSpec): (r: FilterClass)
    ensures r.title == title && r.fieldSpec == fieldSpec
  {
    FilterClass(title, fieldSpec)
  }

  /** `HierarchicalFilter.expected_parameters`: the field of every level, top level first. */
  function HierarchyParameters(levels: seq<(string, string)>): (r: seq<string>)
    ensures |r| == |levels|
    ensures forall i :: 0 <= i < |levels| ==> r[i] == levels[i].0
  {
    if levels == [] then [] else [levels[0].0] + HierarchyParameters(levels[1..])
  }

  function GteKey(field: string): string { field + "__range__gte" }

  function LteKey(field: string): string { field + "__range__lte" }

  /**
   * `TwoNumbersInRangeFilter`: the lower bound applies to the first field and the upper
   * bound to the second; a row is kept only when its own range lies inside the bounds.
   */
  class RangeFilter {
    const fieldGte: string
    const fieldLte: string
    var usedParameters: map<string, LookupValue>

    constructor (spec: (string, string), params: QueryParams)
      modifies params
      ensures fieldGte == spec.0 && fieldLte == spec.1
      ensures usedParameters == Used(old(params.entries), [GteKey(spec.0), LteKey(spec.1)])
      ensures forall p :: p in params.entries <==>
        p in old(params.entries) && p != GteKey(spec.0) && p != LteKey(spec.1)
      ensures forall p :: p in params.entries ==> params.entries[p] == old(params.entries)[p]
    {
      fieldGte := spec.0;
      fieldLte := spec.1;
      new;
      usedParameters := ConsumeParameters(params, [GteKey(spec.0), LteKey(spec.1)]);
    }

    /** `lookup_val_gte`. */
    function LookupGte(): (r: Option<string>)
      reads this
      ensures r.Some? <==> GteKey(fieldGte) in usedParameters
    {
      BoundText(usedParameters, GteKey(fieldGte))
    }

    function LookupLte(): (r: Option<string>)
      reads this
      ensures r.Some? <==> LteKey(fieldLte) in usedParameters
    {
      BoundText(usedParameters, LteKey(fieldLte))
    }
  }

  function BoundText(used: map<string, LookupValue>, key: string): (r: Option<string>)
    ensures r.Some? <==> key in used
  {
    if key !in used then None
    else match used[key]
      case Text(s) => Some(s)
      case Items(items) => Some(Join(LIST_SEPARATOR, items))
      case Flag(b) => Some(if b then "True" else "False")
  }

  /**
   * How the database reads a lookup value for a numeric field: integer fields (such as the
   * years a result was observed) with `int()`, decimal fields (such as ages) as decimal text.
   */
  datatype NumberKind = WholeNumbers | Decimals

  predicate OfKind(kind: NumberKind, v: Value)
  {
    match kind
    case WholeNumbers => v.Int?
    case Decimals => v.Dec?
  }

  /** `a <= b` for two numbers of one kind. */
  predicate NumLe(kind: NumberKind, a: Value, b: Value)
    requires OfKind(kind, a) && OfKind(kind, b)
  {
    match kind
    case WholeNumbers => a.i <= b.i
    case Decimals => DecLe(a, b)
  }

  /** The message an integer field gives for a lookup value `int()` refuses. */
  function IntegerLookupError(field: string, t: string): string
  {
    "Field '" + field + "' expected a number but got '" + t + "'."
  }

  /** The message a decimal field gives for a lookup value that is not a decimal. */
  function DecimalLookupError(t: string): string
  {
    "\U{201C}" + t + "\U{201D} value must be a decimal number."
  }

  /** The bound a lookup value stands for in `field`: absent, a number of the field's kind, or an error. */
  function ParseBound(kind: NumberKind, field: string, text: Option<string>): (r: Result<Option<Value>, string>)
    ensures text.None? ==> r == Ok(None)
    ensures r.Ok? && r.value.Some? ==> OfKind(kind, r.value.value)
    ensures text.Some? && kind.WholeNumbers? ==>
      if ParseInt(text.value).Some? then r == Ok(Some(Int(ParseInt(text.value).value)))
      else r == Err(IntegerLookupError(field, text.value))
    ensures text.Some? && kind.Decimals? ==>
      if ParseDecimal(text.value).Some? then r == Ok(Some(ParseDecimal(text.value).value))
      else r == Err(DecimalLookupError(text.value))
  {
    match text
    case None => Ok(None)
    case Some(t) =>
      match kind
      case WholeNumbers =>
        (match ParseInt(t)
         case None => Err(IntegerLookupError(field, t))
         case Some(n) => Ok(Some(Int(n))))
      case Decimals =>
        (match ParseDecimal(t)
         case None => Err(DecimalLookupError(t))
         case Some(d) => Ok(Some(d)))
  }

  /**
   * A row passes a bound when its field holds a number of the field's kind on the right
   * side of it; a null never passes.
   */
  predicate AboveBound(row: Row, field: string, kind: NumberKind, bound: Option<Value>)
    requires bound.Some? ==> OfKind(kind, bound.value)
  {
    bound.None? || (OfKind(kind, FieldValue(row, field)) && NumLe(kind, bound.value, FieldValue(row, field)))
  }

  predicate BelowBound(row: Row, field: string, kind: NumberKind, bound: Option<Value>)
    requires bound.Some? ==> OfKind(kind, bound.value)
  {
    bound.None? || (OfKind(kind, FieldValue(row, field)) && NumLe(kind, FieldValue(row, field), bound.value))
  }

  /** The two fields a range filter reads, with the kind of number each holds. */
  datatype RangeFields = RangeFields(gteField: string, gteKind: NumberKind, lteField: string, lteKind: NumberKind)

  /** `Year_start` and `Year_stop`, the one pair the result list filters on. */
  const YEAR_RANGE := RangeFields("Year_start", WholeNumbers, "Year_stop", WholeNumbers)

  predicate BoundsOfKind(fields: RangeFields, gte: Option<Value>, lte: Option<Value>)
  {
    (gte.Some? ==> OfKind(fields.gteKind, gte.value)) && (lte.Some? ==> OfKind(fields.lteKind, lte.value))
  }

  predicate InRange(row: Row, fields: RangeFields, gte: Option<Value>, lte: Option<Value>)
    requires BoundsOfKind(fields, gte, lte)
  {
    AboveBound(row, fields.gteField, fields.gteKind, gte) && BelowBound(row, fields.lteField, fields.lteKind, lte)
  }

  function KeepInRange(rows: seq<Row>, fields: RangeFields, gte: Option<Value>, lte: Option<Value>): (r: seq<Row>)
    requires BoundsOfKind(fields, gte, lte)
    ensures forall row :: row in r <==> row in rows && InRange(row, fields, gte, lte)
    ensures gte.None? && lte.None? ==> r == rows
  {
    if rows == [] then []
    else
      (if InRange(rows[0], fields, gte, lte) then [rows[0]] else []) +
      KeepInRange(rows[1..], fields, gte, lte)
  }

  /**
   * The filter arguments `TwoNumbersInRangeFilter.queryset` builds, applied to the rows: an
   * error when a given bound cannot be read as the field's kind of number (the lower bound
   * is reported first), otherwise the rows inside the bounds.
   */
  function RangeQueryset(rows: seq<Row>, fields: RangeFields, gteText: Option<string>, lteText: Option<string>): (r: Result<seq<Row>, string>)
    ensures gteText.None? && lteText.None? ==> r == Ok(rows)
    ensures r.Ok? <==> ParseBound(fields.gteKind, fields.gteField, gteText).Ok? && ParseBound(fields.lteKind, fields.lteField, lteText).Ok?
    ensures ParseBound(fields.gteKind, fields.gteField, gteText).Err? ==> r == Err(ParseBound(fields.gteKind, fields.gteField, gteText).error)
    ensures r.Ok? ==> r.value == KeepInRange(rows, fields,
      ParseBound(fields.gteKind, fields.gteField, gteText).value, ParseBound(fields.lteKind, fields.lteField, lteText).value)
  {
    match (ParseBound(fields.gteKind, fields.gteField, gteText), ParseBound(fields.lteKind, fields.lteField, lteText))
    case (Ok(gte), Ok(lte)) => Ok(KeepInRange(rows, fields, gte, lte))
    case (Err(e), _) => Err(e)
    case (_, Err(e)) => Err(e)
  }

  /**
   * With both bounds given, a row is kept exactly when its range lies inside the filter
   * range: the lower field at least the lower bound and the upper field at most the upper bound.
   */
  lemma RangeIsContainment(rows: seq<Row>, fields: RangeFields, lo: Value, hi: Value, row: Row)
    requires OfKind(fields.gteKind, lo) && OfKind(fields.lteKind, hi)
    ensures row in KeepInRange(rows, fields, Some(lo), Some(hi)) <==>
      row in rows && OfKind(fields.gteKind, FieldValue(row, fields.gteField)) && OfKind(fields.lteKind, FieldValue(row, fields.lteField)) &&
      NumLe(fields.gteKind, lo, FieldValue(row, fields.gteField)) && NumLe(fields.lteKind, FieldValue(row, fields.lteField), hi)
  {
  }

  /**
   * The observation-years filter with two years typed in: a result is kept exactly when both
   * its years are recorded and its start is no earlier than the first and its stop no later
   * than the second.
   */
  lemma {:induction false} YearRangeIsContainment(rows: seq<Row>, loText: string, hiText: string, row: Row)
    requires ParseInt(loText).Some? && ParseInt(hiText).Some?
    ensures var r := RangeQueryset(rows, YEAR_RANGE, Some(loText), Some(hiText));
      r.Ok? && (row in r.value <==>
        row in rows && FieldValue(row, "Year_start").Int? && FieldValue(row, "Year_stop").Int? &&
        ParseInt(loText).value <= FieldValue(row, "Year_start").i && FieldValue(row, "Year_stop").i <= ParseInt(hiText).value)
  {
    var lo := Int(ParseInt(loText).value);
    var hi := Int(ParseInt(hiText).value);
    assert ParseBound(WholeNumbers, "Year_start", Some(loText)) == Ok(Some(lo));
    assert ParseBound(WholeNumbers, "Year_stop", Some(hiText)) == Ok(Some(hi));
    RangeIsContainment(rows, YEAR_RANGE, lo, hi, row);
  }

  /** A year bound with a fraction is refused with the integer field's message, not rounded. */
  lemma FractionalYearRefused(rows: seq<Row>, hiText: Option<string>)
    ensures RangeQueryset(rows, YEAR_RANGE, Some("2000.5"), hiText) == Err(IntegerLookupError("Year_start", "2000.5"))
  {
    assert NoSpace("2000.5");
    StripNoSpace("2000.5");
    assert SignOf("2000.5") == (false, "2000.5");
    assert !IsDigit("2000.5"[4]);
    assert !DigitPart("2000.5");
    assert ParseBound(WholeNumbers, "Year_start", Some("2000.5")) == Err(IntegerLookupError("Year_start", "2000.5"));
    assert YEAR_RANGE.gteKind == WholeNumbers && YEAR_RANGE.gteField == "Year_start";
  }

  /** A result whose years only overlap the filter range is dropped: 2005 to 2015 against 2010 to 2020. */
  lemma OverlapIsNotEnough()
    ensures var row := map["Year_start" := Int(2005), "Year_stop" := Int(2015)];
      KeepInRange([row], YEAR_RANGE, Some(Int(2010)), Some(Int(2020))) == []
  {
    var row := map["Year_start" := Int(2005), "Year_stop" := Int(2015)];
    assert !AboveBound(row, "Year_start", WholeNumbers, Some(Int(2010)));
  }

  /**
   * `ChoicesMultipleSelectFilter`: the `__in` and `__isnull` parameters of one field, over
   * the field's flattened choices (a `None` code is the null choice).
   */
  class ChoicesFilter {
    const fieldPath: string
    const flatChoices: seq<(Option<string>, string)>
    var usedParameters: map<string, LookupValue>

    function LookupKwarg(): string reads this { fieldPath + "__in" }

    function LookupKwargIsnull(): string reads this { fieldPath + "__isnull" }

    constructor (fieldPath: string, flatChoices: seq<(Option<string>, string)>, params: QueryParams)
      modifies params
      ensures this.fieldPath == fieldPath && this.flatChoices == flatChoices
      ensures usedParameters == Used(old(params.entries), [fieldPath + "__in", fieldPath + "__isnull"])
      ensures forall p :: p in params.entries <==>
        p in old(params.entries) && p != fieldPath + "__in" && p != fieldPath + "__isnull"
      ensures forall p :: p in params.entries ==> params.entries[p] == old(params.entries)[p]
    {
      this.fieldPath := fieldPath;
      this.flatChoices := flatChoices;
      new;
      usedParameters := ConsumeParameters(params, [fieldPath + "__in", fieldPath + "__isnull"]);
    }

    /** `selected`: nothing under an `isnull` filter; otherwise the quoted codes that are selected, or all of them when none are. */
    method Selected() returns (sel: set<string>)
      ensures IsNullSet(usedParameters, LookupKwargIsnull()) ==> sel == {}
      ensures !IsNullSet(usedParameters, LookupKwargIsnull()) ==>
        sel == SelectedCodes(flatChoices, SelectedItems(usedParameters, LookupKwarg()))
    {
      var items := SelectedItems(usedParameters, LookupKwarg());
      if IsNullSet(usedParameters, LookupKwargIsnull()) {
        return {};
      }
      sel := {};
      var k := 0;
      while k < |flatChoices|
        invariant 0 <= k <= |flatChoices|
        invariant sel == SelectedCodes(flatChoices[..k], items)
      {
        var (lookup, _) := flatChoices[k];
        assert flatChoices[..k + 1] == flatChoices[..k] + [flatChoices[k]];
        SelectedCodesSnoc(flatChoices[..k], flatChoices[k], items);
        if lookup.Some? {
          var code := Quote(lookup.value);
          if items.None? || code in items.value {
            sel := sel + {code};
          }
        }
        k := k + 1;
      }
      assert flatChoices[..k] == flatChoices;
    }

    /** `queryset`: keep rows whose value is among the unquoted selection, then apply the null test, each only if given. */
    function Queryset(rows: seq<Row>): (r: seq<Row>)
      reads this
      ensures forall row :: row in r <==>
        (row in rows &&
         (LookupKwarg() in usedParameters ==> InSelection(FieldValue(row, fieldPath), usedParameters[LookupKwarg()])) &&
         (LookupKwargIsnull() in usedParameters ==> NullTest(FieldValue(row, fieldPath), usedParameters[LookupKwargIsnull()])))
      ensures LookupKwarg() !in usedParameters && LookupKwargIsnull() !in usedParameters ==> r == rows
    {
      ChoiceRows(rows, fieldPath, usedParameters)
    }
  }

  /** `choices`: one entry per non-null choice, with its quoted code and its label, in declaration order. */
  function Choices(flatChoices: seq<(Option<string>, string)>): (r: seq<(string, string)>)
    ensures |r| <= |flatChoices|
    ensures forall p :: p in r <==> exists j :: 0 <= j < |flatChoices| && IsChoiceEntry(flatChoices[j], p)
    ensures (forall j :: 0 <= j < |flatChoices| ==> flatChoices[j].0.Some?) ==>
      |r| == |flatChoices| && forall i :: 0 <= i < |r| ==> IsChoiceEntry(flatChoices[i], r[i])
  {
    if flatChoices == [] then []
    else
      var rest := Choices(flatChoices[1..]);
      var head := flatChoices[0];
      assert forall j :: 1 <= j < |flatChoices| ==> flatChoices[1..][j - 1] == flatChoices[j];
      if head.0.None? then rest
      else [(Quote(head.0.value), head.1)] + rest
  }

  /** The entries keep the order of the choices: those of a longer list follow those of its start. */
  lemma {:induction false} ChoicesAppend(a: seq<(Option<string>, string)>, b: seq<(Option<string>, string)>)
    ensures Choices(a + b) == Choices(a) + Choices(b)
  {
    if a == [] {
      assert a + b == b;
    } else {
      assert (a + b)[1..] == a[1..] + b;
      ChoicesAppend(a[1..], b);
    }
  }

  /** `p` is the entry `choices` lists for the flat choice `c`. */
  predicate IsChoiceEntry(c: (Option<string>, string), p: (string, string))
  {
    c.0.Some? && p == (Quote(c.0.value), c.1)
  }

  /** The `__isnull` parameter is present and true. */
  predicate IsNullSet(used: map<string, LookupValue>, key: string)
  {
    key in used && used[key] == Flag(true)
  }

  /** The selected codes, when an `__in` list was given. */
  function SelectedItems(used: map<string, LookupValue>, key: string): (r: Option<seq<string>>)
    ensures r.Some? ==> key in used
  {
    if key in used && used[key].Items? then Some(used[key].items) else None
  }

  function SelectedCodes(flatChoices: seq<(Option<string>, string)>, items: Option<seq<string>>): (r: set<string>)
    ensures forall c :: c in r <==>
      (exists j :: 0 <= j < |flatChoices| && flatChoices[j].0.Some? &&
        c == Quote(flatChoices[j].0.value) && (items.None? || c in items.value))
  {
    set j | 0 <= j < |flatChoices| && flatChoices[j].0.Some? &&
      (items.None? || Quote(flatChoices[j].0.value) in items.value) :: Quote(flatChoices[j].0.value)
  }

  lemma SelectedCodesSnoc(front: seq<(Option<string>, string)>, last: (Option<string>, string), items: Option<seq<string>>)
    ensures SelectedCodes(front + [last], items) ==
      SelectedCodes(front, items) + (if last.0.Some? && (items.None? || Quote(last.0.value) in items.value) then {Quote(last.0.value)} else {})
  {
    var all := front + [last];
    assert forall j :: 0 <= j < |front| ==> all[j] == front[j];
    assert all[|front|] == last;
  }

  /** With nothing selected, the selected set is exactly the set of codes `choices` offers. */
  lemma NothingSelectedMeansAll(flatChoices: seq<(Option<string>, string)>, used: map<string, LookupValue>, key: string)
    requires key !in used
    ensures forall c :: c in SelectedCodes(flatChoices, SelectedItems(used, key)) <==>
      (exists p :: p in Choices(flatChoices) && p.0 == c)
  {
    var sel := SelectedCodes(flatChoices, SelectedItems(used, key));
    forall c | c in sel
      ensures exists p :: p in Choices(flatChoices) && p.0 == c
    {
      var j :| 0 <= j < |flatChoices| && flatChoices[j].0.Some? && c == Quote(flatChoices[j].0.value);
      assert IsChoiceEntry(flatChoices[j], (c, flatChoices[j].1));
    }
  }

  /** A value matches an `__in` list when it is one of the unquoted items; a null matches nothing. */
  predicate InSelection(v: Value, selection: LookupValue)
  {
    match selection
    case Items(items) => v.Str? && exists i :: 0 <= i < |items| && v.s == Unquote(items[i])
    case Text(s) => v.Str? && v.s == Unquote(s)
    case Flag(_) => false
  }

  /** `__isnull=True` keeps nulls only, `__isnull=False` non-nulls only. */
  predicate NullTest(v: Value, flag: LookupValue)
  {
    match flag
    case Flag(b) => b <==> v.Null?
    case _ => true
  }

  function ChoiceRows(rows: seq<Row>, field: string, used: map<string, LookupValue>): (r: seq<Row>)
    ensures forall row :: row in r <==>
      (row in rows &&
       (field + "__in" in used ==> InSelection(FieldValue(row, field), used[field + "__in"])) &&
       (field + "__isnull" in used ==> NullTest(FieldValue(row, field), used[field + "__isnull"])))
    ensures field + "__in" !in used && field + "__isnull" !in used ==> r == rows
  {
    if rows == [] then []
    else
      var keep := (field + "__in" in used ==> InSelection(FieldValue(rows[0], field), used[field + "__in"])) &&
        (field + "__isnull" in used ==> NullTest(FieldValue(rows[0], field), used[field + "__isnull"]));
      (if keep then [rows[0]] else []) + ChoiceRows(rows[1..], field, used)
  }

  /** A row holding a choice code is kept when the code is selected, since the selection is unquoted before filtering. */
  lemma SelectedCodeKeepsRow(code: string, items: seq<string>, i: nat)
    requires i < |items| && items[i] == Quote(code)
    ensures InSelection(Str(code), Items(items))
  {
    UnquoteQuote(code);
  }
}
