/**
 * The CSV importer: coercion of one cell into a typed field value, the two row parsers
 * (studies and results, the latter linking each result to one approved study), and the
 * file loop that numbers the rows, collects the log and counts the instances.
 */
module Importer {

  import opened Wrappers
  import opened Strings
  import opened Values
  import opened Schema
  import opened Users
  import opened Numbers
  import opened Studies
  import Results

  const NULL_VALUES: seq<string> := ["n/a", "not applicable", "none", "not defined", "", "missing"]
  const TRUE_VALUES: seq<string> := ["t", "1", "yes", "y", "true"]
  const FALSE_VALUES: seq<string> := ["f", "0", "no", "n", "false"]

  // ---------------------------------------------------------------- booleans

  /** `parse_bool`: the lower-cased text looked up in the true and false tokens. */
  function ParseBool(value: Option<string>): (r: Option<bool>)
    ensures value.None? ==> r.None?
    ensures value.Some? ==> (r == Some(true) <==> Lower(value.value) in TRUE_VALUES)
    ensures value.Some? ==> (r == Some(false) <==> Lower(value.value) in FALSE_VALUES)
  {
    match value
    case None => None
    case Some(v) =>
      var lower := Lower(v);
      if lower in TRUE_VALUES then Some(true)
      else if lower in FALSE_VALUES then Some(false)
      else None
  }

  /** `format_bool_charfield`: '?' for unknown, 'Y' for true, 'F' for false. */
  function FormatBoolCharfield(value: Option<bool>): (r: string)
    ensures |r| == 1
  {
    match value
    case None => "?"
    case Some(b) => if b then "Y" else "F"
  }

  /** Formatting a boolean and parsing it back gives the same boolean, unknown included. */
  lemma ParseFormatBool(value: Option<bool>)
    ensures ParseBool(Some(FormatBoolCharfield(value))) == value
  {
    var text := FormatBoolCharfield(value);
    assert Lower(text) == [LowerChar(text[0])];
  }

  // ---------------------------------------------------------------- field descriptions

  const DESCRIPTION_SKIP: seq<string> := ["Created_time", "Updated_time", "Approved_time", "Created_by", "Approved_by"]

  /** The type text `get_field_descriptions` gives each kind of field. */
  function FieldTypeDescription(kind: FieldKind): string
  {
    match kind
    case CharField(maxLength, _) => "Text (up to " + NatStr(maxLength) + " characters)"
    case TextField => "Text"
    case DecimalField(_, _) => "Decimal"
    case PositiveIntegerField => "Number"
    case BooleanField => "Yes/No/Unknown"
    case _ => "Other"
  }

  predicate Described(f: Field)
  {
    f.name !in DESCRIPTION_SKIP && !f.kind.ForeignKey? && f.name != "id"
  }

  /** `get_field_descriptions`: every field but the audit fields, relations and the key, with its type text. */
  function FieldDescriptions(schema: seq<Field>): (r: seq<(Field, string)>)
    ensures |r| <= |schema|
    ensures forall p :: p in r ==> p.0 in schema && Described(p.0) && p.1 == FieldTypeDescription(p.0.kind)
    ensures forall f :: f in schema && Described(f) ==> (f, FieldTypeDescription(f.kind)) in r
  {
    if schema == [] then []
    else
      (if Described(schema[0]) then [(schema[0], FieldTypeDescription(schema[0].kind))] else [])
      + FieldDescriptions(schema[1..])
  }

  // ---------------------------------------------------------------- one cell

  /** `text.lower().strip()`, the form in which cells and choices are compared. */
  function Normalize(text: string): string
  {
    Strip(Lower(text))
  }

  /** Each choice's comparison keys: its display text and its code, normalised. */
  function ChoiceKeys(choices: seq<Choice>): (r: seq<(string, string)>)
    ensures |r| == |choices|
    ensures forall i :: 0 <= i < |choices| ==> r[i] == (Normalize(choices[i].display), Normalize(choices[i].code))
  {
    if choices == [] then [] else [(Normalize(choices[0].display), Normalize(choices[0].code))] + ChoiceKeys(choices[1..])
  }

  /** The position of the first choice one of whose keys equals `key`. */
  function FirstMatch(keys: seq<(string, string)>, key: string): (r: Option<nat>)
    ensures r.Some? ==> r.value < |keys| && (keys[r.value].0 == key || keys[r.value].1 == key)
    ensures r.Some? ==> forall j :: 0 <= j < r.value ==> keys[j].0 != key && keys[j].1 != key
    ensures r.None? ==> forall j :: 0 <= j < |keys| ==> keys[j].0 != key && keys[j].1 != key
  {
    if keys == [] then None
    else if keys[0].0 == key || keys[0].1 == key then Some(0)
    else
      match FirstMatch(keys[1..], key)
      case None => None
      case Some(i) => Some(i + 1)
  }

  /** The choice a cell selects: the first whose display text or code matches the normalised cell. */
  function SelectChoice(choices: seq<Choice>, value: string): (r: Option<nat>)
    ensures r.Some? ==> r.value < |choices|
  {
    FirstMatch(ChoiceKeys(choices), Normalize(value))
  }

  /** The selected choice matches the cell, no earlier choice does, and nothing is selected only if none matches. */
  lemma SelectChoiceIsFirstMatch(choices: seq<Choice>, value: string)
    ensures var r := SelectChoice(choices, value);
      var key := Normalize(value);
      (r.Some? ==> Normalize(choices[r.value].display) == key || Normalize(choices[r.value].code) == key) &&
      (r.Some? ==> forall j :: 0 <= j < r.value ==> Normalize(choices[j].display) != key && Normalize(choices[j].code) != key) &&
      (r.None? ==> forall j :: 0 <= j < |choices| ==> Normalize(choices[j].display) != key && Normalize(choices[j].code) != key)
  {
    var keys := ChoiceKeys(choices);
    assert forall j :: 0 <= j < |choices| ==> keys[j] == (Normalize(choices[j].display), Normalize(choices[j].code));
  }

  function CantParse(value: string): string
  {
    "Can't parse value '" + value + "'"
  }

  function TooLong(value: string, maxLength: nat): string
  {
    "\"" + value + "\" is too long (max length " + NatStr(maxLength) + ")"
  }

  function NotAllowed(value: string): string
  {
    "\"" + value + "\" is not an allowed option"
  }

  /** The null-token outcome of a character field: nothing if nullable, else the 'missing' failure. */
  function MissingOrNull(f: Field): Result<Value, string>
  {
    if f.nullable then Ok(Null) else Err("missing")
  }

  /**
   * `parse_django_field_value` once the field is found: the value to store, or the reason
   * the cell cannot be stored.
   */
  function CoerceField(f: Field, value: string): (r: Result<Value, string>)
    ensures f.kind.TextField? ==> r == Ok(Str(value))
    ensures !f.kind.CharField? && !f.kind.TextField? && Lower(value) in NULL_VALUES ==> r == Ok(Null)
    ensures f.kind.ForeignKey? && Lower(value) !in NULL_VALUES ==> r == Err("Can't import related field")
    ensures f.kind.BooleanField? && !f.nullable ==> r.Ok? && (r.value.Bool? || r.value.Null?)
  {
    match f.kind
    case CharField(maxLength, choices) =>
      var key := Normalize(value);
      if choices != [] then
        match SelectChoice(choices, value)
        case Some(i) => Ok(Str(choices[i].code))
        case None => if key in NULL_VALUES then MissingOrNull(f) else Err(NotAllowed(value))
      else if key in NULL_VALUES then MissingOrNull(f)
      else if |value| >= maxLength then Err(TooLong(value, maxLength))
      else Ok(Str(value))
    case TextField => Ok(Str(value))
    case _ =>
      if Lower(value) in NULL_VALUES then Ok(Null)
      else match f.kind
        case DecimalField(maxDigits, decimalPlaces) =>
          (match CoerceDecimal(value, maxDigits, decimalPlaces)
           case None => Err(CantParse(value))
           case Some(d) => Ok(d))
        case PositiveIntegerField =>
          (match ParseInt(RemoveChar(value, ','))
           case None => Err(CantParse(value))
           case Some(n) => Ok(Int(n)))
        case BooleanField =>
          (match ParseBool(Some(value))
           case Some(true) => Ok(Bool(true))
           case _ => if f.nullable then (if ParseBool(Some(value)) == Some(false) then Ok(Bool(false)) else Ok(Null))
                     else Ok(Bool(false)))
        case ForeignKey(_) => Err("Can't import related field")
        case _ => Ok(Str(value))
  }

  /** `parse_django_field_value`: an unknown field name is a failure, never an exception. */
  function ParseFieldValue(schema: seq<Field>, name: string, value: string): (r: Result<Value, string>)
    ensures GetField(schema, name).None? ==> r == Err("No such field exists")
    ensures GetField(schema, name).Some? ==> r == CoerceField(GetField(schema, name).value, value)
  {
    match GetField(schema, name)
    case None => Err("No such field exists")
    case Some(f) => CoerceField(f, value)
  }

  const RELATED_ATTRIBUTE_ERROR := "AttributeError: module 'django.db.models.fields' has no attribute 'ForeignKey'"

  /**
   * `parse_django_field_value` as written, once the field is found: the outer failure is an
   * exception the function does not catch. The relation test looks `ForeignKey` up in the
   * `fields` module, which does not define it, so every non-null cell that gets past the
   * decimal, integer and boolean tests raises.
   */
  function CoerceFieldAsWritten(f: Field, value: string): (r: Result<Result<Value, string>, string>)
    ensures (f.kind.ForeignKey? || f.kind.OtherField?) && Lower(value) !in NULL_VALUES <==> r.Err?
    ensures r.Err? ==> r.error == RELATED_ATTRIBUTE_ERROR
    ensures r.Ok? ==> r.value == CoerceField(f, value)
  {
    match f.kind
    case ForeignKey(_) => if Lower(value) in NULL_VALUES then Ok(Ok(Null)) else Err(RELATED_ATTRIBUTE_ERROR)
    case OtherField => if Lower(value) in NULL_VALUES then Ok(Ok(Null)) else Err(RELATED_ATTRIBUTE_ERROR)
    case _ => Ok(CoerceField(f, value))
  }

  /**
   * A related column with a value raises as written, where the intended test reports that
   * related fields cannot be imported; a date-time cell raises where it is meant to be stored.
   */
  lemma RelatedFieldFinding(f: Field, value: string)
    requires Lower(value) !in NULL_VALUES
    ensures f.kind.ForeignKey? ==>
      CoerceFieldAsWritten(f, value) == Err(RELATED_ATTRIBUTE_ERROR) &&
      CoerceField(f, value) == Err("Can't import related field")
    ensures f.kind.OtherField? ==>
      CoerceFieldAsWritten(f, value) == Err(RELATED_ATTRIBUTE_ERROR) &&
      CoerceField(f, value) == Ok(Str(value))
  {
  }

  /** A plain character field rejects a value of exactly its maximum length, and accepts one shorter. */
  lemma CharLengthBoundary(f: Field, value: string)
    requires f.kind.CharField? && f.kind.choices == []
    requires Normalize(value) !in NULL_VALUES
    ensures |value| >= f.kind.maxLength ==> CoerceField(f, value) == Err(TooLong(value, f.kind.maxLength))
    ensures |value| < f.kind.maxLength ==> CoerceField(f, value) == Ok(Str(value))
  {
  }

  /** A character field with a null token stores nothing if nullable, and fails as 'missing' otherwise. */
  lemma CharNullToken(f: Field, value: string)
    requires f.kind.CharField?
    requires Normalize(value) in NULL_VALUES
    requires f.kind.choices == [] || SelectChoice(f.kind.choices, value).None?
    ensures f.nullable ==> CoerceField(f, value) == Ok(Null)
    ensures !f.nullable ==> CoerceField(f, value) == Err("missing")
  {
  }

  /** A choice field stores the code of the first matching choice; text matching none is not allowed. */
  lemma ChoiceCoercion(f: Field, value: string)
    requires f.kind.CharField? && f.kind.choices != []
    ensures var c := SelectChoice(f.kind.choices, value);
      (c.Some? ==> CoerceField(f, value) == Ok(Str(f.kind.choices[c.value].code))) &&
      (c.None? && Normalize(value) !in NULL_VALUES ==> CoerceField(f, value) == Err(NotAllowed(value)))
  {
  }

  /** A boolean cell is read with `parse_bool`; a non-nullable field turns unknown into false. */
  lemma BoolCoercion(f: Field, value: string)
    requires f.kind.BooleanField? && Lower(value) !in NULL_VALUES
    ensures ParseBool(Some(value)).Some? ==> CoerceField(f, value) == Ok(Bool(ParseBool(Some(value)).value))
    ensures ParseBool(Some(value)).None? ==> CoerceField(f, value) == (if f.nullable then Ok(Null) else Ok(Bool(false)))
  {
  }

  /** A positive-integer cell that is not a null token: thousands separators dropped, then read as an integer. */
  lemma PositiveIntegerCoercion(f: Field, value: string)
    requires f.kind.PositiveIntegerField? && Lower(value) !in NULL_VALUES
    ensures ParseInt(RemoveChar(value, ',')).None? ==> CoerceField(f, value) == Err(CantParse(value))
    ensures ParseInt(RemoveChar(value, ',')).Some? ==> CoerceField(f, value) == Ok(Int(ParseInt(RemoveChar(value, ',')).value))
  {
  }

  /** The text `'%d'` writes is no null token and holds no thousands separator. */
  lemma IntStrIsPlain(n: int)
    ensures Lower(IntStr(n)) !in NULL_VALUES
    ensures RemoveChar(IntStr(n), ',') == IntStr(n)
  {
    var text := IntStr(n);
    var digits := NatStr(if n >= 0 then n else -n);
    assert IsDigit(digits[0]);
    assert text[0] == '-' || IsDigit(text[0]);
    assert LowerChar(text[0]) == text[0];
    assert Lower(text)[0] == text[0];
    assert ',' !in text by {
      if n < 0 {
        assert text == "-" + digits;
        forall k | 0 <= k < |text| ensures text[k] != ',' {
          if k > 0 { assert text[k] == digits[k - 1]; }
        }
      }
    }
  }

  /** Integer text that `'%d'` writes is read back by a positive-integer field as the same number. */
  lemma PositiveIntegerRoundTrip(f: Field, n: int)
    requires f.kind.PositiveIntegerField?
    ensures CoerceField(f, IntStr(n)) == Ok(Int(n))
  {
    IntStrIsPlain(n);
    ParseIntStr(n);
    PositiveIntegerCoercion(f, IntStr(n));
  }

  /** "1234" reads as 1234. */
  lemma ReadsThousands()
    ensures ParseInt("1234") == Some(1234)
  {
    assert NoSpace("1234");
    StripNoSpace("1234");
    assert SignOf("1234") == (false, "1234");
    assert DigitsValue("1") == 1;
    assert DigitsValue("12") == 12 by { assert "12"[..1] == "1"; }
    assert DigitsValue("123") == 123 by { assert "123"[..2] == "12"; }
    assert DigitsValue("1234") == 1234 by { assert "1234"[..3] == "123"; }
  }

  /** Thousands separators are ignored by positive-integer fields. */
  lemma PositiveIntegerDropsCommas(f: Field)
    requires f.kind.PositiveIntegerField?
    ensures CoerceField(f, "1,234") == Ok(Int(1234))
  {
    ThousandsNotNull();
    ThousandsWithoutCommas();
    ReadsThousands();
    PositiveIntegerCoercion(f, "1,234");
  }

  lemma ThousandsNotNull()
    ensures Lower("1,234") !in NULL_VALUES
  {
    assert Lower("1,234")[0] == '1';
  }

  lemma ThousandsWithoutCommas()
    ensures RemoveChar("1,234", ',') == "1234"
  {
  }

  // ---------------------------------------------------------------- one row

  /** A CSV row as the dictionary reader yields it: (column, cell) pairs in header order. */
  type Row = seq<(string, string)>

  /** The position of the entry named `key`, if any. */
  function EntryIndex(entries: Row, key: string): (r: Option<nat>)
    ensures r.Some? ==> r.value < |entries| && entries[r.value].0 == key
    ensures r.None? ==> forall i :: 0 <= i < |entries| ==> entries[i].0 != key
  {
    if entries == [] then None
    else if entries[0].0 == key then Some(0)
    else match EntryIndex(entries[1..], key)
      case None => None
      case Some(i) => Some(i + 1)
  }

  predicate DistinctKeys(entries: Row)
  {
    forall i, j :: 0 <= i < j < |entries| ==> entries[i].0 != entries[j].0
  }

  /**
   * The dictionary the reader makes of a row, in iteration order: one entry per column name,
   * at the position of the name's first column and holding the cell of its last one.
   */
  function DictRow(row: Row): (r: Row)
    ensures |r| <= |row|
  {
    if row == [] then []
    else
      var prev := DictRow(row[..|row| - 1]);
      var (name, value) := row[|row| - 1];
      match EntryIndex(prev, name)
      case Some(k) => prev[k := (name, value)]
      case None => prev + [(name, value)]
  }

  /**
   * The dictionary has each column name once, holds for it what a lookup in the row gives
   * (the last cell), and has an entry for every column of the row.
   */
  lemma {:induction false} DictRowMeaning(row: Row)
    ensures DistinctKeys(DictRow(row))
    ensures forall i :: 0 <= i < |DictRow(row)| ==> RowGet(row, DictRow(row)[i].0) == Some(DictRow(row)[i].1)
    ensures forall key :: RowGet(row, key).Some? ==> exists i :: 0 <= i < |DictRow(row)| && DictRow(row)[i].0 == key
  {
    if row != [] {
      var front := row[..|row| - 1];
      DictRowMeaning(front);
      var prev := DictRow(front);
      var (name, value) := row[|row| - 1];
      var r := DictRow(row);
      assert forall key :: key != name ==> RowGet(row, key) == RowGet(front, key);
      assert RowGet(row, name) == Some(value);
      match EntryIndex(prev, name)
      case Some(k) =>
        assert r == prev[k := (name, value)];
        forall i | 0 <= i < |r| ensures RowGet(row, r[i].0) == Some(r[i].1) {
          if i != k {
            assert r[i] == prev[i] && prev[i].0 != name;
          }
        }
        forall key | RowGet(row, key).Some? ensures exists i :: 0 <= i < |r| && r[i].0 == key {
          if key == name {
            assert r[k].0 == key;
          } else {
            var j :| 0 <= j < |prev| && prev[j].0 == key;
            assert r[j].0 == key;
          }
        }
      case None =>
        assert r == prev + [(name, value)];
        forall i | 0 <= i < |r| ensures RowGet(row, r[i].0) == Some(r[i].1) {
          if i < |prev| {
            assert r[i] == prev[i] && prev[i].0 != name;
          }
        }
        forall key | RowGet(row, key).Some? ensures exists i :: 0 <= i < |r| && r[i].0 == key {
          if key == name {
            assert r[|prev|].0 == key;
          } else {
            var j :| 0 <= j < |prev| && prev[j].0 == key;
            assert r[j].0 == key;
          }
        }
    }
  }

  /** A column repeated in the header keeps only its last cell. */
  lemma RepeatedHeaderKeepsLast()
    ensures DictRow([("Year", "abc"), ("Year", "2000")]) == [("Year", "2000")]
  {
    var row := [("Year", "abc"), ("Year", "2000")];
    assert row[..1] == [("Year", "abc")];
    assert DictRow(row[..1]) == [("Year", "abc")] by {
      assert row[..1][..0] == [];
    }
  }

  const STUDY_ROW_SKIP: seq<string> := ["Approved_by", "Created_by", "Import_source", "Approved_time", "Created_time", "Updated_time"]
  const RESULT_ROW_SKIP: seq<string> := ["Results_ID"] + STUDY_ROW_SKIP

  /** The attributes set by the field loop after the given cells. */
  function AssignedAttrs(schema: seq<Field>, skip: seq<string>, row: Row): map<string, Value>
  {
    if row == [] then map[]
    else
      var prev := AssignedAttrs(schema, skip, row[..|row| - 1]);
      var (name, value) := row[|row| - 1];
      if name in skip then prev
      else match ParseFieldValue(schema, name, value)
        case Ok(v) => prev[name := v]
        case Err(_) => prev
  }

  /** The 'field: reason' entries collected by the field loop after the given cells. */
  function FieldErrors(schema: seq<Field>, skip: seq<string>, row: Row): seq<string>
  {
    if row == [] then []
    else
      var prev := FieldErrors(schema, skip, row[..|row| - 1]);
      var (name, value) := row[|row| - 1];
      if name in skip then prev
      else match ParseFieldValue(schema, name, value)
        case Ok(_) => prev
        case Err(reason) => prev + [name + ": " + reason]
  }

  /**
   * A field is set exactly when its column is present and not skipped and the cell the
   * dictionary holds for it coerces; the field then holds that cell's value.
   */
  lemma AssignedIff(schema: seq<Field>, skip: seq<string>, row: Row, name: string)
    ensures name in AssignedAttrs(schema, skip, DictRow(row)) <==>
      name !in skip && RowGet(row, name).Some? && ParseFieldValue(schema, name, RowGet(row, name).value).Ok?
    ensures name in AssignedAttrs(schema, skip, DictRow(row)) ==>
      AssignedAttrs(schema, skip, DictRow(row))[name] == ParseFieldValue(schema, name, RowGet(row, name).value).value
  {
    var entries := DictRow(row);
    DictRowMeaning(row);
    EntriesAssignedIff(schema, skip, entries, name);
    if RowGet(row, name).Some? {
      var i :| 0 <= i < |entries| && entries[i].0 == name;
      assert entries[i].1 == RowGet(row, name).value;
      if name !in skip && ParseFieldValue(schema, name, entries[i].1).Ok? {
        EntryAssignedValue(schema, skip, entries, i);
      }
    }
  }

  /** With distinct names, an entry that is not skipped and coerces is assigned its value. */
  lemma {:induction false} EntryAssignedValue(schema: seq<Field>, skip: seq<string>, entries: Row, i: nat)
    requires DistinctKeys(entries) && i < |entries|
    requires entries[i].0 !in skip && ParseFieldValue(schema, entries[i].0, entries[i].1).Ok?
    ensures entries[i].0 in AssignedAttrs(schema, skip, entries)
    ensures AssignedAttrs(schema, skip, entries)[entries[i].0] == ParseFieldValue(schema, entries[i].0, entries[i].1).value
  {
    var front := entries[..|entries| - 1];
    if i < |front| {
      assert front[i] == entries[i] && entries[|entries| - 1].0 != entries[i].0;
      assert DistinctKeys(front) by {
        forall a, b | 0 <= a < b < |front| ensures front[a].0 != front[b].0 {
          assert front[a] == entries[a] && front[b] == entries[b];
        }
      }
      EntryAssignedValue(schema, skip, front, i);
      AssignedOtherName(schema, skip, entries, entries[i].0);
    }
  }

  /** A last entry with another name leaves what is set for `name` as it was. */
  lemma AssignedOtherName(schema: seq<Field>, skip: seq<string>, entries: Row, name: string)
    requires entries != [] && entries[|entries| - 1].0 != name
    ensures var before := AssignedAttrs(schema, skip, entries[..|entries| - 1]);
      var after := AssignedAttrs(schema, skip, entries);
      (name in after <==> name in before) && (name in before ==> after[name] == before[name])
  {
  }

  /** Over any entries: a name is set exactly when it is not skipped and some entry with that name coerces. */
  lemma {:induction false} EntriesAssignedIff(schema: seq<Field>, skip: seq<string>, row: Row, name: string)
    ensures name in AssignedAttrs(schema, skip, row) <==>
      name !in skip && exists i :: 0 <= i < |row| && row[i].0 == name && ParseFieldValue(schema, name, row[i].1).Ok?
  {
    if row != [] {
      var front := row[..|row| - 1];
      EntriesAssignedIff(schema, skip, front, name);
      if name !in skip && exists i :: 0 <= i < |front| && front[i].0 == name && ParseFieldValue(schema, name, front[i].1).Ok? {
        var i :| 0 <= i < |front| && front[i].0 == name && ParseFieldValue(schema, name, front[i].1).Ok?;
        assert row[i] == front[i];
      }
      if name !in skip && exists i :: 0 <= i < |row| && row[i].0 == name && ParseFieldValue(schema, name, row[i].1).Ok? {
        var i :| 0 <= i < |row| && row[i].0 == name && ParseFieldValue(schema, name, row[i].1).Ok?;
        if i < |row| - 1 {
          assert front[i] == row[i];
        }
      }
    }
  }

  /** The row has no warning exactly when the cell the dictionary holds for every column it does not skip coerces. */
  lemma NoErrorsIff(schema: seq<Field>, skip: seq<string>, row: Row)
    ensures FieldErrors(schema, skip, DictRow(row)) == [] <==>
      forall name :: RowGet(row, name).Some? && name !in skip ==> ParseFieldValue(schema, name, RowGet(row, name).value).Ok?
  {
    var entries := DictRow(row);
    DictRowMeaning(row);
    EntriesNoErrorsIff(schema, skip, entries);
    if FieldErrors(schema, skip, entries) == [] {
      forall name | RowGet(row, name).Some? && name !in skip
        ensures ParseFieldValue(schema, name, RowGet(row, name).value).Ok?
      {
        var i :| 0 <= i < |entries| && entries[i].0 == name;
        assert CellAccepted(schema, skip, entries[i]);
      }
    }
    if forall name :: RowGet(row, name).Some? && name !in skip ==> ParseFieldValue(schema, name, RowGet(row, name).value).Ok? {
      forall i | 0 <= i < |entries| ensures CellAccepted(schema, skip, entries[i]) {
        assert RowGet(row, entries[i].0) == Some(entries[i].1);
      }
    }
  }

  /** Over any entries: no warning exactly when every entry not skipped coerces. */
  lemma EntriesNoErrorsIff(schema: seq<Field>, skip: seq<string>, row: Row)
    ensures FieldErrors(schema, skip, row) == [] <==>
      forall i :: 0 <= i < |row| ==> row[i].0 in skip || ParseFieldValue(schema, row[i].0, row[i].1).Ok?
  {
    if FieldErrors(schema, skip, row) == [] {
      forall i | 0 <= i < |row|
        ensures CellAccepted(schema, skip, row[i])
      {
        NoErrorsAccepted(schema, skip, row, i);
      }
    }
    if forall i :: 0 <= i < |row| ==> CellAccepted(schema, skip, row[i]) {
      AcceptedNoErrors(schema, skip, row);
    }
  }

  /** A cell the row check lets through: skipped, or a value its field accepts. */
  predicate CellAccepted(schema: seq<Field>, skip: seq<string>, cell: (string, string))
  {
    cell.0 in skip || ParseFieldValue(schema, cell.0, cell.1).Ok?
  }

  lemma {:induction false} NoErrorsAccepted(schema: seq<Field>, skip: seq<string>, row: Row, i: nat)
    requires FieldErrors(schema, skip, row) == [] && i < |row|
    ensures CellAccepted(schema, skip, row[i])
  {
    var front := row[..|row| - 1];
    FieldErrorsStep(schema, skip, row);
    if i < |front| {
      NoErrorsAccepted(schema, skip, front, i);
      assert front[i] == row[i];
      assert CellAccepted(schema, skip, front[i]);
    } else {
      assert i == |row| - 1;
      assert CellAccepted(schema, skip, row[|row| - 1]);
    }
  }

  lemma {:induction false} AcceptedNoErrors(schema: seq<Field>, skip: seq<string>, row: Row)
    requires forall i :: 0 <= i < |row| ==> CellAccepted(schema, skip, row[i])
    ensures FieldErrors(schema, skip, row) == []
  {
    if row != [] {
      var front := row[..|row| - 1];
      assert forall i :: 0 <= i < |front| ==> front[i] == row[i];
      AcceptedNoErrors(schema, skip, front);
      FieldErrorsStep(schema, skip, row);
    }
  }

  lemma FieldErrorsStep(schema: seq<Field>, skip: seq<string>, row: Row)
    requires row != []
    ensures FieldErrors(schema, skip, row) == [] <==>
      FieldErrors(schema, skip, row[..|row| - 1]) == [] && CellAccepted(schema, skip, row[|row| - 1])
  {
  }

  /** The row message: the entries joined by ', ', or nothing when there are none. */
  function Warning(errors: seq<string>): (r: Option<string>)
    ensures r.None? <==> errors == []
  {
    if |errors| > 0 then Some(Join(", ", errors)) else None
  }

  /**
   * The field loop shared by both row parsers, over the row's dictionary entries: every column
   * not in `skip` is coerced; a success is assigned, a failure is recorded and not assigned.
   */
  method ParseRowFields(schema: seq<Field>, skip: seq<string>, row: Row) returns (attrs: map<string, Value>, errors: seq<string>)
    ensures attrs == AssignedAttrs(schema, skip, DictRow(row))
    ensures errors == FieldErrors(schema, skip, DictRow(row))
  {
    var entries := DictRow(row);
    attrs := map[];
    errors := [];
    var i := 0;
    while i < |entries|
      invariant 0 <= i <= |entries|
      invariant attrs == AssignedAttrs(schema, skip, entries[..i])
      invariant errors == FieldErrors(schema, skip, entries[..i])
    {
      assert entries[..i + 1][..i] == entries[..i] && entries[..i + 1][i] == entries[i];
      var (name, value) := entries[i];
      if name !in skip {
        var parsed := ParseFieldValue(schema, name, value);
        if parsed.Err? {
          errors := errors + [name + ": " + parsed.error];
        } else {
          attrs := attrs[name := parsed.value];
        }
      }
      i := i + 1;
    }
    assert entries[..i] == entries;
  }

  /** Where an imported row came from: its import record, importer and import time. */
  datatype Provenance = Provenance(sourceId: nat, importedBy: Option<User>, importTime: int)

  /** A study built by the importer: its attributes and the provenance it is created with. */
  datatype ImportedStudy = ImportedStudy(attrs: map<string, Value>, importSource: nat,
                                         approvedBy: Option<User>, approvedTime: Option<int>)

  /** The outcome of `import_csv_studies_row`: the study always, and the row warning. */
  function StudiesRowOutcome(schema: seq<Field>, prov: Provenance, row: Row): (r: (Option<ImportedStudy>, Option<string>))
    ensures r.0.Some?
    ensures r.0.value.approvedBy == prov.importedBy && r.0.value.importSource == prov.sourceId
    ensures r.0.value.approvedTime == Some(prov.importTime)
  {
    (Some(ImportedStudy(AssignedAttrs(schema, STUDY_ROW_SKIP, DictRow(row)), prov.sourceId, prov.importedBy, Some(prov.importTime))),
     Warning(FieldErrors(schema, STUDY_ROW_SKIP, DictRow(row))))
  }

  /** `import_csv_studies_row`: an imported study is approved by its importer at the import time. */
  method ImportCsvStudiesRow(schema: seq<Field>, prov: Provenance, row: Row) returns (study: ImportedStudy, msg: Option<string>)
    ensures (Some(study), msg) == StudiesRowOutcome(schema, prov, row)
    ensures study.approvedBy == prov.importedBy && study.approvedTime == Some(prov.importTime)
    ensures forall name :: name in study.attrs <==>
      name !in STUDY_ROW_SKIP && RowGet(row, name).Some? && ParseFieldValue(schema, name, RowGet(row, name).value).Ok?
    ensures forall name :: name in study.attrs ==> study.attrs[name] == ParseFieldValue(schema, name, RowGet(row, name).value).value
    ensures msg.None? <==> forall name :: RowGet(row, name).Some? && name !in STUDY_ROW_SKIP ==>
      ParseFieldValue(schema, name, RowGet(row, name).value).Ok?
  {
    var attrs, errors := ParseRowFields(schema, STUDY_ROW_SKIP, row);
    study := ImportedStudy(attrs, prov.sourceId, prov.importedBy, Some(prov.importTime));
    msg := Warning(errors);
    NoErrorsIff(schema, STUDY_ROW_SKIP, row);
    forall name
      ensures name in study.attrs <==>
        name !in STUDY_ROW_SKIP && RowGet(row, name).Some? && ParseFieldValue(schema, name, RowGet(row, name).value).Ok?
      ensures name in study.attrs ==> study.attrs[name] == ParseFieldValue(schema, name, RowGet(row, name).value).value
    {
      AssignedIff(schema, STUDY_ROW_SKIP, row, name);
    }
  }

  /** The value a dictionary row holds for a column: the last cell with that header. */
  function RowGet(row: Row, key: string): (r: Option<string>)
    ensures r.Some? <==> exists i :: 0 <= i < |row| && row[i].0 == key
  {
    if row == [] then None
    else if row[|row| - 1].0 == key then Some(row[|row| - 1].1)
    else
      var r := RowGet(row[..|row| - 1], key);
      assert forall i :: 0 <= i < |row| - 1 ==> row[..|row| - 1][i] == row[i];
      r
  }

  /** Approved studies whose spreadsheet key is `key`. */
  function WithIdentifier(studies: seq<Study>, key: string): (r: seq<Study>)
    ensures forall s :: s in r <==> s in studies && !Pending(s) && s.uniqueIdentifier == key
  {
    if studies == [] then []
    else
      (if !Pending(studies[0]) && studies[0].uniqueIdentifier == key then [studies[0]] else [])
      + WithIdentifier(studies[1..], key)
  }

  /** Approved studies whose primary key is `pk`. */
  function WithPk(studies: seq<Study>, pk: int): (r: seq<Study>)
    ensures forall s :: s in r <==> s in studies && !Pending(s) && s.pk.Some? && s.pk.value == pk
  {
    if studies == [] then []
    else
      (if !Pending(studies[0]) && studies[0].pk.Some? && studies[0].pk.value == pk then [studies[0]] else [])
      + WithPk(studies[1..], pk)
  }

  /**
   * The studies a result row names: approved studies with that spreadsheet key, or, when
   * there are none, the approved study with that primary key (none if the key is not an integer).
   */
  function LinkCandidates(studies: seq<Study>, id: string): (r: seq<Study>)
    ensures forall s :: s in r ==> s in studies && !Pending(s)
    ensures WithIdentifier(studies, id) != [] ==> r == WithIdentifier(studies, id)
  {
    var byKey := WithIdentifier(studies, id);
    if byKey != [] then byKey
    else match ParseInt(id)
      case None => []
      case Some(pk) => WithPk(studies, pk)
  }

  const IDENTIFIER_FIELD_ERROR := "FieldError: Cannot resolve keyword 'Unique_identifier' into field."

  /**
   * `filter(Unique_identifier=key)` on a study model with the given fields: the approved studies
   * with that key, or a failure while the query is built when the model has no such field.
   */
  function IdentifierLookup(schema: seq<Field>, studies: seq<Study>, key: string): (r: Result<seq<Study>, string>)
    ensures GetField(schema, "Unique_identifier").None? <==> r.Err?
    ensures r.Err? ==> r.error == IDENTIFIER_FIELD_ERROR
    ensures r.Ok? ==> r.value == WithIdentifier(studies, key)
  {
    if GetField(schema, "Unique_identifier").None? then Err(IDENTIFIER_FIELD_ERROR) else Ok(WithIdentifier(studies, key))
  }

  /**
   * With the active study model, a Methods row with a `Unique_identifier` column always carries
   * a warning and never sets the key, and studies cannot be looked up by key. With the key
   * declared, a well-formed key cell is stored and the lookup is `WithIdentifier`.
   */
  lemma IdentifierFinding(prov: Provenance, row: Row, studies: seq<Study>, key: string)
    requires RowGet(row, "Unique_identifier").Some?
    ensures var outcome := StudiesRowOutcome(DECLARED_STUDIES_SCHEMA, prov, row);
      outcome.1.Some? && "Unique_identifier" !in outcome.0.value.attrs
    ensures IdentifierLookup(DECLARED_STUDIES_SCHEMA, studies, key) == Err(IDENTIFIER_FIELD_ERROR)
    ensures var cell := RowGet(row, "Unique_identifier").value;
      Normalize(cell) !in NULL_VALUES && |cell| < 20 ==>
        "Unique_identifier" in StudiesRowOutcome(STUDIES_SCHEMA, prov, row).0.value.attrs &&
        StudiesRowOutcome(STUDIES_SCHEMA, prov, row).0.value.attrs["Unique_identifier"] == Str(cell)
    ensures IdentifierLookup(STUDIES_SCHEMA, studies, key) == Ok(WithIdentifier(studies, key))
  {
    UndeclaredStudyFields();
    IdentifierDeclared();
    IdentifierNotSkipped();
    UnknownColumnWarned(DECLARED_STUDIES_SCHEMA, STUDY_ROW_SKIP, row, "Unique_identifier");
    CharColumnStored(STUDIES_SCHEMA, STUDY_ROW_SKIP, row, "Unique_identifier");
  }

  lemma IdentifierNotSkipped()
    ensures "Unique_identifier" !in STUDY_ROW_SKIP
  {
  }

  /** A present column the schema does not declare brings a warning and sets nothing. */
  lemma UnknownColumnWarned(schema: seq<Field>, skip: seq<string>, row: Row, name: string)
    requires RowGet(row, name).Some? && name !in skip && GetField(schema, name).None?
    ensures FieldErrors(schema, skip, DictRow(row)) != []
    ensures name !in AssignedAttrs(schema, skip, DictRow(row))
  {
    NoErrorsIff(schema, skip, row);
    AssignedIff(schema, skip, row, name);
  }

  /** A present plain character column whose cell is short enough and no null token is stored as text. */
  lemma CharColumnStored(schema: seq<Field>, skip: seq<string>, row: Row, name: string)
    requires name !in skip && GetField(schema, name).Some?
    requires GetField(schema, name).value.kind.CharField? && GetField(schema, name).value.kind.choices == []
    ensures var cell := RowGet(row, name);
      cell.Some? && Normalize(cell.value) !in NULL_VALUES && |cell.value| < GetField(schema, name).value.kind.maxLength ==>
        name in AssignedAttrs(schema, skip, DictRow(row)) && AssignedAttrs(schema, skip, DictRow(row))[name] == Str(cell.value)
  {
    var cell := RowGet(row, name);
    if cell.Some? && Normalize(cell.value) !in NULL_VALUES && |cell.value| < GetField(schema, name).value.kind.maxLength {
      CharLengthBoundary(GetField(schema, name).value, cell.value);
      AssignedIff(schema, skip, row, name);
    }
  }

  /** `import_csv_results_row` as written: constructing the result with provenance keywords the result model lacks raises. */
  function ResultsRowAsWritten(schema: seq<Field>, prov: Provenance, studies: seq<Study>, row: Row): (r: Result<(Option<Results.ResultRow>, Option<string>), string>)
    ensures r.Err?
  {
    Err("TypeError: Results() got unexpected keyword arguments: 'Import_source', 'Approved_by', 'Approved_time'")
  }

  const MISSING_RESULTS_ID := "Results_ID is missing or blank"

  /**
   * `import_csv_results_row` without the provenance keywords: the fields, then the link to
   * exactly one approved study; no link means no result and an error message.
   */
  function ResultsRowOutcome(schema: seq<Field>, studies: seq<Study>, row: Row): (r: (Option<Results.ResultRow>, Option<string>))
    ensures (RowGet(row, "Results_ID").None? || RowGet(row, "Results_ID") == Some("")) ==> r == (None, Some(MISSING_RESULTS_ID))
    ensures r.0.Some? ==> r.0.value.study in studies && !Pending(r.0.value.study)
    ensures r.0.Some? ==> (RowGet(row, "Results_ID").Some? &&
      LinkCandidates(studies, RowGet(row, "Results_ID").value) == [r.0.value.study])
    ensures r.0.None? ==> r.1.Some?
    ensures RowGet(row, "Results_ID").Some? && RowGet(row, "Results_ID").value != "" ==>
      var id := RowGet(row, "Results_ID").value;
      var errors := FieldErrors(schema, RESULT_ROW_SKIP, DictRow(row));
      var candidates := LinkCandidates(studies, id);
      (|candidates| == 1 ==>
        r == (Some(Results.ResultRow(None, candidates[0], AssignedAttrs(schema, RESULT_ROW_SKIP, DictRow(row)))), Warning(errors))) &&
      (|candidates| == 0 ==> r == (None, Some(Join(", ", errors + [NotFound(id)])))) &&
      (|candidates| > 1 ==> r == (None, Some(Join(", ", errors + [Ambiguous(id)]))))
  {
    match RowGet(row, "Results_ID")
    case None => (None, Some(MISSING_RESULTS_ID))
    case Some(id) =>
      if id == "" then (None, Some(MISSING_RESULTS_ID))
      else
        var errors := FieldErrors(schema, RESULT_ROW_SKIP, DictRow(row));
        var candidates := LinkCandidates(studies, id);
        if |candidates| == 0 then (None, Some(Join(", ", errors + [NotFound(id)])))
        else if |candidates| > 1 then (None, Some(Join(", ", errors + [Ambiguous(id)])))
        else (Some(Results.ResultRow(None, candidates[0], AssignedAttrs(schema, RESULT_ROW_SKIP, DictRow(row)))), Warning(errors))
  }

  function NotFound(id: string): string
  {
    "Study not found (" + id + ")"
  }

  function Ambiguous(id: string): string
  {
    "Multiple studies found (" + id + ")"
  }

  /** Every imported result belongs to an approved study, so the `Results` manager lists it. */
  lemma ImportedResultIsListed(schema: seq<Field>, studies: seq<Study>, row: Row)
    requires ResultsRowOutcome(schema, studies, row).0.Some?
    ensures var r := ResultsRowOutcome(schema, studies, row).0.value;
      r in Results.ApprovedResults([r]) && r.study in ApprovedStudies(studies)
  {
  }

  /** The corrected results row parser: the field loop, then the link. */
  method ImportCsvResultsRow(schema: seq<Field>, studies: seq<Study>, row: Row) returns (result: Option<Results.ResultRow>, msg: Option<string>)
    ensures (result, msg) == ResultsRowOutcome(schema, studies, row)
    ensures result.Some? ==> result.value.study in studies && !Pending(result.value.study)
  {
    var attrs, errors := ParseRowFields(schema, RESULT_ROW_SKIP, row);
    var id := RowGet(row, "Results_ID");
    if id.None? || id.value == "" {
      return None, Some(MISSING_RESULTS_ID);
    }
    var candidates := LinkCandidates(studies, id.value);
    if |candidates| == 0 {
      errors := errors + [NotFound(id.value)];
      result := None;
    } else if |candidates| > 1 {
      errors := errors + [Ambiguous(id.value)];
      result := None;
    } else {
      result := Some(Results.ResultRow(None, candidates[0], attrs));
    }
    msg := Warning(errors);
  }

  // ---------------------------------------------------------------- the file

  /** The identifier shown in a log line: the first non-empty of the two key columns. */
  function RowLabel(row: Row): string
  {
    var key := RowGet(row, "Unique_identifier");
    var rid := RowGet(row, "Results_ID");
    if key.Some? && key.value != "" then key.value
    else if rid.Some? && rid.value != "" then rid.value
    else ""
  }

  /** `'%s' % msg` for an optional message. */
  function MessageText(msg: Option<string>): string
  {
    match msg
    case None => "None"
    case Some(m) => m
  }

  /** A row that leaves no log line: an instance was built and no message came with it. */
  predicate Quiet<I>(outcome: (Option<I>, Option<string>))
  {
    outcome.0.Some? && (outcome.1.None? || outcome.1 == Some(""))
  }

  /** The log text for one row: an error when no instance was built, a warning when one came with a message. */
  function LogLine<I>(rowNum: nat, row: Row, outcome: (Option<I>, Option<string>)): (r: string)
    ensures outcome.0.None? ==> r == "Row " + NatStr(rowNum) + " (" + RowLabel(row) + "): Error: " + MessageText(outcome.1) + "\n"
    ensures outcome.0.Some? && !Quiet(outcome) ==>
      r == "Row " + NatStr(rowNum) + " (" + RowLabel(row) + "): Warning: " + outcome.1.value + "\n"
    ensures r == "" <==> Quiet(outcome)
  {
    if outcome.0.None? then "Row " + NatStr(rowNum) + " (" + RowLabel(row) + "): Error: " + MessageText(outcome.1) + "\n"
    else if outcome.1.Some? && outcome.1.value != "" then "Row " + NatStr(rowNum) + " (" + RowLabel(row) + "): Warning: " + outcome.1.value + "\n"
    else ""
  }

  /** The import log after the given rows; data row k (from 1) is row k + 1 of the file. */
  function ImportLog<I>(rows: seq<Row>, forEachRow: Row -> (Option<I>, Option<string>)): string
  {
    if rows == [] then ""
    else ImportLog(rows[..|rows| - 1], forEachRow) + LogLine(|rows| + 1, rows[|rows| - 1], forEachRow(rows[|rows| - 1]))
  }

  /** The instances built from the given rows, in row order. */
  function Instances<I>(rows: seq<Row>, forEachRow: Row -> (Option<I>, Option<string>)): (r: seq<I>)
    ensures |r| <= |rows|
  {
    if rows == [] then []
    else
      var outcome := forEachRow(rows[|rows| - 1]);
      Instances(rows[..|rows| - 1], forEachRow) + (if outcome.0.Some? then [outcome.0.value] else [])
  }

  predicate AllBuilt<I>(rows: seq<Row>, forEachRow: Row -> (Option<I>, Option<string>))
  {
    forall i :: 0 <= i < |rows| ==> forEachRow(rows[i]).0.Some?
  }

  /** The import succeeds exactly when every row built an instance, that is, when none was dropped. */
  lemma {:induction false} AllBuiltIff<I>(rows: seq<Row>, forEachRow: Row -> (Option<I>, Option<string>))
    ensures AllBuilt(rows, forEachRow) <==> |Instances(rows, forEachRow)| == |rows|
  {
    if rows != [] {
      var front := rows[..|rows| - 1];
      AllBuiltIff(front, forEachRow);
      assert forall i :: 0 <= i < |front| ==> front[i] == rows[i];
      if !AllBuilt(front, forEachRow) {
        assert |Instances(front, forEachRow)| < |front|;
      }
    }
  }

  /** The log is empty exactly when every row built an instance and brought no message. */
  lemma {:induction false} EmptyLogIff<I>(rows: seq<Row>, forEachRow: Row -> (Option<I>, Option<string>))
    ensures ImportLog(rows, forEachRow) == "" <==> forall i :: 0 <= i < |rows| ==> Quiet(forEachRow(rows[i]))
  {
    if rows != [] {
      var front := rows[..|rows| - 1];
      var last := rows[|rows| - 1];
      EmptyLogIff(front, forEachRow);
      assert forall i :: 0 <= i < |front| ==> front[i] == rows[i];
      var line := LogLine(|rows| + 1, last, forEachRow(last));
      assert ImportLog(rows, forEachRow) == ImportLog(front, forEachRow) + line;
      assert |ImportLog(rows, forEachRow)| == |ImportLog(front, forEachRow)| + |line|;
    }
  }

  lemma LogStep<I>(rows: seq<Row>, k: nat, forEachRow: Row -> (Option<I>, Option<string>))
    requires k < |rows|
    ensures ImportLog(rows[..k + 1], forEachRow) == ImportLog(rows[..k], forEachRow) + LogLine(k + 2, rows[k], forEachRow(rows[k]))
  {
    var p := rows[..k + 1];
    assert p[..|p| - 1] == rows[..k];
    assert p[|p| - 1] == rows[k];
  }

  lemma InstancesStep<I>(rows: seq<Row>, k: nat, forEachRow: Row -> (Option<I>, Option<string>))
    requires k < |rows|
    ensures var outcome := forEachRow(rows[k]);
      Instances(rows[..k + 1], forEachRow) == Instances(rows[..k], forEachRow) + (if outcome.0.Some? then [outcome.0.value] else [])
  {
    var p := rows[..k + 1];
    assert p[..|p| - 1] == rows[..k];
    assert p[|p| - 1] == rows[k];
  }

  /** The import record a CSV file is loaded into. */
  class ImportSource {
    var id: nat
    var importedBy: Option<User>
    var importTime: int
    var importLog: string
    var importStatus: Option<bool>
    var rowCount: Option<nat>

    constructor (id: nat, importedBy: Option<User>, importTime: int)
      ensures this.id == id && this.importedBy == importedBy && this.importTime == importTime
      ensures importLog == "" && importStatus.None? && rowCount.None?
    {
      this.id := id;
      this.importedBy := importedBy;
      this.importTime := importTime;
      importLog := "";
      importStatus := None;
      rowCount := None;
    }

    /** The provenance the row parsers stamp on what this import creates. */
    function Origin(): Provenance
      reads this
    {
      Provenance(id, importedBy, importTime)
    }

    /**
     * `import_csv_file`: run the row parser on every data row, number the rows from 2, log
     * errors and warnings, keep the built instances in order, and record log, status and count.
     */
    method ImportCsvFile<I>(rows: seq<Row>, forEachRow: Row -> (Option<I>, Option<string>)) returns (okay: bool, instances: seq<I>)
      modifies this
      ensures instances == Instances(rows, forEachRow)
      ensures okay == AllBuilt(rows, forEachRow)
      ensures importLog == ImportLog(rows, forEachRow)
      ensures importStatus == Some(okay) && rowCount == Some(|instances|)
      ensures id == old(id) && importedBy == old(importedBy) && importTime == old(importTime)
    {
      var log;
      okay, instances, log := ReadRows(rows, forEachRow);
      importLog := log;
      importStatus := Some(okay);
      rowCount := Some(|instances|);
    }
  }

  /** The row loop of `import_csv_file`. */
  method ReadRows<I>(rows: seq<Row>, forEachRow: Row -> (Option<I>, Option<string>)) returns (okay: bool, instances: seq<I>, log: string)
    ensures instances == Instances(rows, forEachRow)
    ensures okay == AllBuilt(rows, forEachRow)
    ensures log == ImportLog(rows, forEachRow)
  {
    instances := [];
    var rowNum := 1;
    log := "";
    okay := true;
    var k := 0;
    while k < |rows|
      invariant 0 <= k <= |rows|
      invariant rowNum == k + 1
      invariant instances == Instances(rows[..k], forEachRow)
      invariant log == ImportLog(rows[..k], forEachRow)
      invariant okay <==> |instances| == k
    {
      LogStep(rows, k, forEachRow);
      InstancesStep(rows, k, forEachRow);
      var row := rows[k];
      rowNum := rowNum + 1;
      var outcome := forEachRow(row);
      log := log + LogLine(rowNum, row, outcome);
      okay := okay && outcome.0.Some?;
      instances := instances + (if outcome.0.Some? then [outcome.0.value] else []);
      k := k + 1;
    }
    assert rows[..k] == rows;
    AllBuiltIff(rows, forEachRow);
  }
}
