/**
 * The spreadsheet exporter: the column list of each sheet (an identifier column, then the
 * model's import fields with a header comment and, for choice and boolean fields, a drop-down
 * validation), and the layout of a worksheet — header in row 0, one instance per row below,
 * validation ranges and the autofilter. A worksheet is a map from (row, column) to cell value.
 */
module Exporter {

  import opened Wrappers
  import opened Strings
  import opened Values
  import opened Schema
  import Importer
  import Studies
  import Results

  /** Blank rows below the data that still carry the drop-down validations. */
  const EXTRA_ROWS: nat := 10

  /** A list validation: a cell in the range must be one of `source`. */
  datatype Validation = ListValidation(source: seq<string>)

  /** The display labels of a choice table, in declaration order. */
  function ChoiceLabels(choices: seq<Choice>): (r: seq<string>)
    ensures |r| == |choices|
    ensures forall i :: 0 <= i < |choices| ==> r[i] == choices[i].display
  {
    if choices == [] then [] else [choices[0].display] + ChoiceLabels(choices[1..])
  }

  /**
   * `get_data_validation`: a choice character field offers its labels, a boolean field offers
   * Yes and No (and N/A when it may be null); every other field has no validation.
   */
  function DataValidation(f: Field): (r: Option<Validation>)
    ensures r.Some? <==> (f.kind.CharField? && f.kind.choices != []) || f.kind.BooleanField?
    ensures r.Some? && f.kind.CharField? ==> r.value.source == ChoiceLabels(f.kind.choices)
    ensures r.Some? && f.kind.BooleanField? ==>
      (|r.value.source| >= 2 && r.value.source[..2] == ["Yes", "No"] &&
       ("N/A" in r.value.source <==> f.nullable) &&
       |r.value.source| == (if f.nullable then 3 else 2))
  {
    match f.kind
    case CharField(_, choices) =>
      if choices != [] then Some(ListValidation(ChoiceLabels(choices))) else None
    case BooleanField =>
      var choices := ["Yes", "No"] + (if f.nullable then ["N/A"] else []);
      assert choices[..2] == ["Yes", "No"];
      Some(ListValidation(choices))
    case _ => None
  }

  /** Excel's limit on the length of a list written into a validation. */
  const LIST_LIMIT: nat := 255

  /** The list a list validation writes into the sheet: its entries joined by ','. */
  function ListFormula(v: Validation): string
  {
    Join(",", v.source)
  }

  /**
   * `worksheet.data_validation` of the xlsxwriter library, given a list source: the entries are
   * stored joined by ','; a joined list longer than Excel's limit is refused with a warning and
   * lays no range.
   */
  function StoredList(v: Validation): (r: Option<string>)
    ensures r.Some? <==> |ListFormula(v)| <= LIST_LIMIT
    ensures r.Some? ==> r.value == ListFormula(v)
  {
    var list := ListFormula(v);
    if |list| <= LIST_LIMIT then Some(list) else None
  }

  /** The entries a drop-down offers: its stored list, cut at every ','. */
  function Offered(list: string): (r: seq<string>)
    ensures Join(",", r) == list
  {
    Split(list, ",")
  }

  /** Entries without a ',' come back one for one from the stored list. */
  lemma OfferedEntries(v: Validation)
    requires v.source != []
    requires forall i :: 0 <= i < |v.source| ==> ',' !in v.source[i]
    ensures Offered(ListFormula(v)) == v.source
  {
    SplitJoin(v.source, ',');
  }

  // ---------------------------------------------------------------- columns

  /**
   * One exported column: the attribute read from each instance, the header text, the header
   * comment, the model field (none for the identifier column) and its validation.
   */
  datatype ColumnSpec = ColumnSpec(attribute: string, heading: string, comment: string,
                                   field: Option<Field>, validation: Option<Validation>)

  /** The header comment: verbose name, type description and help text. */
  function Comment(f: Field): string
  {
    f.verboseName + " - " + Importer.FieldTypeDescription(f.kind) + "\n" + f.helpText
  }

  function FieldColumn(f: Field): ColumnSpec
  {
    ColumnSpec(f.name, f.name, Comment(f), Some(f), DataValidation(f))
  }

  const FIELD_DOES_NOT_EXIST := "FieldDoesNotExist"

  /**
   * `get_fields`: one column per named field, read and headed by the field's own name; a name
   * the model does not have raises.
   */
  function GetFields(schema: Schema, names: seq<string>): (r: Result<seq<ColumnSpec>, string>)
    ensures r.Ok? <==> forall n :: n in names ==> GetField(schema, n).Some?
    ensures r.Err? ==> r.error == FIELD_DOES_NOT_EXIST
    ensures r.Ok? ==> |r.value| == |names|
    ensures r.Ok? ==> forall j :: 0 <= j < |names| ==>
      (r.value[j].attribute == names[j] && r.value[j].heading == names[j] &&
       r.value[j].field == GetField(schema, names[j]) &&
       r.value[j].comment == Comment(GetField(schema, names[j]).value) &&
       r.value[j].validation == DataValidation(GetField(schema, names[j]).value))
  {
    if names == [] then Ok([])
    else
      match GetField(schema, names[0])
      case None =>
        assert names[0] in names;
        Err(FIELD_DOES_NOT_EXIST)
      case Some(f) =>
        match GetFields(schema, names[1..])
        case Err(e) =>
          assert exists n :: n in names[1..] && GetField(schema, n).None?;
          Err(e)
        case Ok(rest) =>
          assert forall n :: n in names ==> n == names[0] || n in names[1..];
          Ok([FieldColumn(f)] + rest)
  }

  /** `IMPORT_FIELDS[1:]`: every import column but the first. */
  function Drop1(xs: seq<string>): seq<string>
  {
    if xs == [] then [] else xs[1..]
  }

  /** A sheet's columns: the identifier column, then the model's import fields after the first. */
  function ExportColumns(idColumn: ColumnSpec, schema: Schema, importFields: seq<string>): Result<seq<ColumnSpec>, string>
  {
    match GetFields(schema, Drop1(importFields))
    case Err(e) => Err(e)
    case Ok(cols) => Ok([idColumn] + cols)
  }

  const STUDY_ID_COLUMN := ColumnSpec("pk", "Unique_identifier",
    "Must be something different for every study in the spreadsheet", None, None)

  const RESULT_ID_COLUMN := ColumnSpec("Study_id", "Study_ID",
    "Must be an exact match of the corresponding study's Unique_identifier in the Methods sheet", None, None)

  /** `STUDY_FIELDS`: the columns of the Methods sheet. */
  function StudyFields(): Result<seq<ColumnSpec>, string>
  {
    ExportColumns(STUDY_ID_COLUMN, Studies.STUDIES_SCHEMA, Studies.STUDY_IMPORT_FIELDS)
  }

  /** `RESULT_FIELDS`: the columns of the Results sheet. */
  function ResultFields(): Result<seq<ColumnSpec>, string>
  {
    ExportColumns(RESULT_ID_COLUMN, Results.RESULTS_SCHEMA, Results.RESULT_IMPORT_FIELDS)
  }

  function Headings(cols: seq<ColumnSpec>): (r: seq<string>)
    ensures |r| == |cols|
  {
    if cols == [] then [] else [cols[0].heading] + Headings(cols[1..])
  }

  lemma {:induction false} HeadingsAt(cols: seq<ColumnSpec>, j: nat)
    requires j < |cols|
    ensures Headings(cols)[j] == cols[j].heading
  {
    if j > 0 {
      HeadingsAt(cols[1..], j - 1);
    }
  }

  /**
   * When the identifier column is headed by the first import field and the model has every
   * other import field, the header row of the sheet is exactly the import columns.
   */
  lemma ExportHeadings(idColumn: ColumnSpec, schema: Schema, importFields: seq<string>)
    requires importFields != [] && idColumn.heading == importFields[0]
    requires forall n :: n in importFields[1..] ==> n in Names(schema)
    ensures ExportColumns(idColumn, schema, importFields).Ok?
    ensures Headings(ExportColumns(idColumn, schema, importFields).value) == importFields
  {
    var names := importFields[1..];
    forall n | n in names
      ensures GetField(schema, n).Some?
    {
      GetFieldFindsEveryName(schema, n);
    }
    var cols := ExportColumns(idColumn, schema, importFields).value;
    var h := Headings(cols);
    forall j | 0 <= j < |importFields|
      ensures h[j] == importFields[j]
    {
      HeadingsAt(cols, j);
    }
  }

  /** The Methods sheet's columns exist and are headed, in order, by the study import fields. */
  lemma StudyFieldsHeadings()
    ensures StudyFields().Ok? && Headings(StudyFields().value) == Studies.STUDY_IMPORT_FIELDS
  {
    Studies.ImportFieldsDeclared();
    ExportHeadings(STUDY_ID_COLUMN, Studies.STUDIES_SCHEMA, Studies.STUDY_IMPORT_FIELDS);
  }

  /** The Results sheet's columns exist and are headed, in order, by the result import fields. */
  lemma ResultFieldsHeadings()
    ensures ResultFields().Ok? && Headings(ResultFields().value) == Results.RESULT_IMPORT_FIELDS
  {
    Results.ImportFieldsDeclared();
    ExportHeadings(RESULT_ID_COLUMN, Results.RESULTS_SCHEMA, Results.RESULT_IMPORT_FIELDS);
  }

  /**
   * When no label holds a ',', every entry a drop-down offers is read back by the importer: a
   * choice label becomes the code of a choice whose label or code reads the same, and Yes, No
   * and N/A become true, false and nothing.
   */
  lemma ExportedLabelImports(f: Field, text: string)
    requires DataValidation(f).Some?
    requires forall i :: 0 <= i < |DataValidation(f).value.source| ==> ',' !in DataValidation(f).value.source[i]
    requires text in Offered(ListFormula(DataValidation(f).value))
    ensures Importer.CoerceField(f, text).Ok?
    ensures f.kind.CharField? ==>
      exists j :: 0 <= j < |f.kind.choices| &&
        Importer.CoerceField(f, text) == Ok(Str(f.kind.choices[j].code)) &&
        (Importer.Normalize(f.kind.choices[j].display) == Importer.Normalize(text) ||
         Importer.Normalize(f.kind.choices[j].code) == Importer.Normalize(text))
    ensures f.kind.BooleanField? ==>
      Importer.CoerceField(f, text) == Ok(if text == "Yes" then Bool(true) else if text == "No" then Bool(false) else Null)
  {
    OfferedEntries(DataValidation(f).value);
    if f.kind.CharField? {
      ChoiceLabelImports(f, text);
    } else {
      BooleanLabelImports(f, text);
    }
  }

  lemma ChoiceLabelImports(f: Field, text: string)
    requires f.kind.CharField? && text in ChoiceLabels(f.kind.choices)
    ensures exists j :: 0 <= j < |f.kind.choices| &&
                        Importer.CoerceField(f, text) == Ok(Str(f.kind.choices[j].code)) &&
                        (Importer.Normalize(f.kind.choices[j].display) == Importer.Normalize(text) ||
                         Importer.Normalize(f.kind.choices[j].code) == Importer.Normalize(text))
  {
    var choices := f.kind.choices;
    var i :| 0 <= i < |choices| && ChoiceLabels(choices)[i] == text;
    var keys := Importer.ChoiceKeys(choices);
    assert keys[i].0 == Importer.Normalize(text);
    var c := Importer.SelectChoice(choices, text);
    assert c.Some?;
    Importer.SelectChoiceIsFirstMatch(choices, text);
    Importer.ChoiceCoercion(f, text);
  }

  lemma BooleanLabelImports(f: Field, text: string)
    requires f.kind.BooleanField? && text in ["Yes", "No", "N/A"]
    ensures Importer.CoerceField(f, text) == Ok(if text == "Yes" then Bool(true) else if text == "No" then Bool(false) else Null)
  {
    assert Lower("Yes") == "yes";
    assert Lower("No") == "no";
    assert Lower("N/A") == "n/a";
  }

  /** A table of (x, x) choices offers its own entries. */
  lemma DiagonalLabels(xs: seq<string>)
    ensures ChoiceLabels(Studies.Diagonal(xs)) == xs
  {
  }

  /** The sum of a list of lengths. */
  function Total(xs: seq<nat>): nat
  {
    if xs == [] then 0 else xs[0] + Total(xs[1..])
  }

  /** Entries of the given lengths have, together, the total of those lengths. */
  lemma {:induction false} SumLengthsByEntry(parts: seq<string>, lens: seq<nat>)
    requires |parts| == |lens|
    requires forall i :: 0 <= i < |parts| ==> |parts[i]| == lens[i]
    ensures SumLengths(parts) == Total(lens)
  {
    if parts != [] {
      SumLengthsByEntry(parts[1..], lens[1..]);
    }
  }

  /** The lengths of the Disease labels, one by one. */
  lemma DiseaseLengths()
    ensures var p := Studies.DISEASE_TYPES;
      |p| == 14 &&
      |p[0]| == 5 &&
      |p[1]| == 3 &&
      |p[2]| == 13 &&
      |p[3]| == 24 &&
      |p[4]| == 22 &&
      |p[5]| == 21 &&
      |p[6]| == 20 &&
      |p[7]| == 17 &&
      |p[8]| == 21 &&
      |p[9]| == 14 &&
      |p[10]| == 35 &&
      |p[11]| == 28 &&
      |p[12]| == 26 &&
      |p[13]| == 5
  {
  }

  lemma DiseaseTotal()
    ensures Total([5, 3, 13, 24, 22, 21, 20, 17, 21, 14, 35, 28, 26, 5]) == 254
  {
  }

  /** The Disease labels hold 254 characters together. */
  lemma DiseaseLabelsLength()
    ensures SumLengths(Studies.DISEASE_TYPES) == 254
  {
    var lens := [5, 3, 13, 24, 22, 21, 20, 17, 21, 14, 35, 28, 26, 5];
    assert |Studies.DISEASE_TYPES| == |lens| && forall i :: 0 <= i < |lens| ==> |Studies.DISEASE_TYPES[i]| == lens[i] by {
      DiseaseLengths();
    }
    SumLengthsByEntry(Studies.DISEASE_TYPES, lens);
    DiseaseTotal();
  }

  /** The lengths of the Data_source labels, one by one. */
  lemma DataSourceLengths()
    ensures var p := Studies.DATA_SOURCE_TYPES;
      |p| == 13 &&
      |p[0]| == 21 &&
      |p[1]| == 19 &&
      |p[2]| == 41 &&
      |p[3]| == 14 &&
      |p[4]| == 23 &&
      |p[5]| == 20 &&
      |p[6]| == 16 &&
      |p[7]| == 23 &&
      |p[8]| == 23 &&
      |p[9]| == 24 &&
      |p[10]| == 19 &&
      |p[11]| == 20 &&
      |p[12]| == 5
  {
  }

  lemma DataSourceTotal()
    ensures Total([21, 19, 41, 14, 23, 20, 16, 23, 23, 24, 19, 20, 5]) == 268
  {
  }

  /** The Data_source labels hold 268 characters together. */
  lemma DataSourceLabelsLength()
    ensures SumLengths(Studies.DATA_SOURCE_TYPES) == 268
  {
    var lens := [21, 19, 41, 14, 23, 20, 16, 23, 23, 24, 19, 20, 5];
    assert |Studies.DATA_SOURCE_TYPES| == |lens| && forall i :: 0 <= i < |lens| ==> |Studies.DATA_SOURCE_TYPES[i]| == lens[i] by {
      DataSourceLengths();
    }
    SumLengthsByEntry(Studies.DATA_SOURCE_TYPES, lens);
    DataSourceTotal();
  }

  /** The lengths of the Age_general labels, one by one. */
  lemma AgeLengths()
    ensures var p := Results.AGE_CHOICES;
      |p| == 8 &&
      |p[0]| == 7 &&
      |p[1]| == 8 &&
      |p[2]| == 24 &&
      |p[3]| == 38 &&
      |p[4]| == 22 &&
      |p[5]| == 6 &&
      |p[6]| == 14 &&
      |p[7]| == 8
  {
  }

  lemma AgeTotal()
    ensures Total([7, 8, 24, 38, 22, 6, 14, 8]) == 127
  {
  }

  /** The Age_general labels hold 127 characters together. */
  lemma AgeLabelsLength()
    ensures SumLengths(Results.AGE_CHOICES) == 127
  {
    var lens := [7, 8, 24, 38, 22, 6, 14, 8];
    assert |Results.AGE_CHOICES| == |lens| && forall i :: 0 <= i < |lens| ==> |Results.AGE_CHOICES[i]| == lens[i] by {
      AgeLengths();
    }
    SumLengthsByEntry(Results.AGE_CHOICES, lens);
    AgeTotal();
  }

  /** A joined list is as long as its entries plus one ',' between each two. */
  lemma ListFormulaLength(v: Validation)
    requires v.source != []
    ensures |ListFormula(v)| == |v.source| - 1 + SumLengths(v.source)
  {
    JoinLength(",", v.source);
  }

  /** The Disease field offers its fourteen labels as a list. */
  lemma DiseaseValidation()
    ensures var disease := Studies.STUDY_PAPER_FIELDS[4];
      disease.name == "Disease" && DataValidation(disease) == Some(ListValidation(Studies.DISEASE_TYPES))
  {
    assert Studies.STUDY_PAPER_FIELDS[4] == Studies.ChoiceField("Disease", 100, Studies.DISEASE_TYPES, "Specific Disease");
    DiagonalLabels(Studies.DISEASE_TYPES);
  }

  /** The Disease labels joined with ',' take 267 characters. */
  lemma DiseaseListLength()
    ensures |ListFormula(ListValidation(Studies.DISEASE_TYPES))| == 267
  {
    DiseaseLabelsLength();
    ListFormulaLength(ListValidation(Studies.DISEASE_TYPES));
  }

  /** The Methods sheet's Disease column: its fourteen labels join to 267 characters, so it keeps no drop-down. */
  lemma DiseaseListRefused()
    ensures var disease := Studies.STUDY_PAPER_FIELDS[4];
      disease.name == "Disease" && DataValidation(disease).Some? &&
      |ListFormula(DataValidation(disease).value)| == 267 && ColumnList(FieldColumn(disease)).None?
  {
    DiseaseValidation();
    DiseaseListLength();
  }

  /** The Data_source field offers its thirteen labels as a list. */
  lemma DataSourceValidation()
    ensures var source := Studies.STUDY_METHOD_FIELDS[1];
      source.name == "Data_source" && DataValidation(source) == Some(ListValidation(Studies.DATA_SOURCE_TYPES))
  {
    assert Studies.STUDY_METHOD_FIELDS[1] == Studies.ChoiceField("Data_source", 50, Studies.DATA_SOURCE_TYPES, "Data source");
    DiagonalLabels(Studies.DATA_SOURCE_TYPES);
  }

  /** The Data_source labels joined with ',' take 280 characters. */
  lemma DataSourceListLength()
    ensures |ListFormula(ListValidation(Studies.DATA_SOURCE_TYPES))| == 280
  {
    DataSourceLabelsLength();
    ListFormulaLength(ListValidation(Studies.DATA_SOURCE_TYPES));
  }

  /** The Methods sheet's Data_source column: its thirteen labels join to 280 characters, so it keeps no drop-down. */
  lemma DataSourceListRefused()
    ensures var source := Studies.STUDY_METHOD_FIELDS[1];
      source.name == "Data_source" && DataValidation(source).Some? &&
      |ListFormula(DataValidation(source).value)| == 280 && ColumnList(FieldColumn(source)).None?
  {
    DataSourceValidation();
    DataSourceListLength();
  }

  /** The Age_general field offers its eight labels as a list. */
  lemma AgeValidation()
    ensures var age := Results.RESULTS_SCHEMA[3];
      age.name == "Age_general" && DataValidation(age) == Some(ListValidation(Results.AGE_CHOICES))
  {
    assert Results.RESULTS_SCHEMA[3] == Studies.ChoiceField("Age_general", 50, Results.AGE_CHOICES, "Age category");
    DiagonalLabels(Results.AGE_CHOICES);
  }

  /** The Age_general labels joined with ',' take 134 characters. */
  lemma AgeListLength()
    ensures |ListFormula(ListValidation(Results.AGE_CHOICES))| == 134
  {
    AgeLabelsLength();
    ListFormulaLength(ListValidation(Results.AGE_CHOICES));
  }

  /** The fourth Age_general label is two phrases around a ','. */
  lemma AgeLabelsAround()
    ensures Results.AGE_CHOICES ==
      Results.AGE_CHOICES[..3] + ["Children" + "," + " adolescents and young adults"] + Results.AGE_CHOICES[4..]
  {
    var labels := Results.AGE_CHOICES;
    assert labels[3] == "Children, adolescents and young adults";
    assert labels[3] == "Children" + "," + " adolescents and young adults" by {
      ChildrenLabel();
    }
    assert labels == labels[..3] + [labels[3]] + labels[4..];
  }

  lemma ChildrenLabel()
    ensures "Children, adolescents and young adults" == "Children" + "," + " adolescents and young adults"
  {
  }

  /** No entry of the Age_general drop-down holds a ','. */
  lemma AgeEntriesWithoutComma()
    ensures var parts := Results.AGE_CHOICES[..3] + ["Children", " adolescents and young adults"] + Results.AGE_CHOICES[4..];
      forall i :: 0 <= i < |parts| ==> ',' !in parts[i]
  {
  }

  /** Cut at every ',', the joined Age_general labels give the labels with the one holding a ',' in two. */
  lemma AgeEntries()
    ensures Split(Join(",", Results.AGE_CHOICES), ",") ==
      Results.AGE_CHOICES[..3] + ["Children", " adolescents and young adults"] + Results.AGE_CHOICES[4..]
  {
    var labels := Results.AGE_CHOICES;
    var a, x, y, b := labels[..3], "Children", " adolescents and young adults", labels[4..];
    AgeLabelsAround();
    JoinInnerSeparator(",", a, x, y, b);
    AgeEntriesWithoutComma();
    SplitJoin(a + [x, y] + b, ',');
  }

  /**
   * The Results sheet's Age_general column keeps its drop-down, but the label "Children,
   * adolescents and young adults" holds a ',': the drop-down offers "Children" and
   * " adolescents and young adults" in its place.
   */
  lemma AgeLabelSplit()
    ensures var age := Results.RESULTS_SCHEMA[3];
      age.name == "Age_general" && ColumnList(FieldColumn(age)).Some? &&
      Offered(ColumnList(FieldColumn(age)).value) ==
        Results.AGE_CHOICES[..3] + ["Children", " adolescents and young adults"] + Results.AGE_CHOICES[4..]
  {
    AgeValidation();
    AgeListLength();
    AgeEntries();
  }

  /** A choice field refuses a cell whose normalised text has a length `n` no normalised label and no null token has. */
  lemma RefusedByLength(name: string, maxLength: nat, labels: seq<string>, verbose: string, value: string, n: nat)
    requires labels != [] && |Importer.Normalize(value)| == n
    requires forall j :: 0 <= j < |labels| ==> |Importer.Normalize(labels[j])| != n
    requires forall v :: v in Importer.NULL_VALUES ==> |v| != n
    ensures Importer.CoerceField(Studies.ChoiceField(name, maxLength, labels, verbose), value) == Err(Importer.NotAllowed(value))
  {
    var f := Studies.ChoiceField(name, maxLength, labels, verbose);
    Importer.SelectChoiceIsFirstMatch(f.kind.choices, value);
    Importer.ChoiceCoercion(f, value);
  }

  /** Normalising an Age_general label keeps its length: none has a space at either end. */
  lemma AgeLabelsNormalised()
    ensures forall j :: 0 <= j < |Results.AGE_CHOICES| ==>
      |Importer.Normalize(Results.AGE_CHOICES[j])| == |Results.AGE_CHOICES[j]|
  {
    forall j | 0 <= j < |Results.AGE_CHOICES|
      ensures |Importer.Normalize(Results.AGE_CHOICES[j])| == |Results.AGE_CHOICES[j]|
    {
      StripLowerLength(Results.AGE_CHOICES[j]);
    }
  }

  /** Normalising " adolescents and young adults" drops its leading space. */
  lemma SplitHalfNormalised()
    ensures |Importer.Normalize(" adolescents and young adults")| == 28
  {
    StripLowerLeadingSpace(" adolescents and young adults");
  }

  /** The Age_general field is a choice field over the eight age labels. */
  lemma AgeField()
    ensures Results.RESULTS_SCHEMA[3] == Studies.ChoiceField("Age_general", 50, Results.AGE_CHOICES, "Age category")
  {
  }

  /** No Age_general label normalises to 28 characters. */
  lemma AgeLabelsNotOfLength28()
    ensures forall j :: 0 <= j < |Results.AGE_CHOICES| ==> |Importer.Normalize(Results.AGE_CHOICES[j])| != 28
  {
    var labels := Results.AGE_CHOICES;
    var lens := [7, 8, 24, 38, 22, 6, 14, 8];
    assert |labels| == |lens| && forall j :: 0 <= j < |lens| ==> |labels[j]| == lens[j] by {
      AgeLengths();
    }
    assert 28 !in lens;
    forall j | 0 <= j < |labels|
      ensures |Importer.Normalize(labels[j])| != 28
    {
      assert lens[j] in lens;
      AgeLabelsNormalised();
    }
  }

  /** No null token is 28 characters long. */
  lemma NullTokensNotOfLength28()
    ensures forall v :: v in Importer.NULL_VALUES ==> |v| != 28
  {
  }

  /** The Age_general choice field refuses " adolescents and young adults": no label normalises to it. */
  lemma AgeChoiceRefusesSplitHalf()
    ensures var age := Studies.ChoiceField("Age_general", 50, Results.AGE_CHOICES, "Age category");
      Importer.CoerceField(age, " adolescents and young adults").Err?
  {
    SplitHalfNormalised();
    AgeLabelsNotOfLength28();
    NullTokensNotOfLength28();
    RefusedByLength("Age_general", 50, Results.AGE_CHOICES, "Age category", " adolescents and young adults", 28);
  }

  /** The importer refuses " adolescents and young adults", the second half of the split Age_general label. */
  lemma SplitAgeLabelRefused()
    ensures Importer.CoerceField(Results.RESULTS_SCHEMA[3], " adolescents and young adults").Err?
  {
    AgeField();
    AgeChoiceRefusesSplitHalf();
  }

  // ---------------------------------------------------------------- worksheet layout

  /** An exported instance as the writer reads it: attribute values by name. */
  type Attrs = map<string, Value>

  /** A (row, column) cell position; row 0 is the header. */
  type Cell = (int, int)

  /** A rectangle of cells, first and last row and column inclusive. */
  datatype Area = Area(firstRow: int, firstCol: int, lastRow: int, lastCol: int)

  /** Every instance has every attribute the columns read. */
  predicate HasAttributes(instances: seq<Attrs>, cols: seq<ColumnSpec>)
  {
    forall k, j :: 0 <= k < |instances| && 0 <= j < |cols| ==> cols[j].attribute in instances[k]
  }

  /** The header texts of the first `n` columns, in row 0. */
  function HeaderCells(cols: seq<ColumnSpec>, n: nat): map<Cell, Value>
    requires n <= |cols|
  {
    if n == 0 then map[] else HeaderCells(cols, n - 1)[(0, n - 1) := Str(cols[n - 1].heading)]
  }

  /** The header comments of the first `n` columns. */
  function HeaderComments(cols: seq<ColumnSpec>, n: nat): map<Cell, string>
    requires n <= |cols|
  {
    if n == 0 then map[] else HeaderComments(cols, n - 1)[(0, n - 1) := cols[n - 1].comment]
  }

  /** The widths of the first `n` columns: two more than the length of the header text. */
  function ColumnWidths(cols: seq<ColumnSpec>, n: nat): map<int, nat>
    requires n <= |cols|
  {
    if n == 0 then map[] else ColumnWidths(cols, n - 1)[n - 1 := |cols[n - 1].heading| + 2]
  }

  /** The first `n` cells of one instance's row. */
  function RowCells(inst: Attrs, row: int, cols: seq<ColumnSpec>, n: nat): map<Cell, Value>
    requires n <= |cols|
    requires forall j :: 0 <= j < |cols| ==> cols[j].attribute in inst
  {
    if n == 0 then map[] else RowCells(inst, row, cols, n - 1)[(row, n - 1) := inst[cols[n - 1].attribute]]
  }

  /** The rows of the first `n` instances: instance k in row k + 1, column j holding attribute j. */
  function BodyCells(instances: seq<Attrs>, cols: seq<ColumnSpec>, n: nat): map<Cell, Value>
    requires n <= |instances| && HasAttributes(instances, cols)
  {
    if n == 0 then map[] else BodyCells(instances, cols, n - 1) + RowCells(instances[n - 1], n, cols, |cols|)
  }

  /** The header row holds exactly the first `n` header texts, column j's at (0, j), and their widths. */
  lemma {:induction false} HeaderLayout(cols: seq<ColumnSpec>, n: nat)
    requires n <= |cols|
    ensures forall r, c :: (r, c) in HeaderCells(cols, n) <==> r == 0 && 0 <= c < n
    ensures forall c :: 0 <= c < n ==> HeaderCells(cols, n)[(0, c)] == Str(cols[c].heading)
    ensures forall c :: c in ColumnWidths(cols, n) <==> 0 <= c < n
    ensures forall c :: 0 <= c < n ==> ColumnWidths(cols, n)[c] == |cols[c].heading| + 2
  {
    if n > 0 {
      HeaderLayout(cols, n - 1);
    }
  }

  /** One instance's row holds exactly its first `n` attributes, attribute j at (row, j). */
  lemma {:induction false} RowLayout(inst: Attrs, row: int, cols: seq<ColumnSpec>, n: nat)
    requires n <= |cols|
    requires forall j :: 0 <= j < |cols| ==> cols[j].attribute in inst
    ensures forall r, c :: (r, c) in RowCells(inst, row, cols, n) <==> r == row && 0 <= c < n
    ensures forall c :: 0 <= c < n ==> RowCells(inst, row, cols, n)[(row, c)] == inst[cols[c].attribute]
  {
    if n > 0 {
      RowLayout(inst, row, cols, n - 1);
    }
  }

  /**
   * The rows written for the first `n` instances cover exactly rows 1 to `n` of the columns, and
   * instance k's attribute j sits at (k + 1, j).
   */
  lemma {:induction false} BodyCellsLayout(instances: seq<Attrs>, cols: seq<ColumnSpec>, n: nat)
    requires n <= |instances| && HasAttributes(instances, cols)
    ensures forall r, c :: (r, c) in BodyCells(instances, cols, n) <==> 1 <= r <= n && 0 <= c < |cols|
    ensures forall k, c :: 0 <= k < n && 0 <= c < |cols| ==>
      BodyCells(instances, cols, n)[(k + 1, c)] == instances[k][cols[c].attribute]
  {
    if n > 0 {
      BodyCellsLayout(instances, cols, n - 1);
      var prev := BodyCells(instances, cols, n - 1);
      var row := RowCells(instances[n - 1], n, cols, |cols|);
      RowLayout(instances[n - 1], n, cols, |cols|);
      var body := BodyCells(instances, cols, n);
      assert body == prev + row;
      forall r, c
        ensures (r, c) in body <==> 1 <= r <= n && 0 <= c < |cols|
      {
        if r == n && 0 <= c < |cols| {
          assert (r, c) in row;
        }
      }
      forall k, c | 0 <= k < n && 0 <= c < |cols|
        ensures body[(k + 1, c)] == instances[k][cols[c].attribute]
      {
        if k == n - 1 {
          assert (k + 1, c) in row;
        } else {
          assert (k + 1, c) !in row;
          assert (k + 1, c) in prev;
        }
      }
    }
  }

  /** The list a column's drop-down stores: none without a validation or when the list is refused. */
  function ColumnList(c: ColumnSpec): (r: Option<string>)
    ensures r.Some? <==> c.validation.Some? && |ListFormula(c.validation.value)| <= LIST_LIMIT
    ensures r.Some? ==> r.value == ListFormula(c.validation.value)
  {
    match c.validation
    case None => None
    case Some(v) => StoredList(v)
  }

  /** The drop-downs the sheet keeps, each from row 1 down to `lastRow`, with its stored list. */
  function ValidationRanges(cols: seq<ColumnSpec>, lastRow: int): seq<(Area, string)>
  {
    if cols == [] then []
    else
      var j := |cols| - 1;
      ValidationRanges(cols[..j], lastRow) +
      (match ColumnList(cols[j])
       case None => []
       case Some(list) => [(Area(1, j, lastRow, j), list)])
  }

  /**
   * A drop-down range is laid exactly on each column whose validation's joined list fits
   * Excel's limit, one column wide, holding that list.
   */
  lemma {:induction false} ValidationRangesIff(cols: seq<ColumnSpec>, lastRow: int, area: Area, list: string)
    ensures (area, list) in ValidationRanges(cols, lastRow) <==>
      (exists j :: 0 <= j < |cols| && ColumnList(cols[j]) == Some(list) && area == Area(1, j, lastRow, j))
  {
    if cols != [] {
      var j := |cols| - 1;
      ValidationRangesIff(cols[..j], lastRow, area, list);
      if exists i :: 0 <= i < |cols| && ColumnList(cols[i]) == Some(list) && area == Area(1, i, lastRow, i) {
        var i :| 0 <= i < |cols| && ColumnList(cols[i]) == Some(list) && area == Area(1, i, lastRow, i);
        if i < j {
          assert cols[..j][i] == cols[i];
        }
      }
      if (area, list) in ValidationRanges(cols[..j], lastRow) {
        var i :| 0 <= i < j && ColumnList(cols[..j][i]) == Some(list) && area == Area(1, i, lastRow, i);
        assert cols[i] == cols[..j][i];
      }
    }
  }

  lemma MergeUpdate<K, V>(a: map<K, V>, b: map<K, V>, k: K, v: V)
    ensures (a + b)[k := v] == a + b[k := v]
  {
  }

  lemma MergeAssociative<K, V>(a: map<K, V>, b: map<K, V>, c: map<K, V>)
    ensures a + b + c == a + (b + c)
  {
  }

  lemma MergeEmpty<K, V>(a: map<K, V>)
    ensures map[] + a == a
  {
  }

  /** A worksheet being written: cell values, header comments, column widths, drop-downs and the autofilter. */
  class Worksheet {
    const name: string
    var cells: map<Cell, Value>
    var comments: map<Cell, string>
    var widths: map<int, nat>
    var validations: seq<(Area, string)>
    var autofilter: Option<Area>

    constructor (name: string)
      ensures this.name == name
      ensures cells == map[] && comments == map[] && widths == map[]
      ensures validations == [] && autofilter == None
    {
      this.name := name;
      cells := map[];
      comments := map[];
      widths := map[];
      validations := [];
      autofilter := None;
    }

    /** `write_header_row`: column j's header text and comment at (0, j), its width set from the text. */
    method WriteHeaderRow(cols: seq<ColumnSpec>)
      modifies this
      ensures cells == old(cells) + HeaderCells(cols, |cols|)
      ensures comments == old(comments) + HeaderComments(cols, |cols|)
      ensures widths == old(widths) + ColumnWidths(cols, |cols|)
      ensures validations == old(validations) && autofilter == old(autofilter)
    {
      var col := 0;
      while col < |cols|
        invariant 0 <= col <= |cols|
        invariant cells == old(cells) + HeaderCells(cols, col)
        invariant comments == old(comments) + HeaderComments(cols, col)
        invariant widths == old(widths) + ColumnWidths(cols, col)
        invariant validations == old(validations) && autofilter == old(autofilter)
      {
        MergeUpdate(old(cells), HeaderCells(cols, col), (0, col), Str(cols[col].heading));
        MergeUpdate(old(comments), HeaderComments(cols, col), (0, col), cols[col].comment);
        MergeUpdate(old(widths), ColumnWidths(cols, col), col, |cols[col].heading| + 2);
        cells := cells[(0, col) := Str(cols[col].heading)];
        comments := comments[(0, col) := cols[col].comment];
        widths := widths[col := |cols[col].heading| + 2];
        col := col + 1;
      }
    }

    /** `write_model_row`: attribute j of the instance at (row, j). */
    method WriteModelRow(inst: Attrs, row: int, cols: seq<ColumnSpec>)
      requires forall j :: 0 <= j < |cols| ==> cols[j].attribute in inst
      modifies this
      ensures cells == old(cells) + RowCells(inst, row, cols, |cols|)
      ensures comments == old(comments) && widths == old(widths)
      ensures validations == old(validations) && autofilter == old(autofilter)
    {
      var col := 0;
      while col < |cols|
        invariant 0 <= col <= |cols|
        invariant cells == old(cells) + RowCells(inst, row, cols, col)
        invariant comments == old(comments) && widths == old(widths)
        invariant validations == old(validations) && autofilter == old(autofilter)
      {
        MergeUpdate(old(cells), RowCells(inst, row, cols, col), (row, col), inst[cols[col].attribute]);
        cells := cells[(row, col) := inst[cols[col].attribute]];
        col := col + 1;
      }
    }

    /** The row loop of `write_worksheet`: instance k written in row k + 1. */
    method WriteRows(instances: seq<Attrs>, cols: seq<ColumnSpec>)
      requires HasAttributes(instances, cols)
      modifies this
      ensures cells == old(cells) + BodyCells(instances, cols, |instances|)
      ensures comments == old(comments) && widths == old(widths)
      ensures validations == old(validations) && autofilter == old(autofilter)
    {
      var row := 1;
      while row <= |instances|
        invariant 1 <= row <= |instances| + 1
        invariant cells == old(cells) + BodyCells(instances, cols, row - 1)
        invariant comments == old(comments) && widths == old(widths)
        invariant validations == old(validations) && autofilter == old(autofilter)
      {
        assert forall j :: 0 <= j < |cols| ==> cols[j].attribute in instances[row - 1];
        WriteModelRow(instances[row - 1], row, cols);
        MergeAssociative(old(cells), BodyCells(instances, cols, row - 1), RowCells(instances[row - 1], row, cols, |cols|));
        row := row + 1;
      }
    }

    /**
     * The drop-down loop of `write_worksheet`: one `data_validation` call per column that has a
     * validation, which keeps a range only when the joined list fits Excel's limit.
     */
    method AddValidations(cols: seq<ColumnSpec>, lastRow: int)
      modifies this
      ensures validations == old(validations) + ValidationRanges(cols, lastRow)
      ensures cells == old(cells) && comments == old(comments) && widths == old(widths)
      ensures autofilter == old(autofilter)
    {
      var col := 0;
      while col < |cols|
        invariant 0 <= col <= |cols|
        invariant validations == old(validations) + ValidationRanges(cols[..col], lastRow)
        invariant cells == old(cells) && comments == old(comments) && widths == old(widths)
        invariant autofilter == old(autofilter)
      {
        assert cols[..col + 1][..col] == cols[..col];
        var validation := cols[col].validation;
        if validation.Some? {
          var list := StoredList(validation.value);
          if list.Some? {
            validations := validations + [(Area(1, col, lastRow, col), list.value)];
          }
        }
        col := col + 1;
      }
      assert cols[..|cols|] == cols;
    }

    /**
     * `write_worksheet`: the header row, instance k in row k + 1, a drop-down on every column
     * that has one down to `EXTRA_ROWS` rows past the data, and the autofilter over header and data.
     */
    method WriteWorksheet(instances: seq<Attrs>, cols: seq<ColumnSpec>)
      requires HasAttributes(instances, cols)
      modifies this
      ensures cells == old(cells) + HeaderCells(cols, |cols|) + BodyCells(instances, cols, |instances|)
      ensures comments == old(comments) + HeaderComments(cols, |cols|)
      ensures widths == old(widths) + ColumnWidths(cols, |cols|)
      ensures validations == old(validations) + ValidationRanges(cols, |instances| + 1 + EXTRA_ROWS)
      ensures autofilter == Some(Area(0, 0, |instances|, |cols| - 1))
    {
      WriteHeaderRow(cols);
      WriteRows(instances, cols);
      var row := |instances| + 1;
      AddValidations(cols, row + EXTRA_ROWS);
      autofilter := Some(Area(0, 0, row - 1, |cols| - 1));
    }
  }

  /**
   * `write_excel_workbook`: a Methods sheet with the studies and a Results sheet with the
   * results, each laid out by its own columns.
   */
  method WriteExcelWorkbook(studies: seq<Attrs>, studyCols: seq<ColumnSpec>,
                            results: seq<Attrs>, resultCols: seq<ColumnSpec>)
    returns (methodsSheet: Worksheet, resultsSheet: Worksheet)
    requires HasAttributes(studies, studyCols) && HasAttributes(results, resultCols)
    ensures fresh(methodsSheet) && fresh(resultsSheet) && methodsSheet != resultsSheet
    ensures methodsSheet.name == "Methods" && resultsSheet.name == "Results"
    ensures methodsSheet.cells == HeaderCells(studyCols, |studyCols|) + BodyCells(studies, studyCols, |studies|)
    ensures resultsSheet.cells == HeaderCells(resultCols, |resultCols|) + BodyCells(results, resultCols, |results|)
    ensures methodsSheet.validations == ValidationRanges(studyCols, |studies| + 1 + EXTRA_ROWS)
    ensures resultsSheet.validations == ValidationRanges(resultCols, |results| + 1 + EXTRA_ROWS)
  {
    methodsSheet := new Worksheet("Methods");
    methodsSheet.WriteWorksheet(studies, studyCols);
    resultsSheet := new Worksheet("Results");
    resultsSheet.WriteWorksheet(results, resultCols);
    MergeEmpty(HeaderCells(studyCols, |studyCols|));
    MergeEmpty(HeaderCells(resultCols, |resultCols|));
    assert map[] + HeaderCells(studyCols, |studyCols|) == HeaderCells(studyCols, |studyCols|);
  }
}
