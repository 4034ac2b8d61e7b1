/**
 * The result model: its field schema, the age-range and observation-time texts
 * (decimals held as integer hundredths), the boolean flags, ownership and approval
 * inherited from the parent study, the results-to-studies URL and `__str__`.
 */
module Results {

  import opened Wrappers
  import opened Strings
  import opened Values
  import opened Schema
  import opened Studies

  /** The columns of the Results sheet, in order. */
  const RESULT_IMPORT_FIELDS: seq<string> := [
    "Study_ID", "Age_general", "Age_min", "Age_max", "Age_specific", "Population_gender",
    "Indigenous_status", "Indigenous_population", "Country", "Jurisdiction", "Specific_location",
    "Year_start", "Year_stop", "Observation_time_years", "Numerator", "Denominator", "Point_estimate",
    "Measure", "Interpolated_from_graph", "Proportion", "Mortality_flag", "Recurrent_ARF_flag",
    "Schoolchildren_flag", "Hospitalised_flag", "StrepA_attributable_fraction"
  ]

  const AGE_CHOICES := [
    "Infants", "Children", "Children and adolescents", "Children, adolescents and young adults",
    "Adolescents and adults", "Adults", "Elderly adults", "All ages"
  ]
  const GENDER_CHOICES := ["Females", "Males", "Males and females"]
  const INDIGENOUS_POPULATION_CHOICES := [
    "Aboriginal population", "General - special population", "General population",
    "Non-Indigenous population", "Not Defined", "Torres Strait Islander"
  ]

  function Flag(name: string, nullable: bool, verbose: string): Field
  {
    Field(name, BooleanField, nullable, verbose, "")
  }

  /** The record fields: key, study link and source row. */
  const RECORD_FIELDS: seq<Field> := [
    Field("id", OtherField, false, "ID", ""),
    Field("Study", ForeignKey("StudiesModel"), false, "Study", ""),
    Field("Import_row_number", PositiveIntegerField, true, "Excel row number", "")
  ]

  /** Who and where was counted, given the choice tables of its choice fields. */
  function PopulationFields(ages: seq<string>, genders: seq<string>, populations: seq<string>): seq<Field>
  {
    [
      ChoiceField("Age_general", 50, ages, "Age category"),
      Field("Age_min", DecimalField(10, 2), true, "Youngest age in study (years)", ""),
      Field("Age_max", DecimalField(10, 2), true, "Oldest age in study (years)", ""),
      Char("Age_specific", 50, false, "Specific age category"),
      ChoiceField("Population_gender", 30, genders, "Population - Gender"),
      Flag("Indigenous_status", true, "Indigenous"),
      ChoiceField("Indigenous_population", 50, populations, "Indigenous population"),
      Char("Country", 30, false, "Country"),
      Char("Jurisdiction", 30, false, "Jurisdiction"),
      Char("Specific_location", 100, true, "Specific geographic locations")
    ]
  }

  /** When, and what was counted. */
  const MEASUREMENT_FIELDS: seq<Field> := [
    Field("Year_start", PositiveIntegerField, true, "Year start", ""),
    Field("Year_stop", PositiveIntegerField, true, "Year stop", ""),
    Field("Observation_time_years", DecimalField(10, 2), true, "Observational time (years)", ""),
    Field("Numerator", PositiveIntegerField, true, "Numerator", ""),
    Field("Denominator", PositiveIntegerField, true, "Denominator", ""),
    Char("Point_estimate", 100, true, "Point estimate"),
    Field("Measure", TextField, false, "Measure", "")
  ]

  const RESULT_FLAG_FIELDS: seq<Field> := [
    Flag("Interpolated_from_graph", false, "Interpolated"),
    Flag("Proportion", false, "Proportion"),
    Flag("Mortality_flag", true, "Mortality"),
    Flag("Recurrent_ARF_flag", true, "Recurrent ARF"),
    Flag("StrepA_attributable_fraction", true, "Strep.A fraction"),
    Flag("Hospitalised_flag", true, "Hospitalised"),
    Flag("Schoolchildren_flag", true, "Schoolchildren")
  ]

  /** The concrete fields of the result model, in declaration order (help texts not reproduced). */
  const RESULTS_SCHEMA: seq<Field> :=
    RECORD_FIELDS + PopulationFields(AGE_CHOICES, GENDER_CHOICES, INDIGENOUS_POPULATION_CHOICES) +
    MEASUREMENT_FIELDS + RESULT_FLAG_FIELDS

  const POPULATION_FIELD_NAMES := [
    "Age_general", "Age_min", "Age_max", "Age_specific", "Population_gender", "Indigenous_status",
    "Indigenous_population", "Country", "Jurisdiction", "Specific_location"
  ]
  const MEASUREMENT_FIELD_NAMES := [
    "Year_start", "Year_stop", "Observation_time_years", "Numerator", "Denominator", "Point_estimate", "Measure"
  ]
  const FLAG_FIELD_NAMES := [
    "Interpolated_from_graph", "Proportion", "Mortality_flag", "Recurrent_ARF_flag",
    "StrepA_attributable_fraction", "Hospitalised_flag", "Schoolchildren_flag"
  ]

  lemma PopulationFieldNames(ages: seq<string>, genders: seq<string>, populations: seq<string>)
    ensures Names(PopulationFields(ages, genders, populations)) == POPULATION_FIELD_NAMES
  {
  }

  lemma MeasurementFieldNames()
    ensures Names(MEASUREMENT_FIELDS) == MEASUREMENT_FIELD_NAMES
  {
  }

  lemma FlagFieldNames()
    ensures Names(RESULT_FLAG_FIELDS) == FLAG_FIELD_NAMES
  {
  }

  /** Each Results sheet column after the first is a population, measurement or flag field. */
  lemma ImportTail()
    ensures forall n :: n in RESULT_IMPORT_FIELDS[1..] ==>
      n in POPULATION_FIELD_NAMES || n in MEASUREMENT_FIELD_NAMES || n in FLAG_FIELD_NAMES
  {
  }

  /** Every Results sheet column after the first names a field of the result model. */
  lemma ImportFieldsDeclared()
    ensures forall n :: n in RESULT_IMPORT_FIELDS[1..] ==> n in Names(RESULTS_SCHEMA)
  {
    var population := PopulationFields(AGE_CHOICES, GENDER_CHOICES, INDIGENOUS_POPULATION_CHOICES);
    var rest := population + (MEASUREMENT_FIELDS + RESULT_FLAG_FIELDS);
    assert RESULTS_SCHEMA == RECORD_FIELDS + rest;
    NamesConcat(RECORD_FIELDS, rest);
    NamesConcat(population, MEASUREMENT_FIELDS + RESULT_FLAG_FIELDS);
    NamesConcat(MEASUREMENT_FIELDS, RESULT_FLAG_FIELDS);
    PopulationFieldNames(AGE_CHOICES, GENDER_CHOICES, INDIGENOUS_POPULATION_CHOICES);
    MeasurementFieldNames();
    FlagFieldNames();
    ImportTail();
  }

  /** A stored result row: its study and its attribute values by field name. */
  datatype ResultRow = ResultRow(pk: Option<nat>, study: Study, attrs: map<string, Value>)

  /** The value of an attribute, `None` when it was never set. */
  function Attr(r: ResultRow, name: string): Value
  {
    if name in r.attrs then r.attrs[name] else Null
  }

  /** `get_flags`: every boolean field other than `is_approved`, with its value, in field order. */
  function GetFlags(schema: seq<Field>, r: ResultRow): (flags: seq<(Field, Value)>)
    ensures |flags| <= |schema|
    ensures forall p :: p in flags ==>
      p.0 in schema && p.0.kind.BooleanField? && p.0.name != "is_approved" && p.1 == Attr(r, p.0.name)
    ensures forall f :: f in schema && f.kind.BooleanField? && f.name != "is_approved" ==>
      (f, Attr(r, f.name)) in flags
  {
    if schema == [] then []
    else
      var f := schema[0];
      (if f.kind.BooleanField? && f.name != "is_approved" then [(f, Attr(r, f.name))] else [])
      + GetFlags(schema[1..], r)
  }

  /** `'%d' % value` for a decimal held in hundredths. */
  function Whole(hundredths: int): string
  {
    IntStr(TruncDiv(hundredths, 100))
  }

  /** `exact_age_text`, with both ages in hundredths of a year. */
  function ExactAgeText(ageMin: Option<int>, ageMax: Option<int>): (r: Option<string>)
    ensures ageMin.Some? && ageMin.value > 0 && ageMax.Some? && ageMax.value < 99900 ==>
      r == Some(Whole(ageMin.value) + " to " + Whole(ageMax.value) + " years old")
    ensures ageMin.Some? && ageMin.value > 0 && !(ageMax.Some? && ageMax.value < 99900) ==>
      r == Some(Whole(ageMin.value) + " years and older")
    ensures !(ageMin.Some? && ageMin.value > 0) && ageMax.Some? && ageMax.value < 99900 ==>
      r == Some("Up to " + Whole(ageMax.value) + " years old")
    ensures r.None? <==> !(ageMin.Some? && ageMin.value > 0) && !(ageMax.Some? && ageMax.value < 99900)
  {
    var hasMax := ageMax.Some? && ageMax.value < 99900;
    if ageMin.Some? && ageMin.value > 0 then
      if hasMax then Some(Whole(ageMin.value) + " to " + Whole(ageMax.value) + " years old")
      else Some(Whole(ageMin.value) + " years and older")
    else if hasMax then Some("Up to " + Whole(ageMax.value) + " years old")
    else None
  }

  function Plural(n: int): string
  {
    if n == 1 then "" else "s"
  }

  /** The months of the fractional part: `round((value % 1) * 12)`, `%` keeping the sign of `value`. */
  function Months(hundredths: int): (m: int)
    ensures hundredths >= 0 ==> 0 <= m <= 12
    ensures hundredths % 100 == 0 ==> m == 0
  {
    var fraction := hundredths - TruncDiv(hundredths, 100) * 100;
    RoundHalfEven(fraction * 12, 100)
  }

  /** `observation_time_text`, with the observation time in hundredths of a year. */
  function ObservationTimeText(time: Option<int>): (r: string)
    ensures time.None? ==> r == "N/A"
    ensures time.Some? && time.value % 100 == 0 ==>
      r == Whole(time.value) + " year" + Plural(TruncDiv(time.value, 100))
    ensures time.Some? && time.value % 100 != 0 && TruncDiv(time.value, 100) != 0 ==>
      r == Whole(time.value) + " year" + Plural(TruncDiv(time.value, 100)) + " "
        + IntStr(Months(time.value)) + " month" + Plural(Months(time.value))
    ensures time.Some? && time.value % 100 != 0 && TruncDiv(time.value, 100) == 0 ==>
      r == IntStr(Months(time.value)) + " month" + Plural(Months(time.value))
  {
    match time
    case None => "N/A"
    case Some(t) =>
      var years := TruncDiv(t, 100);
      if t % 100 == 0 then IntStr(years) + " year" + Plural(years)
      else
        var months := Months(t);
        if years != 0 then IntStr(years) + " year" + Plural(years) + " " + IntStr(months) + " month" + Plural(months)
        else IntStr(months) + " month" + Plural(months)
  }

  /** A fraction just under a whole year rounds up to twelve months rather than to the next year. */
  lemma NearlyWholeYearShowsTwelveMonths()
    ensures ObservationTimeText(Some(199)) == "1 year 12 months"
  {
    assert TruncDiv(199, 100) == 1;
    assert Months(199) == 12;
    assert IntStr(1) == "1";
    assert IntStr(12) == NatStr(12) == NatStr(1) + [DigitChar(2)] == "12";
    assert ObservationTimeText(Some(199)) == "1" + " year" + "" + " " + "12" + " month" + "s";
  }

  /** A result's owner is the contributor of its study. */
  function ResultOwnerId(r: ResultRow): (id: Option<nat>)
    ensures id == Studies.OwnerId(r.study)
    ensures id.Some? <==> r.study.createdBy.Some?
  {
    Studies.OwnerId(r.study)
  }

  /** The `Results` manager: results whose study is approved, in table order. */
  function ApprovedResults(rows: seq<ResultRow>): (r: seq<ResultRow>)
    ensures forall x :: x in r ==> x in rows && !Pending(x.study)
    ensures forall x :: x in rows && !Pending(x.study) ==> x in r
  {
    if rows == [] then []
    else (if Pending(rows[0].study) then [] else [rows[0]]) + ApprovedResults(rows[1..])
  }

  /** A result is listed exactly when its study is listed by the `Studies` manager. */
  lemma ApprovedResultsFollowStudies(rows: seq<ResultRow>, studies: seq<Study>, x: ResultRow)
    requires x in rows && x.study in studies
    ensures x in ApprovedResults(rows) <==> x.study in ApprovedStudies(studies)
  {
  }

  /** `get_view_results_studies_url`: no link for a model whose name contains 'pending'. */
  function GetViewResultsStudiesUrl(modelName: string, studiesChangelist: string, ids: seq<nat>): (r: Option<string>)
    ensures Contains(modelName, "pending") <==> r.None?
    ensures r.Some? ==> r.value == studiesChangelist + "?pk__in=" + Join(",", QuotedIds(ids))
  {
    if Contains(modelName, "pending") then None
    else Some(studiesChangelist + "?pk__in=" + Join(",", QuotedIds(ids)))
  }

  /** The text describing a result: the study description, or its spreadsheet key when that is empty. */
  function StudyLabel(s: Study): string
  {
    if s.studyDescription != "" then s.studyDescription else s.uniqueIdentifier
  }

  /** `__str__` as written: it reads `self.pending`, which the result model does not define. */
  function ResultStrAsWritten(r: ResultRow): (out: Result<string, string>)
    ensures out.Err?
  {
    Err("AttributeError: 'ResultsModel' object has no attribute 'pending'")
  }

  /** `__str__` with the approval state taken from the parent study, as results inherit it. */
  function ResultStr(r: ResultRow): (out: string)
    ensures Pending(r.study) ==> out == PENDING_PREFIX + StudyLabel(r.study) + " (Burden: " + PyStr(Attr(r, "Point_estimate")) + ")"
    ensures !Pending(r.study) ==> out == StudyLabel(r.study) + " (Burden: " + PyStr(Attr(r, "Point_estimate")) + ")"
  {
    (if Pending(r.study) then PENDING_PREFIX else "") + StudyLabel(r.study)
      + " (Burden: " + PyStr(Attr(r, "Point_estimate")) + ")"
  }

  /** Every result fails to print as written, while the corrected text always exists. */
  lemma ResultStrAsWrittenFails(r: ResultRow)
    ensures ResultStrAsWritten(r).Err?
    ensures |ResultStr(r)| > |StudyLabel(r.study)|
  {
  }
}
