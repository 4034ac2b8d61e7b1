/**
 * The study ("Methods") model: its field schema and choice tables, the computed
 * properties (`owner_id`, `pending`, the `*_name` properties, `__str__`,
 * `get_export_id`, the results-list URL) and the two managers that split studies
 * into approved ones and drafts.
 */
module Studies {

  import opened Wrappers
  import opened Strings
  import opened Values
  import opened Schema
  import opened Users
  import Quoting

  /** The columns of the Methods sheet, in order. */
  const STUDY_IMPORT_FIELDS: seq<string> := [
    "Unique_identifier", "Study_group", "Paper_title", "Paper_link", "Year", "Study_description",
    "Disease", "Study_design", "Diagnosis_method", "Data_source", "Data_source_name",
    "Surveillance_setting", "Clinical_definition_category", "Coverage", "Climate",
    "Urban_rural_coverage", "Focus_of_study", "Limitations_identified", "Other_points"
  ]

  /** A choice table whose stored code and display text are the same string. */
  function Diagonal(xs: seq<string>): (r: seq<Choice>)
    ensures |r| == |xs|
    ensures forall i :: 0 <= i < |xs| ==> r[i] == Choice(xs[i], xs[i])
  {
    seq(|xs|, i requires 0 <= i < |xs| => Choice(xs[i], xs[i]))
  }

  const STUDY_GROUPS := ["Superficial skin and throat", "Invasive Strep A", "ARF", "APSGN"]
  const DISEASE_TYPES := [
    "APSGN", "ARF", "iStrep A - NF", "iStrep A - Scarlet fever", "iStrep A - bacteraemia",
    "iStrep A - cellulitis", "iStrep A - pneumonia", "iStrep A - sepsis", "iStrep A - severe TSS",
    "iStrep A - all", "Superficial skin & throat infection", "Superficial throat infection",
    "Superficial skin infection", "Other"
  ]
  const STUDY_DESIGNS := [
    "Case series", "Cross-sectional", "Prospective", "Prospective and Retrospective",
    "Prospective cohort", "Report", "Retrospective", "Retrospective review", "Retrospective cohort",
    "Review article", "Other"
  ]
  const DIAGNOSIS_METHODS := [
    "Clinical and laboratory diagnosis", "Clinical diagnosis only", "ICD codes", "Laboratory diagnosis",
    "Notifications", "Primary Health Care codes (SNOMED/ICPC)", "Self report (questionnaire/survey)", "Other"
  ]
  const DATA_SOURCE_TYPES := [
    "ED presentations only", "Hospital admissions", "Hospital admissions & active surveillance",
    "ICU admissions", "Laboratory records only", "Medical records only", "Multiple sources",
    "Outbreak investigations", "PHC health service data", "Register or notification",
    "Screening programme", "Survey/Questionnaire", "Other"
  ]
  const SURVEILLANCE_SETTINGS := [
    "Unknown", "Community", "Hospital", "Household", "Laboratory", "Multiple",
    "Primary health centre", "Schools", "Other"
  ]
  const CDC_CHOICES := [
    "Undefined or unknown", "Both confirmed and probable cases", "Confirmed case",
    "Definite and probable ARF", "Suspected or probable case", "Other"
  ]
  const COVERAGE_CHOICES := ["National/multi-jurisdictional", "Single Institution/service", "State", "Subnational/region"]
  const CLIMATE_CHOICES := ["Arid", "Combination", "Temperate", "Tropical"]
  const REMOTENESS_CHOICES := ["Combination", "Metropolitan", "Regional", "Remote"]

  function Char(name: string, maxLength: nat, nullable: bool, verbose: string): Field
  {
    Field(name, CharField(maxLength, []), nullable, verbose, "")
  }

  function ChoiceField(name: string, maxLength: nat, table: seq<string>, verbose: string): Field
  {
    Field(name, CharField(maxLength, Diagonal(table)), false, verbose, "")
  }

  /**
   * The fields of the study model the code expects, in declaration order (help texts not
   * reproduced), in four groups. `Unique_identifier` is read throughout the code but declared
   * only in the older single-file model (database/models.py:84); `STUDIES_SCHEMA` includes it
   * with that declaration.
   */
  const ID_FIELD := Field("id", OtherField, false, "ID", "")
  const UNIQUE_IDENTIFIER_FIELD := Char("Unique_identifier", 20, false, "Unique identifier")

  /** Import and approval records. */
  const STUDY_PROVENANCE_FIELDS: seq<Field> := [
    Field("Import_source", ForeignKey("ImportSource"), true, "Import source", ""),
    Field("Created_time", OtherField, false, "Contribution date", ""),
    Field("Created_by", ForeignKey("Users"), true, "Contributed by", ""),
    Field("Updated_time", OtherField, false, "Last modified", ""),
    Field("Approved_time", OtherField, true, "Approval date", ""),
    Field("Approved_by", ForeignKey("Users"), true, "Approved by", ""),
    Char("Import_row_id", 20, true, "Unique row identifier"),
    Field("Import_row_number", PositiveIntegerField, true, "Excel row number", "")
  ]

  /** The paper and its disease, given the choice tables of its choice fields. */
  function PaperFields(groups: seq<string>, diseases: seq<string>, designs: seq<string>): seq<Field>
  {
    [
      ChoiceField("Study_group", 50, groups, "Study Group"),
      Char("Paper_title", 500, false, "Paper Title"),
      Char("Paper_link", 1000, false, "Paper Link"),
      Field("Year", PositiveIntegerField, true, "Publication Year", ""),
      ChoiceField("Disease", 100, diseases, "Specific Disease"),
      ChoiceField("Study_design", 50, designs, "Study design"),
      Char("Study_description", 200, false, "Publication info")
    ]
  }

  /** How the study was run, given the choice tables of its choice fields. */
  function MethodFields(diagnosis: seq<string>, sources: seq<string>, settings: seq<string>, categories: seq<string>,
                        coverage: seq<string>, climates: seq<string>, remoteness: seq<string>): seq<Field>
  {
    [
      ChoiceField("Diagnosis_method", 200, diagnosis, "Diagnosis method"),
      ChoiceField("Data_source", 50, sources, "Data source"),
      ChoiceField("Surveillance_setting", 25, settings, "Surveillance setting"),
      Char("Data_source_name", 200, true, "Name of data source"),
      ChoiceField("Clinical_definition_category", 50, categories, "Clinical definition category"),
      ChoiceField("Coverage", 200, coverage, "Geographic Coverage Level"),
      ChoiceField("Climate", 20, climates, "Climate"),
      ChoiceField("Urban_rural_coverage", 20, remoteness, "Urban-Rural Coverage"),
      Char("Focus_of_study", 1000, false, "Focus of study"),
      Char("Limitations_identified", 1000, true, "Limitations identified"),
      Field("Other_points", TextField, true, "Other points", "")
    ]
  }

  const STUDY_PAPER_FIELDS: seq<Field> := PaperFields(STUDY_GROUPS, DISEASE_TYPES, STUDY_DESIGNS)
  const STUDY_METHOD_FIELDS: seq<Field> := MethodFields(DIAGNOSIS_METHODS, DATA_SOURCE_TYPES, SURVEILLANCE_SETTINGS,
                                                        CDC_CHOICES, COVERAGE_CHOICES, CLIMATE_CHOICES, REMOTENESS_CHOICES)

  /** The fields after the key and the spreadsheet key. */
  const STUDY_DATA_FIELDS: seq<Field> := STUDY_PROVENANCE_FIELDS + STUDY_PAPER_FIELDS + STUDY_METHOD_FIELDS

  const STUDIES_SCHEMA: seq<Field> := [ID_FIELD, UNIQUE_IDENTIFIER_FIELD] + STUDY_DATA_FIELDS

  /**
   * The fields the active study model (database/models/methods.py) declares: the ones above
   * without `Unique_identifier`.
   */
  const DECLARED_STUDIES_SCHEMA: seq<Field> := [ID_FIELD] + STUDY_DATA_FIELDS

  /** No field of a list is called `Dataset` or `Unique_identifier`. */
  predicate LacksBackupNames(fields: seq<Field>)
  {
    forall f :: f in fields ==> f.name != "Dataset" && f.name != "Unique_identifier"
  }

  lemma ProvenanceFieldNames()
    ensures LacksBackupNames(STUDY_PROVENANCE_FIELDS)
  {
  }

  lemma PaperFieldNames(groups: seq<string>, diseases: seq<string>, designs: seq<string>)
    ensures LacksBackupNames(PaperFields(groups, diseases, designs))
  {
  }

  lemma MethodFieldNames(diagnosis: seq<string>, sources: seq<string>, settings: seq<string>, categories: seq<string>,
                         coverage: seq<string>, climates: seq<string>, remoteness: seq<string>)
    ensures LacksBackupNames(MethodFields(diagnosis, sources, settings, categories, coverage, climates, remoteness))
  {
  }

  /** The names of the paper fields, in order. */
  const PAPER_FIELD_NAMES := ["Study_group", "Paper_title", "Paper_link", "Year", "Disease", "Study_design", "Study_description"]

  /** The names of the method fields, in order. */
  const METHOD_FIELD_NAMES := [
    "Diagnosis_method", "Data_source", "Surveillance_setting", "Data_source_name",
    "Clinical_definition_category", "Coverage", "Climate", "Urban_rural_coverage", "Focus_of_study",
    "Limitations_identified", "Other_points"
  ]

  lemma PaperFieldNamesInOrder(groups: seq<string>, diseases: seq<string>, designs: seq<string>)
    ensures Names(PaperFields(groups, diseases, designs)) == PAPER_FIELD_NAMES
  {
  }

  lemma MethodFieldNamesInOrder(diagnosis: seq<string>, sources: seq<string>, settings: seq<string>,
                                categories: seq<string>, coverage: seq<string>, climates: seq<string>,
                                remoteness: seq<string>)
    ensures Names(MethodFields(diagnosis, sources, settings, categories, coverage, climates, remoteness)) ==
      METHOD_FIELD_NAMES
  {
  }

  /** Each Methods sheet column after the first is a paper or a method field. */
  lemma ImportTail()
    ensures forall n :: n in STUDY_IMPORT_FIELDS[1..] ==> n in PAPER_FIELD_NAMES || n in METHOD_FIELD_NAMES
  {
  }

  /** Every Methods sheet column after the first names a field of the study model. */
  lemma ImportFieldsDeclared()
    ensures forall n :: n in STUDY_IMPORT_FIELDS[1..] ==> n in Names(STUDIES_SCHEMA)
  {
    var head := [ID_FIELD, UNIQUE_IDENTIFIER_FIELD] + STUDY_PROVENANCE_FIELDS;
    var paper, methods := STUDY_PAPER_FIELDS, STUDY_METHOD_FIELDS;
    assert STUDIES_SCHEMA == head + (paper + methods);
    NamesConcat(head, paper + methods);
    NamesConcat(paper, methods);
    PaperFieldNamesInOrder(STUDY_GROUPS, DISEASE_TYPES, STUDY_DESIGNS);
    MethodFieldNamesInOrder(DIAGNOSIS_METHODS, DATA_SOURCE_TYPES, SURVEILLANCE_SETTINGS,
                            CDC_CHOICES, COVERAGE_CHOICES, CLIMATE_CHOICES,
                            REMOTENESS_CHOICES);
    ImportTail();
  }

  /**
   * Neither study schema has a `Dataset` field, and the declared one has no `Unique_identifier`:
   * lookups of those names fail as `_meta.get_field` does.
   */
  lemma UndeclaredStudyFields()
    ensures GetField(DECLARED_STUDIES_SCHEMA, "Unique_identifier").None?
    ensures GetField(DECLARED_STUDIES_SCHEMA, "Dataset").None?
    ensures GetField(STUDIES_SCHEMA, "Dataset").None?
  {
    DataFieldNames();
    assert ID_FIELD.name == "id";
    assert LacksBackupNames(DECLARED_STUDIES_SCHEMA);
    assert forall f :: f in STUDIES_SCHEMA ==> f.name != "Dataset";
    GetFieldAbsent(DECLARED_STUDIES_SCHEMA, "Unique_identifier");
    GetFieldAbsent(DECLARED_STUDIES_SCHEMA, "Dataset");
    GetFieldAbsent(STUDIES_SCHEMA, "Dataset");
  }

  lemma DataFieldNames()
    ensures LacksBackupNames(STUDY_DATA_FIELDS)
  {
    ProvenanceFieldNames();
    PaperFieldNames(STUDY_GROUPS, DISEASE_TYPES, STUDY_DESIGNS);
    MethodFieldNames(DIAGNOSIS_METHODS, DATA_SOURCE_TYPES, SURVEILLANCE_SETTINGS,
                     CDC_CHOICES, COVERAGE_CHOICES, CLIMATE_CHOICES, REMOTENESS_CHOICES);
  }

  /** The intended schema declares the spreadsheet key as a required text field of under 20 characters. */
  lemma IdentifierDeclared()
    ensures GetField(STUDIES_SCHEMA, "Unique_identifier") == Some(Char("Unique_identifier", 20, false, "Unique identifier"))
  {
    assert STUDIES_SCHEMA[0] == ID_FIELD && STUDIES_SCHEMA[1] == UNIQUE_IDENTIFIER_FIELD;
  }

  /**
   * A stored study row. `uniqueIdentifier` is the spreadsheet key (see `STUDIES_SCHEMA`);
   * `datasetId` is the dataset the study belongs to, the relation the backup action filters on
   * although no study model declares it.
   */
  datatype Study = Study(
    pk: Option<nat>,
    uniqueIdentifier: string,
    studyGroup: string,
    paperTitle: string,
    year: Option<int>,
    studyDescription: string,
    createdBy: Option<User>,
    approvedBy: Option<User>,
    approvedTime: Option<int>,
    importSource: Option<nat>,
    datasetId: Option<nat>)

  /** `owner_id`: the id of the contributing user, if any. */
  function OwnerId(s: Study): (r: Option<nat>)
    ensures r.Some? <==> s.createdBy.Some?
    ensures r.Some? ==> r.value == s.createdBy.value.id
  {
    match s.createdBy
    case None => None
    case Some(u) => Some(u.id)
  }

  /** `pending`: the sole approval state is whether an approver is recorded. */
  predicate Pending(s: Study)
  {
    s.approvedBy.None?
  }

  /** `Created_by_name` / `Approved_by_name`: the user's text, or 'N/A' when unset. */
  function UserName(u: Option<User>): (r: string)
    ensures u.None? ==> r == "N/A"
    ensures u.Some? ==> r == UserStr(u.value)
  {
    match u
    case None => "N/A"
    case Some(v) => UserStr(v)
  }

  function CreatedByName(s: Study): string { UserName(s.createdBy) }

  function ApprovedByName(s: Study): string { UserName(s.approvedBy) }

  /** A set user's name is never the placeholder: it always ends with '>'. */
  lemma UserNameDistinguishesUnset(u: Option<User>)
    ensures UserName(u) == "N/A" <==> u.None?
  {
    if u.Some? {
      var r := UserName(u);
      assert r[|r| - 1] == '>';
    }
  }

  const PENDING_PREFIX := "[Pending Approval] "

  function YearText(year: Option<int>): string
  {
    match year
    case None => "None"
    case Some(y) => IntStr(y)
  }

  /** `__str__`: the pending marker, then "title (year)". */
  function StudyStr(s: Study): string
  {
    (if Pending(s) then PENDING_PREFIX else "") + s.paperTitle + " (" + YearText(s.year) + ")"
  }

  /** The marker is present for every pending study, and after it the text is title and year. */
  lemma StudyStrShape(s: Study)
    ensures Pending(s) ==> |StudyStr(s)| >= |PENDING_PREFIX| && StudyStr(s)[..|PENDING_PREFIX|] == PENDING_PREFIX
    ensures var body := if Pending(s) then StudyStr(s)[|PENDING_PREFIX|..] else StudyStr(s);
      body == s.paperTitle + " (" + YearText(s.year) + ")"
  {
  }

  /** `get_export_id`: the spreadsheet key when non-empty, else the primary key. */
  function GetExportId(s: Study): (r: Value)
    ensures s.uniqueIdentifier != "" ==> r == Str(s.uniqueIdentifier)
    ensures s.uniqueIdentifier == "" && s.pk.Some? ==> r == Int(s.pk.value)
    ensures s.uniqueIdentifier == "" && s.pk.None? ==> r == Null
  {
    if s.uniqueIdentifier != "" then Str(s.uniqueIdentifier)
    else match s.pk
      case None => Null
      case Some(k) => Int(k)
  }

  const EXPORT_ID_ERROR := "AttributeError: 'Studies' object has no attribute 'Unique_identifier'"

  /**
   * `get_export_id` as written, for a study model with the given fields: reading the spreadsheet
   * key raises when the model does not declare it.
   */
  function GetExportIdAsWritten(schema: seq<Field>, s: Study): (r: Result<Value, string>)
    ensures GetField(schema, "Unique_identifier").None? <==> r.Err?
    ensures r.Err? ==> r.error == EXPORT_ID_ERROR
    ensures r.Ok? ==> r.value == GetExportId(s)
  {
    if GetField(schema, "Unique_identifier").None? then Err(EXPORT_ID_ERROR) else Ok(GetExportId(s))
  }

  /** The active model raises on every study, where the intended one gives its key or primary key. */
  lemma ExportIdFinding(s: Study)
    ensures GetExportIdAsWritten(DECLARED_STUDIES_SCHEMA, s) == Err(EXPORT_ID_ERROR)
    ensures GetExportIdAsWritten(STUDIES_SCHEMA, s) == Ok(GetExportId(s))
  {
    UndeclaredStudyFields();
    IdentifierDeclared();
  }

  /** Quoted decimal ids, as the URL builders list them. */
  function QuotedIds(ids: seq<nat>): (r: seq<string>)
    ensures |r| == |ids|
    ensures forall i :: 0 <= i < |ids| ==> r[i] == Quoting.Quote(NatStr(ids[i]))
  {
    if ids == [] then [] else [Quoting.Quote(NatStr(ids[0]))] + QuotedIds(ids[1..])
  }

  /** Quoting leaves decimal ids unchanged, so the id list is recoverable from the URL. */
  lemma {:induction false} QuotedIdsRoundTrip(ids: seq<nat>)
    requires ids != []
    ensures Split(Join(",", QuotedIds(ids)), ",") == QuotedIds(ids)
    ensures forall i :: 0 <= i < |ids| ==> QuotedIds(ids)[i] == NatStr(ids[i])
  {
    forall i | 0 <= i < |ids|
      ensures QuotedIds(ids)[i] == NatStr(ids[i])
    {
      Quoting.QuoteDigits(NatStr(ids[i]));
    }
    SplitJoin(QuotedIds(ids), ',');
  }

  /**
   * `get_view_study_results_url`: no link from the draft and submission lists;
   * otherwise the results list filtered to the given study ids.
   */
  function GetViewStudyResultsUrl(modelName: string, resultsChangelist: string, ids: seq<nat>): (r: Option<string>)
    ensures modelName == "my_drafts" || modelName == "my_submissions" <==> r.None?
    ensures r.Some? ==> r.value == resultsChangelist + "?Study_id__in=" + Join(",", QuotedIds(ids))
  {
    if modelName == "my_drafts" || modelName == "my_submissions" then None
    else Some(resultsChangelist + "?Study_id__in=" + Join(",", QuotedIds(ids)))
  }

  /** The `Studies` manager: approved rows only, in table order. */
  function ApprovedStudies(rows: seq<Study>): (r: seq<Study>)
    ensures forall s :: s in r ==> !Pending(s)
    ensures forall s :: s in rows && !Pending(s) ==> s in r
  {
    if rows == [] then []
    else (if Pending(rows[0]) then [] else [rows[0]]) + ApprovedStudies(rows[1..])
  }

  /** The `My_Drafts` manager: pending rows only, in table order. */
  function DraftStudies(rows: seq<Study>): (r: seq<Study>)
    ensures forall s :: s in r ==> Pending(s)
    ensures forall s :: s in rows && Pending(s) ==> s in r
  {
    if rows == [] then []
    else (if Pending(rows[0]) then [rows[0]] else []) + DraftStudies(rows[1..])
  }

  /** The two managers partition the table: together they hold every row exactly once. */
  lemma {:induction false} ManagersPartition(rows: seq<Study>)
    ensures multiset(ApprovedStudies(rows)) + multiset(DraftStudies(rows)) == multiset(rows)
    ensures |ApprovedStudies(rows)| + |DraftStudies(rows)| == |rows|
  {
    if rows != [] {
      ManagersPartition(rows[1..]);
      assert rows == [rows[0]] + rows[1..];
    }
  }
}
