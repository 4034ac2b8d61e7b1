/**
 * The account, request and dataset admins: the user form's dataset rule, which requests a
 * user sees and may edit, and which studies and results a dataset backup collects.
 */
module SiteAdmin {

  import opened Wrappers
  import opened Strings
  import opened Lists
  import opened Sorting
  import opened Users
  import opened Permissions
  import opened Studies
  import opened Schema
  import opened Results

  const DATASETS_ERROR := "You must select at least one dataset for contributors or administrators"

  /**
   * `MyUserChangeForm.clean`: contributors and above must be responsible for at least one
   * dataset; the result is the error attached to the datasets field, if any.
   */
  function CleanUserForm(accessLevel: string, datasetCount: nat): (r: Option<(string, string)>)
    ensures r.Some? <==> AtLeast(accessLevel, ACCESS_CONTRIB) && datasetCount == 0
    ensures r.Some? ==> r.value == ("Responsible_for_datasets", DATASETS_ERROR)
  {
    if AtLeast(accessLevel, ACCESS_CONTRIB) && datasetCount == 0 then
      Some(("Responsible_for_datasets", DATASETS_ERROR))
    else None
  }

  /** For the declared levels the rule binds exactly the contributor, administrator and superuser levels. */
  lemma CleanUserFormByLevel(i: nat, datasetCount: nat)
    requires i < |LEVELS|
    ensures CleanUserForm(LEVELS[i], datasetCount).Some? <==> i >= 2 && datasetCount == 0
  {
    AtLeastDeclared(i, 2);
  }

  /** `RequestAdmin`'s permission attributes. */
  const REQUEST_PERMS := PermConfig(
    Some(ACCESS_ADMIN), Some(ACCESS_READONLY),
    Some(ACCESS_READONLY),
    Some(ACCESS_ADMIN), None,
    Some(ACCESS_ADMIN), None,
    Some(ACCESS_SUPER))

  /** `DatasetAdmin`'s permission attributes. */
  const DATASET_PERMS := PermConfig(
    Some(ACCESS_ADMIN), None,
    Some(ACCESS_SUPER),
    Some(ACCESS_SUPER), None,
    Some(ACCESS_SUPER), None,
    Some(ACCESS_SUPER))

  /**
   * A read-only user may file requests and see its own; only administrators see, change
   * or delete other users' requests, and owners cannot change their own.
   */
  lemma RequestPermsByLevel(u: User, owner: Option<nat>)
    requires u.accessLevel in LEVELS
    ensures HasAdd(REQUEST_PERMS, u, Generic) <==> u.accessLevel != ACCESS_DISABLED
    ensures HasView(REQUEST_PERMS, u, Record(owner)) <==>
      AtLeast(u.accessLevel, ACCESS_ADMIN) || (u.accessLevel != ACCESS_DISABLED && owner == Some(u.id))
    ensures HasChange(REQUEST_PERMS, u, Record(owner)) <==> AtLeast(u.accessLevel, ACCESS_ADMIN)
    ensures HasDelete(REQUEST_PERMS, u, Record(owner)) <==> AtLeast(u.accessLevel, ACCESS_ADMIN)
  {
    var i :| 0 <= i < |LEVELS| && LEVELS[i] == u.accessLevel;
    AtLeastDeclared(i, 1);
    AtLeastDeclared(i, 3);
    AtLeastDeclared(i, 4);
  }

  /** Administrators may list datasets; only superusers may add, change or delete them. */
  lemma DatasetPermsByLevel(u: User, target: Target)
    requires u.accessLevel in LEVELS
    ensures HasView(DATASET_PERMS, u, target) <==> AtLeast(u.accessLevel, ACCESS_ADMIN)
    ensures HasAdd(DATASET_PERMS, u, target) <==> u.accessLevel == ACCESS_SUPER
    ensures HasChange(DATASET_PERMS, u, target) <==> u.accessLevel == ACCESS_SUPER
    ensures HasDelete(DATASET_PERMS, u, target) <==> u.accessLevel == ACCESS_SUPER
  {
    var i :| 0 <= i < |LEVELS| && LEVELS[i] == u.accessLevel;
    AtLeastDeclared(i, 3);
    AtLeastDeclared(i, 4);
  }

  /** The names `RequestAdmin.get_fields` hides from users below the administrator level. */
  const REQUEST_STAFF_FIELDS := ["Request_user", "Request_time"]

  /** The fields a data request declares. */
  const DATA_REQUEST_FIELDS := ["id", "Request_type", "First_author", "Year", "Journal_link", "Details",
                                "Created_by", "Created_time", "Updated_time"]

  /** `RequestAdmin.get_fields`: below the administrator level, drop the two staff fields when present. */
  method GetRequestFields(level: string, fields: seq<string>) returns (r: seq<string>)
    ensures AtLeast(level, ACCESS_ADMIN) ==> r == fields
    ensures !AtLeast(level, ACCESS_ADMIN) ==> r == RemoveEach(fields, REQUEST_STAFF_FIELDS)
  {
    r := fields;
    if !AtLeast(level, ACCESS_ADMIN) {
      r := RemoveEachLoop(fields, REQUEST_STAFF_FIELDS);
    }
  }

  /** Neither hidden name is a field of a data request, so every field list drawn from the model is shown whole. */
  lemma RequestFieldsNeverHidden(fields: seq<string>)
    requires forall f :: f in fields ==> f in DATA_REQUEST_FIELDS
    ensures RemoveEach(fields, REQUEST_STAFF_FIELDS) == fields
  {
    assert "Request_user" !in fields && "Request_time" !in fields;
    assert REQUEST_STAFF_FIELDS[..1] == ["Request_user"];
    assert RemoveEach(fields, REQUEST_STAFF_FIELDS[..1]) == fields;
  }

  datatype DataRequest = DataRequest(pk: Option<nat>, requestType: string, createdBy: Option<User>)

  /** `RequestAdmin.get_queryset`: administrators see every request, other users only their own. */
  function VisibleRequests(rows: seq<DataRequest>, u: User): (r: seq<DataRequest>)
    ensures AtLeast(u.accessLevel, ACCESS_ADMIN) ==> r == rows
    ensures !AtLeast(u.accessLevel, ACCESS_ADMIN) ==>
      forall q :: q in r <==> q in rows && q.createdBy.Some? && q.createdBy.value.id == u.id
  {
    if AtLeast(u.accessLevel, ACCESS_ADMIN) then rows else OwnRequests(rows, u)
  }

  function OwnRequests(rows: seq<DataRequest>, u: User): (r: seq<DataRequest>)
    ensures forall q :: q in r <==> q in rows && q.createdBy.Some? && q.createdBy.value.id == u.id
  {
    if rows == [] then []
    else
      (if rows[0].createdBy.Some? && rows[0].createdBy.value.id == u.id then [rows[0]] else []) +
      OwnRequests(rows[1..], u)
  }

  /** `RequestAdmin.save_model`: a new request records the user as its author; an existing one keeps its author. */
  method SaveRequest(u: User, obj: DataRequest) returns (saved: DataRequest)
    ensures obj.pk.None? ==> saved == obj.(createdBy := Some(u))
    ensures obj.pk.Some? ==> saved == obj
  {
    saved := obj;
    if saved.pk.None? {
      saved := saved.(createdBy := Some(u));
    }
  }

  /** Rows without a key sort first; keys compare as numbers. */
  predicate PkLe(a: Option<nat>, b: Option<nat>)
  {
    a.None? || (b.Some? && a.value <= b.value)
  }

  /** `order_by('Study_group', 'pk')`. */
  predicate StudyOrder(a: Study, b: Study)
  {
    LexLess(a.studyGroup, b.studyGroup) || (a.studyGroup == b.studyGroup && PkLe(a.pk, b.pk))
  }

  /** `order_by('Study__Study_group', 'Study_id')`. */
  predicate ResultOrder(a: ResultRow, b: ResultRow)
  {
    LexLess(a.study.studyGroup, b.study.studyGroup) ||
    (a.study.studyGroup == b.study.studyGroup && PkLe(a.study.pk, b.study.pk))
  }

  lemma StudyOrderTotal()
    ensures TotalPreorder((a, b) => StudyOrder(a, b))
  {
    forall a: Study, b: Study
      ensures StudyOrder(a, b) || StudyOrder(b, a)
    {
      LexLeTotal(a.studyGroup, b.studyGroup);
    }
    forall a: Study, b: Study, c: Study | StudyOrder(a, b) && StudyOrder(b, c)
      ensures StudyOrder(a, c)
    {
      GroupOrderTransitive(a.studyGroup, b.studyGroup, c.studyGroup);
    }
  }

  lemma ResultOrderTotal()
    ensures TotalPreorder((a, b) => ResultOrder(a, b))
  {
    forall a: ResultRow, b: ResultRow
      ensures ResultOrder(a, b) || ResultOrder(b, a)
    {
      LexLeTotal(a.study.studyGroup, b.study.studyGroup);
    }
    forall a: ResultRow, b: ResultRow, c: ResultRow | ResultOrder(a, b) && ResultOrder(b, c)
      ensures ResultOrder(a, c)
    {
      GroupOrderTransitive(a.study.studyGroup, b.study.studyGroup, c.study.studyGroup);
    }
  }

  /** The strict string order is transitive. */
  lemma GroupOrderTransitive(x: string, y: string, z: string)
    ensures LexLess(x, y) && LexLess(y, z) ==> LexLess(x, z)
  {
    if LexLess(x, y) && LexLess(y, z) {
      LexLeTransitive(x, y, z);
      if x == z {
        LexLeAntisymmetric(x, y);
      }
    }
  }

  function StudiesOfDatasets(rows: seq<Study>, datasets: set<nat>): (r: seq<Study>)
    ensures forall s :: s in r <==> s in rows && s.datasetId.Some? && s.datasetId.value in datasets
  {
    if rows == [] then []
    else
      (if rows[0].datasetId.Some? && rows[0].datasetId.value in datasets then [rows[0]] else []) +
      StudiesOfDatasets(rows[1..], datasets)
  }

  function StudyPks(studies: seq<Study>): (r: set<Option<nat>>)
    ensures forall k :: k in r <==> exists s :: s in studies && s.pk == k
  {
    set s | s in studies :: s.pk
  }

  function ResultsOfStudies(rows: seq<ResultRow>, pks: set<Option<nat>>): (r: seq<ResultRow>)
    ensures forall x :: x in r <==> x in rows && x.study.pk.Some? && x.study.pk in pks
  {
    if rows == [] then []
    else
      (if rows[0].study.pk.Some? && rows[0].study.pk in pks then [rows[0]] else []) +
      ResultsOfStudies(rows[1..], pks)
  }

  /** What a backup of the selected datasets exports: their studies, and those studies' results, each in the backup order. */
  function BackupSelection(studyRows: seq<Study>, resultRows: seq<ResultRow>, datasets: set<nat>): (seq<Study>, seq<ResultRow>)
  {
    var studies := SortBy(StudiesOfDatasets(studyRows, datasets), (a, b) => StudyOrder(a, b));
    var results := SortBy(ResultsOfStudies(resultRows, StudyPks(studies)), (a, b) => ResultOrder(a, b));
    (studies, results)
  }

  const EMPTY_BACKUP := "No studies are associated with the selected Datasets. Perhaps they are empty?"
  const MESSAGES_UNDEFINED := "NameError: name 'messages' is not defined"
  const DATASET_FIELD_ERROR := "FieldError: Cannot resolve keyword 'Dataset_id' into field."

  /** Whether a model with these fields has the relation `name`, which a `<name>_id__in` filter needs. */
  predicate HasRelation(schema: seq<Field>, name: string)
  {
    GetField(schema, name).Some? && GetField(schema, name).value.kind.ForeignKey?
  }

  /**
   * `backup_studies` as written, for a study model with the given fields: the `Dataset_id__in`
   * filter fails while the query is built unless the model has a `Dataset` relation; with one,
   * the error branch calls `messages.error`, but `messages` is never imported, so an empty
   * selection raises instead of reporting.
   */
  function BackupStudiesAsWritten(schema: seq<Field>, studyRows: seq<Study>, resultRows: seq<ResultRow>, datasets: set<nat>): (r: Result<(seq<Study>, seq<ResultRow>), string>)
    ensures !HasRelation(schema, "Dataset") ==> r == Err(DATASET_FIELD_ERROR)
    ensures HasRelation(schema, "Dataset") ==> (r.Err? <==> BackupSelection(studyRows, resultRows, datasets) == ([], []))
    ensures HasRelation(schema, "Dataset") && r.Err? ==> r.error == MESSAGES_UNDEFINED
    ensures r.Ok? ==> r.value == BackupSelection(studyRows, resultRows, datasets)
  {
    if !HasRelation(schema, "Dataset") then Err(DATASET_FIELD_ERROR)
    else
      var sel := BackupSelection(studyRows, resultRows, datasets);
      if |sel.0| == 0 && |sel.1| == 0 then Err(MESSAGES_UNDEFINED) else Ok(sel)
  }

  /**
   * `backup_studies` with the message reported: an empty selection yields the error message
   * and no download; otherwise the studies and results to write, sorted and complete.
   */
  function BackupStudies(studyRows: seq<Study>, resultRows: seq<ResultRow>, datasets: set<nat>): (r: Result<(seq<Study>, seq<ResultRow>), string>)
    ensures r.Err? <==> BackupSelection(studyRows, resultRows, datasets) == ([], [])
    ensures r.Err? ==> r.error == EMPTY_BACKUP
    ensures r.Ok? ==> r.value == BackupSelection(studyRows, resultRows, datasets)
  {
    var sel := BackupSelection(studyRows, resultRows, datasets);
    if |sel.0| == 0 && |sel.1| == 0 then Err(EMPTY_BACKUP) else Ok(sel)
  }

  /**
   * The backup holds exactly the studies of the selected datasets and exactly their results,
   * each list in its `order_by` order.
   */
  lemma BackupContents(studyRows: seq<Study>, resultRows: seq<ResultRow>, datasets: set<nat>)
    ensures var (studies, results) := BackupSelection(studyRows, resultRows, datasets);
      (forall s :: s in studies <==> s in studyRows && s.datasetId.Some? && s.datasetId.value in datasets) &&
      (forall x :: x in results <==>
        (x in resultRows && x.study.pk.Some? && exists s :: s in studies && s.pk == x.study.pk)) &&
      Sorted(studies, (a, b) => StudyOrder(a, b)) &&
      Sorted(results, (a, b) => ResultOrder(a, b))
  {
    var found := StudiesOfDatasets(studyRows, datasets);
    var studies := SortBy(found, (a, b) => StudyOrder(a, b));
    var linked := ResultsOfStudies(resultRows, StudyPks(studies));
    forall s ensures s in studies <==> s in found {
      assert s in studies <==> s in multiset(studies);
      assert s in found <==> s in multiset(found);
    }
    var results := SortBy(linked, (a, b) => ResultOrder(a, b));
    forall x ensures x in results <==> x in linked {
      assert x in results <==> x in multiset(results);
      assert x in linked <==> x in multiset(linked);
    }
    StudyOrderTotal();
    ResultOrderTotal();
    SortByIsSorted(found, (a, b) => StudyOrder(a, b));
    SortByIsSorted(linked, (a, b) => ResultOrder(a, b));
  }

  /**
   * As the study models are declared, every backup fails when the query is built. Given the
   * evidently intended `Dataset` relation, the code as written raises on an empty selection
   * where the intended code reports; otherwise the two agree.
   */
  lemma BackupFinding(schema: seq<Field>, studyRows: seq<Study>, resultRows: seq<ResultRow>, datasets: set<nat>)
    ensures BackupStudiesAsWritten(DECLARED_STUDIES_SCHEMA, studyRows, resultRows, datasets) == Err(DATASET_FIELD_ERROR)
    ensures BackupStudiesAsWritten(STUDIES_SCHEMA, studyRows, resultRows, datasets) == Err(DATASET_FIELD_ERROR)
    ensures HasRelation(schema, "Dataset") && BackupSelection(studyRows, resultRows, datasets) == ([], []) ==>
      BackupStudiesAsWritten(schema, studyRows, resultRows, datasets) == Err(MESSAGES_UNDEFINED) &&
      BackupStudies(studyRows, resultRows, datasets) == Err(EMPTY_BACKUP)
    ensures HasRelation(schema, "Dataset") && BackupSelection(studyRows, resultRows, datasets) != ([], []) ==>
      BackupStudiesAsWritten(schema, studyRows, resultRows, datasets) == BackupStudies(studyRows, resultRows, datasets)
  {
    UndeclaredStudyFields();
  }
}
