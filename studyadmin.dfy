/**
 * The study admins: the shared field list and save rule, the "all studies" list with its
 * revert action and the import lock, and the "my drafts" list with its approve action.
 * The study table these admins update is a class whose rows the actions rewrite in place.
 */
module StudyAdmin {

  import opened Wrappers
  import opened Strings
  import opened Lists
  import opened Users
  import opened Permissions
  import opened Studies

  /** Fields hidden from users below the administrator level, in the order they are removed. */
  const STAFF_ONLY_FIELDS := ["Created_by", "Approved_by"]

  /** `AllStudiesView`'s permission attributes. */
  const ALL_STUDIES_PERMS := PermConfig(
    Some(ACCESS_READONLY), Some(ACCESS_READONLY),
    None,
    Some(ACCESS_ADMIN), Some(ACCESS_CONTRIB),
    Some(ACCESS_ADMIN), Some(ACCESS_CONTRIB),
    Some(ACCESS_SUPER))

  /** `EditMyDrafts`'s permission attributes. */
  const MY_DRAFTS_PERMS := PermConfig(
    None, Some(ACCESS_CONTRIB),
    Some(ACCESS_CONTRIB),
    None, Some(ACCESS_CONTRIB),
    None, Some(ACCESS_CONTRIB),
    None)

  /** `get_fields`: below the administrator level, drop the creator and approver fields. */
  method GetFields(level: string, fields: seq<string>) returns (r: seq<string>)
    ensures AtLeast(level, ACCESS_ADMIN) ==> r == fields
    ensures !AtLeast(level, ACCESS_ADMIN) ==> r == RemoveEach(fields, STAFF_ONLY_FIELDS)
  {
    r := fields;
    if !AtLeast(level, ACCESS_ADMIN) {
      r := RemoveEachLoop(fields, STAFF_ONLY_FIELDS);
    }
  }

  /** For a field list without repeats, `get_fields` keeps exactly the other fields, in order. */
  lemma GetFieldsKeepsOthers(fields: seq<string>)
    requires NoDuplicates(fields)
    ensures RemoveEach(fields, STAFF_ONLY_FIELDS) == Without(fields, STAFF_ONLY_FIELDS)
    ensures forall f :: f in RemoveEach(fields, STAFF_ONLY_FIELDS) <==> f in fields && f != "Created_by" && f != "Approved_by"
  {
    RemoveEachIsWithout(fields, STAFF_ONLY_FIELDS);
  }

  /** What a permission question is about: nothing in particular, or one study. */
  function TargetOf(obj: Option<Study>): Target
  {
    match obj
    case None => Generic
    case Some(s) => Record(OwnerId(s))
  }

  /** A study loaded by an import cannot be changed or deleted in the all-studies list. */
  predicate Imported(obj: Option<Study>)
  {
    obj.Some? && obj.value.importSource.Some?
  }

  /**
   * `AllStudiesView.has_change_permission` as the class hierarchy makes it: the study admins
   * derive from `MyModelAdmin`, not `ViewModelAdmin`, so the parent check is Django's
   * default, which asks the user model's `has_perm`.
   */
  predicate AllStudiesChangeAsWritten(u: User, obj: Option<Study>)
  {
    !Imported(obj) && HasPerm(u) == Some(true)
  }

  /** The same check with the declared permission attributes in force. */
  predicate AllStudiesChange(u: User, obj: Option<Study>)
  {
    !Imported(obj) && HasChange(ALL_STUDIES_PERMS, u, TargetOf(obj))
  }

  predicate AllStudiesDelete(u: User, obj: Option<Study>)
  {
    !Imported(obj) && HasDelete(ALL_STUDIES_PERMS, u, TargetOf(obj))
  }

  /** An imported study is locked whoever asks; any other study follows the base rules. */
  lemma ImportedStudiesLocked(u: User, obj: Option<Study>)
    ensures Imported(obj) ==> !AllStudiesChange(u, obj) && !AllStudiesDelete(u, obj) && !AllStudiesChangeAsWritten(u, obj)
    ensures !Imported(obj) ==> (AllStudiesChange(u, obj) <==> HasChange(ALL_STUDIES_PERMS, u, TargetOf(obj)))
    ensures !Imported(obj) ==> (AllStudiesDelete(u, obj) <==> HasDelete(ALL_STUDIES_PERMS, u, TargetOf(obj)))
  {
  }

  /**
   * As written, a contributor cannot change its own study in the all-studies list, although
   * the declared owner route grants it.
   */
  lemma OwnerLockedOutAsWritten(u: User, s: Study)
    requires u.accessLevel == ACCESS_CONTRIB
    requires s.importSource.None? && s.createdBy == Some(u)
    ensures !AllStudiesChangeAsWritten(u, Some(s))
    ensures AllStudiesChange(u, Some(s)) && AllStudiesDelete(u, Some(s))
  {
    LexFirstChar(ACCESS_CONTRIB, ACCESS_SUPER);
    LexLeReflexive(ACCESS_CONTRIB);
    assert OwnerId(s) == Some(u.id);
    assert EvalOwnerPerm(u, ALL_STUDIES_PERMS.editOwner, TargetOf(Some(s)));
    assert EvalOwnerPerm(u, ALL_STUDIES_PERMS.deleteOwner, TargetOf(Some(s)));
  }

  /** With the declared attributes: administrators change any study that was not imported, contributors their own ones. */
  lemma AllStudiesChangeByLevel(u: User, s: Study)
    requires u.accessLevel in LEVELS && s.importSource.None?
    ensures AllStudiesChange(u, Some(s)) <==>
      AtLeast(u.accessLevel, ACCESS_ADMIN) || (AtLeast(u.accessLevel, ACCESS_CONTRIB) && OwnerId(s) == Some(u.id))
  {
    var i :| 0 <= i < |LEVELS| && LEVELS[i] == u.accessLevel;
    AtLeastDeclared(i, 2);
    AtLeastDeclared(i, 3);
    AtLeastDeclared(i, 4);
  }

  /** In the drafts list every route is the owner route from the contributor level, and there is no super route. */
  lemma MyDraftsOwnerOnly(u: User, s: Study)
    ensures HasView(MY_DRAFTS_PERMS, u, Record(OwnerId(s))) <==> AtLeast(u.accessLevel, ACCESS_CONTRIB) && OwnerId(s) == Some(u.id)
    ensures HasChange(MY_DRAFTS_PERMS, u, Record(OwnerId(s))) <==> AtLeast(u.accessLevel, ACCESS_CONTRIB) && OwnerId(s) == Some(u.id)
    ensures HasDelete(MY_DRAFTS_PERMS, u, Record(OwnerId(s))) <==> AtLeast(u.accessLevel, ACCESS_CONTRIB) && OwnerId(s) == Some(u.id)
    ensures HasAdd(MY_DRAFTS_PERMS, u, Generic) <==> AtLeast(u.accessLevel, ACCESS_CONTRIB)
  {
  }

  /** The rows of `EditMyDrafts.get_queryset`: the pending studies the user created. */
  function MyDrafts(rows: seq<Study>, u: User): (r: seq<Study>)
    ensures forall s :: s in r <==> s in rows && Pending(s) && OwnerId(s) == Some(u.id)
    ensures |r| <= |rows|
  {
    if rows == [] then []
    else (if Pending(rows[0]) && OwnerId(rows[0]) == Some(u.id) then [rows[0]] else []) + MyDrafts(rows[1..], u)
  }

  /** `view_child_results`: the distinct primary keys of the selected studies. */
  method ViewChildResults(queryset: seq<Study>) returns (ids: set<nat>)
    requires forall s :: s in queryset ==> s.pk.Some?
    ensures forall id :: id in ids <==> exists s :: s in queryset && s.pk == Some(id)
  {
    ids := {};
    var k := 0;
    while k < |queryset|
      invariant 0 <= k <= |queryset|
      invariant forall id :: id in ids <==> exists i :: 0 <= i < k && queryset[i].pk == Some(id)
    {
      ids := ids + {queryset[k].pk.value};
      k := k + 1;
    }
  }

  /** A study after `approve_study`. */
  function Approve(s: Study, u: User, now: int): Study
  {
    s.(approvedBy := Some(u), approvedTime := Some(now))
  }

  /** A study after `revert_to_draft`. */
  function Revert(s: Study): Study
  {
    s.(approvedBy := None, approvedTime := None, importSource := None)
  }

  predicate Selected(s: Study, selected: set<nat>)
  {
    s.pk.Some? && s.pk.value in selected
  }

  /** The rows `approve_study` updates: selected, and in the user's drafts list. */
  predicate ToApprove(s: Study, u: User, selected: set<nat>)
  {
    Selected(s, selected) && Pending(s) && OwnerId(s) == Some(u.id)
  }

  /** The rows `revert_to_draft` updates: selected, and in the approved list. */
  predicate ToRevert(s: Study, selected: set<nat>)
  {
    Selected(s, selected) && !Pending(s)
  }

  function CountToApprove(rows: seq<Study>, u: User, selected: set<nat>): nat
  {
    if rows == [] then 0
    else CountToApprove(rows[..|rows| - 1], u, selected) + (if ToApprove(rows[|rows| - 1], u, selected) then 1 else 0)
  }

  function CountToRevert(rows: seq<Study>, selected: set<nat>): nat
  {
    if rows == [] then 0
    else CountToRevert(rows[..|rows| - 1], selected) + (if ToRevert(rows[|rows| - 1], selected) then 1 else 0)
  }

  /** Every approved row leaves the drafts list: the drafts shrink by exactly the count reported. */
  lemma ApproveShrinksDrafts(rows: seq<Study>, u: User, now: int, selected: set<nat>, updated: seq<Study>)
    requires |updated| == |rows|
    requires forall i :: 0 <= i < |rows| ==> updated[i] == (if ToApprove(rows[i], u, selected) then Approve(rows[i], u, now) else rows[i])
    ensures |DraftStudies(updated)| + CountToApprove(rows, u, selected) == |DraftStudies(rows)|
  {
    forall i | 0 <= i < |rows|
      ensures Pending(updated[i]) == (Pending(rows[i]) && !ToApprove(rows[i], u, selected))
    {
    }
    ApprovedLeavePending(rows, u, selected, updated);
    DraftsCount(rows);
    DraftsCount(updated);
  }

  /** Every reverted row returns to the drafts list. */
  lemma RevertGrowsDrafts(rows: seq<Study>, selected: set<nat>, updated: seq<Study>)
    requires |updated| == |rows|
    requires forall i :: 0 <= i < |rows| ==> updated[i] == (if ToRevert(rows[i], selected) then Revert(rows[i]) else rows[i])
    ensures |DraftStudies(updated)| == |DraftStudies(rows)| + CountToRevert(rows, selected)
  {
    forall i | 0 <= i < |rows|
      ensures Pending(updated[i]) == (Pending(rows[i]) || ToRevert(rows[i], selected))
    {
    }
    RevertedBecomePending(rows, selected, updated);
    DraftsCount(rows);
    DraftsCount(updated);
  }

  /** How many rows are pending, counted from the end. */
  function PendingCount(rows: seq<Study>): nat
  {
    if rows == [] then 0
    else PendingCount(rows[..|rows| - 1]) + (if Pending(rows[|rows| - 1]) then 1 else 0)
  }

  lemma {:induction false} DraftsCount(rows: seq<Study>)
    ensures |DraftStudies(rows)| == PendingCount(rows)
  {
    if rows != [] {
      var n := |rows| - 1;
      DraftsCount(rows[..n]);
      DraftsSnoc(rows[..n], rows[n]);
      assert rows[..n] + [rows[n]] == rows;
    }
  }

  lemma {:induction false} ApprovedLeavePending(rows: seq<Study>, u: User, selected: set<nat>, updated: seq<Study>)
    requires |updated| == |rows|
    requires forall i :: 0 <= i < |rows| ==> Pending(updated[i]) == (Pending(rows[i]) && !ToApprove(rows[i], u, selected))
    ensures PendingCount(updated) + CountToApprove(rows, u, selected) == PendingCount(rows)
  {
    if rows != [] {
      var n := |rows| - 1;
      ApprovedLeavePending(rows[..n], u, selected, updated[..n]);
    }
  }

  lemma {:induction false} RevertedBecomePending(rows: seq<Study>, selected: set<nat>, updated: seq<Study>)
    requires |updated| == |rows|
    requires forall i :: 0 <= i < |rows| ==> Pending(updated[i]) == (Pending(rows[i]) || ToRevert(rows[i], selected))
    ensures PendingCount(updated) == PendingCount(rows) + CountToRevert(rows, selected)
  {
    if rows != [] {
      var n := |rows| - 1;
      RevertedBecomePending(rows[..n], selected, updated[..n]);
    }
  }

  lemma {:induction false} DraftsSnoc(rows: seq<Study>, s: Study)
    ensures |DraftStudies(rows + [s])| == |DraftStudies(rows)| + (if Pending(s) then 1 else 0)
  {
    if rows == [] {
      assert [s][1..] == [];
    } else {
      assert (rows + [s])[1..] == rows[1..] + [s];
      DraftsSnoc(rows[1..], s);
    }
  }

  /** Reverting a study that was approved from the drafts list, not imported, restores it. */
  lemma RevertUndoesApprove(s: Study, u: User, now: int)
    requires Pending(s) && s.approvedTime.None? && s.importSource.None?
    ensures Revert(Approve(s, u, now)) == s
  {
  }

  /** The study table: the rows the admin actions and saves update, and the next free primary key. */
  class StudyTable {
    var rows: seq<Study>
    var nextPk: nat

    /** Every saved row has a primary key below `nextPk`, and no two rows share one. */
    ghost predicate Valid()
      reads this
    {
      (forall i :: 0 <= i < |rows| ==> rows[i].pk.Some? && rows[i].pk.value < nextPk) &&
      (forall i, j :: 0 <= i < j < |rows| ==> rows[i].pk != rows[j].pk)
    }

    constructor ()
      ensures Valid() && rows == [] && nextPk == 1
    {
      rows := [];
      nextPk := 1;
    }

    /**
     * `approve_study`: every selected draft of the user gets the user as approver and the
     * current time; other rows are untouched; the message reports how many rows changed.
     */
    method ApproveStudy(u: User, now: int, selected: set<nat>) returns (count: nat, message: string)
      requires Valid()
      modifies this
      ensures Valid() && nextPk == old(nextPk) && |rows| == |old(rows)|
      ensures forall i :: 0 <= i < |rows| ==>
        rows[i] == (if ToApprove(old(rows)[i], u, selected) then Approve(old(rows)[i], u, now) else old(rows)[i])
      ensures count == CountToApprove(old(rows), u, selected)
      ensures message == NatStr(count) + " studies marked as approved."
    {
      var k := 0;
      count := 0;
      while k < |rows|
        invariant 0 <= k <= |rows| && |rows| == |old(rows)| && nextPk == old(nextPk)
        invariant forall i :: 0 <= i < k ==>
          rows[i] == (if ToApprove(old(rows)[i], u, selected) then Approve(old(rows)[i], u, now) else old(rows)[i])
        invariant forall i :: k <= i < |rows| ==> rows[i] == old(rows)[i]
        invariant count == CountToApprove(old(rows)[..k], u, selected)
        invariant Valid()
      {
        assert old(rows)[..k + 1][..k] == old(rows)[..k];
        if ToApprove(rows[k], u, selected) {
          rows := rows[k := Approve(rows[k], u, now)];
          count := count + 1;
        }
        k := k + 1;
      }
      assert old(rows)[..k] == old(rows);
      message := NatStr(count) + " studies marked as approved.";
    }

    /**
     * `revert_to_draft`: every selected approved row loses its approver, approval time and
     * import source, so it is a draft again and no longer locked.
     */
    method RevertToDraft(selected: set<nat>) returns (count: nat, message: string)
      requires Valid()
      modifies this
      ensures Valid() && nextPk == old(nextPk) && |rows| == |old(rows)|
      ensures forall i :: 0 <= i < |rows| ==>
        rows[i] == (if ToRevert(old(rows)[i], selected) then Revert(old(rows)[i]) else old(rows)[i])
      ensures count == CountToRevert(old(rows), selected)
      ensures message == NatStr(count) + " studies reverted to draft for editing"
    {
      var k := 0;
      count := 0;
      while k < |rows|
        invariant 0 <= k <= |rows| && |rows| == |old(rows)| && nextPk == old(nextPk)
        invariant forall i :: 0 <= i < k ==>
          rows[i] == (if ToRevert(old(rows)[i], selected) then Revert(old(rows)[i]) else old(rows)[i])
        invariant forall i :: k <= i < |rows| ==> rows[i] == old(rows)[i]
        invariant count == CountToRevert(old(rows)[..k], selected)
        invariant Valid()
      {
        assert old(rows)[..k + 1][..k] == old(rows)[..k];
        if ToRevert(rows[k], selected) {
          rows := rows[k := Revert(rows[k])];
          count := count + 1;
        }
        k := k + 1;
      }
      assert old(rows)[..k] == old(rows);
      message := NatStr(count) + " studies reverted to draft for editing";
    }

    /** Position of the row with the given primary key. */
    function IndexOfPk(pk: nat): (r: Option<nat>)
      reads this
      requires Valid()
      ensures r.Some? ==> r.value < |rows| && rows[r.value].pk == Some(pk)
      ensures r.None? ==> forall i :: 0 <= i < |rows| ==> rows[i].pk != Some(pk)
    {
      FindPk(rows, pk)
    }

    /** `Model.save()`: a new object gets the next key and is appended; a saved one replaces its row. */
    method Save(obj: Study) returns (saved: Study)
      requires Valid()
      modifies this
      ensures Valid() && saved.pk.Some?
      ensures obj.pk.None? ==> saved == obj.(pk := Some(old(nextPk))) && rows == old(rows) + [saved]
      ensures obj.pk.Some? ==> saved == obj
      ensures obj.pk.Some? && old(IndexOfPk(obj.pk.value)).Some? ==>
        rows == old(rows)[old(IndexOfPk(obj.pk.value)).value := obj]
      ensures obj.pk.Some? && old(IndexOfPk(obj.pk.value)).None? ==> rows == old(rows) + [obj]
    {
      if obj.pk.None? {
        saved := obj.(pk := Some(nextPk));
        rows := rows + [saved];
        nextPk := nextPk + 1;
      } else {
        saved := obj;
        var at := IndexOfPk(obj.pk.value);
        if at.Some? {
          rows := rows[at.value := obj];
        } else {
          rows := rows + [obj];
          if nextPk <= obj.pk.value {
            nextPk := obj.pk.value + 1;
          }
        }
      }
    }

    /** `BaseStudiesModelAdmin.save_model`: a new study is recorded as created by the user, then saved. */
    method SaveModel(u: User, obj: Study) returns (saved: Study)
      requires Valid()
      modifies this
      ensures Valid()
      ensures obj.pk.None? ==> saved == obj.(createdBy := Some(u), pk := Some(old(nextPk))) && rows == old(rows) + [saved]
      ensures obj.pk.Some? ==> saved == obj
      ensures obj.pk.Some? && old(IndexOfPk(obj.pk.value)).Some? ==>
        rows == old(rows)[old(IndexOfPk(obj.pk.value)).value := obj]
      ensures obj.pk.Some? && old(IndexOfPk(obj.pk.value)).None? ==> rows == old(rows) + [obj]
    {
      var o := obj;
      if o.pk.None? {
        o := o.(createdBy := Some(u));
      }
      saved := Save(o);
    }

    /**
     * `EditMyDrafts.save_model`: as the base save, and when the approve button was pressed
     * the study is approved by the user at the given time.
     */
    method SaveDraft(u: User, obj: Study, approveRequested: bool, now: int) returns (saved: Study)
      requires Valid()
      modifies this
      ensures Valid() && saved.pk.Some?
      ensures saved.createdBy == (if obj.pk.None? then Some(u) else obj.createdBy)
      ensures approveRequested ==> saved.approvedBy == Some(u) && saved.approvedTime == Some(now) && !Pending(saved)
      ensures !approveRequested ==> saved.approvedBy == obj.approvedBy && saved.approvedTime == obj.approvedTime
      ensures obj.pk.None? ==> saved.pk == Some(old(nextPk)) && rows == old(rows) + [saved]
      ensures obj.pk.Some? ==> saved == (if approveRequested then Approve(obj, u, now) else obj)
      ensures obj.pk.Some? && old(IndexOfPk(obj.pk.value)).Some? ==>
        rows == old(rows)[old(IndexOfPk(obj.pk.value)).value := saved]
      ensures obj.pk.Some? && old(IndexOfPk(obj.pk.value)).None? ==> rows == old(rows) + [saved]
    {
      var o := obj;
      if o.pk.None? {
        o := o.(createdBy := Some(u));
      }
      if approveRequested {
        o := Approve(o, u, now);
      }
      saved := Save(o);
    }
  }

  function FindPk(rows: seq<Study>, pk: nat): (r: Option<nat>)
    ensures r.Some? ==> r.value < |rows| && rows[r.value].pk == Some(pk)
    ensures r.None? ==> forall i :: 0 <= i < |rows| ==> rows[i].pk != Some(pk)
  {
    if rows == [] then None
    else if rows[0].pk == Some(pk) then Some(0)
    else match FindPk(rows[1..], pk)
      case None => None
      case Some(i) => Some(i + 1)
  }
}
