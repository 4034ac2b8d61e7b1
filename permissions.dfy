/**
 * The permission rules of `ViewModelAdmin`: each admin names the access level needed to
 * view, add, change and delete either every record or only the records the user owns,
 * and a superuser level that grants everything. A level left unset switches its route off.
 */
module Permissions {

  import opened Wrappers
  import opened Strings
  import opened Users

  /** The level each route needs; `None` turns the route off. */
  datatype PermConfig = PermConfig(
    viewAll: Option<string>, viewOwner: Option<string>,
    add: Option<string>,
    editAll: Option<string>, editOwner: Option<string>,
    deleteAll: Option<string>, deleteOwner: Option<string>,
    superLevel: Option<string>)

  /** What a check is asked about: the model in general (`obj=None`) or one record, through its owner. */
  datatype Target = Generic | Record(ownerId: Option<nat>)

  /** The class attributes of `ViewModelAdmin` itself. */
  const VIEW_MODEL_ADMIN := PermConfig(
    Some(ACCESS_READONLY), Some(ACCESS_CONTRIB),
    Some(ACCESS_CONTRIB),
    Some(ACCESS_ADMIN), Some(ACCESS_CONTRIB),
    Some(ACCESS_ADMIN), Some(ACCESS_CONTRIB),
    Some(ACCESS_SUPER))

  /** `_eval_perm`: the required level is set (a non-empty string) and the user's level is at least it. */
  predicate EvalPerm(u: User, perm: Option<string>)
  {
    perm.Some? && perm.value != "" && AtLeast(u.accessLevel, perm.value)
  }

  /**
   * `_eval_owner_perm`: the level check, and for a record also that the user owns it; for
   * the generic question the level alone decides, so that the admin renders its buttons.
   */
  predicate EvalOwnerPerm(u: User, perm: Option<string>, target: Target)
  {
    EvalPerm(u, perm) && (target.Record? ==> target.ownerId == Some(u.id))
  }

  /** `_eval_super`. */
  predicate EvalSuper(cfg: PermConfig, u: User)
  {
    EvalPerm(u, cfg.superLevel)
  }

  predicate HasView(cfg: PermConfig, u: User, target: Target)
  {
    EvalSuper(cfg, u) || EvalPerm(u, cfg.viewAll) || EvalOwnerPerm(u, cfg.viewOwner, target)
  }

  /** Adding has no owner route: only the super and add levels count. */
  predicate HasAdd(cfg: PermConfig, u: User, target: Target)
  {
    EvalSuper(cfg, u) || EvalPerm(u, cfg.add)
  }

  predicate HasChange(cfg: PermConfig, u: User, target: Target)
  {
    EvalSuper(cfg, u) || EvalPerm(u, cfg.editAll) || EvalOwnerPerm(u, cfg.editOwner, target)
  }

  predicate HasDelete(cfg: PermConfig, u: User, target: Target)
  {
    EvalSuper(cfg, u) || EvalPerm(u, cfg.deleteAll) || EvalOwnerPerm(u, cfg.deleteOwner, target)
  }

  /** A route that is switched off never grants, and a set one grants exactly from its level up. */
  lemma EvalPermMeaning(u: User, perm: Option<string>)
    ensures perm.None? ==> !EvalPerm(u, perm)
    ensures perm.Some? && perm.value != "" ==> (EvalPerm(u, perm) <==> !LexLess(u.accessLevel, perm.value))
  {
    if perm.Some? {
      NotLessIsGe(u.accessLevel, perm.value);
    }
  }

  /** The owner route on a record needs both the level and ownership; on the generic question the level suffices. */
  lemma OwnerPermMeaning(u: User, perm: Option<string>, owner: Option<nat>)
    ensures EvalOwnerPerm(u, perm, Generic) <==> EvalPerm(u, perm)
    ensures EvalOwnerPerm(u, perm, Record(owner)) <==> EvalPerm(u, perm) && owner == Some(u.id)
  {
  }

  /** A user at or above a set superuser level may view, add, change and delete anything. */
  lemma SuperGrantsAll(cfg: PermConfig, u: User, target: Target)
    requires cfg.superLevel.Some? && cfg.superLevel.value != ""
    requires AtLeast(u.accessLevel, cfg.superLevel.value)
    ensures HasView(cfg, u, target) && HasAdd(cfg, u, target)
    ensures HasChange(cfg, u, target) && HasDelete(cfg, u, target)
  {
  }

  /** Whether a user may add does not depend on the record asked about. */
  lemma AddIgnoresOwnership(cfg: PermConfig, u: User, t1: Target, t2: Target)
    ensures HasAdd(cfg, u, t1) <==> HasAdd(cfg, u, t2)
  {
  }

  /** Whatever is allowed on some record is allowed on the generic question. */
  lemma GenericIsMostPermissive(cfg: PermConfig, u: User, owner: Option<nat>)
    ensures HasView(cfg, u, Record(owner)) ==> HasView(cfg, u, Generic)
    ensures HasChange(cfg, u, Record(owner)) ==> HasChange(cfg, u, Generic)
    ensures HasDelete(cfg, u, Record(owner)) ==> HasDelete(cfg, u, Generic)
  {
  }

  /** One route keeps granting when the user's level is raised. */
  lemma EvalPermMonotone(u: User, level: string, perm: Option<string>)
    requires EvalPerm(u, perm) && AtLeast(level, u.accessLevel)
    ensures EvalPerm(u.(accessLevel := level), perm)
  {
    LexLeTransitive(perm.value, u.accessLevel, level);
  }

  /** Raising a user's level never revokes a permission on the same record. */
  lemma PermissionsMonotone(cfg: PermConfig, u: User, level: string, target: Target)
    requires AtLeast(level, u.accessLevel)
    ensures HasView(cfg, u, target) ==> HasView(cfg, u.(accessLevel := level), target)
    ensures HasAdd(cfg, u, target) ==> HasAdd(cfg, u.(accessLevel := level), target)
    ensures HasChange(cfg, u, target) ==> HasChange(cfg, u.(accessLevel := level), target)
    ensures HasDelete(cfg, u, target) ==> HasDelete(cfg, u.(accessLevel := level), target)
  {
    var perms := [cfg.superLevel, cfg.viewAll, cfg.viewOwner, cfg.add, cfg.editAll, cfg.editOwner, cfg.deleteAll, cfg.deleteOwner];
    forall p | p in perms && EvalPerm(u, p)
      ensures EvalPerm(u.(accessLevel := level), p)
    {
      EvalPermMonotone(u, level, p);
    }
  }

  /**
   * Under the `ViewModelAdmin` defaults: a read-only user may only view; a contributor may
   * also add, and change or delete its own records; an administrator may change or delete
   * any record but adds like a contributor; a superuser may do everything.
   */
  lemma ViewModelAdminByLevel(u: User, target: Target)
    requires u.accessLevel in LEVELS
    ensures HasView(VIEW_MODEL_ADMIN, u, target) <==> u.accessLevel != ACCESS_DISABLED
    ensures HasAdd(VIEW_MODEL_ADMIN, u, target) <==> AtLeast(u.accessLevel, ACCESS_CONTRIB)
    ensures HasChange(VIEW_MODEL_ADMIN, u, target) <==>
      AtLeast(u.accessLevel, ACCESS_ADMIN) ||
      (AtLeast(u.accessLevel, ACCESS_CONTRIB) && (target.Record? ==> target.ownerId == Some(u.id)))
    ensures HasChange(VIEW_MODEL_ADMIN, u, target) <==> HasDelete(VIEW_MODEL_ADMIN, u, target)
  {
    var i :| 0 <= i < |LEVELS| && LEVELS[i] == u.accessLevel;
    AtLeastDeclared(i, 1);
    AtLeastDeclared(i, 2);
    AtLeastDeclared(i, 3);
    AtLeastDeclared(i, 4);
    var readOnly := EvalPerm(u, Some(ACCESS_READONLY));
    var contrib := EvalPerm(u, Some(ACCESS_CONTRIB));
    var admin := EvalPerm(u, Some(ACCESS_ADMIN));
    var super := EvalPerm(u, Some(ACCESS_SUPER));
    assert readOnly <==> 1 <= i;
    assert contrib <==> 2 <= i;
    assert admin <==> 3 <= i;
    assert super <==> 4 <= i;
    assert u.accessLevel != ACCESS_DISABLED <==> 1 <= i by {
      if i != 0 {
        assert u.accessLevel[0] != ACCESS_DISABLED[0];
      }
    }
  }
}
