/**
 * The user account model: access levels as plain strings compared in Python's string
 * order, the `is_active` / `has_perm` / `has_module_perms` hooks, `__str__`, and the
 * account manager that creates users.
 */
module Users {

  import opened Wrappers
  import opened Strings

  const ACCESS_DISABLED := "00_disabled"
  const ACCESS_READONLY := "10_readonly"
  const ACCESS_CONTRIB := "20_contributor"
  const ACCESS_ADMIN := "30_administrator"
  const ACCESS_SUPER := "40_superuser"

  /** The five declared levels, lowest first. */
  const LEVELS := [ACCESS_DISABLED, ACCESS_READONLY, ACCESS_CONTRIB, ACCESS_ADMIN, ACCESS_SUPER]

  /** The `access_level` default as declared: not one of the five levels. */
  const DEFAULT_ACCESS_LEVEL_AS_WRITTEN := "readonly"

  /** The default the declaration evidently means, the read-only level; used by the rest of the model. */
  const DEFAULT_ACCESS_LEVEL := ACCESS_READONLY

  datatype User = User(id: nat, email: string, firstName: string, lastName: string,
                       accessLevel: string, emailVerified: bool)

  /** `level >= required`, as Python compares the two strings. */
  predicate AtLeast(level: string, required: string)
  {
    LexLe(required, level)
  }

  lemma LevelsStrictlyIncreasing()
    ensures forall i, j :: 0 <= i < j < |LEVELS| ==> LexLess(LEVELS[i], LEVELS[j])
  {
    forall i, j | 0 <= i < j < |LEVELS|
      ensures LexLess(LEVELS[i], LEVELS[j])
    {
      LexFirstChar(LEVELS[i], LEVELS[j]);
    }
  }

  /** Between two declared levels, `>=` agrees with their position in the list. */
  lemma AtLeastDeclared(i: nat, j: nat)
    requires i < |LEVELS| && j < |LEVELS|
    ensures AtLeast(LEVELS[i], LEVELS[j]) <==> j <= i
  {
    LevelsStrictlyIncreasing();
    if j <= i {
      if i == j {
        LexLeReflexive(LEVELS[i]);
      }
    } else {
      NotLessIsGe(LEVELS[i], LEVELS[j]);
    }
  }

  /** `is_active`: above the disabled level and with a verified email address. */
  predicate IsActive(u: User)
  {
    LexLess(ACCESS_DISABLED, u.accessLevel) && u.emailVerified
  }

  /** For a declared level, activity is exactly "not disabled and verified". */
  lemma IsActiveForDeclaredLevels(u: User)
    requires u.accessLevel in LEVELS
    ensures IsActive(u) <==> u.accessLevel != ACCESS_DISABLED && u.emailVerified
  {
    LevelsStrictlyIncreasing();
  }

  /** Raising a user's level never deactivates the account. */
  lemma IsActiveMonotone(u: User, level: string)
    requires IsActive(u) && AtLeast(level, u.accessLevel)
    ensures IsActive(u.(accessLevel := level))
  {
    LexLeTransitive(ACCESS_DISABLED, u.accessLevel, level);
    if level == ACCESS_DISABLED {
      LexLeAntisymmetric(u.accessLevel, ACCESS_DISABLED);
    }
  }

  /** `has_perm`: True for superusers and above, otherwise the method falls off its end (None). */
  function HasPerm(u: User): (r: Option<bool>)
    ensures r.Some? <==> AtLeast(u.accessLevel, ACCESS_SUPER)
    ensures r.Some? ==> r.value
  {
    if AtLeast(u.accessLevel, ACCESS_SUPER) then Some(true) else None
  }

  /** Among the declared levels only the superuser level passes `has_perm`. */
  lemma HasPermOnlySuper(u: User)
    requires u.accessLevel in LEVELS
    ensures HasPerm(u) == Some(true) <==> u.accessLevel == ACCESS_SUPER
  {
    LevelsStrictlyIncreasing();
    if u.accessLevel != ACCESS_SUPER {
      NotLessIsGe(u.accessLevel, ACCESS_SUPER);
    } else {
      LexLeReflexive(ACCESS_SUPER);
    }
  }

  /** `has_module_perms`: every app is visible to every user. */
  function HasModulePerms(u: User, appLabel: string): (r: bool)
    ensures r
  {
    true
  }

  /** `__str__`: "first last <email>". */
  function UserStr(u: User): (r: string)
    ensures r == u.firstName + " " + u.lastName + " <" + u.email + ">"
  {
    u.firstName + " " + u.lastName + " <" + u.email + ">"
  }

  /** The declared default sorts above the superuser level, so a user left at the default passes `has_perm`. */
  lemma DefaultAsWrittenOutranksSuperuser(u: User)
    requires u.accessLevel == DEFAULT_ACCESS_LEVEL_AS_WRITTEN
    ensures LexLess(ACCESS_SUPER, u.accessLevel)
    ensures HasPerm(u) == Some(true)
  {
    LexFirstChar(ACCESS_SUPER, DEFAULT_ACCESS_LEVEL_AS_WRITTEN);
  }

  /** With the corrected default a new user is read-only: active when verified, not a superuser. */
  lemma DefaultIsReadOnly(u: User)
    requires u.accessLevel == DEFAULT_ACCESS_LEVEL
    ensures HasPerm(u).None?
    ensures IsActive(u) <==> u.emailVerified
    ensures !AtLeast(u.accessLevel, ACCESS_CONTRIB)
  {
    LexFirstChar(DEFAULT_ACCESS_LEVEL, ACCESS_SUPER);
    LexFirstChar(DEFAULT_ACCESS_LEVEL, ACCESS_CONTRIB);
    LexFirstChar(ACCESS_DISABLED, DEFAULT_ACCESS_LEVEL);
  }

  /** Position of the last '@' in `s`, if any. */
  function LastAt(s: string): (r: Option<nat>)
    ensures r.Some? ==> r.value < |s| && s[r.value] == '@' && '@' !in s[r.value + 1..]
    ensures r.None? ==> '@' !in s
  {
    if s == [] then None
    else if s[|s| - 1] == '@' then Some(|s| - 1)
    else
      match LastAt(s[..|s| - 1])
      case None => assert s == s[..|s| - 1] + [s[|s| - 1]]; None
      case Some(k) =>
        assert s[k + 1..] == s[..|s| - 1][k + 1..] + [s[|s| - 1]];
        Some(k)
  }

  /**
   * The account manager's e-mail normalisation: strip, split at the last '@' and
   * lower-case the domain; an address without '@' is returned unchanged.
   */
  function NormalizeEmail(email: string): (r: string)
    ensures '@' !in Strip(email) ==> r == email
    ensures '@' in Strip(email) ==> LastAt(Strip(email)).Some?
    ensures '@' in Strip(email) ==>
      var s, k := Strip(email), LastAt(Strip(email)).value;
      r == s[..k] + "@" + Lower(s[k + 1..])
  {
    var s := Strip(email);
    match LastAt(s)
    case None => email
    case Some(k) => s[..k] + "@" + Lower(s[k + 1..])
  }

  /** The user table that `CustomAccountManager` saves into; ids are handed out in order. */
  class AccountManager {
    var users: seq<User>
    var nextId: nat

    constructor ()
      ensures users == [] && nextId == 0
    {
      users := [];
      nextId := 0;
    }

    /**
     * `create_user`: refuses an empty address; otherwise saves a verified user with the
     * normalised address and the supplied level, or the default one.
     */
    method CreateUser(email: string, firstName: string, lastName: string, accessLevel: Option<string>)
      returns (r: Result<User, string>)
      modifies this
      ensures email == "" ==> r == Err("You must provide an email address")
      ensures email == "" ==> users == old(users) && nextId == old(nextId)
      ensures email != "" ==> r.Ok? && users == old(users) + [r.value] && nextId == old(nextId) + 1
      ensures email != "" ==> r.value == User(old(nextId), NormalizeEmail(email), firstName, lastName,
                                              accessLevel.GetOr(DEFAULT_ACCESS_LEVEL), true)
    {
      if email == "" {
        return Err("You must provide an email address");
      }
      var u := User(nextId, NormalizeEmail(email), firstName, lastName, accessLevel.GetOr(DEFAULT_ACCESS_LEVEL), true);
      users := users + [u];
      nextId := nextId + 1;
      r := Ok(u);
    }

    /** `create_superuser`: the superuser level replaces any level supplied; the address is not checked. */
    method CreateSuperuser(email: string, firstName: string, lastName: string, accessLevel: Option<string>)
      returns (u: User)
      modifies this
      ensures u == User(old(nextId), NormalizeEmail(email), firstName, lastName, ACCESS_SUPER, true)
      ensures users == old(users) + [u] && nextId == old(nextId) + 1
    {
      u := User(nextId, NormalizeEmail(email), firstName, lastName, ACCESS_SUPER, true);
      users := users + [u];
      nextId := nextId + 1;
    }
  }
}
