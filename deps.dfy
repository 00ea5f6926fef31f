/**
 * The authentication and authorisation dependencies every endpoint
 * declares: the current user named by the token's `sub` claim, the
 * active-user and superuser variants, and the role-based permission check.
 * Decoding and verifying the token itself happen before the claim is
 * read and are not part of this model: the dependencies start from the
 * claim's value.
 */
module Deps {
  import opened PyValues
  import opened PyText
  import opened Models
  import opened Store
  import opened Query

  const InvalidCredentials := HttpError(401, "Invalid authentication credentials")
  const InactiveUser := HttpError(400, "Inactive user")
  const NotEnoughPermissions := HttpError(403, "Not enough permissions")

  /** The 403 of the permission check. */
  function PermissionDenied(resource: string, action: string): HttpError {
    HttpError(403, "Not enough permissions to " + action + " " + resource)
  }

  /** Python's `int(v)`: booleans are 0 and 1, floats are truncated toward
      zero, strings are parsed as decimal integers (`ValueError` if they are
      not one), and anything else raises `TypeError`. */
  function IntOf(v: Value): (r: Outcome<int>)
    ensures v.PyInt? ==> r == Ok(v.i)
    ensures v.PyStr? ==> (r.Ok? <==> ParseInt(v.s).Some?)
    ensures v.PyFloat? && v.f >= 0.0 ==> r.Ok? && 0 <= r.value && r.value as real <= v.f < r.value as real + 1.0
    ensures v.PyFloat? && v.f < 0.0 ==> r.Ok? && r.value <= 0 && r.value as real - 1.0 < v.f <= r.value as real
    ensures v.PyBool? ==> r == Ok(if v.b then 1 else 0)
    ensures v.PyNone? || v.PyList? || v.PyDict? ==> r == Raised(TypeError)
  {
    match v
    case PyBool(b) => Ok(if b then 1 else 0)
    case PyInt(i) => Ok(i)
    case PyFloat(f) => Ok(if f >= 0.0 then f.Floor else -((-f).Floor))
    case PyStr(s) => if ParseInt(s).Some? then Ok(ParseInt(s).value) else Raised(ValueError)
    case _ => Raised(TypeError)
  }

  /** `get_current_user`: a missing claim is 401; a claim `int()` cannot
      convert ends in a bare 500; a claim naming no user is 404; an
      inactive user is 400; otherwise the user's id. */
  function GetCurrentUser(db: Db, sub: Value): (r: Result<nat>)
    reads db
    ensures r.Success? <==> (sub != PyNone && IntOf(sub).Ok? && IntOf(sub).value >= 0
                             && IntOf(sub).value in db.users && db.users[IntOf(sub).value].isActive)
    ensures r.Success? ==> r.value == IntOf(sub).value
    ensures sub == PyNone ==> r == Failure(InvalidCredentials)
    ensures sub != PyNone && IntOf(sub).Raised? ==> r == Failure(InternalServerError)
    ensures r == Failure(UserNotFound) <==>
              sub != PyNone && IntOf(sub).Ok? && (IntOf(sub).value < 0 || IntOf(sub).value !in db.users)
    ensures r == Failure(InactiveUser) <==>
              sub != PyNone && IntOf(sub).Ok? && IntOf(sub).value >= 0 && IntOf(sub).value in db.users
              && !db.users[IntOf(sub).value].isActive
  {
    if sub == PyNone then Failure(InvalidCredentials)
    else match IntOf(sub)
      case Raised(_) => Failure(InternalServerError)
      case Ok(id) =>
        if id < 0 || id !in db.users then Failure(UserNotFound)
        else if !db.users[id].isActive then Failure(InactiveUser)
        else Success(id)
  }

  /** A token whose subject is `str(id)` of an active user authenticates
      that user. */
  lemma TokenOfUser(db: Db, id: nat)
    requires id in db.users && db.users[id].isActive
    ensures GetCurrentUser(db, PyStr(IntToString(id))) == Success(id)
  {
    ParseIntToString(id);
  }

  /** `get_current_active_user`, given the current user: refused with 400
      when inactive. */
  function GetCurrentActiveUser(db: Db, userId: nat): (r: Result<nat>)
    reads db
    requires userId in db.users
    ensures r.Success? <==> db.users[userId].isActive
    ensures r.Success? ==> r.value == userId
    ensures r.Failure? ==> r.error == InactiveUser
  {
    if !db.users[userId].isActive then Failure(InactiveUser) else Success(userId)
  }

  /** `get_current_user` already refuses inactive users, so the active-user
      check never refuses anyone it lets through. */
  lemma ActiveCheckRedundant(db: Db, sub: Value)
    requires GetCurrentUser(db, sub).Success?
    ensures GetCurrentActiveUser(db, GetCurrentUser(db, sub).value) == GetCurrentUser(db, sub)
  {
  }

  /** `get_current_superuser`, given the current user: refused with 403
      unless a superuser. */
  function GetCurrentSuperuser(db: Db, userId: nat): (r: Result<nat>)
    reads db
    requires userId in db.users
    ensures r.Success? <==> db.users[userId].isSuperuser
    ensures r.Success? ==> r.value == userId
    ensures r.Failure? ==> r.error == NotEnoughPermissions
  {
    if !db.users[userId].isSuperuser then Failure(NotEnoughPermissions) else Success(userId)
  }

  /** `role.permissions`: the permission rows of a role. */
  function RolePermissions(db: Db, roleId: nat): (r: seq<(nat, PermissionRow)>)
    reads db
    requires db.PermissionsValid()
    ensures forall e :: e in r <==> e.0 in db.permissions && e.1 == db.permissions[e.0] && e.1.roleId == roleId
  {
    Where(Rows(db.permissions, db.nextPermissionId), (e: (nat, PermissionRow)) => e.1.roleId == roleId)
  }

  /** Some permission of the role allows `action` on `resource`. */
  ghost predicate RoleGrants(db: Db, roleId: nat, resource: string, action: string)
    reads db
  {
    exists pid :: pid in db.permissions && db.permissions[pid] == PermissionRow(roleId, resource, action)
  }

  /** Some role among `roles` grants the permission. */
  ghost predicate Grants(db: Db, roles: seq<nat>, resource: string, action: string)
    reads db
  {
    exists k :: 0 <= k < |roles| && RoleGrants(db, roles[k], resource, action)
  }

  /** The inner loop of `RBACChecker`: whether some permission of the
      role allows `action` on `resource`. */
  method RoleAllows(db: Db, roleId: nat, resource: string, action: string) returns (allowed: bool)
    requires db.PermissionsValid()
    ensures allowed <==> RoleGrants(db, roleId, resource, action)
  {
    var perms := RolePermissions(db, roleId);
    var j := 0;
    while j < |perms|
      invariant 0 <= j <= |perms|
      invariant forall l :: 0 <= l < j ==> perms[l].1 != PermissionRow(roleId, resource, action)
    {
      if perms[j].1.resource == resource && perms[j].1.action == action {
        assert perms[j] in perms;
        return true;
      }
      j := j + 1;
    }
    allowed := false;
    forall pid | pid in db.permissions && db.permissions[pid].roleId == roleId
      ensures (pid, db.permissions[pid]) in perms
    {
    }
  }

  /** `RBACChecker(resource, action)`, given the current user: the user
      when a superuser or when one of their roles holds the permission;
      a 403 naming the action and the resource otherwise. */
  method CheckPermission(db: Db, userId: nat, resource: string, action: string) returns (r: Result<nat>)
    requires db.PermissionsValid() && userId in db.users
    ensures r.Success? <==> db.users[userId].isSuperuser || Grants(db, db.users[userId].roles, resource, action)
    ensures r.Success? ==> r.value == userId
    ensures r.Failure? ==> r.error == PermissionDenied(resource, action)
  {
    var user := db.users[userId];
    if user.isSuperuser {
      return Success(userId);
    }
    var i := 0;
    while i < |user.roles|
      invariant 0 <= i <= |user.roles|
      invariant forall k :: 0 <= k < i ==> !RoleGrants(db, user.roles[k], resource, action)
    {
      var allowed := RoleAllows(db, user.roles[i], resource, action);
      if allowed {
        return Success(userId);
      }
      i := i + 1;
    }
    r := Failure(PermissionDenied(resource, action));
  }
}
