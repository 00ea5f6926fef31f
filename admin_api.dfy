/**
 * The administration endpoints: users, roles, the user-role association
 * and the permissions of a role. The caller has already passed the
 * superuser dependency; `ctx` holds what the endpoint passes on to the
 * audit log. Password hashing is a function the model takes as given.
 */
module AdminApi {
  import opened PyValues
  import opened Models
  import opened Store
  import opened Audit
  import opened Query

  const RoleNotFound := HttpError(404, "Role not found")

  /** `UserUpdate`: `Some` marks a field present in the request body. */
  datatype UserUpdate = UserUpdate(email: Option<string>, fullName: Option<Option<string>>,
                                   isActive: Option<bool>, isSuperuser: Option<bool>)

  /** One entry of `model_dump(exclude_unset=True)`. */
  datatype UserField =
    | SetEmail(email: string)
    | SetFullName(fullName: Option<string>)
    | SetIsActive(isActive: bool)
    | SetIsSuperuser(isSuperuser: bool)

  /** Each supplied field of the request, as a one-entry list (empty when unset). */
  function EmailPart(u: UserUpdate): seq<UserField> {
    if u.email.Some? then [SetEmail(u.email.value)] else []
  }
  function FullNamePart(u: UserUpdate): seq<UserField> {
    if u.fullName.Some? then [SetFullName(u.fullName.value)] else []
  }
  function IsActivePart(u: UserUpdate): seq<UserField> {
    if u.isActive.Some? then [SetIsActive(u.isActive.value)] else []
  }
  function IsSuperuserPart(u: UserUpdate): seq<UserField> {
    if u.isSuperuser.Some? then [SetIsSuperuser(u.isSuperuser.value)] else []
  }

  /** The supplied fields, in the order `UserUpdate` declares them. */
  function UpdateData(u: UserUpdate): (r: seq<UserField>)
    ensures |r| <= 4
  {
    EmailPart(u) + FullNamePart(u) + IsActivePart(u) + IsSuperuserPart(u)
  }

  /** `setattr(user, field, value)` */
  function SetAttr(a: UserRow, f: UserField): UserRow {
    match f
    case SetEmail(e) => a.(email := e)
    case SetFullName(n) => a.(fullName := n)
    case SetIsActive(b) => a.(isActive := b)
    case SetIsSuperuser(b) => a.(isSuperuser := b)
  }

  /** `update_data`, the supplied fields as a dict, as the audit log stores it. */
  function UpdateDetails(u: UserUpdate): Obj
  {
    var email := if u.email.Some? then Some(PyStr(u.email.value)) else None;
    var fullName := if u.fullName.Some?
                    then Some(if u.fullName.value.Some? then PyStr(u.fullName.value.value) else PyNone)
                    else None;
    var isActive := if u.isActive.Some? then Some(PyBool(u.isActive.value)) else None;
    var isSuperuser := if u.isSuperuser.Some? then Some(PyBool(u.isSuperuser.value)) else None;
    SetIfSome(SetIfSome(SetIfSome(SetIfSome(Empty, "email", email), "full_name", fullName),
                        "is_active", isActive), "is_superuser", isSuperuser)
  }

  /** The row with every supplied field replaced and every other kept. */
  function Updated(a: UserRow, u: UserUpdate): (r: UserRow)
    ensures r.username == a.username && r.hashedPassword == a.hashedPassword && r.roles == a.roles
    ensures u.email.None? ==> r.email == a.email
    ensures u.fullName.None? ==> r.fullName == a.fullName
    ensures u.isActive.None? ==> r.isActive == a.isActive
    ensures u.isSuperuser.None? ==> r.isSuperuser == a.isSuperuser
  {
    a.(email := if u.email.Some? then u.email.value else a.email,
       fullName := if u.fullName.Some? then u.fullName.value else a.fullName,
       isActive := if u.isActive.Some? then u.isActive.value else a.isActive,
       isSuperuser := if u.isSuperuser.Some? then u.isSuperuser.value else a.isSuperuser)
  }

  /** The `setattr` loop over the supplied fields. */
  method ApplyUpdate(a: UserRow, u: UserUpdate) returns (r: UserRow)
    ensures r == Updated(a, u)
  {
    var data := UpdateData(u);
    r := a;
    var i := 0;
    while i < |data|
      invariant 0 <= i <= |data|
      invariant r == FoldLeft(SetAttr, a, data[..i])
    {
      assert data[..i + 1][..i] == data[..i];
      r := SetAttr(r, data[i]);
      i := i + 1;
    }
    assert data[..i] == data;
    UpdateDataApplied(a, u);
  }

  /** The first `setattr` of the loop, if any. */
  lemma FoldEmail(a: UserRow, u: UserUpdate)
    ensures FoldLeft(SetAttr, a, EmailPart(u)) == a.(email := if u.email.Some? then u.email.value else a.email)
  {
    FoldLeftOpt(SetAttr, a, [], EmailPart(u));
    assert [] + EmailPart(u) == EmailPart(u);
  }

  /** The later `setattr`s, each after the ones before it. */
  lemma FoldFullName(a: UserRow, s: seq<UserField>, u: UserUpdate)
    ensures var x := FoldLeft(SetAttr, a, s);
            FoldLeft(SetAttr, a, s + FullNamePart(u)) == x.(fullName := if u.fullName.Some? then u.fullName.value else x.fullName)
  {
    FoldLeftOpt(SetAttr, a, s, FullNamePart(u));
  }

  lemma FoldIsActive(a: UserRow, s: seq<UserField>, u: UserUpdate)
    ensures var x := FoldLeft(SetAttr, a, s);
            FoldLeft(SetAttr, a, s + IsActivePart(u)) == x.(isActive := if u.isActive.Some? then u.isActive.value else x.isActive)
  {
    FoldLeftOpt(SetAttr, a, s, IsActivePart(u));
  }

  lemma FoldIsSuperuser(a: UserRow, s: seq<UserField>, u: UserUpdate)
    ensures var x := FoldLeft(SetAttr, a, s);
            FoldLeft(SetAttr, a, s + IsSuperuserPart(u))
              == x.(isSuperuser := if u.isSuperuser.Some? then u.isSuperuser.value else x.isSuperuser)
  {
    FoldLeftOpt(SetAttr, a, s, IsSuperuserPart(u));
  }

  /** The `setattr` loop changes exactly the supplied fields. */
  lemma {:induction false} UpdateDataApplied(a: UserRow, u: UserUpdate)
    ensures FoldLeft(SetAttr, a, UpdateData(u)) == Updated(a, u)
  {
    var e, n, ac := EmailPart(u), FullNamePart(u), IsActivePart(u);
    FoldEmail(a, u);
    FoldFullName(a, e, u);
    FoldIsActive(a, e + n, u);
    FoldIsSuperuser(a, e + n + ac, u);
  }

  /** `list_users`: a page of the users, in id order. */
  function ListUsers(db: Db, skip: nat, limit: nat): (r: seq<(nat, UserRow)>)
    reads db
    ensures PageOf(r, db.users, db.nextUserId, skip, limit)
  {
    PageOfRows(db.users, db.nextUserId, skip, limit);
    Page(Rows(db.users, db.nextUserId), skip, limit)
  }

  /** `create_user`: the username is checked first, then the email; the
      password is stored as `hash(password)`. */
  method CreateUser(db: Db, ctx: Ctx, hash: string -> string, username: string, email: string,
                    password: string, fullName: Option<string>, isActive: bool, isSuperuser: bool)
    returns (r: Result<nat>)
    requires db.Valid()
    modifies db`users, db`nextUserId, db`auditLog, db`nextAuditId
    ensures db.Valid()
    ensures Taken(old(db.users), Username, username) ==>
              r == Failure(HttpError(400, "Username already exists")) && unchanged(db)
    ensures !Taken(old(db.users), Username, username) && Taken(old(db.users), Email, email) ==>
              r == Failure(HttpError(400, "Email already exists")) && unchanged(db)
    ensures !Taken(old(db.users), Username, username) && !Taken(old(db.users), Email, email) ==>
              && r.Success? && r.value !in old(db.users)
              && db.users == old(db.users)[r.value :=
                   UserRow(username, email, hash(password), fullName, isActive, isSuperuser, [])]
              && db.auditLog == old(db.auditLog) + Recorded(db.auditEnabled,
                   ChangeEntry(old(db.nextAuditId), ctx, "create", "user", r.value,
                               Some(Single("username", PyStr(username)))))
  {
    if Taken(db.users, Username, username) {
      return Failure(HttpError(400, "Username already exists"));
    }
    if Taken(db.users, Email, email) {
      return Failure(HttpError(400, "Email already exists"));
    }
    var id := db.InsertUser(UserRow(username, email, hash(password), fullName, isActive, isSuperuser, []));
    LogCreate(db, ctx, "user", id, Some(Single("username", PyStr(username))));
    r := Success(id);
  }

  /** `update_user`: the supplied fields are set one by one; an email held
      by another user makes the commit fail. */
  method UpdateUser(db: Db, ctx: Ctx, id: nat, u: UserUpdate) returns (r: Result<UserRow>)
    requires db.Valid()
    modifies db`users, db`auditLog, db`nextAuditId
    ensures db.Valid()
    ensures id !in old(db.users) ==> r == Failure(UserNotFound) && unchanged(db)
    ensures id in old(db.users) && u.email.Some? && TakenByOther(old(db.users), Email, u.email.value, id) ==>
              r == Failure(UniqueViolation) && unchanged(db)
    ensures id in old(db.users) && !(u.email.Some? && TakenByOther(old(db.users), Email, u.email.value, id)) ==>
              && r.Success?
              && r.value == Updated(old(db.users[id]), u)
              && db.users == old(db.users)[id := r.value]
              && db.auditLog == old(db.auditLog) + Recorded(db.auditEnabled,
                   ChangeEntry(old(db.nextAuditId), ctx, "update", "user", id, Some(UpdateDetails(u))))
  {
    if id !in db.users {
      return Failure(UserNotFound);
    }
    var row := ApplyUpdate(db.users[id], u);
    OwnValueFree(db.users, Username, id);
    assert row.email == if u.email.Some? then u.email.value else db.users[id].email;
    var ok := db.ReplaceUser(id, row);
    if !ok {
      return Failure(UniqueViolation);
    }
    LogUpdate(db, ctx, "user", id, Some(UpdateDetails(u)));
    r := Success(row);
  }

  /** The role list after `user.roles.append(role)` guarded by `role not in
      user.roles`: a role is never listed twice. */
  function WithRole(roles: seq<nat>, roleId: nat): (r: seq<nat>)
    ensures roleId in r
    ensures forall x :: x in r <==> x in roles || x == roleId
    ensures Distinct(roles) ==> Distinct(r)
    ensures roleId in roles ==> r == roles
    ensures |roles| <= |r| && r[..|roles|] == roles
  {
    if roleId in roles then roles else roles + [roleId]
  }

  /** Assigning the same role twice is the same as assigning it once. */
  lemma WithRoleIdempotent(roles: seq<nat>, roleId: nat)
    ensures WithRole(WithRole(roles, roleId), roleId) == WithRole(roles, roleId)
  {
  }

  /** `{"role_id": id, "role_name": name}` */
  function RoleDetails(roleId: nat, name: string): (d: Obj)
    ensures d.keys == ["role_id", "role_name"]
  {
    Set(Single("role_id", PyInt(roleId)), "role_name", PyStr(name))
  }

  /** `assign_role_to_user`: the user, then the role must exist; the role is
      added once, and the assignment is logged even when it was already there. */
  method AssignRole(db: Db, ctx: Ctx, userId: nat, roleId: nat) returns (r: Result<UserRow>)
    requires db.Valid()
    modifies db`users, db`auditLog, db`nextAuditId
    ensures db.Valid()
    ensures userId !in old(db.users) ==> r == Failure(UserNotFound) && unchanged(db)
    ensures userId in old(db.users) && roleId !in db.roles ==> r == Failure(RoleNotFound) && unchanged(db)
    ensures userId in old(db.users) && roleId in db.roles ==>
              && r == Success(old(db.users[userId]).(roles := WithRole(old(db.users[userId].roles), roleId)))
              && db.users == old(db.users)[userId := r.value]
              && db.auditLog == old(db.auditLog) + Recorded(db.auditEnabled,
                   AuditEntry(old(db.nextAuditId), Some(ctx.actor), "assign_role", "user", Some(userId),
                              RoleDetails(roleId, db.roles[roleId].name), Some(ctx.ip), ctx.userAgent,
                              "success", ctx.now))
  {
    if userId !in db.users {
      return Failure(UserNotFound);
    }
    if roleId !in db.roles {
      return Failure(RoleNotFound);
    }
    var user := db.users[userId];
    var row := user.(roles := WithRole(user.roles, roleId));
    OwnValueFree(db.users, Username, userId);
    OwnValueFree(db.users, Email, userId);
    var ok := db.ReplaceUser(userId, row);
    assert ok;
    var _ := Log(db, Some(ctx.actor), "assign_role", "user", Some(userId),
                 Some(RoleDetails(roleId, db.roles[roleId].name)), Some(ctx.ip), ctx.userAgent, "success", ctx.now);
    r := Success(row);
  }

  /** `list_roles`: a page of the roles, in id order. */
  function ListRoles(db: Db, skip: nat, limit: nat): (r: seq<(nat, RoleRow)>)
    reads db
    ensures PageOf(r, db.roles, db.nextRoleId, skip, limit)
  {
    PageOfRows(db.roles, db.nextRoleId, skip, limit);
    Page(Rows(db.roles, db.nextRoleId), skip, limit)
  }

  /** `create_role`: a new name only. */
  method CreateRole(db: Db, ctx: Ctx, name: string, description: Option<string>) returns (r: Result<nat>)
    requires db.Valid()
    modifies db`roles, db`nextRoleId, db`auditLog, db`nextAuditId
    ensures db.Valid()
    ensures Taken(old(db.roles), RoleName, name) ==>
              r == Failure(HttpError(400, "Role already exists")) && unchanged(db)
    ensures !Taken(old(db.roles), RoleName, name) ==>
              && r.Success? && r.value !in old(db.roles)
              && db.roles == old(db.roles)[r.value := RoleRow(name, description)]
              && db.auditLog == old(db.auditLog) + Recorded(db.auditEnabled,
                   ChangeEntry(old(db.nextAuditId), ctx, "create", "role", r.value, Some(Single("name", PyStr(name)))))
  {
    if Taken(db.roles, RoleName, name) {
      return Failure(HttpError(400, "Role already exists"));
    }
    var id := db.InsertRole(RoleRow(name, description));
    LogCreate(db, ctx, "role", id, Some(Single("name", PyStr(name))));
    r := Success(id);
  }

  /** `{"role_id": id, "resource": resource, "action": action}` */
  function PermissionDetails(roleId: nat, resource: string, action: string): (d: Obj)
    ensures d.keys == ["role_id", "resource", "action"]
  {
    Set(Set(Single("role_id", PyInt(roleId)), "resource", PyStr(resource)), "action", PyStr(action))
  }

  /** `add_permission_to_role`: the role must exist; the same resource and
      action may be added to a role more than once. */
  method AddPermission(db: Db, ctx: Ctx, roleId: nat, resource: string, action: string) returns (r: Result<nat>)
    requires db.Valid()
    modifies db`permissions, db`nextPermissionId, db`auditLog, db`nextAuditId
    ensures db.Valid()
    ensures roleId !in db.roles ==> r == Failure(RoleNotFound) && unchanged(db)
    ensures roleId in db.roles ==>
              && r.Success? && r.value !in old(db.permissions)
              && db.permissions == old(db.permissions)[r.value := PermissionRow(roleId, resource, action)]
              && db.auditLog == old(db.auditLog) + Recorded(db.auditEnabled,
                   ChangeEntry(old(db.nextAuditId), ctx, "create", "permission", r.value,
                               Some(PermissionDetails(roleId, resource, action))))
  {
    if roleId !in db.roles {
      return Failure(RoleNotFound);
    }
    var id := db.InsertPermission(PermissionRow(roleId, resource, action));
    LogCreate(db, ctx, "permission", id, Some(PermissionDetails(roleId, resource, action)));
    r := Success(id);
  }

  /** `list_role_permissions`: every permission row of the role; an
      unknown role has none (no 404). */
  function ListRolePermissions(db: Db, roleId: nat): (r: seq<(nat, PermissionRow)>)
    reads db
    ensures forall e :: e in r <==> e.0 in db.permissions && e.0 < db.nextPermissionId
                                    && e.1 == db.permissions[e.0] && e.1.roleId == roleId
  {
    Where(Rows(db.permissions, db.nextPermissionId), (e: (nat, PermissionRow)) => e.1.roleId == roleId)
  }
}
