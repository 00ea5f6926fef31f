/**
 * The audit logger: appends one entry per call to the audit log when
 * auditing is enabled, and nothing otherwise. The helpers fix the action
 * name and the default status "success".
 */
module Audit {
  import opened PyValues
  import opened Models
  import opened Store

  /** What one `log` call appends: the entry when auditing is on, nothing
      when it is off. */
  function Recorded(enabled: bool, e: AuditEntry): (r: seq<AuditEntry>)
    ensures |r| <= 1
    ensures enabled <==> r == [e]
    ensures !enabled <==> r == []
  {
    if enabled then [e] else []
  }

  /** A one-entry details dict such as `{"name": name}`. */
  function Single(key: string, v: Value): (d: Obj)
    ensures d.keys == [key] && d.vals == map[key := v]
  {
    Set(Empty, key, v)
  }

  /** `AuditLogger.log`: returns the stored entry, or `None` when auditing
      is disabled. `now` is the entry's `created_at`. */
  method Log(db: Db, userId: Option<nat>, action: string, resourceType: string,
             resourceId: Option<nat>, details: Option<Obj>, ipAddress: Option<string>,
             userAgent: Option<string>, status: string, now: int) returns (r: Option<AuditEntry>)
    requires db.Valid()
    modifies db`auditLog, db`nextAuditId
    ensures db.Valid()
    ensures r.None? <==> !db.auditEnabled
    ensures r.Some? ==> r.value == AuditEntry(old(db.nextAuditId), userId, action, resourceType, resourceId,
                                              OrEmpty(details), ipAddress, userAgent, status, now)
    ensures db.auditLog == old(db.auditLog) + Recorded(db.auditEnabled,
              AuditEntry(old(db.nextAuditId), userId, action, resourceType, resourceId,
                         OrEmpty(details), ipAddress, userAgent, status, now))
    ensures db.nextAuditId == old(db.nextAuditId) + |db.auditLog| - |old(db.auditLog)|
  {
    if !db.auditEnabled {
      return None;
    }
    var entry := AuditEntry(db.nextAuditId, userId, action, resourceType, resourceId,
                            OrEmpty(details), ipAddress, userAgent, status, now);
    db.auditLog := db.auditLog + [entry];
    db.nextAuditId := db.nextAuditId + 1;
    r := Some(entry);
  }

  /** `log_login`: action "login" on resource type "auth", status from the flag. */
  method LogLogin(db: Db, userId: nat, ipAddress: string, userAgent: string, success: bool, now: int)
    requires db.Valid()
    modifies db`auditLog, db`nextAuditId
    ensures db.Valid()
    ensures db.auditLog == old(db.auditLog) + Recorded(db.auditEnabled,
              AuditEntry(old(db.nextAuditId), Some(userId), "login", "auth", None, Empty,
                         Some(ipAddress), Some(userAgent), if success then "success" else "failure", now))
  {
    var _ := Log(db, Some(userId), "login", "auth", None, None, Some(ipAddress), Some(userAgent),
                 if success then "success" else "failure", now);
  }

  /** `log_logout`: action "logout" on resource type "auth". */
  method LogLogout(db: Db, userId: nat, ipAddress: string, userAgent: string, now: int)
    requires db.Valid()
    modifies db`auditLog, db`nextAuditId
    ensures db.Valid()
    ensures db.auditLog == old(db.auditLog) + Recorded(db.auditEnabled,
              AuditEntry(old(db.nextAuditId), Some(userId), "logout", "auth", None, Empty,
                         Some(ipAddress), Some(userAgent), "success", now))
  {
    var _ := Log(db, Some(userId), "logout", "auth", None, None, Some(ipAddress), Some(userAgent),
                 "success", now);
  }

  /** The entry `log_create`, `log_update` and `log_delete` make for the
      request `ctx`: the caller, the client host and the user agent. */
  function ChangeEntry(id: nat, ctx: Ctx, action: string, resourceType: string, resourceId: nat,
                       details: Option<Obj>): (e: AuditEntry)
    ensures e.id == id && e.userId == Some(ctx.actor) && e.createdAt == ctx.now
    ensures e.action == action && e.resourceType == resourceType && e.resourceId == Some(resourceId)
    ensures e.ipAddress == Some(ctx.ip) && e.userAgent == ctx.userAgent && e.status == "success"
    ensures details.Some? ==> e.details == details.value
    ensures details.None? ==> e.details == Empty
  {
    AuditEntry(id, Some(ctx.actor), action, resourceType, Some(resourceId), OrEmpty(details),
               Some(ctx.ip), ctx.userAgent, "success", ctx.now)
  }

  /** `log_create`, `log_update` and `log_delete`, which differ only in the
      action they record ("create", "update", "delete"). */
  method LogChange(db: Db, ctx: Ctx, action: string, resourceType: string, resourceId: nat,
                   details: Option<Obj>)
    requires db.Valid()
    modifies db`auditLog, db`nextAuditId
    ensures db.Valid()
    ensures db.auditLog == old(db.auditLog) + Recorded(db.auditEnabled,
              ChangeEntry(old(db.nextAuditId), ctx, action, resourceType, resourceId, details))
  {
    var _ := Log(db, Some(ctx.actor), action, resourceType, Some(resourceId), details,
                 Some(ctx.ip), ctx.userAgent, "success", ctx.now);
  }

  method LogCreate(db: Db, ctx: Ctx, resourceType: string, resourceId: nat, details: Option<Obj>)
    requires db.Valid()
    modifies db`auditLog, db`nextAuditId
    ensures db.Valid()
    ensures db.auditLog == old(db.auditLog) + Recorded(db.auditEnabled,
              ChangeEntry(old(db.nextAuditId), ctx, "create", resourceType, resourceId, details))
  {
    LogChange(db, ctx, "create", resourceType, resourceId, details);
  }

  method LogUpdate(db: Db, ctx: Ctx, resourceType: string, resourceId: nat, details: Option<Obj>)
    requires db.Valid()
    modifies db`auditLog, db`nextAuditId
    ensures db.Valid()
    ensures db.auditLog == old(db.auditLog) + Recorded(db.auditEnabled,
              ChangeEntry(old(db.nextAuditId), ctx, "update", resourceType, resourceId, details))
  {
    LogChange(db, ctx, "update", resourceType, resourceId, details);
  }

  method LogDelete(db: Db, ctx: Ctx, resourceType: string, resourceId: nat, details: Option<Obj>)
    requires db.Valid()
    modifies db`auditLog, db`nextAuditId
    ensures db.Valid()
    ensures db.auditLog == old(db.auditLog) + Recorded(db.auditEnabled,
              ChangeEntry(old(db.nextAuditId), ctx, "delete", resourceType, resourceId, details))
  {
    LogChange(db, ctx, "delete", resourceType, resourceId, details);
  }
}
