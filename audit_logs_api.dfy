/**
 * The audit-log endpoints: a filtered, newest-first listing, one entry by
 * id, and the distinct actions and resource types recorded. All of them
 * only read the log.
 */
module AuditLogsApi {
  import opened PyValues
  import opened Models
  import opened Store
  import opened Query

  const AuditLogNotFound := HttpError(404, "Audit log not found")

  /** The optional query parameters of `list_audit_logs`. */
  datatype AuditQuery = AuditQuery(
    action: Option<string>,
    resourceType: Option<string>,
    userId: Option<int>,
    status: Option<string>)

  /** `if x:` for an optional string or integer parameter: a missing
      parameter, an empty string and `0` all switch the filter off. */
  predicate StrSet(x: Option<string>) { x.Some? && x.value != "" }
  predicate IntSet(x: Option<int>) { x.Some? && x.value != 0 }

  /** The filters, applied one after the other as the query is built. */
  function Filtered(q: AuditQuery, log: seq<AuditEntry>): seq<AuditEntry> {
    var s1 := if StrSet(q.action) then Where(log, (e: AuditEntry) => e.action == q.action.value) else log;
    var s2 := if StrSet(q.resourceType) then Where(s1, (e: AuditEntry) => e.resourceType == q.resourceType.value) else s1;
    var s3 := if IntSet(q.userId) then Where(s2, (e: AuditEntry) => e.userId.Some? && e.userId.value == q.userId.value) else s2;
    if StrSet(q.status) then Where(s3, (e: AuditEntry) => e.status == q.status.value) else s3
  }

  /** An entry meets every filter that is switched on. An entry without a
      user never meets a user filter (SQL `NULL = n` is not true). */
  predicate Matches(q: AuditQuery, e: AuditEntry) {
    && (StrSet(q.action) ==> e.action == q.action.value)
    && (StrSet(q.resourceType) ==> e.resourceType == q.resourceType.value)
    && (IntSet(q.userId) ==> e.userId.Some? && e.userId.value == q.userId.value)
    && (StrSet(q.status) ==> e.status == q.status.value)
  }

  /** Applying the filters in turn keeps exactly the entries that meet all
      of them. */
  lemma FilteredMatches(q: AuditQuery, log: seq<AuditEntry>)
    ensures forall e :: e in Filtered(q, log) <==> e in log && Matches(q, e)
  {
  }

  /** Only entries of the log, and none twice more often than in the log. */
  lemma FilteredSub(q: AuditQuery, log: seq<AuditEntry>)
    ensures multiset(Filtered(q, log)) <= multiset(log)
  {
  }

  function CreatedAt(e: AuditEntry): int { e.createdAt }

  /** `list_audit_logs`: the entries meeting the filters, newest first,
      the window of at most `limit` of them after skipping `skip`; all of
      them when the first page has room for every match. */
  function ListAuditLogs(db: Db, q: AuditQuery, skip: nat, limit: nat): (r: seq<AuditEntry>)
    reads db
    ensures |r| == Window(|Filtered(q, db.auditLog)|, skip, limit)
    ensures forall e :: e in r ==> e in db.auditLog && Matches(q, e)
    ensures SortedDesc(r, CreatedAt)
    ensures skip == 0 && |Filtered(q, db.auditLog)| <= limit ==>
              forall e :: e in db.auditLog && Matches(q, e) ==> e in r
  {
    var f := Filtered(q, db.auditLog);
    FilteredMatches(q, db.auditLog);
    var r := OrderedPage(f, CreatedAt, skip, limit);
    assert skip == 0 && |f| <= limit ==> forall e :: e in db.auditLog && Matches(q, e) ==> e in r by {
      if skip == 0 && |f| <= limit {
        forall e | e in db.auditLog && Matches(q, e)
          ensures e in r
        {
          assert e in multiset(f);
        }
      }
    }
    r
  }

  /** Paging through the audit log neither skips nor repeats an entry. */
  lemma ListAuditLogsTile(db: Db, q: AuditQuery, skip: nat, a: nat, b: nat)
    ensures ListAuditLogs(db, q, skip, a) + ListAuditLogs(db, q, skip + a, b) == ListAuditLogs(db, q, skip, a + b)
  {
    OrderedPagesTile(Filtered(q, db.auditLog), CreatedAt, skip, a, b);
  }

  /** The entry with the given id, if the log holds one. */
  function FindEntry(log: seq<AuditEntry>, id: int): (r: Option<AuditEntry>)
    ensures r.None? <==> forall e :: e in log ==> e.id != id
    ensures r.Some? ==> r.value in log && r.value.id == id
  {
    if log == [] then None
    else if log[|log| - 1].id == id then Some(log[|log| - 1])
    else
      var r := FindEntry(log[..|log| - 1], id);
      assert log == log[..|log| - 1] + [log[|log| - 1]];
      r
  }

  /** `get_audit_log`: the entry with id `logId`, or 404. */
  function GetAuditLog(db: Db, logId: int): (r: Result<AuditEntry>)
    reads db
    ensures r.Failure? <==> forall e :: e in db.auditLog ==> e.id != logId
    ensures r.Failure? ==> r.error == AuditLogNotFound
    ensures r.Success? ==> r.value in db.auditLog && r.value.id == logId
  {
    var found := FindEntry(db.auditLog, logId);
    if found.None? then Failure(AuditLogNotFound) else Success(found.value)
  }

  /** Ids are unique in a valid log, so the entry found is the one entry. */
  lemma GetAuditLogUnique(db: Db, logId: int, i: nat)
    requires db.AuditValid() && i < |db.auditLog| && db.auditLog[i].id == logId
    ensures GetAuditLog(db, logId) == Success(db.auditLog[i])
  {
    var e := GetAuditLog(db, logId).value;
    var j :| 0 <= j < |db.auditLog| && db.auditLog[j] == e;
    assert !(i < j) && !(j < i);
  }

  /** `list_actions`: each recorded action once. */
  function ListActions(db: Db): (r: seq<string>)
    reads db
    ensures Distinct(r)
    ensures forall a :: a in r <==> exists e :: e in db.auditLog && e.action == a
  {
    var log := db.auditLog;
    var actions := seq(|log|, i requires 0 <= i < |log| => log[i].action);
    assert forall a :: a in actions <==> exists e :: e in log && e.action == a by {
      forall a
        ensures a in actions <==> exists e :: e in log && e.action == a
      {
        if exists e :: e in log && e.action == a {
          var e :| e in log && e.action == a;
          var i :| 0 <= i < |log| && log[i] == e;
          assert actions[i] == a;
        }
      }
    }
    SelectDistinct(actions)
  }

  /** `list_resource_types`: each recorded resource type once. */
  function ListResourceTypes(db: Db): (r: seq<string>)
    reads db
    ensures Distinct(r)
    ensures forall t :: t in r <==> exists e :: e in db.auditLog && e.resourceType == t
  {
    var log := db.auditLog;
    var types := seq(|log|, i requires 0 <= i < |log| => log[i].resourceType);
    assert forall t :: t in types <==> exists e :: e in log && e.resourceType == t by {
      forall t
        ensures t in types <==> exists e :: e in log && e.resourceType == t
      {
        if exists e :: e in log && e.resourceType == t {
          var e :| e in log && e.resourceType == t;
          var i :| 0 <= i < |log| && log[i] == e;
          assert types[i] == t;
        }
      }
    }
    SelectDistinct(types)
  }
}
