/**
 * The agent endpoints: create, read, update, delete, activate and
 * deactivate agent records, and list the agent classes the registry
 * knows. The caller has already passed the endpoint's authorization
 * dependency; `ctx` holds what the endpoint passes on to the audit log.
 */
module AgentsApi {
  import opened PyValues
  import opened Models
  import opened Store
  import opened Audit
  import opened Query
  import Registry

  const AgentNotFound := HttpError(404, "Agent not found")

  /** `AgentUpdate`: `Some` marks a field present in the request body. */
  datatype AgentUpdate = AgentUpdate(name: Option<string>, description: Option<Option<string>>,
                                     status: Option<AgentStatus>, config: Option<Obj>)

  /** One entry of `model_dump(exclude_unset=True)`. */
  datatype AgentField =
    | SetName(name: string)
    | SetDescription(description: Option<string>)
    | SetStatus(status: AgentStatus)
    | SetConfig(config: Obj)

  /** The supplied fields, in the order `AgentUpdate` declares them. */
  function UpdateData(u: AgentUpdate): (r: seq<AgentField>)
    ensures |r| <= 4
  {
    (if u.name.Some? then [SetName(u.name.value)] else [])
    + (if u.description.Some? then [SetDescription(u.description.value)] else [])
    + (if u.status.Some? then [SetStatus(u.status.value)] else [])
    + (if u.config.Some? then [SetConfig(u.config.value)] else [])
  }

  /** `setattr(agent, field, value)` */
  function SetAttr(a: AgentRow, f: AgentField): AgentRow {
    match f
    case SetName(n) => a.(name := n)
    case SetDescription(d) => a.(description := d)
    case SetStatus(s) => a.(status := s)
    case SetConfig(c) => a.(config := c)
  }

  /** `update_data`, the supplied fields as a dict, as the audit log stores it. */
  function UpdateDetails(u: AgentUpdate): Obj
  {
    var name := if u.name.Some? then Some(PyStr(u.name.value)) else None;
    var description := if u.description.Some?
                       then Some(if u.description.value.Some? then PyStr(u.description.value.value) else PyNone)
                       else None;
    var status := if u.status.Some? then Some(PyStr(AgentStatusValue(u.status.value))) else None;
    var config := if u.config.Some? then Some(PyDict(u.config.value)) else None;
    SetIfSome(SetIfSome(SetIfSome(SetIfSome(Empty, "name", name), "description", description), "status", status),
              "config", config)
  }

  /** The row with every supplied field replaced and every other kept. */
  function Updated(a: AgentRow, u: AgentUpdate): (r: AgentRow)
    ensures r.agentType == a.agentType && r.version == a.version
    ensures r.isPlugin == a.isPlugin && r.pluginModule == a.pluginModule
    ensures u.name.None? ==> r.name == a.name
    ensures u.description.None? ==> r.description == a.description
    ensures u.status.None? ==> r.status == a.status
    ensures u.config.None? ==> r.config == a.config
  {
    a.(name := if u.name.Some? then u.name.value else a.name,
       description := if u.description.Some? then u.description.value else a.description,
       status := if u.status.Some? then u.status.value else a.status,
       config := if u.config.Some? then u.config.value else a.config)
  }

  /** The `setattr` loop over the supplied fields. */
  method ApplyUpdate(a: AgentRow, u: AgentUpdate) returns (r: AgentRow)
    ensures r == Updated(a, u)
  {
    var data := UpdateData(u);
    r := a;
    var i := 0;
    while i < |data|
      invariant 0 <= i <= |data|
      invariant r == FoldLeft(SetAttr, a, data[..i])
    {
      assert data[..i + 1][..i] == data[..i];
      r := SetAttr(r, data[i]);
      i := i + 1;
    }
    assert data[..i] == data;
    UpdateDataApplied(a, u);
  }

  /** The `setattr` loop changes exactly the supplied fields. */
  lemma {:induction false} UpdateDataApplied(a: AgentRow, u: AgentUpdate)
    ensures FoldLeft(SetAttr, a, UpdateData(u)) == Updated(a, u)
  {
    var n := if u.name.Some? then [SetName(u.name.value)] else [];
    var d := if u.description.Some? then [SetDescription(u.description.value)] else [];
    var s := if u.status.Some? then [SetStatus(u.status.value)] else [];
    var c := if u.config.Some? then [SetConfig(u.config.value)] else [];
    assert UpdateData(u) == n + d + s + c;
    FoldLeftAppend(SetAttr, a, n + d + s, c);
    FoldLeftAppend(SetAttr, a, n + d, s);
    FoldLeftAppend(SetAttr, a, n, d);
  }

  /** `list_agents`: a page of the agents, in id order. */
  function ListAgents(db: Db, skip: nat, limit: nat): (r: seq<(nat, AgentRow)>)
    reads db
    ensures PageOf(r, db.agents, db.nextAgentId, skip, limit)
  {
    PageOfRows(db.agents, db.nextAgentId, skip, limit);
    Page(Rows(db.agents, db.nextAgentId), skip, limit)
  }

  /** `create_agent`: a new name only; the agent starts inactive, not a
      plugin, with version "1.0.0" unless one is given. */
  method CreateAgent(db: Db, ctx: Ctx, name: string, description: Option<string>, agentType: AgentType,
                     config: Obj, version: Option<string>) returns (r: Result<nat>)
    requires db.Valid()
    modifies db`agents, db`nextAgentId, db`auditLog, db`nextAuditId
    ensures db.Valid()
    ensures Taken(old(db.agents), AgentName, name) ==>
              r == Failure(HttpError(400, "Agent with this name already exists")) && unchanged(db)
    ensures !Taken(old(db.agents), AgentName, name) ==>
              && r.Success? && r.value !in old(db.agents)
              && db.agents == old(db.agents)[r.value := AgentRow(name, description, agentType, AgentInactive, config,
                                                                 if version.Some? then version.value else "1.0.0",
                                                                 false, None)]
              && db.auditLog == old(db.auditLog) + Recorded(db.auditEnabled,
                   ChangeEntry(old(db.nextAuditId), ctx, "create", "agent", r.value,
                               Some(Set(Single("name", PyStr(name)), "type", PyStr(AgentTypeValue(agentType))))))
  {
    if Taken(db.agents, AgentName, name) {
      return Failure(HttpError(400, "Agent with this name already exists"));
    }
    var row := AgentRow(name, description, agentType, AgentInactive, config,
                        if version.Some? then version.value else "1.0.0", false, None);
    var id := db.InsertAgent(row);
    LogCreate(db, ctx, "agent", id, Some(Set(Single("name", PyStr(name)), "type", PyStr(AgentTypeValue(agentType)))));
    r := Success(id);
  }

  /** `get_agent` */
  function GetAgent(db: Db, id: nat): (r: Result<AgentRow>)
    reads db
    ensures r.Failure? <==> id !in db.agents
    ensures r.Failure? ==> r.error == AgentNotFound
    ensures r.Success? ==> r.value == db.agents[id]
  {
    if id in db.agents then Success(db.agents[id]) else Failure(AgentNotFound)
  }

  /** `update_agent`: the supplied fields are set one by one; a name held by
      another agent makes the commit fail. */
  method UpdateAgent(db: Db, ctx: Ctx, id: nat, u: AgentUpdate) returns (r: Result<AgentRow>)
    requires db.Valid()
    modifies db`agents, db`auditLog, db`nextAuditId
    ensures db.Valid()
    ensures id !in old(db.agents) ==> r == Failure(AgentNotFound) && unchanged(db)
    ensures id in old(db.agents) && u.name.Some? && TakenByOther(old(db.agents), AgentName, u.name.value, id) ==>
              r == Failure(UniqueViolation) && unchanged(db)
    ensures id in old(db.agents) && !(u.name.Some? && TakenByOther(old(db.agents), AgentName, u.name.value, id)) ==>
              && r.Success?
              && r.value == Updated(old(db.agents[id]), u)
              && db.agents == old(db.agents)[id := r.value]
              && db.auditLog == old(db.auditLog) + Recorded(db.auditEnabled,
                   ChangeEntry(old(db.nextAuditId), ctx, "update", "agent", id, Some(UpdateDetails(u))))
  {
    if id !in db.agents {
      return Failure(AgentNotFound);
    }
    var row := ApplyUpdate(db.agents[id], u);
    OwnValueFree(db.agents, AgentName, id);
    assert row.name == if u.name.Some? then u.name.value else db.agents[id].name;
    var ok := db.ReplaceAgent(id, row);
    if !ok {
      return Failure(UniqueViolation);
    }
    LogUpdate(db, ctx, "agent", id, Some(UpdateDetails(u)));
    r := Success(row);
  }

  /** `delete_agent`: logs the deletion, then deletes the agent. The log
      entry is committed first, so it stays when the delete's own commit
      fails because a pipeline step still names the agent. */
  method DeleteAgent(db: Db, ctx: Ctx, id: nat) returns (r: Result<()>)
    requires db.Valid()
    modifies db`agents, db`auditLog, db`nextAuditId
    ensures db.Valid()
    ensures id !in old(db.agents) ==> r == Failure(AgentNotFound) && unchanged(db)
    ensures id in old(db.agents) ==>
              && db.auditLog == old(db.auditLog) + Recorded(db.auditEnabled,
                   ChangeEntry(old(db.nextAuditId), ctx, "delete", "agent", id,
                               Some(Single("name", PyStr(old(db.agents[id].name))))))
              && (db.StepNamesAgent(id) ==> r == Failure(ForeignKeyViolation) && db.agents == old(db.agents))
              && (!db.StepNamesAgent(id) ==> r == Success(()) && db.agents == old(db.agents) - {id})
  {
    if id !in db.agents {
      return Failure(AgentNotFound);
    }
    LogDelete(db, ctx, "agent", id, Some(Single("name", PyStr(db.agents[id].name))));
    var ok := db.DeleteAgent(id);
    r := if ok then Success(()) else Failure(ForeignKeyViolation);
  }

  /** `activate_agent` (`to == AgentActive`) and `deactivate_agent`
      (`to == AgentInactive`): set the status and nothing else, and log
      the switch even when the status already had that value. */
  method SwitchStatus(db: Db, ctx: Ctx, id: nat, to: AgentStatus, action: string) returns (r: Result<AgentRow>)
    requires db.Valid()
    modifies db`agents, db`auditLog, db`nextAuditId
    ensures db.Valid()
    ensures id !in old(db.agents) ==> r == Failure(AgentNotFound) && unchanged(db)
    ensures id in old(db.agents) ==>
              && r == Success(old(db.agents[id]).(status := to))
              && db.agents == old(db.agents)[id := r.value]
              && db.auditLog == old(db.auditLog) + Recorded(db.auditEnabled,
                   ChangeEntry(old(db.nextAuditId), ctx, "update", "agent", id, Some(Single("action", PyStr(action)))))
    ensures id in old(db.agents) && old(db.agents[id].status) == to ==> db.agents == old(db.agents)
  {
    if id !in db.agents {
      return Failure(AgentNotFound);
    }
    var row := db.agents[id].(status := to);
    OwnValueFree(db.agents, AgentName, id);
    var ok := db.ReplaceAgent(id, row);
    assert ok;
    LogUpdate(db, ctx, "agent", id, Some(Single("action", PyStr(action))));
    r := Success(row);
  }

  method ActivateAgent(db: Db, ctx: Ctx, id: nat) returns (r: Result<AgentRow>)
    requires db.Valid()
    modifies db`agents, db`auditLog, db`nextAuditId
    ensures db.Valid()
    ensures id !in old(db.agents) ==> r == Failure(AgentNotFound) && unchanged(db)
    ensures id in old(db.agents) ==>
              && r == Success(old(db.agents[id]).(status := AgentActive))
              && db.agents == old(db.agents)[id := r.value]
              && db.auditLog == old(db.auditLog) + Recorded(db.auditEnabled,
                   ChangeEntry(old(db.nextAuditId), ctx, "update", "agent", id, Some(Single("action", PyStr("activate")))))
  {
    r := SwitchStatus(db, ctx, id, AgentActive, "activate");
  }

  method DeactivateAgent(db: Db, ctx: Ctx, id: nat) returns (r: Result<AgentRow>)
    requires db.Valid()
    modifies db`agents, db`auditLog, db`nextAuditId
    ensures db.Valid()
    ensures id !in old(db.agents) ==> r == Failure(AgentNotFound) && unchanged(db)
    ensures id in old(db.agents) ==>
              && r == Success(old(db.agents[id]).(status := AgentInactive))
              && db.agents == old(db.agents)[id := r.value]
              && db.auditLog == old(db.auditLog) + Recorded(db.auditEnabled,
                   ChangeEntry(old(db.nextAuditId), ctx, "update", "agent", id, Some(Single("action", PyStr("deactivate")))))
  {
    r := SwitchStatus(db, ctx, id, AgentInactive, "deactivate");
  }

  /** `list_available_agents`: the registry's names, each once. */
  function ListAvailableAgents(registry: Registry.AgentRegistry): (r: seq<string>)
    requires registry.Valid()
    reads registry
    ensures Distinct(r)
    ensures forall n :: n in r <==> n in registry.classes
  {
    registry.ListAgents()
  }
}
