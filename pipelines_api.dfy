/**
 * The pipeline endpoints: create, read, update and delete pipelines, add
 * steps, record an execution request and list a pipeline's executions.
 * The caller has already passed the endpoint's `RBACChecker`; `ctx` holds
 * what the endpoint passes on to the audit log.
 */
module PipelinesApi {
  import opened PyValues
  import opened Models
  import opened Store
  import opened Audit
  import opened Query

  const PipelineNotFound := HttpError(404, "Pipeline not found")
  const AgentNotFound := HttpError(404, "Agent not found")

  /** A pipeline with its steps, as `PipelineResponse` shows it. */
  datatype PipelineView = PipelineView(id: nat, pipeline: PipelineRow, steps: seq<(nat, StepRow)>)

  /** `PipelineUpdate`: `Some` marks a field present in the request body.
      `description` may be set to `null`. */
  datatype PipelineUpdate = PipelineUpdate(name: Option<string>, description: Option<Option<string>>,
                                           status: Option<PipelineStatus>, config: Option<Obj>)

  /** One entry of `model_dump(exclude_unset=True)`. */
  datatype PipelineField =
    | SetName(name: string)
    | SetDescription(description: Option<string>)
    | SetStatus(status: PipelineStatus)
    | SetConfig(config: Obj)

  /** The supplied fields, in the order `PipelineUpdate` declares them. */
  function UpdateData(u: PipelineUpdate): (r: seq<PipelineField>)
    ensures |r| <= 4
  {
    (if u.name.Some? then [SetName(u.name.value)] else [])
    + (if u.description.Some? then [SetDescription(u.description.value)] else [])
    + (if u.status.Some? then [SetStatus(u.status.value)] else [])
    + (if u.config.Some? then [SetConfig(u.config.value)] else [])
  }

  /** `setattr(pipeline, field, value)` */
  function SetAttr(p: PipelineRow, f: PipelineField): PipelineRow {
    match f
    case SetName(n) => p.(name := n)
    case SetDescription(d) => p.(description := d)
    case SetStatus(s) => p.(status := s)
    case SetConfig(c) => p.(config := c)
  }

  /** `update_data`, the supplied fields as a dict, as the audit log stores it. */
  function UpdateDetails(u: PipelineUpdate): Obj
  {
    var name := if u.name.Some? then Some(PyStr(u.name.value)) else None;
    var description := if u.description.Some?
                       then Some(if u.description.value.Some? then PyStr(u.description.value.value) else PyNone)
                       else None;
    var status := if u.status.Some? then Some(PyStr(PipelineStatusValue(u.status.value))) else None;
    var config := if u.config.Some? then Some(PyDict(u.config.value)) else None;
    SetIfSome(SetIfSome(SetIfSome(SetIfSome(Empty, "name", name), "description", description), "status", status),
              "config", config)
  }

  /** The row with every supplied field replaced and every other kept. */
  function Updated(p: PipelineRow, u: PipelineUpdate): (r: PipelineRow)
    ensures u.name.None? ==> r.name == p.name
    ensures u.description.None? ==> r.description == p.description
    ensures u.status.None? ==> r.status == p.status
    ensures u.config.None? ==> r.config == p.config
  {
    PipelineRow(if u.name.Some? then u.name.value else p.name,
                if u.description.Some? then u.description.value else p.description,
                if u.status.Some? then u.status.value else p.status,
                if u.config.Some? then u.config.value else p.config)
  }

  /** The `setattr` loop over the supplied fields. */
  method ApplyUpdate(p: PipelineRow, u: PipelineUpdate) returns (r: PipelineRow)
    ensures r == Updated(p, u)
  {
    var data := UpdateData(u);
    r := p;
    var i := 0;
    while i < |data|
      invariant 0 <= i <= |data|
      invariant r == FoldLeft(SetAttr, p, data[..i])
    {
      assert data[..i + 1][..i] == data[..i];
      r := SetAttr(r, data[i]);
      i := i + 1;
    }
    assert data[..i] == data;
    UpdateDataApplied(p, u);
  }

  /** The `setattr` loop changes exactly the supplied fields. */
  lemma {:induction false} UpdateDataApplied(p: PipelineRow, u: PipelineUpdate)
    ensures FoldLeft(SetAttr, p, UpdateData(u)) == Updated(p, u)
  {
    var a := if u.name.Some? then [SetName(u.name.value)] else [];
    var b := if u.description.Some? then [SetDescription(u.description.value)] else [];
    var c := if u.status.Some? then [SetStatus(u.status.value)] else [];
    var d := if u.config.Some? then [SetConfig(u.config.value)] else [];
    assert UpdateData(u) == a + b + c + d;
    FoldLeftAppend(SetAttr, p, a + b + c, d);
    FoldLeftAppend(SetAttr, p, a + b, c);
    FoldLeftAppend(SetAttr, p, a, b);
  }

  /** A pipeline and its steps, ordered by their `order` (ties by id). */
  function View(db: Db, id: nat): (v: PipelineView)
    requires id in db.pipelines
    reads db
    ensures v.id == id && v.pipeline == db.pipelines[id]
    ensures forall st :: st in v.steps <==> st.0 in db.steps && st.0 < db.nextStepId
                                            && st.1 == db.steps[st.0] && st.1.pipelineId == id
    ensures forall i, j :: 0 <= i < j < |v.steps| ==> v.steps[i].1.order <= v.steps[j].1.order
  {
    var own := Where(Rows(db.steps, db.nextStepId), (st: (nat, StepRow)) => st.1.pipelineId == id);
    var sorted := SortDesc(own, (st: (nat, StepRow)) => -st.1.order);
    assert forall st :: st in sorted <==> st in own by {
      forall st ensures st in sorted <==> st in own {
        assert st in sorted <==> st in multiset(sorted);
      }
    }
    PipelineView(id, db.pipelines[id], sorted)
  }

  /** `list_pipelines`: a page of the pipelines in id order, each with its
      steps. */
  function ListPipelines(db: Db, skip: nat, limit: nat): (r: seq<PipelineView>)
    reads db
    ensures |r| == Window(|RowIds(db.pipelines, db.nextPipelineId)|, skip, limit)
    ensures forall i :: 0 <= i < |r| ==> skip + i < |Rows(db.pipelines, db.nextPipelineId)|
                                          && r[i].id == Rows(db.pipelines, db.nextPipelineId)[skip + i].0
    ensures forall i :: 0 <= i < |r| ==> r[i].id in db.pipelines && r[i] == View(db, r[i].id)
    ensures forall i, j :: 0 <= i < j < |r| ==> r[i].id < r[j].id
  {
    var rows := Rows(db.pipelines, db.nextPipelineId);
    var page := Page(rows, skip, limit);
    PageOfRows(db.pipelines, db.nextPipelineId, skip, limit);
    seq(|page|, i requires 0 <= i < |page| && page[i].0 in db.pipelines reads db => View(db, page[i].0))
  }

  /** `create_pipeline`: a new name only; the pipeline starts as a draft. */
  method CreatePipeline(db: Db, ctx: Ctx, name: string, description: Option<string>, config: Obj)
    returns (r: Result<nat>)
    requires db.Valid()
    modifies db`pipelines, db`nextPipelineId, db`auditLog, db`nextAuditId
    ensures db.Valid()
    ensures Taken(old(db.pipelines), PipelineName, name) ==>
              r == Failure(HttpError(400, "Pipeline with this name already exists")) && unchanged(db)
    ensures !Taken(old(db.pipelines), PipelineName, name) ==>
              && r.Success? && r.value !in old(db.pipelines)
              && db.pipelines == old(db.pipelines)[r.value := PipelineRow(name, description, Draft, config)]
              && db.auditLog == old(db.auditLog) + Recorded(db.auditEnabled,
                   ChangeEntry(old(db.nextAuditId), ctx, "create", "pipeline", r.value, Some(Single("name", PyStr(name)))))
  {
    if Taken(db.pipelines, PipelineName, name) {
      return Failure(HttpError(400, "Pipeline with this name already exists"));
    }
    var id := db.InsertPipeline(PipelineRow(name, description, Draft, config));
    LogCreate(db, ctx, "pipeline", id, Some(Single("name", PyStr(name))));
    r := Success(id);
  }

  /** `get_pipeline` */
  function GetPipeline(db: Db, id: nat): (r: Result<PipelineView>)
    reads db
    ensures r.Failure? <==> id !in db.pipelines
    ensures r.Failure? ==> r.error == PipelineNotFound
    ensures r.Success? ==> r.value.id == id && r.value.pipeline == db.pipelines[id]
    ensures r.Success? ==> r.value == View(db, id)
  {
    if id in db.pipelines then Success(View(db, id)) else Failure(PipelineNotFound)
  }

  /** `update_pipeline`: the supplied fields are set one by one; a name held
      by another pipeline makes the commit fail. */
  method UpdatePipeline(db: Db, ctx: Ctx, id: nat, u: PipelineUpdate) returns (r: Result<PipelineRow>)
    requires db.Valid()
    modifies db`pipelines, db`auditLog, db`nextAuditId
    ensures db.Valid()
    ensures id !in old(db.pipelines) ==> r == Failure(PipelineNotFound) && unchanged(db)
    ensures id in old(db.pipelines) && u.name.Some? && TakenByOther(old(db.pipelines), PipelineName, u.name.value, id) ==>
              r == Failure(UniqueViolation) && unchanged(db)
    ensures id in old(db.pipelines) && !(u.name.Some? && TakenByOther(old(db.pipelines), PipelineName, u.name.value, id)) ==>
              && r.Success?
              && r.value == Updated(old(db.pipelines[id]), u)
              && db.pipelines == old(db.pipelines)[id := r.value]
              && db.auditLog == old(db.auditLog) + Recorded(db.auditEnabled,
                   ChangeEntry(old(db.nextAuditId), ctx, "update", "pipeline", id, Some(UpdateDetails(u))))
  {
    if id !in db.pipelines {
      return Failure(PipelineNotFound);
    }
    var row := ApplyUpdate(db.pipelines[id], u);
    OwnValueFree(db.pipelines, PipelineName, id);
    assert row.name == if u.name.Some? then u.name.value else db.pipelines[id].name;
    var ok := db.ReplacePipeline(id, row);
    if !ok {
      return Failure(UniqueViolation);
    }
    LogUpdate(db, ctx, "pipeline", id, Some(UpdateDetails(u)));
    r := Success(row);
  }

  /** `delete_pipeline`: logs the deletion, then deletes the pipeline. The
      log entry is committed first, so it stays when the delete's own commit
      fails because a step or an execution still names the pipeline. */
  method DeletePipeline(db: Db, ctx: Ctx, id: nat) returns (r: Result<()>)
    requires db.Valid()
    modifies db`pipelines, db`auditLog, db`nextAuditId
    ensures db.Valid()
    ensures id !in old(db.pipelines) ==> r == Failure(PipelineNotFound) && unchanged(db)
    ensures id in old(db.pipelines) ==>
              && db.auditLog == old(db.auditLog) + Recorded(db.auditEnabled,
                   ChangeEntry(old(db.nextAuditId), ctx, "delete", "pipeline", id,
                               Some(Single("name", PyStr(old(db.pipelines[id].name))))))
              && (db.RowNamesPipeline(id) ==> r == Failure(ForeignKeyViolation) && db.pipelines == old(db.pipelines))
              && (!db.RowNamesPipeline(id) ==> r == Success(()) && db.pipelines == old(db.pipelines) - {id})
  {
    if id !in db.pipelines {
      return Failure(PipelineNotFound);
    }
    LogDelete(db, ctx, "pipeline", id, Some(Single("name", PyStr(db.pipelines[id].name))));
    var ok := db.DeletePipeline(id);
    r := if ok then Success(()) else Failure(ForeignKeyViolation);
  }

  /** `add_pipeline_step`: both the pipeline and the agent must exist; the
      order is not checked against the pipeline's other steps. */
  method AddPipelineStep(db: Db, pipelineId: nat, agentId: nat, order: int, config: Obj)
    returns (r: Result<nat>)
    requires db.Valid()
    modifies db`steps, db`nextStepId
    ensures db.Valid()
    ensures pipelineId !in db.pipelines ==> r == Failure(PipelineNotFound) && unchanged(db)
    ensures pipelineId in db.pipelines && agentId !in db.agents ==> r == Failure(AgentNotFound) && unchanged(db)
    ensures pipelineId in db.pipelines && agentId in db.agents ==>
              && r.Success? && r.value !in old(db.steps)
              && db.steps == old(db.steps)[r.value := StepRow(pipelineId, agentId, order, config)]
  {
    if pipelineId !in db.pipelines {
      return Failure(PipelineNotFound);
    }
    if agentId !in db.agents {
      return Failure(AgentNotFound);
    }
    var id := db.InsertStep(StepRow(pipelineId, agentId, order, config));
    r := Success(id);
  }

  /** `execute_pipeline`: only an active pipeline accepts a request, which
      is recorded as one pending execution; no step runs. */
  method ExecutePipeline(db: Db, ctx: Ctx, pipelineId: nat, inputData: Obj) returns (r: Result<nat>)
    requires db.Valid()
    modifies db`executions, db`nextExecutionId, db`auditLog, db`nextAuditId
    ensures db.Valid()
    ensures pipelineId !in db.pipelines ==> r == Failure(PipelineNotFound) && unchanged(db)
    ensures pipelineId in db.pipelines && db.pipelines[pipelineId].status != PipelineActive ==>
              r == Failure(HttpError(400, "Pipeline is not active")) && unchanged(db)
    ensures pipelineId in db.pipelines && db.pipelines[pipelineId].status == PipelineActive ==>
              && r.Success? && r.value !in old(db.executions)
              && db.executions == old(db.executions)[r.value :=
                   ExecutionRow(pipelineId, ExecutionPending, Some(inputData), None, None, Some(ctx.now), None, ctx.now)]
              && db.auditLog == old(db.auditLog) + Recorded(db.auditEnabled,
                   ChangeEntry(old(db.nextAuditId), ctx, "execute", "pipeline", pipelineId,
                               Some(Single("execution_id", PyInt(r.value)))))
  {
    if pipelineId !in db.pipelines {
      return Failure(PipelineNotFound);
    }
    if db.pipelines[pipelineId].status != PipelineActive {
      return Failure(HttpError(400, "Pipeline is not active"));
    }
    var id := db.InsertExecution(
      ExecutionRow(pipelineId, ExecutionPending, Some(inputData), None, None, Some(ctx.now), None, ctx.now));
    var _ := Log(db, Some(ctx.actor), "execute", "pipeline", Some(pipelineId),
                 Some(Single("execution_id", PyInt(id))), Some(ctx.ip), ctx.userAgent, "success", ctx.now);
    r := Success(id);
  }

  /** An execution row belongs to the pipeline. */
  function OfPipeline(pipelineId: nat): ((nat, ExecutionRow)) -> bool {
    (e: (nat, ExecutionRow)) => e.1.pipelineId == pipelineId
  }

  function ExecutionCreatedAt(e: (nat, ExecutionRow)): int { e.1.createdAt }

  /** The ids of the pipeline's executions. */
  ghost function ExecutionIds(db: Db, pipelineId: nat): set<nat>
    reads db
  {
    set id | id in db.executions && id < db.nextExecutionId && db.executions[id].pipelineId == pipelineId
  }

  /** `list_pipeline_executions`: the pipeline's executions, newest first,
      the window of at most `limit` of them after skipping `skip`; all of
      them when the first page has room for every one. */
  function ListPipelineExecutions(db: Db, pipelineId: nat, skip: nat, limit: nat): (r: seq<(nat, ExecutionRow)>)
    reads db
    ensures |r| == Window(|ExecutionIds(db, pipelineId)|, skip, limit)
    ensures forall e :: e in r ==> e.0 in db.executions && e.1 == db.executions[e.0] && e.1.pipelineId == pipelineId
    ensures forall i, j :: 0 <= i < j < |r| ==> r[i].1.createdAt >= r[j].1.createdAt
    ensures skip == 0 && |ExecutionIds(db, pipelineId)| <= limit ==>
              forall id :: id in ExecutionIds(db, pipelineId) ==> (id, db.executions[id]) in r
  {
    WhereRowsCount(db.executions, db.nextExecutionId, OfPipeline(pipelineId));
    assert IdsWhere(db.executions, db.nextExecutionId, OfPipeline(pipelineId)) == ExecutionIds(db, pipelineId);
    var r := Listing(Rows(db.executions, db.nextExecutionId), OfPipeline(pipelineId), ExecutionCreatedAt, skip, limit);
    assert forall i, j :: 0 <= i < j < |r| ==> ExecutionCreatedAt(r[i]) >= ExecutionCreatedAt(r[j]);
    r
  }

  /** Paging through a pipeline's executions neither skips nor repeats one. */
  lemma ListPipelineExecutionsTile(db: Db, pipelineId: nat, skip: nat, a: nat, b: nat)
    ensures ListPipelineExecutions(db, pipelineId, skip, a) + ListPipelineExecutions(db, pipelineId, skip + a, b)
              == ListPipelineExecutions(db, pipelineId, skip, a + b)
  {
    ListingsTile(Rows(db.executions, db.nextExecutionId), OfPipeline(pipelineId), ExecutionCreatedAt, skip, a, b);
  }
}
