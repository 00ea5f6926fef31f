/**
 * The database the endpoints share: one map per table from id to row, the
 * next autoincrement id of each table, and the audit log, which is only
 * ever appended to. `auditEnabled` is the `enable_audit_log` setting.
 */
module Store {
  import opened PyValues
  import opened Models

  /** No two rows of the table carry the same value of the unique column `col`. */
  ghost predicate Unique<T>(m: map<nat, T>, col: T -> string) {
    forall i, j :: i in m && j in m && i != j ==> col(m[i]) != col(m[j])
  }

  /** Every id of the table is positive and below the next id to be issued. */
  ghost predicate IdsBelow<T>(m: map<nat, T>, next: nat) {
    1 <= next && forall id :: id in m ==> 1 <= id < next
  }

  class Db {
    var agents: map<nat, AgentRow>
    var nextAgentId: nat
    var pipelines: map<nat, PipelineRow>
    var nextPipelineId: nat
    var steps: map<nat, StepRow>
    var nextStepId: nat
    var executions: map<nat, ExecutionRow>
    var nextExecutionId: nat
    var users: map<nat, UserRow>
    var nextUserId: nat
    var roles: map<nat, RoleRow>
    var nextRoleId: nat
    var permissions: map<nat, PermissionRow>
    var nextPermissionId: nat
    var auditLog: seq<AuditEntry>
    var nextAuditId: nat
    const auditEnabled: bool

    ghost predicate AgentsValid()
      reads this`agents, this`nextAgentId
    {
      IdsBelow(agents, nextAgentId) && Unique(agents, AgentName)
    }

    ghost predicate PipelinesValid()
      reads this`pipelines, this`nextPipelineId
    {
      IdsBelow(pipelines, nextPipelineId) && Unique(pipelines, PipelineName)
    }

    ghost predicate StepsValid()
      reads this`steps, this`nextStepId
    {
      IdsBelow(steps, nextStepId)
    }

    ghost predicate ExecutionsValid()
      reads this`executions, this`nextExecutionId
    {
      IdsBelow(executions, nextExecutionId)
    }

    ghost predicate UsersValid()
      reads this`users, this`nextUserId
    {
      && IdsBelow(users, nextUserId)
      && Unique(users, Username)
      && Unique(users, Email)
    }

    ghost predicate RolesValid()
      reads this`roles, this`nextRoleId
    {
      IdsBelow(roles, nextRoleId) && Unique(roles, RoleName)
    }

    ghost predicate PermissionsValid()
      reads this`permissions, this`nextPermissionId
    {
      IdsBelow(permissions, nextPermissionId)
    }

    /** Audit entries carry increasing ids, all below the next one. */
    ghost predicate AuditValid()
      reads this`auditLog, this`nextAuditId
    {
      && 1 <= nextAuditId
      && (forall i :: 0 <= i < |auditLog| ==> 1 <= auditLog[i].id < nextAuditId)
      && (forall i, j :: 0 <= i < j < |auditLog| ==> auditLog[i].id < auditLog[j].id)
    }

    /** Every step names an existing pipeline and agent, and every
        execution an existing pipeline (the non-null foreign keys). */
    ghost predicate RefsValid()
      reads this`agents, this`pipelines, this`steps, this`executions
    {
      && (forall sid :: sid in steps ==> steps[sid].pipelineId in pipelines && steps[sid].agentId in agents)
      && (forall eid :: eid in executions ==> executions[eid].pipelineId in pipelines)
    }

    /** Ids are fresh, the schema's unique columns hold and no row names a
        missing one. */
    ghost predicate Valid()
      reads this
    {
      && AgentsValid() && PipelinesValid() && StepsValid() && ExecutionsValid()
      && UsersValid() && RolesValid() && PermissionsValid() && AuditValid()
      && RefsValid()
    }

    /** Adds an agent row under the next id (`session.add` and `commit`). */
    method InsertAgent(row: AgentRow) returns (id: nat)
      requires Valid() && !Taken(agents, AgentName, AgentName(row))
      modifies this`agents, this`nextAgentId
      ensures Valid()
      ensures id == old(nextAgentId) && id !in old(agents)
      ensures agents == old(agents)[id := row]
    {
      InsertKeepsUnique(agents, AgentName, nextAgentId, row);
      id := nextAgentId;
      agents := agents[id := row];
      nextAgentId := nextAgentId + 1;
    }

    /** Writes an updated agent row back and commits: the commit fails, and
        nothing changes, when another row already holds one of the row's
        unique values. */
    method ReplaceAgent(id: nat, row: AgentRow) returns (ok: bool)
      requires Valid() && id in agents
      modifies this`agents
      ensures Valid()
      ensures ok <==> !(TakenByOther(old(agents), AgentName, AgentName(row), id))
      ensures agents == if ok then old(agents)[id := row] else old(agents)
    {
      if TakenByOther(agents, AgentName, AgentName(row), id) {
        return false;
      }
      ReplaceKeepsUnique(agents, AgentName, id, row);
      agents := agents[id := row];
      ok := true;
    }

    /** A pipeline step names the agent. */
    predicate StepNamesAgent(id: nat)
      reads this`steps
    {
      exists sid :: sid in steps && steps[sid].agentId == id
    }

    /** Removes an agent row (`session.delete` and `commit`): the commit
        fails, and nothing changes, while a step still names the agent,
        since the step's foreign key may not be cleared to null. */
    method DeleteAgent(id: nat) returns (ok: bool)
      requires Valid()
      modifies this`agents
      ensures Valid()
      ensures ok <==> !StepNamesAgent(id)
      ensures agents == if ok then old(agents) - {id} else old(agents)
    {
      if StepNamesAgent(id) {
        return false;
      }
      agents := agents - {id};
      ok := true;
    }

    /** Adds a pipeline row under the next id (`session.add` and `commit`). */
    method InsertPipeline(row: PipelineRow) returns (id: nat)
      requires Valid() && !Taken(pipelines, PipelineName, PipelineName(row))
      modifies this`pipelines, this`nextPipelineId
      ensures Valid()
      ensures id == old(nextPipelineId) && id !in old(pipelines)
      ensures pipelines == old(pipelines)[id := row]
    {
      InsertKeepsUnique(pipelines, PipelineName, nextPipelineId, row);
      id := nextPipelineId;
      pipelines := pipelines[id := row];
      nextPipelineId := nextPipelineId + 1;
    }

    /** Writes an updated pipeline row back and commits: the commit fails, and
        nothing changes, when another row already holds one of the row's
        unique values. */
    method ReplacePipeline(id: nat, row: PipelineRow) returns (ok: bool)
      requires Valid() && id in pipelines
      modifies this`pipelines
      ensures Valid()
      ensures ok <==> !(TakenByOther(old(pipelines), PipelineName, PipelineName(row), id))
      ensures pipelines == if ok then old(pipelines)[id := row] else old(pipelines)
    {
      if TakenByOther(pipelines, PipelineName, PipelineName(row), id) {
        return false;
      }
      ReplaceKeepsUnique(pipelines, PipelineName, id, row);
      pipelines := pipelines[id := row];
      ok := true;
    }

    /** A pipeline step or an execution names the pipeline. */
    predicate RowNamesPipeline(id: nat)
      reads this`steps, this`executions
    {
      || (exists sid :: sid in steps && steps[sid].pipelineId == id)
      || (exists eid :: eid in executions && executions[eid].pipelineId == id)
    }

    /** Removes a pipeline row (`session.delete` and `commit`): the commit
        fails, and nothing changes, while a step or an execution still names
        the pipeline, since their foreign keys may not be cleared to null. */
    method DeletePipeline(id: nat) returns (ok: bool)
      requires Valid()
      modifies this`pipelines
      ensures Valid()
      ensures ok <==> !RowNamesPipeline(id)
      ensures pipelines == if ok then old(pipelines) - {id} else old(pipelines)
    {
      if RowNamesPipeline(id) {
        return false;
      }
      pipelines := pipelines - {id};
      ok := true;
    }

    /** Adds a step row under the next id (`session.add` and `commit`). */
    method InsertStep(row: StepRow) returns (id: nat)
      requires Valid() && row.pipelineId in pipelines && row.agentId in agents
      modifies this`steps, this`nextStepId
      ensures Valid()
      ensures id == old(nextStepId) && id !in old(steps)
      ensures steps == old(steps)[id := row]
    {
      id := nextStepId;
      steps := steps[id := row];
      nextStepId := nextStepId + 1;
    }

    /** Adds an execution row under the next id (`session.add` and `commit`). */
    method InsertExecution(row: ExecutionRow) returns (id: nat)
      requires Valid() && row.pipelineId in pipelines
      modifies this`executions, this`nextExecutionId
      ensures Valid()
      ensures id == old(nextExecutionId) && id !in old(executions)
      ensures executions == old(executions)[id := row]
    {
      id := nextExecutionId;
      executions := executions[id := row];
      nextExecutionId := nextExecutionId + 1;
    }

    /** Adds a user row under the next id (`session.add` and `commit`). */
    method InsertUser(row: UserRow) returns (id: nat)
      requires Valid() && !Taken(users, Username, Username(row)) && !Taken(users, Email, Email(row))
      modifies this`users, this`nextUserId
      ensures Valid()
      ensures id == old(nextUserId) && id !in old(users)
      ensures users == old(users)[id := row]
    {
      InsertKeepsUnique(users, Username, nextUserId, row);
      InsertKeepsUnique(users, Email, nextUserId, row);
      id := nextUserId;
      users := users[id := row];
      nextUserId := nextUserId + 1;
    }

    /** Writes an updated user row back and commits: the commit fails, and
        nothing changes, when another row already holds one of the row's
        unique values. */
    method ReplaceUser(id: nat, row: UserRow) returns (ok: bool)
      requires Valid() && id in users
      modifies this`users
      ensures Valid()
      ensures ok <==> !(TakenByOther(old(users), Username, Username(row), id) || TakenByOther(old(users), Email, Email(row), id))
      ensures users == if ok then old(users)[id := row] else old(users)
    {
      if TakenByOther(users, Username, Username(row), id) || TakenByOther(users, Email, Email(row), id) {
        return false;
      }
      ReplaceKeepsUnique(users, Username, id, row);
      ReplaceKeepsUnique(users, Email, id, row);
      users := users[id := row];
      ok := true;
    }

    /** Adds a role row under the next id (`session.add` and `commit`). */
    method InsertRole(row: RoleRow) returns (id: nat)
      requires Valid() && !Taken(roles, RoleName, RoleName(row))
      modifies this`roles, this`nextRoleId
      ensures Valid()
      ensures id == old(nextRoleId) && id !in old(roles)
      ensures roles == old(roles)[id := row]
    {
      InsertKeepsUnique(roles, RoleName, nextRoleId, row);
      id := nextRoleId;
      roles := roles[id := row];
      nextRoleId := nextRoleId + 1;
    }

    /** Adds a permission row under the next id (`session.add` and `commit`). */
    method InsertPermission(row: PermissionRow) returns (id: nat)
      requires Valid()
      modifies this`permissions, this`nextPermissionId
      ensures Valid()
      ensures id == old(nextPermissionId) && id !in old(permissions)
      ensures permissions == old(permissions)[id := row]
    {
      id := nextPermissionId;
      permissions := permissions[id := row];
      nextPermissionId := nextPermissionId + 1;
    }

    /** An empty database. */
    constructor (auditEnabled: bool)
      ensures Valid()
      ensures this.auditEnabled == auditEnabled
      ensures agents == map[] && pipelines == map[] && steps == map[] && executions == map[]
      ensures users == map[] && roles == map[] && permissions == map[] && auditLog == []
    {
      agents, pipelines, steps, executions := map[], map[], map[], map[];
      users, roles, permissions, auditLog := map[], map[], map[], [];
      nextAgentId, nextPipelineId, nextStepId, nextExecutionId := 1, 1, 1, 1;
      nextUserId, nextRoleId, nextPermissionId, nextAuditId := 1, 1, 1, 1;
      this.auditEnabled := auditEnabled;
    }
  }

  /** Whether some row's unique column already holds `v`. */
  predicate Taken<T>(m: map<nat, T>, col: T -> string, v: string) {
    exists id :: id in m && col(m[id]) == v
  }

  /** Whether some row other than `self` holds `v`: what makes an update of a
      unique column fail. */
  predicate TakenByOther<T>(m: map<nat, T>, col: T -> string, v: string, self: nat) {
    exists id :: id in m && id != self && col(m[id]) == v
  }

  /** Inserting a row whose unique value is free keeps the column unique. */
  lemma InsertKeepsUnique<T>(m: map<nat, T>, col: T -> string, id: nat, row: T)
    requires Unique(m, col) && id !in m && !Taken(m, col, col(row))
    ensures Unique(m[id := row], col)
  {
  }

  /** A row's own value is never held by another row of a unique column. */
  lemma OwnValueFree<T>(m: map<nat, T>, col: T -> string, id: nat)
    requires Unique(m, col) && id in m
    ensures !TakenByOther(m, col, col(m[id]), id)
  {
  }

  /** Replacing a row keeps the column unique when no other row holds the
      new row's value. */
  lemma ReplaceKeepsUnique<T>(m: map<nat, T>, col: T -> string, id: nat, row: T)
    requires Unique(m, col) && id in m && !TakenByOther(m, col, col(row), id)
    ensures Unique(m[id := row], col)
  {
  }
}
