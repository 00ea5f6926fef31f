/**
 * The rows of the relational schema that the endpoints read and write,
 * and the enumerations their status columns take. Ids are the tables'
 * autoincrement primary keys; `created_at`/`updated_at` are kept only
 * where an endpoint orders by them.
 */
module Models {
  import opened PyValues

  datatype AgentStatus = AgentActive | AgentInactive | AgentError | AgentMaintenance

  datatype AgentType = ValidatorType | AnalyzerType | EnricherType | TransformerType | CustomType

  datatype PipelineStatus = Draft | PipelineActive | Paused | Archived

  datatype ExecutionStatus = ExecutionPending | Running | Succeeded | ExecutionFailed | Cancelled

  /** The string value of each enumeration member (what JSON columns store). */
  function AgentStatusValue(s: AgentStatus): string {
    match s
    case AgentActive => "active"
    case AgentInactive => "inactive"
    case AgentError => "error"
    case AgentMaintenance => "maintenance"
  }

  function AgentTypeValue(t: AgentType): string {
    match t
    case ValidatorType => "validator"
    case AnalyzerType => "analyzer"
    case EnricherType => "enricher"
    case TransformerType => "transformer"
    case CustomType => "custom"
  }

  function PipelineStatusValue(s: PipelineStatus): string {
    match s
    case Draft => "draft"
    case PipelineActive => "active"
    case Paused => "paused"
    case Archived => "archived"
  }

  datatype AgentRow = AgentRow(name: string, description: Option<string>, agentType: AgentType,
                               status: AgentStatus, config: Obj, version: string, isPlugin: bool,
                               pluginModule: Option<string>)

  datatype PipelineRow = PipelineRow(name: string, description: Option<string>,
                                     status: PipelineStatus, config: Obj)

  datatype StepRow = StepRow(pipelineId: nat, agentId: nat, order: int, config: Obj)

  datatype ExecutionRow = ExecutionRow(pipelineId: nat, status: ExecutionStatus,
                                       inputData: Option<Obj>, outputData: Option<Obj>,
                                       errorMessage: Option<string>, startedAt: Option<int>,
                                       completedAt: Option<int>, createdAt: int)

  /** A user; `roles` is the user's side of the `user_roles` association,
      in the order the roles were added. */
  datatype UserRow = UserRow(username: string, email: string, hashedPassword: string,
                             fullName: Option<string>, isActive: bool, isSuperuser: bool,
                             roles: seq<nat>)

  datatype RoleRow = RoleRow(name: string, description: Option<string>)

  datatype PermissionRow = PermissionRow(roleId: nat, resource: string, action: string)

  datatype AuditEntry = AuditEntry(id: nat, userId: Option<nat>, action: string, resourceType: string,
                                   resourceId: Option<nat>, details: Obj, ipAddress: Option<string>,
                                   userAgent: Option<string>, status: string, createdAt: int)

  /** The unique columns of the schema. */
  function AgentName(a: AgentRow): string { a.name }
  function PipelineName(p: PipelineRow): string { p.name }
  function Username(u: UserRow): string { u.username }
  function Email(u: UserRow): string { u.email }
  function RoleName(r: RoleRow): string { r.name }

  /** What an `HTTPException` carries. */
  datatype HttpError = HttpError(status: nat, detail: string)

  /** What FastAPI answers when an endpoint raises something other than
      an `HTTPException`. */
  const InternalServerError := HttpError(500, "Internal Server Error")

  /** The commit of a row whose unique column clashes with another row's
      fails inside the database, which ends in a bare 500. */
  const UniqueViolation := InternalServerError

  /** Deleting a row that a non-null foreign key of another row names makes
      the commit fail inside the database, which also ends in a bare 500. */
  const ForeignKeyViolation := InternalServerError

  const UserNotFound := HttpError(404, "User not found")

  /** A response body, or the `HTTPException` raised instead. */
  datatype Result<+T> = Success(value: T) | Failure(error: HttpError)

  /** The request facts an endpoint passes on to the audit log: the caller's
      user id, the client host, the `user-agent` header and the time. */
  datatype Ctx = Ctx(actor: nat, ip: string, userAgent: Option<string>, now: int)
}
