# interfaceAgent core, modelled in Dafny

interfaceAgent is a FastAPI service. Operators register data-processing
*agents*, compose them into *pipelines*, and request pipeline
executions. Every state-changing request is written to an audit log,
events go through a RabbitMQ/Redis event bus, and personal data in text
can be masked. This project models the deterministic core of that
service and proves properties of the model:

- **Agents** (`base_agent.dfy`): the agent object and its status
  lifecycle, and the `execute` of the four built-in agents (validator,
  analyzer, enricher, transformer). These work on Python dicts, which are
  modelled with their key order (`py_values.dfy`).
- **Registry and plugins** (`registry.dfy`, `plugin_loader.dfy`): the
  name-to-class table seeded with the built-ins, and plugin loading.
  Plugin loading walks the names `dir(module)` lists, in alphabetical
  order and including classes the module imports. It takes the first
  subclass of `BaseAgent` other than `BaseAgent` itself, registers it,
  then instantiates it.
- **Event bus** (`event_bus.dfy`): publishing stores a pending event row
  and sends a message. A subscription appends a handler. A delivery is
  skipped when its id is already marked processed. Otherwise the handlers
  run in order, and the event ends as completed, or as failed with one
  more retry.
- **Audit logger** (`audit.dfy`): one entry appended per call while
  auditing is enabled, and the fixed action names of the helpers.
- **REST endpoints** over an in-memory database (`store.dfy`,
  `models.dfy`):
  - agents (`agents_api.dfy`), pipelines (`pipelines_api.dfy`), and
    users/roles/permissions (`admin_api.dfy`): uniqueness checks, 404s,
    initial statuses, "only the supplied fields change", the active-only
    gate on execution, idempotent role assignment;
  - audit-log queries (`audit_logs_api.dfy`): filter, order, page and
    distinct values, with `WHERE`/`ORDER BY`/`OFFSET`/`LIMIT` in
    `query.dfy`.
- **Authentication and authorisation dependencies** (`deps.dfy`): the
  current user from a token's `sub` claim, the active and superuser
  checks, and the role-based permission check.
- **PII redaction** (`pii.dfy`): the guard paths of `detect_pii` and
  `redact_pii`, and the field selection and copy semantics of
  `redact_dict`. The recogniser and the anonymiser are given functions.
- **Settings** (`config.dfy`, `py_text.dfy`): the comma-separated lists
  `allowed_origins_list` and `pii_entities_list`, built on models of
  Python's `str.split`, `str.strip`, `str()` and `int()`.

How the model is built:

- HTTP errors are `Failure(HttpError(status, detail))` results.
- Python exceptions are `Raised(exc)` outcomes.
- The database is one `Db` object. It holds:
  - a map from id to row for each table, with autoincrement counters;
  - the unique columns of the schema as an invariant;
  - an append-only audit log.
- An update that would break a unique column makes the commit fail. The
  request then ends in a bare 500, and nothing changes.
- Every pipeline step names an existing pipeline and agent, and every
  execution an existing pipeline: the columns are non-null foreign keys,
  and this is part of the database invariant. Deleting an agent or a
  pipeline that such a row still names makes the commit fail, with a
  bare 500 and the row kept.
- Endpoints receive the caller's id and the request facts (client host,
  user agent, time) as a `Ctx`.

Where the code and the system's specification disagree, the model
follows the code:

- `delete_agent` and `delete_pipeline` do not look for steps or
  executions that still name the row. The delete's commit then fails and
  the request ends in a 500. The "delete" audit entry is committed before
  the delete, so it stays.
- `execute_pipeline` runs no step. It only records one pending execution.
- `publish` stores the event row before it sends the message. The
  processed mark is set only after every handler has succeeded, not on
  receipt.
- A plugin whose constructor raises stays registered. Registration
  happens before instantiation.

## Model

| member | source | states |
|---|---|---|
| PyText.Strip | backend/app/core/config.py:42 | `strip()` yields the contiguous middle of the string with only whitespace around it; the result neither starts nor ends with whitespace |
| PyText.StripIdempotent | backend/app/core/config.py:42 | stripping a stripped string changes nothing |
| PyText.Split | backend/app/core/config.py:42 | `split(",")` yields one piece more than there are commas, and no piece holds a comma |
| PyText.JoinSplit | backend/app/core/config.py:42 | joining the pieces of `split` with the separator gives the original string back |
| PyText.SplitJoin | backend/app/core/config.py:42 | splitting a join of separator-free parts gives the parts back, empty parts included |
| PyText.ParseIntToString | backend/app/api/deps.py:34 | `int(str(n)) == n` for every integer, as the token subject written by the login endpoint is read back |
| Config.CommaItems | backend/app/core/config.py:40-42 | item `i` is piece `i` of `split(",")` with its surrounding whitespace stripped: one item per piece (commas + 1, empty pieces kept), none holding a comma or surrounding whitespace |
| Config.CommaItemsJoin | backend/app/core/config.py:40-42 | stripped comma-free items, joined with commas, are read back unchanged and in order |
| Config.AllowedOriginsList | backend/app/core/config.py:40-42 | the origin list is the stripped comma-separated items of the `ALLOWED_ORIGINS` setting, one per piece |
| Config.PiiEntitiesList | backend/app/core/config.py:52-54 | the entity list is the stripped comma-separated items of the `PII_ENTITIES` setting, one per piece |
| Config.DefaultOrigins | backend/app/core/config.py:38-42 | the default setting allows exactly `["http://localhost:3000"]` |
| Config.DefaultPiiEntities | backend/app/core/config.py:49-54 | the default entity list is PERSON, EMAIL, PHONE_NUMBER, CREDIT_CARD, SSN, IP_ADDRESS, in that order |
| BaseAgent.Agent.constructor | backend/app/agents/base_agent.py:13-23 | the config is `{}` when none is given, the name is the class name, the version "1.0.0" and the status "inactive" |
| BaseAgent.Agent.GetMetadata | backend/app/agents/base_agent.py:73-80 | a dict with exactly the keys name, version, status and config, in that order, holding the agent's current values |
| BaseAgent.Agent.ValidateInput | backend/app/agents/base_agent.py:38-48 | the default input check accepts every input |
| BaseAgent.Agent.OnStart | backend/app/agents/base_agent.py:50-52 | the status becomes "active": the metadata dict is the old one with its "status" entry set to "active" |
| BaseAgent.Agent.OnStop | backend/app/agents/base_agent.py:54-56 | the status becomes "inactive": the metadata dict is the old one with its "status" entry set to "inactive" |
| BaseAgent.Agent.ExecuteValidator | backend/app/agents/base_agent.py:86-122 | the rules loop computes exactly `ValidatorResult`: errors accumulated rule by rule, or the exception of the first rule that raises |
| BaseAgent.ValidatorResult | backend/app/agents/base_agent.py:118-122 | a report's `valid` holds exactly when its error list is empty, and its `data` is the input |
| BaseAgent.ValidationStopsAtRaise | backend/app/agents/base_agent.py:91-116 | once a rule raises, later rules do not matter: the whole loop raises the same exception |
| BaseAgent.ValidationSplits | backend/app/agents/base_agent.py:91-116 | the errors for rules `a + b` are those of `a` followed by those of `b`; an exception in `a` wins |
| BaseAgent.MissingFieldRule | backend/app/agents/base_agent.py:95-97 | a rule naming an absent field contributes exactly one "missing" error and no other check |
| BaseAgent.MissingFieldAddsOneError | backend/app/agents/base_agent.py:91-97 | inserting such a rule anywhere adds exactly that one error, in its place |
| BaseAgent.NoRulesIsValid | backend/app/agents/base_agent.py:88-122 | with no rules configured, every input is valid with no errors |
| BaseAgent.RangeBoundsIndependent | backend/app/agents/base_agent.py:109-116 | a range rule ignores non-numbers and reports the lower and the upper bound independently |
| BaseAgent.ValidMeansNoErrors | backend/app/agents/base_agent.py:118-122 | valid if and only if no errors, and the input is echoed |
| BaseAgent.Agent.ExecuteAnalyzer | backend/app/agents/base_agent.py:128-163 | `data_size` is the length of `str(data)`; `fields_count` is the number of keys; there are exactly as many insights as there are kinds present, the missing-data one first and the numeric one last; the missing-data insight exists exactly when some value is None or "" and lists exactly those keys, once each, in the dict's order; the numeric summary exists exactly when some value is a number and lists exactly those keys in the dict's order with their count; the input is echoed |
| BaseAgent.AnalyzerFields | backend/app/agents/base_agent.py:138-158 | the missing-value and numeric key lists list exactly the qualifying keys, each once, in the dict's order, and are non-empty exactly when some value qualifies |
| BaseAgent.InsightsDescribeData | backend/app/agents/base_agent.py:138-158 | each insight of the list the analyser builds describes the input, and its key list is the comprehension over the dict's keys |
| PyValues.KeysWhereInOrder | backend/app/agents/base_agent.py:139-155 | a comprehension over a dict keeps the dict's key order: any two keys it lists appear in the dict in the same order |
| BaseAgent.NumericCountIsNumberOfNumericFields | backend/app/agents/base_agent.py:150-158 | the numeric summary's count equals the number of numeric fields of the input |
| BaseAgent.Agent.ExecuteEnricher | backend/app/agents/base_agent.py:169-188 | the rules loop computes exactly `EnricherResult`: a copy with `_enrichment` set, then each rule applied in order, or the first exception |
| BaseAgent.EnrichStopsAtRaise | backend/app/agents/base_agent.py:181-186 | once a rule raises, the whole enrichment raises the same exception |
| BaseAgent.ApplyEnrichRuleEffect | backend/app/agents/base_agent.py:183-186 | one rule sets its field to its value when both are truthy, and changes nothing else |
| BaseAgent.EnrichKeys | backend/app/agents/base_agent.py:181-186 | the enriched keys are the base keys plus the fields of the rules that add one |
| BaseAgent.EnrichKeeps | backend/app/agents/base_agent.py:181-186 | a base key that no rule sets keeps its value |
| BaseAgent.EnrichLastWins | backend/app/agents/base_agent.py:181-186 | a key set by several rules holds the value of the last one |
| BaseAgent.EnricherOutput | backend/app/agents/base_agent.py:171-188 | the output keys are the input keys, `_enrichment` and the rule fields; untouched input values are kept; `_enrichment` holds name, version and time unless a rule overwrites it |
| BaseAgent.Agent.ExecuteTransformer | backend/app/agents/base_agent.py:194-210 | the two loops compute exactly `TransformerResult` (mapping in `mappings` order, then the optional copy of unmapped keys) |
| BaseAgent.ApplyMappings | backend/app/agents/base_agent.py:199-202 | the mapping loop computes exactly `MapFields` over all of `mappings`, raising where a target cannot be a key |
| BaseAgent.CopyUnmappedKeys | backend/app/agents/base_agent.py:205-208 | the copy loop computes exactly `CopyUnmapped` over all input keys |
| BaseAgent.MapFieldsStopsAtRaise | backend/app/agents/base_agent.py:199-202 | once a mapping raises, the mapping loop raises the same exception |
| BaseAgent.MapFieldsKeys | backend/app/agents/base_agent.py:199-202 | after mapping, a key is present exactly when some mapping whose source is in the input targets it |
| BaseAgent.MapFieldsLastWins | backend/app/agents/base_agent.py:199-202 | a target holds the input value of the last applying mapping's source |
| BaseAgent.CopyUnmappedKeysAdded | backend/app/agents/base_agent.py:205-208 | the copy adds exactly the input keys that are neither mapping sources nor present yet |
| BaseAgent.CopyUnmappedKeeps | backend/app/agents/base_agent.py:205-208 | the copy keeps every key already present with its value |
| BaseAgent.CopyUnmappedCopies | backend/app/agents/base_agent.py:205-208 | every key the copy adds holds its input value |
| BaseAgent.TransformerOutput | backend/app/agents/base_agent.py:196-210 | each applying mapping's target holds its source's value; without `copy_unmapped` the keys are exactly the targets; with it, every unmapped non-target input key is copied and nothing else is added |
| Registry.AgentRegistry.constructor | backend/app/agents/registry.py:11-20 | a new registry lists exactly validator, analyzer, enricher and transformer, bound to the built-in classes |
| Registry.AgentRegistry.Register | backend/app/agents/registry.py:22-30 | the name is bound to the class, silently replacing an earlier binding, and every other binding is unchanged |
| Registry.AgentRegistry.GetAgentClass | backend/app/agents/registry.py:32-42 | the class bound to the name, or None exactly when the name is unregistered |
| Registry.AgentRegistry.CreateAgent | backend/app/agents/registry.py:44-58 | None for an unregistered name; otherwise a fresh instance of the bound class with the given config (or the constructor's exception) |
| Registry.AgentRegistry.ListAgents | backend/app/agents/registry.py:60-62 | each registered name exactly once |
| PluginLoader.FirstAgentClass | backend/app/agents/plugin_loader.py:41-46 | the first module member that is a `BaseAgent` subclass other than `BaseAgent`, or None exactly when there is none |
| PluginLoader.PluginLoader.constructor | backend/app/agents/plugin_loader.py:19-20 | no plugin is loaded |
| PluginLoader.PluginLoader.LoadPlugin | backend/app/agents/plugin_loader.py:22-66 | every failure yields None; without an agent class nothing changes; otherwise the class is registered first, and only if the constructor succeeds is the plugin recorded with module path, class and the returned fresh instance |
| PluginLoader.PluginLoader.UnloadPlugin | backend/app/agents/plugin_loader.py:68-76 | removes only that name; no-op when absent |
| PluginLoader.PluginLoader.ListLoadedPlugins | backend/app/agents/plugin_loader.py:78-80 | exactly the loaded names, each once |
| EventBus.Bus.constructor | backend/app/services/event_bus.py:25-30 | no handlers, no events, nothing sent or processed |
| EventBus.Bus.Publish | backend/app/services/event_bus.py:63-97 | stores a new pending event and sends one message carrying its id, with the event type as routing key; returns that id |
| EventBus.Bus.Subscribe | backend/app/services/event_bus.py:99-111 | appends the handler after the type's earlier handlers and starts a consumer on `queue_<type>` |
| EventBus.Bus.ProcessMessage | backend/app/services/event_bus.py:113-149 | an already-processed id runs nothing and changes nothing; otherwise the handlers run in subscription order up to the first that raises; only full success sets the processed mark and completes the event; a failure marks it failed with one more retry; a missing row is left alone |
| EventBus.Bus.MarkCompleted | backend/app/services/event_bus.py:128-138 | sets the processed-mark and completes a stored event at the given time, keeping the bus invariant; a missing row is left alone |
| EventBus.Bus.MarkFailed | backend/app/services/event_bus.py:140-148 | marks a stored event failed with one more retry, keeping the bus invariant; a missing row is left alone |
| Audit.Log | backend/app/services/audit.py:19-50 | returns None exactly when auditing is off; otherwise appends one entry with the given fields, missing details stored as `{}` |
| Audit.LogLogin | backend/app/services/audit.py:52-69 | records "login" on "auth", with status "success" or "failure" from the flag |
| Audit.LogLogout | backend/app/services/audit.py:71-86 | records "logout" on "auth" with status "success" |
| Audit.LogChange | backend/app/services/audit.py:88-152 | appends the change entry when auditing is on |
| Audit.LogCreate | backend/app/services/audit.py:88-108 | records action "create", details passed through |
| Audit.LogUpdate | backend/app/services/audit.py:110-130 | records action "update", details passed through |
| Audit.LogDelete | backend/app/services/audit.py:132-152 | records action "delete", details passed through |
| Query.Where | backend/app/api/audit_logs.py:51-58 | keeps exactly the rows satisfying the condition, with their multiplicities, none added |
| Query.SortDesc | backend/app/api/audit_logs.py:61 | a descending ordering that is a permutation of the rows |
| Query.Page | backend/app/api/audit_logs.py:64 | exactly the window `OFFSET skip LIMIT limit` leaves: as many rows as remain after `skip`, at most `limit`, row `i` being input row `skip + i` |
| Query.PagesTile | backend/app/api/audit_logs.py:64 | two consecutive pages together are the page spanning both |
| Query.OrderedPagesTile | backend/app/api/audit_logs.py:61-64 | two consecutive ordered pages together are the ordered page spanning both: paging neither skips nor repeats a row |
| Query.ListingsTile | backend/app/api/pipelines.py:351-357 | the same for a filtered listing |
| Query.RowsCount | backend/app/api/agents.py:55 | a table has exactly one row below the id counter per id below it |
| Query.WhereRowsCount | backend/app/api/pipelines.py:351-353 | filtering a table's rows keeps exactly one row per id whose row meets the condition |
| Query.OrderedPage | backend/app/api/audit_logs.py:61-64 | as many rows as the window leaves of the input, row `i` being row `skip + i` of the descending order; all rows of the input, in descending order; with no skip and room enough, all of them |
| Query.Listing | backend/app/api/pipelines.py:351-357 | as many rows as the window leaves of the rows satisfying the condition; only such rows, in descending order; with no skip and room for every match, every such row |
| Query.PageOfRows | backend/app/api/agents.py:55 | an `OFFSET`/`LIMIT` page of a table holds as many rows as the window leaves of the table's ids, row `i` being the table's row `skip + i` in id order, each a row of the table, ids increasing |
| AgentsApi.ListAgents | backend/app/api/agents.py:47-57 | the window of the agent table in id order: as many agents as remain after `skip`, at most `limit`, the `i`-th being the table's agent `skip + i` |
| AgentsApi.CreateAgent | backend/app/api/agents.py:60-101 | a taken name is 400 with no change; otherwise a new agent, inactive, not a plugin, version "1.0.0" unless given, and one "create" entry with name and type |
| AgentsApi.GetAgent | backend/app/api/agents.py:104-120 | the agent, or 404 exactly when the id is unknown |
| AgentsApi.ApplyUpdate | backend/app/api/agents.py:142-144 | the `setattr` loop changes exactly the supplied fields |
| AgentsApi.UpdateDataApplied | backend/app/api/agents.py:142-144 | applying the supplied fields one by one yields the row with those fields replaced and all others kept |
| AgentsApi.Updated | backend/app/api/agents.py:142-144 | fields that were not supplied, and type, version and plugin columns, are kept |
| AgentsApi.UpdateAgent | backend/app/api/agents.py:123-160 | unknown id is 404; a name held by another agent fails the commit (500) with no change; otherwise only the supplied fields change and one "update" entry is recorded |
| AgentsApi.DeleteAgent | backend/app/api/agents.py:163-194 | unknown id is 404 with no change; otherwise the "delete" entry with the name is recorded; while a pipeline step names the agent the commit fails (500) and the agent stays, else only that agent is removed |
| AgentsApi.SwitchStatus | backend/app/api/agents.py:197-264 | sets the status and nothing else, idempotently, and logs the switch even when nothing changed |
| AgentsApi.ActivateAgent | backend/app/api/agents.py:197-229 | 404 for an unknown id; otherwise the status becomes active and an "activate" update is logged |
| AgentsApi.DeactivateAgent | backend/app/api/agents.py:232-264 | 404 for an unknown id; otherwise the status becomes inactive and a "deactivate" update is logged |
| AgentsApi.ListAvailableAgents | backend/app/api/agents.py:267-274 | exactly the registry's names, each once |
| PipelinesApi.ApplyUpdate | backend/app/api/pipelines.py:186-188 | the `setattr` loop changes exactly the supplied fields |
| PipelinesApi.UpdateDataApplied | backend/app/api/pipelines.py:186-188 | applying the supplied fields one by one yields the row with those fields replaced and all others kept |
| PipelinesApi.Updated | backend/app/api/pipelines.py:186-188 | fields that were not supplied are kept |
| PipelinesApi.View | backend/app/api/pipelines.py:146-164 | the pipeline with exactly its steps, ordered by step order |
| PipelinesApi.ListPipelines | backend/app/api/pipelines.py:89-101 | the window of the pipeline table in id order (as many as remain after `skip`, at most `limit`, the `i`-th being the table's pipeline `skip + i`), each pipeline with exactly its steps as `get_pipeline` shows them |
| PipelinesApi.CreatePipeline | backend/app/api/pipelines.py:104-143 | a taken name is 400 with no change; otherwise a new DRAFT pipeline with the given fields and one "create" entry |
| PipelinesApi.GetPipeline | backend/app/api/pipelines.py:146-164 | 404 exactly when the id is unknown; otherwise the pipeline's row with its steps, as every view shows them |
| PipelinesApi.UpdatePipeline | backend/app/api/pipelines.py:167-204 | unknown id is 404; a name held by another pipeline fails the commit (500) with no change; otherwise only the supplied fields change and one "update" entry is recorded |
| PipelinesApi.DeletePipeline | backend/app/api/pipelines.py:207-238 | unknown id is 404 with no change; otherwise the "delete" entry is recorded; while a step or an execution names the pipeline the commit fails (500) and the pipeline stays, else only that pipeline is removed |
| Store.Db.DeleteAgent | backend/app/models/agent.py:73-80 | the commit of an agent's delete succeeds exactly when no step names it, and then removes only that agent; the no-dangling-reference invariant is kept |
| Store.Db.DeletePipeline | backend/app/models/agent.py:64-106 | the commit of a pipeline's delete succeeds exactly when no step or execution names it, and then removes only that pipeline; the invariant is kept |
| PipelinesApi.AddPipelineStep | backend/app/api/pipelines.py:241-282 | 404 for a missing pipeline, then for a missing agent, adding nothing; otherwise one step with the given order, not checked for uniqueness |
| PipelinesApi.ExecutePipeline | backend/app/api/pipelines.py:285-339 | 404 for a missing pipeline and 400 for a non-active one, creating nothing; otherwise exactly one PENDING execution with the input and an "execute" entry; no step runs |
| PipelinesApi.ListPipelineExecutions | backend/app/api/pipelines.py:342-359 | as many of the pipeline's executions as the window leaves, only that pipeline's, newest first; with no skip and room for all, every one of them |
| PipelinesApi.ListPipelineExecutionsTile | backend/app/api/pipelines.py:351-357 | consecutive pages of a pipeline's executions together are the page spanning both |
| AdminApi.ListUsers | backend/app/api/admin.py:87-97 | the window of the user table in id order: as many users as remain after `skip`, at most `limit`, the `i`-th being the table's user `skip + i` |
| AdminApi.CreateUser | backend/app/api/admin.py:100-149 | a taken username is 400, then a taken email is 400, both with no change; otherwise a new user with the hashed password and no roles, and one "create" entry |
| AdminApi.ApplyUpdate | backend/app/api/admin.py:170-173 | the `setattr` loop changes exactly the supplied fields |
| AdminApi.UpdateDataApplied | backend/app/api/admin.py:170-173 | applying the supplied fields one by one yields the row with those fields replaced and all others kept |
| AdminApi.Updated | backend/app/api/admin.py:170-173 | fields that were not supplied, and the username, password and roles, are kept |
| AdminApi.UpdateUser | backend/app/api/admin.py:152-189 | unknown id is 404; an email held by another user fails the commit (500) with no change; otherwise only the supplied fields change and one "update" entry is recorded |
| AdminApi.WithRole | backend/app/api/admin.py:222-223 | the role is present afterwards, nothing else is added, no role is listed twice, and an already-held role leaves the list unchanged |
| AdminApi.WithRoleIdempotent | backend/app/api/admin.py:222-223 | assigning a role twice is assigning it once |
| AdminApi.AssignRole | backend/app/api/admin.py:192-239 | 404 for a missing user, then for a missing role; otherwise the role is added once and an "assign_role" entry is recorded even when it was already held |
| AdminApi.ListRoles | backend/app/api/admin.py:243-253 | the window of the role table in id order: as many roles as remain after `skip`, at most `limit`, the `i`-th being the table's role `skip + i` |
| AdminApi.CreateRole | backend/app/api/admin.py:256-292 | a taken name is 400 with no change; otherwise a new role and one "create" entry |
| AdminApi.AddPermission | backend/app/api/admin.py:295-335 | 404 for a missing role; otherwise a new permission with that role, resource and action, duplicates allowed, and one "create" entry |
| AdminApi.ListRolePermissions | backend/app/api/admin.py:338-347 | exactly the permissions of that role; an unknown role has none |
| AuditLogsApi.FilteredMatches | backend/app/api/audit_logs.py:51-58 | the filters keep exactly the entries that meet every supplied filter; empty strings and user id 0 filter nothing |
| AuditLogsApi.FilteredSub | backend/app/api/audit_logs.py:51-58 | filtering only drops entries |
| AuditLogsApi.ListAuditLogs | backend/app/api/audit_logs.py:36-68 | as many entries as the window leaves of the entries meeting the filters, only such entries, newest first; with no skip and room for every match, all of them |
| AuditLogsApi.ListAuditLogsTile | backend/app/api/audit_logs.py:61-64 | consecutive pages of the audit listing together are the page spanning both |
| AuditLogsApi.FindEntry | backend/app/api/audit_logs.py:78-79 | an entry with the id, or None exactly when there is none |
| AuditLogsApi.GetAuditLog | backend/app/api/audit_logs.py:71-89 | the entry with the id, or 404 exactly when there is none |
| AuditLogsApi.GetAuditLogUnique | backend/app/api/audit_logs.py:71-89 | ids are unique, so the entry returned is the one with that id |
| AuditLogsApi.ListActions | backend/app/api/audit_logs.py:92-102 | each recorded action exactly once |
| AuditLogsApi.ListResourceTypes | backend/app/api/audit_logs.py:105-115 | each recorded resource type exactly once |
| Deps.IntOf | backend/app/api/deps.py:34 | Python `int()`: integers as they are, booleans 0/1, floats truncated toward zero, strings parsed (or ValueError), anything else TypeError |
| Deps.GetCurrentUser | backend/app/api/deps.py:18-49 | in this order: no subject is 401, an unconvertible subject 500, an unknown user 404, an inactive user 400; succeeds exactly for an existing active user, with that id |
| Deps.TokenOfUser | backend/app/api/deps.py:18-49 | a token whose subject is `str(id)` of an active user authenticates exactly that user |
| Deps.GetCurrentActiveUser | backend/app/api/deps.py:52-61 | 400 exactly for an inactive user, the user otherwise |
| Deps.ActiveCheckRedundant | backend/app/api/deps.py:52-61 | after `get_current_user` succeeds, the active check never refuses |
| Deps.GetCurrentSuperuser | backend/app/api/deps.py:64-73 | 403 exactly for a non-superuser, the user otherwise |
| Deps.RolePermissions | backend/app/api/deps.py:94-95 | exactly the permission rows of the role |
| Deps.RoleAllows | backend/app/api/deps.py:94-97 | true exactly when some permission of the role matches both resource and action |
| Deps.CheckPermission | backend/app/api/deps.py:76-102 | succeeds exactly for a superuser or a user one of whose roles holds a matching permission; 403 naming the action and resource otherwise |
| Pii.Slice | backend/app/services/pii_redaction.py:40 | Python `text[start:end]`: the in-range slice, negative bounds from the end, empty for an empty range |
| Pii.PiiService.DetectPii | backend/app/services/pii_redaction.py:23-43 | nothing when redaction is off or the text empty; otherwise one entry per finding, whose text is the slice between its start and end |
| Pii.PiiService.RedactPii | backend/app/services/pii_redaction.py:45-64 | the text unchanged when redaction is off or the text empty |
| Pii.PiiService.RedactFields | backend/app/services/pii_redaction.py:77-79 | same keys in the same order; unlisted and non-string entries unchanged; strings stay strings |
| Pii.PiiService.RedactFieldsListedOnce | backend/app/services/pii_redaction.py:77-79 | a string field listed once is redacted exactly once |
| Pii.FieldsToCheck | backend/app/services/pii_redaction.py:74-75 | the given list, or by default exactly the string-valued keys, each once |
| Pii.PiiService.RedactDict | backend/app/services/pii_redaction.py:66-81 | with redaction off, the input itself; otherwise a dict with the same keys where exactly the listed, present string fields are redacted, and by default every string field once |
| Pii.PiiService.RedactEach | backend/app/services/pii_redaction.py:71-79 | the loop over the fields, on a copy of the input, computes exactly `RedactFields` |
| Pii.PiiService.RedactFieldsEveryString | backend/app/services/pii_redaction.py:74-79 | with the default field list, every string field is redacted, and redacted once |

## Left out

- Anomaly detection, the authentication endpoints (login, token refresh), application start-up and the seeding script are not part of this model.
- Token decoding and signature checks (`app.core.security`) are not part of this model. `Deps.GetCurrentUser` starts from the `sub` claim.
- The FastAPI dependency plumbing is left out. `GetCurrentActiveUser`, `GetCurrentSuperuser`, `CheckPermission` and every endpoint take the current user's id, as the dependency would supply it.
- Deps.CheckPermission: takes the user's roles and the roles' permissions as already loaded. In the source, for a user who is not a superuser, `current_user.roles` and `role.permissions` are lazy relationships read on an `AsyncSession`, where such a load raises (`MissingGreenlet`) instead of querying; the model does not capture that failure.
- Async execution, sessions and clocks are left out. Timestamps are parameters (`now`, `Ctx.now`). `created_at`/`updated_at` are kept only where a listing orders by them.
- Ties in `created_at`: the SQL order of equal keys is unspecified; the model keeps the table's id order among them.
- Listings without `ORDER BY` are modelled in id order, and `SELECT DISTINCT` in order of first occurrence. The database does not promise either order.
- A negative `skip` or `limit` is not modelled: they are naturals.
- The event bus's broker and cache mechanics are left out: connecting, queue declaration and QoS, JSON encoding, the 24-hour expiry of the processed mark, and the race between two consumers of one message. Handlers are identifiers, and whether a handler raises is a parameter.
- A message whose JSON carries no `event_id` is not modelled; ids are naturals.
- Registry.AgentRegistry.CreateAgent: a plugin class may define its own `__init__`. The model takes every agent constructor to be `BaseAgent`'s (backend/app/agents/base_agent.py:36-47): it either raises, or sets name, version, status and config as that constructor does.
- PluginLoader.PluginLoader.LoadPlugin: the instance it records is built under the same assumption, by `BaseAgent`'s constructor or by one that raises.
- BaseAgent.Agent.ExecuteAnalyzer: `data_size` is stated as the length of `str(data)` for a given `str` function; the model does not define Python's rendering of dicts, lists and floats.
- Floats are exact reals; NaN and infinities are not modelled.
- Dict keys that are not strings (a rule's `add_field` or a mapping target that is a number) end in `Raised(NonStringKey)`; Python would store them.
- `Deps.IntOf`: `int()` of a string with underscores or non-ASCII digits is treated as a `ValueError`.
- `BaseAgent`'s `on_error` hook does nothing and is not modelled.
- `Pii.PiiService.RedactPii`: states only the disabled and empty cases. The masking itself is what the anonymiser library does, and the model takes that library as a given function.
- `Pii.PiiService.DetectPii`: the recogniser is a given function; the model states nothing about which spans it finds.
- `Pii.PiiService.RedactDict`: with redaction off, Python returns the very same dict object. The model returns an equal value and cannot express the aliasing.
- Password hashing is a function parameter of `AdminApi.CreateUser`.
- The `Email` format check of the request models and an explicit JSON `null` for a non-nullable field in an update request are not modelled.
- `UpdateDetails` (the dict of supplied fields stored in the audit entry) has no contract of its own. It is the value the update endpoints record.
- How the ORM fails a delete whose row is still named (it tries to clear the children's foreign keys to null) is modelled by its outcome only: a failed commit and a 500.
- Settings other than the origins, the PII entities, the mask character and the two feature flags are not modelled.
- `request.client` being absent is not modelled: every request has a client host.
