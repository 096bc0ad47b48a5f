// The entities of panda_trace/models.py and panda_trace/schemas.py. Times are whole seconds.
module Records {
  import opened Base

  datatype Project = Project(id: string, orgId: string)

  datatype Source = Source(id: string, orgId: string, projectId: string)

  datatype Agent = Agent(id: string, orgId: string)

  datatype ApiKey = ApiKey(
    id: string, agentId: string, orgId: string,
    projectIds: seq<string>, sourceIds: seq<string>, revoked: bool)

  // A request's caller: its key and the agent that owns the key.
  datatype Auth = Auth(key: ApiKey, agent: Agent)

  // An exception dictionary without null entries; the empty dictionary has three absent fields.
  datatype ExceptionInfo = ExceptionInfo(kind: Option<string>, message: Option<string>, stacktrace: Option<string>)

  datatype LogCreate = LogCreate(
    timestamp: Option<int>, severity: string, message: string,
    service: Option<string>, environment: Option<string>,
    traceId: Option<string>, spanId: Option<string>, requestId: Option<string>,
    logger: Option<string>, event: Option<string>,
    projectId: Option<string>, sourceId: Option<string>,
    attributes: map<string, Json>, exception: Option<ExceptionInfo>,
    schemaVersion: int, idempotencyKey: Option<string>)

  datatype LogRecord = LogRecord(
    id: string, orgId: string, projectId: string, sourceId: string,
    timestamp: int, receivedAt: int, severity: string, message: string,
    service: Option<string>, environment: Option<string>,
    traceId: Option<string>, spanId: Option<string>, requestId: Option<string>,
    logger: Option<string>, event: Option<string>,
    attributes: map<string, Json>, exception: Option<ExceptionInfo>, schemaVersion: int)

  datatype AuditEvent = AuditEvent(
    id: string, orgId: string, action: string, agentId: Option<string>, apiKeyId: Option<string>,
    projectId: Option<string>, sourceId: Option<string>, logId: Option<string>)

  datatype Sort = TimestampDesc | TimestampAsc | ReceivedAtDesc

  datatype SearchRequest = SearchRequest(
    projectId: string, from: int, to: int, query: Option<string>,
    severity: seq<string>, sources: seq<string>,
    traceId: Option<string>, spanId: Option<string>, requestId: Option<string>, logger: Option<string>,
    attributes: seq<Field>, limit: int, cursor: Option<string>, sort: Sort)

  datatype TailFilter = TailFilter(
    projectId: string, sourceId: Option<string>, severity: seq<string>, query: Option<string>)

  // Python's truth test on an optional string.
  predicate Given(s: Option<string>) {
    s.Some? && s.value != ""
  }

  predicate ProjectAllowed(key: ApiKey, projectId: string) {
    key.projectIds == [] || projectId in key.projectIds
  }

  predicate SourceAllowed(key: ApiKey, sourceId: string) {
    key.sourceIds == [] || sourceId in key.sourceIds
  }
}
