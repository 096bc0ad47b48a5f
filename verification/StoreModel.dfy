// The in-memory store (InMemoryStore of panda_trace/store.py) as a value, and its operations as
// functions from the old state to the new state and the outcome. No operation gives up control
// half way, so operations of concurrent requests do not interleave.
module StoreModel {
  import opened Base
  import opened Records
  import opened Severity
  import opened Ids
  import opened Quota
  import opened Cursor
  import SearchWhere
  import Tail

  datatype Settings = Settings(
    maxSearchRangeDays: int, maxPageSize: int, maxExportRows: int,
    maxKeyDailyIngestBytes: int, maxProjectDailyIngestBytes: int, maxAgentDailyReadQueries: int)

  datatype State = State(
    counters: map<string, nat>,
    orgs: set<string>,
    projects: map<string, Project>,
    sources: Table<Source>,
    agents: map<string, Agent>,
    apiKeys: map<string, ApiKey>,
    logs: Table<LogRecord>,
    audit: seq<AuditEvent>,
    idempotency: map<(string, string), string>,
    quota: map<string, int>)

  const EMPTY_STATE :=
    State(map[], {}, map[], Table([], map[]), map[], map[], Table([], map[]), [], map[], map[])

  function CounterOf(counters: map<string, nat>, prefix: string): nat {
    if prefix in counters then counters[prefix] else 0
  }

  function NextId(s: State, prefix: string): (State, string) {
    var n := CounterOf(s.counters, prefix) + 1;
    (s.(counters := s.counters[prefix := n]), MakeId(prefix, n))
  }

  function AppendAudit(s: State, action: string, orgId: string, agentId: string, apiKeyId: string,
                       projectId: Option<string>, sourceId: Option<string>, logId: Option<string>): State
  {
    var (t, id) := NextId(s, "audit");
    t.(audit := t.audit + [AuditEvent(id, orgId, action, Some(agentId), Some(apiKeyId), projectId, sourceId, logId)])
  }

  function AuditBy(s: State, auth: Auth, action: string,
                   projectId: Option<string>, sourceId: Option<string>, logId: Option<string>): State
  {
    AppendAudit(s, action, auth.key.orgId, auth.agent.id, auth.key.id, projectId, sourceId, logId)
  }

  // ---------- organisations, projects, sources, agents, keys ----------

  function CreateOrgBootstrap(s: State): (State, (string, string, string)) {
    var (s1, orgId) := NextId(s, "org");
    var (s2, agentId) := NextId(s1, "agent");
    var (s3, keyId) := NextId(s2, "key");
    var t := s3.(orgs := s3.orgs + {orgId},
                 agents := s3.agents[agentId := Agent(agentId, orgId)],
                 apiKeys := s3.apiKeys[keyId := ApiKey(keyId, agentId, orgId, [], [], false)]);
    (AppendAudit(t, "orgs.create", orgId, agentId, keyId, None, None, None), (orgId, agentId, keyId))
  }

  function RequireOrg(s: State, auth: Auth, orgId: string): Result<()> {
    if orgId != auth.key.orgId then Err(PermissionDenied)
    else if orgId !in s.orgs then Err(NotFound("Org"))
    else Ok(())
  }

  function CreateProject(s: State, auth: Auth, orgId: string): (State, Result<Project>) {
    match RequireOrg(s, auth, orgId)
    case Err(e) => (s, Err(e))
    case Ok(_) =>
      var (s1, id) := NextId(s, "proj");
      var project := Project(id, orgId);
      (AuditBy(s1.(projects := s1.projects[id := project]), auth, "projects.create", Some(id), None, None), Ok(project))
  }

  function CreateSource(s: State, auth: Auth, projectId: string): (State, Result<Source>) {
    match SearchWhere.ProjectForKey(s.projects, auth.key, projectId)
    case Err(e) => (s, Err(e))
    case Ok(project) =>
      var (s1, id) := NextId(s, "src");
      var source := Source(id, project.orgId, project.id);
      (AppendAudit(s1.(sources := s1.sources.Put(id, source)), "sources.create", project.orgId, auth.agent.id,
                   auth.key.id, Some(project.id), Some(id), None), Ok(source))
  }

  function CreateAgent(s: State, auth: Auth, orgId: string): (State, Result<Agent>) {
    match RequireOrg(s, auth, orgId)
    case Err(e) => (s, Err(e))
    case Ok(_) =>
      var (s1, id) := NextId(s, "agent");
      var agent := Agent(id, orgId);
      (AuditBy(s1.(agents := s1.agents[id := agent]), auth, "agents.create", None, None, None), Ok(agent))
  }

  function CheckProjects(s: State, key: ApiKey, ids: seq<string>): Result<()> {
    if ids == [] then Ok(())
    else
      var _ :- SearchWhere.ProjectForKey(s.projects, key, ids[0]);
      CheckProjects(s, key, ids[1..])
  }

  function CheckSources(s: State, key: ApiKey, ids: seq<string>): Result<()> {
    if ids == [] then Ok(())
    else
      var _ :- SearchWhere.SourceForKey(s.sources.at, key, ids[0]);
      CheckSources(s, key, ids[1..])
  }

  function CheckNewKey(s: State, auth: Auth, agentId: string, orgId: string,
                       projectIds: seq<string>, sourceIds: seq<string>): Result<()>
  {
    var _ :- RequireOrg(s, auth, orgId);
    if agentId !in s.agents then Err(NotFound("Agent"))
    else if s.agents[agentId].orgId != orgId then Err(PermissionDenied)
    else
      var _ :- CheckProjects(s, auth.key, projectIds);
      CheckSources(s, auth.key, sourceIds)
  }

  // Code point order of strings.
  predicate Before(a: string, b: string) {
    b != "" && (a == "" || a[0] < b[0] || (a[0] == b[0] && Before(a[1..], b[1..])))
  }

  function InsertSorted(x: string, xs: seq<string>): (r: seq<string>)
    ensures forall y :: y in r <==> y == x || y in xs
  {
    if xs == [] then [x]
    else if x == xs[0] then xs
    else if Before(x, xs[0]) then [x] + xs
    else [xs[0]] + InsertSorted(x, xs[1..])
  }

  // sorted(set(xs))
  function SortedUnique(xs: seq<string>): (r: seq<string>)
    ensures forall y :: y in r <==> y in xs
    ensures r == [] <==> xs == []
  {
    if xs == [] then []
    else
      var r := InsertSorted(xs[0], SortedUnique(xs[1..]));
      assert xs[0] in r;
      r
  }

  function CreateApiKey(s: State, auth: Auth, agentId: string, orgId: string,
                        projectIds: seq<string>, sourceIds: seq<string>): (State, Result<ApiKey>)
  {
    match CheckNewKey(s, auth, agentId, orgId, projectIds, sourceIds)
    case Err(e) => (s, Err(e))
    case Ok(_) =>
      var (s1, id) := NextId(s, "key");
      var key := ApiKey(id, agentId, orgId, SortedUnique(projectIds), SortedUnique(sourceIds), false);
      (AuditBy(s1.(apiKeys := s1.apiKeys[id := key]), auth, "api_keys.create", None, None, None), Ok(key))
  }

  function RevokeApiKey(s: State, auth: Auth, keyId: string): (State, Result<ApiKey>) {
    if keyId !in s.apiKeys || s.apiKeys[keyId].orgId != auth.key.orgId then (s, Err(NotFound("API key")))
    else
      var key := s.apiKeys[keyId].(revoked := true);
      (AuditBy(s.(apiKeys := s.apiKeys[keyId := key]), auth, "api_keys.revoke", None, None, None), Ok(key))
  }

  // ---------- ingestion ----------

  predicate IsCandidate(key: ApiKey, projectId: Option<string>, source: Source) {
    && source.orgId == key.orgId
    && (Given(projectId) ==> source.projectId == projectId.value)
    && ProjectAllowed(key, source.projectId)
    && SourceAllowed(key, source.id)
  }

  function ResolveProjectSource(s: State, key: ApiKey, projectId: Option<string>, sourceId: Option<string>)
    : Result<(Project, Source)>
  {
    if Given(sourceId) then
      var source :- SearchWhere.SourceForKey(s.sources.at, key, sourceId.value);
      var project :- SearchWhere.ProjectForKey(s.projects, key, source.projectId);
      if Given(projectId) && projectId.value != project.id then Err(BadRequest("source_project_mismatch"))
      else Ok((project, source))
    else
      var candidates := Filter(Values(s.sources), (source: Source) => IsCandidate(key, projectId, source));
      if |candidates| != 1 then Err(BadRequest("source_required"))
      else
        var project :- SearchWhere.ProjectForKey(s.projects, key, candidates[0].projectId);
        Ok((project, candidates[0]))
  }

  // What an ingestion reads from outside the store: the size of the printed payload, the dates read
  // for the two quotas, and the time of receipt.
  datatype Arrival = Arrival(payloadSize: nat, keyDay: string, projectDay: string, now: int)

  // idempotency_key or log.idempotency_key
  function EffectiveKey(idempotencyKey: Option<string>, log: LogCreate): Option<string> {
    if Given(idempotencyKey) then idempotencyKey else log.idempotencyKey
  }

  predicate IsReplay(s: State, auth: Auth, idem: Option<string>) {
    Given(idem) && (auth.key.id, idem.value) in s.idempotency
    && s.idempotency[(auth.key.id, idem.value)] in s.logs.at
  }

  function NewRecord(id: string, auth: Auth, project: Project, source: Source, severity: string,
                     log: LogCreate, now: int): LogRecord
  {
    LogRecord(id, auth.key.orgId, project.id, source.id,
              if log.timestamp.Some? then log.timestamp.value else now, now, severity, log.message,
              log.service, log.environment, log.traceId, log.spanId, log.requestId, log.logger, log.event,
              log.attributes, log.exception, log.schemaVersion)
  }

  function StoreRecord(s: State, auth: Auth, record: LogRecord, idem: Option<string>): State {
    var t := s.(logs := s.logs.Put(record.id, record),
                idempotency := if Given(idem) then s.idempotency[(auth.key.id, idem.value) := record.id]
                               else s.idempotency);
    AuditBy(t, auth, "logs.write", Some(record.projectId), Some(record.sourceId), Some(record.id))
  }

  // The counters after a call has been charged, and the error if a quota refused it.
  datatype Charge = Charge(quota: map<string, int>, refusal: Option<ApiError>)

  // The key's quota is charged first; it stays charged when the project's quota then refuses the call.
  function ChargeIngest(quota: map<string, int>, keyId: string, projectId: string, arrival: Arrival, settings: Settings)
    : Charge
  {
    match Reserve(quota, QuotaKey(KeyIngest, keyId, arrival.keyDay), arrival.payloadSize,
                  settings.maxKeyDailyIngestBytes)
    case None => Charge(quota, Some(RateLimited(KEY_REFUSAL)))
    case Some(charged) =>
      match Reserve(charged, QuotaKey(ProjectIngest, projectId, arrival.projectDay), arrival.payloadSize,
                    settings.maxProjectDailyIngestBytes)
      case None => Charge(charged, Some(RateLimited(PROJECT_REFUSAL)))
      case Some(both) => Charge(both, None)
  }

  const KEY_REFUSAL := "API key daily ingest byte quota exceeded."
  const PROJECT_REFUSAL := "Project daily ingest quota exceeded."

  // The charge and, unless a quota refuses, the new log.
  function Accept(s: State, auth: Auth, project: Project, source: Source, severity: string, log: LogCreate,
                  idem: Option<string>, arrival: Arrival, settings: Settings): (State, Result<LogRecord>)
  {
    var charge := ChargeIngest(s.quota, auth.key.id, project.id, arrival, settings);
    var charged := s.(quota := charge.quota);
    if charge.refusal.Some? then (charged, Err(charge.refusal.value))
    else
      var (t, id) := NextId(charged, "log");
      var record := NewRecord(id, auth, project, source, severity, log, arrival.now);
      (StoreRecord(t, auth, record, idem), Ok(record))
  }

  function IngestLog(s: State, auth: Auth, log: LogCreate, idempotencyKey: Option<string>,
                     arrival: Arrival, settings: Settings): (State, Result<LogRecord>)
  {
    var idem := EffectiveKey(idempotencyKey, log);
    if IsReplay(s, auth, idem) then (s, Ok(s.logs.at[s.idempotency[(auth.key.id, idem.value)]]))
    else
      match (ResolveProjectSource(s, auth.key, log.projectId, log.sourceId), NormalizeSeverity(log.severity))
      case (Err(e), _) => (s, Err(e))
      case (_, Err(e)) => (s, Err(e))
      case (Ok((project, source)), Ok(severity)) =>
        Accept(s, auth, project, source, severity, log, idem, arrival, settings)
  }

  // The whole call as its caller sees it: a new log is published to the tail subscribers last, and when
  // the publication raises, the caller gets that error although the log is stored.
  function IngestAndPublish(s: State, hub: Tail.Hub, auth: Auth, log: LogCreate, idempotencyKey: Option<string>,
                            arrival: Arrival, settings: Settings): (State, Tail.Hub, Result<LogRecord>)
  {
    var (t, r) := IngestLog(s, auth, log, idempotencyKey, arrival, settings);
    if r.Err? || IsReplay(s, auth, EffectiveKey(idempotencyKey, log)) then (t, hub, r)
    else
      (t, Tail.HubNext(hub, Tail.Published(r.value)),
       if Tail.Completes(hub, r.value) then r else Err(BadRequest("invalid_severity")))
  }

  // ---------- search ----------

  function SortKey(record: LogRecord, sort: Sort): int {
    if sort == ReceivedAtDesc then record.receivedAt else record.timestamp
  }

  // Whether a may stand before b without breaking the order.
  predicate InOrder(a: LogRecord, b: LogRecord, sort: Sort) {
    if sort == TimestampAsc then SortKey(a, sort) <= SortKey(b, sort) else SortKey(a, sort) >= SortKey(b, sort)
  }

  function InsertRecord(x: LogRecord, sorted: seq<LogRecord>, sort: Sort): seq<LogRecord> {
    if sorted == [] || InOrder(x, sorted[0], sort) then [x] + sorted
    else [sorted[0]] + InsertRecord(x, sorted[1..], sort)
  }

  // The stable sort of the matching records.
  function SortRecords(records: seq<LogRecord>, sort: Sort): seq<LogRecord> {
    if records == [] then [] else InsertRecord(records[0], SortRecords(records[1..], sort), sort)
  }

  // xs[lo:hi] for lo >= 0; a negative hi counts from the end.
  function Slice<T>(xs: seq<T>, lo: nat, hi: int): seq<T> {
    var end := if hi < 0 then hi + |xs| else hi;
    if lo >= |xs| || end <= lo then [] else xs[lo..if end > |xs| then |xs| else end]
  }

  function PageLimit(request: SearchRequest, limitOverride: Option<int>, settings: Settings): int {
    match limitOverride
    case None => if request.limit < settings.maxPageSize then request.limit else settings.maxPageSize
    case Some(n) => if n < settings.maxExportRows then n else settings.maxExportRows
  }

  datatype Page = Page(records: seq<LogRecord>, nextCursor: Option<string>, total: nat)

  function PageOf(records: seq<LogRecord>, offset: nat, limit: int): Page {
    Page(Slice(records, offset, offset + limit),
         if offset + limit < |records| then Some(EncodeCursor(offset + limit)) else None,
         |records|)
  }

  function Matching(s: State, auth: Auth, request: SearchRequest): seq<LogRecord>
    requires AllKnown(request.severity)
  {
    SortRecords(SearchWhere.MatchingRecords(auth.key, request, Values(s.logs)), request.sort)
  }

  function CheckSearch(s: State, auth: Auth, request: SearchRequest, settings: Settings): Result<()> {
    var _ :- SearchWhere.ValidateTimeRange(request, settings.maxSearchRangeDays);
    var _ :- SearchWhere.ProjectForKey(s.projects, auth.key, request.projectId);
    Ok(())
  }

  // The checks made after the read quota has been charged.
  function CheckFilters(s: State, auth: Auth, request: SearchRequest): (r: Result<nat>)
    ensures r.Ok? ==> AllKnown(request.severity)
  {
    var offset :- DecodeCursor(request.cursor);
    if !AllKnown(request.severity) then Err(BadRequest("invalid_severity"))
    else
      var _ :- SearchWhere.SourcesOfProject(s.sources.at, auth.key, request.sources, request.projectId);
      Ok(offset)
  }

  const READ_REFUSAL := "Agent daily read query quota exceeded."

  function SearchLogs(s: State, auth: Auth, request: SearchRequest, limitOverride: Option<int>,
                      day: string, settings: Settings): (State, Result<Page>)
  {
    match CheckSearch(s, auth, request, settings)
    case Err(e) => (s, Err(e))
    case Ok(_) =>
      match Reserve(s.quota, QuotaKey(AgentReads, auth.agent.id, day), 1, settings.maxAgentDailyReadQueries)
      case None => (s, Err(RateLimited(READ_REFUSAL)))
      case Some(quota) =>
        var t := s.(quota := quota);
        match CheckFilters(t, auth, request)
        case Err(e) => (t, Err(e))
        case Ok(offset) =>
          var page := PageOf(Matching(t, auth, request), offset, PageLimit(request, limitOverride, settings));
          (AuditBy(t, auth, "logs.search", Some(request.projectId), None, None), Ok(page))
  }

  // ---------- runs ----------

  // The requests of authenticated callers; each names the caller's key.
  datatype Command =
    | Bootstrap
    | NewProject(keyId: string, orgId: string)
    | NewSource(keyId: string, projectId: string)
    | NewAgent(keyId: string, orgId: string)
    | NewKey(keyId: string, agentId: string, orgId: string, projectIds: seq<string>, sourceIds: seq<string>)
    | Revoke(keyId: string, target: string)
    | Ingest(keyId: string, log: LogCreate, idempotencyKey: Option<string>, arrival: Arrival)
    | Search(keyId: string, request: SearchRequest, limitOverride: Option<int>, day: string)

  // The caller behind a key that exists and has not been revoked.
  function Authenticate(s: State, keyId: string): Option<Auth> {
    if keyId in s.apiKeys && !s.apiKeys[keyId].revoked && s.apiKeys[keyId].agentId in s.agents
    then Some(Auth(s.apiKeys[keyId], s.agents[s.apiKeys[keyId].agentId]))
    else None
  }

  function Execute(s: State, c: Command, settings: Settings): State {
    if c.Bootstrap? then CreateOrgBootstrap(s).0
    else
      match Authenticate(s, c.keyId)
      case None => s
      case Some(auth) =>
        match c
        case Bootstrap => s
        case NewProject(_, orgId) => CreateProject(s, auth, orgId).0
        case NewSource(_, projectId) => CreateSource(s, auth, projectId).0
        case NewAgent(_, orgId) => CreateAgent(s, auth, orgId).0
        case NewKey(_, agentId, orgId, projectIds, sourceIds) =>
          CreateApiKey(s, auth, agentId, orgId, projectIds, sourceIds).0
        case Revoke(_, target) => RevokeApiKey(s, auth, target).0
        case Ingest(_, log, idempotencyKey, arrival) => IngestLog(s, auth, log, idempotencyKey, arrival, settings).0
        case Search(_, request, limitOverride, day) => SearchLogs(s, auth, request, limitOverride, day, settings).0
  }

  function Run(commands: seq<Command>, settings: Settings): State {
    if commands == [] then EMPTY_STATE
    else Execute(Run(commands[..|commands| - 1], settings), commands[|commands| - 1], settings)
  }
}
