// What a request may touch: entities of its caller's org and within the scope of its key, and never
// without an audit entry (panda_trace/store.py).
module OwnOrg {
  import opened Base
  import opened Records
  import opened Ids
  import opened StoreModel
  import opened StoreInvariant
  import opened StoreSteps
  import opened ExactlyOnce
  import opened Severity
  import opened StoredLog
  import Batch
  import SearchWhere

  // Everything in t that is not in s, or not as in s, belongs to the org.
  ghost predicate OwnEntries(s: State, t: State, org: string) {
    && t.orgs == s.orgs
    && (forall id :: id in t.projects && !(id in s.projects && s.projects[id] == t.projects[id]) ==>
          t.projects[id].orgId == org)
    && (forall id :: id in t.sources.at && !(id in s.sources.at && s.sources.at[id] == t.sources.at[id]) ==>
          t.sources.at[id].orgId == org)
    && (forall id :: id in t.agents && !(id in s.agents && s.agents[id] == t.agents[id]) ==> t.agents[id].orgId == org)
    && (forall id :: id in t.apiKeys && !(id in s.apiKeys && s.apiKeys[id] == t.apiKeys[id]) ==>
          t.apiKeys[id].orgId == org)
    && (forall id :: id in t.logs.at && !(id in s.logs.at && s.logs.at[id] == t.logs.at[id]) ==>
          t.logs.at[id].orgId == org)
  }

  // New sources, keys and logs stay within what the key may use.
  ghost predicate WithinScope(s: State, t: State, key: ApiKey) {
    && (forall id :: id in t.sources.at && id !in s.sources.at ==> ProjectAllowed(key, t.sources.at[id].projectId))
    && (forall id, p :: id in t.apiKeys && id !in s.apiKeys && p in t.apiKeys[id].projectIds ==> ProjectAllowed(key, p))
    && (forall id, x :: id in t.apiKeys && id !in s.apiKeys && x in t.apiKeys[id].sourceIds ==> SourceAllowed(key, x))
    && (forall id :: id in t.logs.at && id !in s.logs.at ==>
          ProjectAllowed(key, t.logs.at[id].projectId) && SourceAllowed(key, t.logs.at[id].sourceId))
  }

  // The three identifiers name what is new.
  ghost predicate NamesNew(s: State, t: State, projectId: Option<string>, sourceId: Option<string>,
                           logId: Option<string>) {
    && (forall id :: id in t.projects && id !in s.projects ==> projectId == Some(id))
    && (forall id :: id in t.sources.at && id !in s.sources.at ==>
          sourceId == Some(id) && projectId == Some(t.sources.at[id].projectId))
    && (forall id :: id in t.logs.at && id !in s.logs.at ==>
          && logId == Some(id) && projectId == Some(t.logs.at[id].projectId)
          && sourceId == Some(t.logs.at[id].sourceId))
  }

  // Either nothing but counters has changed, or one entry in the caller's name says what was done.
  ghost predicate Audited(s: State, t: State, auth: Auth, action: string) {
    || t == s.(counters := t.counters, quota := t.quota)
    || (&& |t.audit| == |s.audit| + 1 && t.audit[..|s.audit|] == s.audit
        && var e := t.audit[|s.audit|];
           && e.action == action && e.orgId == auth.key.orgId
           && e.agentId == Some(auth.agent.id) && e.apiKeyId == Some(auth.key.id)
           && NamesNew(s, t, e.projectId, e.sourceId, e.logId))
  }

  ghost predicate ActsAs(s: State, t: State, auth: Auth, action: string) {
    OwnEntries(s, t, auth.key.orgId) && WithinScope(s, t, auth.key) && Audited(s, t, auth, action)
  }

  function ActionOf(c: Command): string {
    match c
    case Bootstrap => "orgs.create"
    case NewProject(_, _) => "projects.create"
    case NewSource(_, _) => "sources.create"
    case NewAgent(_, _) => "agents.create"
    case NewKey(_, _, _, _, _) => "api_keys.create"
    case Revoke(_, _) => "api_keys.revoke"
    case Ingest(_, _, _, _) => "logs.write"
    case Search(_, _, _, _) => "logs.search"
  }

  lemma NothingDone(s: State, t: State, auth: Auth, action: string)
    requires t == s.(counters := t.counters, quota := t.quota)
    ensures ActsAs(s, t, auth, action)
  {
  }

  // A change within org and scope, and then its audit entry.
  lemma ThenAudited(s: State, u: State, auth: Auth, action: string,
                    projectId: Option<string>, sourceId: Option<string>, logId: Option<string>)
    requires OwnEntries(s, u, auth.key.orgId) && WithinScope(s, u, auth.key) && u.audit == s.audit
    requires NamesNew(s, u, projectId, sourceId, logId)
    ensures ActsAs(s, AuditBy(u, auth, action, projectId, sourceId, logId), auth, action)
  {
    var t := AuditBy(u, auth, action, projectId, sourceId, logId);
    AuditAppended(u, auth, action, projectId, sourceId, logId);
    SameEntities(s, u, t, auth.key, projectId, sourceId, logId);
    hide AuditBy, OwnEntries, WithinScope, NamesNew;
  }

  lemma SameEntities(s: State, u: State, t: State, key: ApiKey, projectId: Option<string>, sourceId: Option<string>,
                     logId: Option<string>)
    requires OwnEntries(s, u, key.orgId) && WithinScope(s, u, key) && NamesNew(s, u, projectId, sourceId, logId)
    requires t == u.(counters := t.counters, audit := t.audit)
    ensures OwnEntries(s, t, key.orgId) && WithinScope(s, t, key) && NamesNew(s, t, projectId, sourceId, logId)
  {
    hide ProjectAllowed, SourceAllowed;
  }

  lemma AuditAppended(u: State, auth: Auth, action: string,
                      projectId: Option<string>, sourceId: Option<string>, logId: Option<string>)
    ensures var t := AuditBy(u, auth, action, projectId, sourceId, logId);
            && t == u.(counters := t.counters, audit := t.audit)
            && |t.audit| == |u.audit| + 1 && t.audit[..|u.audit|] == u.audit
            && var e := t.audit[|u.audit|];
               && e.action == action && e.orgId == auth.key.orgId
               && e.agentId == Some(auth.agent.id) && e.apiKeyId == Some(auth.key.id)
               && e.projectId == projectId && e.sourceId == sourceId && e.logId == logId
  {
    hide MakeId, CounterOf;
  }

  lemma NextIdCounts(s: State, prefix: string)
    ensures NextId(s, prefix).0 == s.(counters := NextId(s, prefix).0.counters)
  {
    hide MakeId, CounterOf;
  }

  // One new entity of the org.
  lemma AddsProject(s: State, counters: map<string, nat>, x: Project, key: ApiKey)
    requires x.orgId == key.orgId
    ensures var u := s.(counters := counters, projects := s.projects[x.id := x]);
            OwnEntries(s, u, key.orgId) && WithinScope(s, u, key) && NamesNew(s, u, Some(x.id), None, None)
  {
    hide ProjectAllowed, SourceAllowed;
  }

  lemma AddsSource(s: State, counters: map<string, nat>, x: Source, key: ApiKey)
    requires x.orgId == key.orgId && ProjectAllowed(key, x.projectId)
    ensures var u := s.(counters := counters, sources := s.sources.Put(x.id, x));
            && OwnEntries(s, u, key.orgId) && WithinScope(s, u, key)
            && NamesNew(s, u, Some(x.projectId), Some(x.id), None)
  {
    hide ProjectAllowed, SourceAllowed;
  }

  lemma AddsAgent(s: State, counters: map<string, nat>, x: Agent, key: ApiKey)
    requires x.orgId == key.orgId
    ensures var u := s.(counters := counters, agents := s.agents[x.id := x]);
            OwnEntries(s, u, key.orgId) && WithinScope(s, u, key) && NamesNew(s, u, None, None, None)
  {
    hide ProjectAllowed, SourceAllowed;
  }

  lemma AddsKey(s: State, counters: map<string, nat>, x: ApiKey, key: ApiKey)
    requires x.orgId == key.orgId
    requires forall p :: p in x.projectIds ==> ProjectAllowed(key, p)
    requires forall y :: y in x.sourceIds ==> SourceAllowed(key, y)
    ensures var u := s.(counters := counters, apiKeys := s.apiKeys[x.id := x]);
            OwnEntries(s, u, key.orgId) && WithinScope(s, u, key) && NamesNew(s, u, None, None, None)
  {
    hide ProjectAllowed, SourceAllowed;
  }

  lemma ChangesKey(s: State, id: string, x: ApiKey, key: ApiKey)
    requires x.orgId == key.orgId && id in s.apiKeys
    ensures var u := s.(apiKeys := s.apiKeys[id := x]);
            OwnEntries(s, u, key.orgId) && WithinScope(s, u, key) && NamesNew(s, u, None, None, None)
  {
    hide ProjectAllowed, SourceAllowed;
  }

  lemma AddsLog(s: State, u: State, x: LogRecord, key: ApiKey)
    requires x.orgId == key.orgId && ProjectAllowed(key, x.projectId) && SourceAllowed(key, x.sourceId)
    requires u.logs == s.logs.Put(x.id, x)
    requires u == s.(counters := u.counters, quota := u.quota, idempotency := u.idempotency, logs := u.logs)
    ensures OwnEntries(s, u, key.orgId) && WithinScope(s, u, key)
    ensures NamesNew(s, u, Some(x.projectId), Some(x.sourceId), Some(x.id))
  {
    hide ProjectAllowed, SourceAllowed;
  }

  lemma ProjectActs(s: State, auth: Auth, orgId: string)
    ensures ActsAs(s, CreateProject(s, auth, orgId).0, auth, "projects.create")
  {
    NextIdCounts(s, "proj");
    hide NextId, AuditBy, ActsAs, OwnEntries, WithinScope, NamesNew;
    if RequireOrg(s, auth, orgId).Ok? {
      var (s1, id) := NextId(s, "proj");
      var u := s1.(projects := s1.projects[id := Project(id, orgId)]);
      AddsProject(s, s1.counters, Project(id, orgId), auth.key);
      ThenAudited(s, u, auth, "projects.create", Some(id), None, None);
    } else {
      NothingDone(s, s, auth, "projects.create");
    }
  }

  lemma SourceActs(s: State, auth: Auth, projectId: string)
    requires Inv(s)
    ensures ActsAs(s, CreateSource(s, auth, projectId).0, auth, "sources.create")
  {
    NextIdCounts(s, "src");
    if projectId in s.projects {
      ProjectNamed(s, projectId);
    }
    hide Inv, NextId, AppendAudit, ActsAs, OwnEntries, WithinScope, NamesNew, ProjectAllowed;
    if SearchWhere.ProjectForKey(s.projects, auth.key, projectId).Ok? {
      var project := s.projects[projectId];
      var (s1, id) := NextId(s, "src");
      var x := Source(id, project.orgId, project.id);
      var u := s1.(sources := s1.sources.Put(id, x));
      AddsSource(s, s1.counters, x, auth.key);
      ThenAudited(s, u, auth, "sources.create", Some(project.id), Some(id), None);
    } else {
      NothingDone(s, s, auth, "sources.create");
    }
  }

  lemma AgentActs(s: State, auth: Auth, orgId: string)
    ensures ActsAs(s, CreateAgent(s, auth, orgId).0, auth, "agents.create")
  {
    NextIdCounts(s, "agent");
    hide NextId, AuditBy, ActsAs, OwnEntries, WithinScope, NamesNew;
    if RequireOrg(s, auth, orgId).Ok? {
      var (s1, id) := NextId(s, "agent");
      var u := s1.(agents := s1.agents[id := Agent(id, orgId)]);
      AddsAgent(s, s1.counters, Agent(id, orgId), auth.key);
      ThenAudited(s, u, auth, "agents.create", None, None, None);
    } else {
      NothingDone(s, s, auth, "agents.create");
    }
  }

  lemma {:induction false} CheckedProjects(s: State, key: ApiKey, ids: seq<string>)
    requires CheckProjects(s, key, ids).Ok?
    ensures forall p :: p in ids ==> ProjectAllowed(key, p)
  {
    if ids != [] {
      CheckedProjects(s, key, ids[1..]);
    }
  }

  lemma {:induction false} CheckedSources(s: State, key: ApiKey, ids: seq<string>)
    requires CheckSources(s, key, ids).Ok?
    ensures forall x :: x in ids ==> SourceAllowed(key, x)
  {
    if ids != [] {
      CheckedSources(s, key, ids[1..]);
    }
  }

  lemma CheckedKey(s: State, auth: Auth, agentId: string, orgId: string, projectIds: seq<string>,
                   sourceIds: seq<string>)
    requires CheckNewKey(s, auth, agentId, orgId, projectIds, sourceIds).Ok?
    ensures orgId == auth.key.orgId
    ensures forall p :: p in SortedUnique(projectIds) ==> ProjectAllowed(auth.key, p)
    ensures forall x :: x in SortedUnique(sourceIds) ==> SourceAllowed(auth.key, x)
  {
    CheckedProjects(s, auth.key, projectIds);
    CheckedSources(s, auth.key, sourceIds);
    hide CheckProjects, CheckSources, ProjectAllowed, SourceAllowed, SortedUnique;
  }

  lemma KeyActs(s: State, auth: Auth, agentId: string, orgId: string, projectIds: seq<string>, sourceIds: seq<string>)
    ensures ActsAs(s, CreateApiKey(s, auth, agentId, orgId, projectIds, sourceIds).0, auth, "api_keys.create")
  {
    NextIdCounts(s, "key");
    hide NextId, AuditBy, ActsAs, ProjectAllowed, SourceAllowed, CheckNewKey, SortedUnique, OwnEntries, WithinScope,
         NamesNew;
    if CheckNewKey(s, auth, agentId, orgId, projectIds, sourceIds).Ok? {
      CheckedKey(s, auth, agentId, orgId, projectIds, sourceIds);
      var (s1, id) := NextId(s, "key");
      var key := ApiKey(id, agentId, orgId, SortedUnique(projectIds), SortedUnique(sourceIds), false);
      var u := s1.(apiKeys := s1.apiKeys[id := key]);
      AddsKey(s, s1.counters, key, auth.key);
      ThenAudited(s, u, auth, "api_keys.create", None, None, None);
    } else {
      NothingDone(s, s, auth, "api_keys.create");
    }
  }

  lemma RevokeActs(s: State, auth: Auth, target: string)
    ensures ActsAs(s, RevokeApiKey(s, auth, target).0, auth, "api_keys.revoke")
  {
    hide AuditBy, ActsAs, OwnEntries, WithinScope, NamesNew;
    if target in s.apiKeys && s.apiKeys[target].orgId == auth.key.orgId {
      var u := s.(apiKeys := s.apiKeys[target := s.apiKeys[target].(revoked := true)]);
      ChangesKey(s, target, s.apiKeys[target].(revoked := true), auth.key);
      ThenAudited(s, u, auth, "api_keys.revoke", None, None, None);
    } else {
      NothingDone(s, s, auth, "api_keys.revoke");
    }
  }

  lemma SearchActs(s: State, auth: Auth, request: SearchRequest, limitOverride: Option<int>, day: string,
                   settings: Settings)
    ensures ActsAs(s, SearchLogs(s, auth, request, limitOverride, day, settings).0, auth, "logs.search")
  {
    SearchChanges(s, auth, request, limitOverride, day, settings);
    var (t, r) := SearchLogs(s, auth, request, limitOverride, day, settings);
    var u := s.(quota := t.quota);
    hide SearchLogs, AuditBy, ActsAs, ProjectAllowed, SourceAllowed;
    if r.Ok? {
      ThenAudited(s, u, auth, "logs.search", Some(request.projectId), None, None);
    } else {
      NothingDone(s, u, auth, "logs.search");
    }
  }

  lemma IngestActs(s: State, auth: Auth, log: LogCreate, idempotencyKey: Option<string>, arrival: Arrival,
                   settings: Settings)
    requires Inv(s)
    ensures ActsAs(s, IngestLog(s, auth, log, idempotencyKey, arrival, settings).0, auth, "logs.write")
  {
    var t := IngestLog(s, auth, log, idempotencyKey, arrival, settings).0;
    IngestCases(s, auth, log, idempotencyKey, arrival, settings);
    if Accepted(s, auth, log, idempotencyKey, arrival, settings) {
      AcceptedActs(s, auth, log, idempotencyKey, arrival, settings);
    } else {
      hide IngestLog, ChargeOf, AcceptedRecord, StoreRecord, NextId, IsReplay, ResolveProjectSource, ActsAs;
      hide EffectiveKey, NormalizeSeverity;
      NothingDone(s, t, auth, "logs.write");
    }
    hide *;
  }

  lemma AcceptedActs(s: State, auth: Auth, log: LogCreate, idempotencyKey: Option<string>, arrival: Arrival,
                     settings: Settings)
    requires Inv(s) && Accepted(s, auth, log, idempotencyKey, arrival, settings)
    ensures ActsAs(s, IngestLog(s, auth, log, idempotencyKey, arrival, settings).0, auth, "logs.write")
  {
    IngestCases(s, auth, log, idempotencyKey, arrival, settings);
    AcceptedIsOwn(s, auth, log, idempotencyKey, arrival.now);
    var charged := s.(quota := ChargeOf(s, auth, log, arrival, settings).quota);
    var record := AcceptedRecord(s, auth, log, arrival.now);
    NextIdCounts(charged, "log");
    hide Inv, IngestLog, ChargeOf, AcceptedRecord, NextId, IsReplay, ResolveProjectSource, ActsAs, AuditBy;
    hide EffectiveKey, NormalizeSeverity, ProjectAllowed, SourceAllowed, OwnEntries, WithinScope, NamesNew,
         Batch.IsItem;
    var u := WithLog(NextId(charged, "log").0, auth, record, EffectiveKey(idempotencyKey, log));
    AddsLog(s, u, record, auth.key);
    ThenAudited(s, u, auth, "logs.write", Some(record.projectId), Some(record.sourceId), Some(record.id));
  }

  lemma CreatingActs(s: State, c: Command, settings: Settings, auth: Auth)
    requires Inv(s) && (c.NewProject? || c.NewSource? || c.NewAgent?) && Authenticate(s, c.keyId) == Some(auth)
    ensures ActsAs(s, Execute(s, c, settings), auth, ActionOf(c))
  {
    hide Inv, ActsAs, Authenticate, CreateProject, CreateSource, CreateAgent;
    if c.NewProject? {
      ProjectActs(s, auth, c.orgId);
    } else if c.NewSource? {
      SourceActs(s, auth, c.projectId);
    } else {
      AgentActs(s, auth, c.orgId);
    }
  }

  lemma KeysAct(s: State, c: Command, settings: Settings, auth: Auth)
    requires Inv(s) && (c.NewKey? || c.Revoke?) && Authenticate(s, c.keyId) == Some(auth)
    ensures ActsAs(s, Execute(s, c, settings), auth, ActionOf(c))
  {
    hide Inv, ActsAs, Authenticate, CreateApiKey, RevokeApiKey;
    if c.NewKey? {
      KeyActs(s, auth, c.agentId, c.orgId, c.projectIds, c.sourceIds);
    } else {
      RevokeActs(s, auth, c.target);
    }
  }

  lemma LogsAct(s: State, c: Command, settings: Settings, auth: Auth)
    requires Inv(s) && (c.Ingest? || c.Search?) && Authenticate(s, c.keyId) == Some(auth)
    ensures ActsAs(s, Execute(s, c, settings), auth, ActionOf(c))
  {
    hide Inv, ActsAs, Authenticate, IngestLog, SearchLogs;
    if c.Ingest? {
      IngestActs(s, auth, c.log, c.idempotencyKey, c.arrival, settings);
    } else {
      SearchActs(s, auth, c.request, c.limitOverride, c.day, settings);
    }
  }

  // Whatever an authenticated request does, it does in the org and the scope of its key, and with an
  // audit entry in its name.
  lemma ActsInOwnOrg(s: State, c: Command, settings: Settings)
    requires Inv(s) && !c.Bootstrap? && Authenticate(s, c.keyId).Some?
    ensures ActsAs(s, Execute(s, c, settings), Authenticate(s, c.keyId).value, ActionOf(c))
  {
    hide *;
    var auth := Authenticate(s, c.keyId).value;
    if c.NewKey? || c.Revoke? {
      KeysAct(s, c, settings, auth);
    } else if c.Ingest? || c.Search? {
      LogsAct(s, c, settings, auth);
    } else {
      CreatingActs(s, c, settings, auth);
    }
  }
}
