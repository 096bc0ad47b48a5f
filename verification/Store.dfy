// The in-memory store as an object whose methods update its dictionaries (InMemoryStore of
// panda_trace/store.py). Every method is proved against the specification in StoreModel.
module Store {
  import opened Base
  import opened Records
  import opened Severity
  import opened Ids
  import opened Quota
  import opened Cursor
  import opened StoreInvariant
  import opened StoreSteps
  import M = StoreModel
  import SearchWhere
  import Tail

  class InMemoryStore {
    var counters: map<string, nat>
    var orgs: set<string>
    var projects: map<string, Project>
    var sources: Table<Source>
    var agents: map<string, Agent>
    var apiKeys: map<string, ApiKey>
    var logs: Table<LogRecord>
    var auditEvents: seq<AuditEvent>
    var idempotency: map<(string, string), string>
    var quotaCounters: map<string, int>
    const tailHub: Tail.TailHub

    function View(): M.State
      reads this
    {
      M.State(counters, orgs, projects, sources, agents, apiKeys, logs, auditEvents, idempotency, quotaCounters)
    }

    ghost predicate Valid()
      reads this, tailHub, tailHub.queues
    {
      Inv(View()) && tailHub.Valid()
    }

    constructor ()
      ensures Valid() && View() == M.EMPTY_STATE
      ensures fresh(tailHub) && tailHub.hub == []
    {
      tailHub := new Tail.TailHub();
      counters, orgs, projects, agents, apiKeys := map[], {}, map[], map[], map[];
      sources, logs := Table([], map[]), Table([], map[]);
      auditEvents, idempotency, quotaCounters := [], map[], map[];
      new;
      EmptyInv();
    }

    method NextId(prefix: string) returns (id: string)
      modifies `counters
      ensures (View(), id) == M.NextId(old(View()), prefix)
    {
      counters := counters[prefix := (if prefix in counters then counters[prefix] else 0) + 1];
      id := MakeId(prefix, counters[prefix]);
    }

    method Audit(action: string, orgId: string, agentId: string, apiKeyId: string,
                 projectId: Option<string>, sourceId: Option<string>, logId: Option<string>)
      modifies `counters, `auditEvents
      ensures View() == M.AppendAudit(old(View()), action, orgId, agentId, apiKeyId, projectId, sourceId, logId)
    {
      var id := NextId("audit");
      auditEvents := auditEvents + [AuditEvent(id, orgId, action, Some(agentId), Some(apiKeyId), projectId, sourceId,
                                               logId)];
    }

    // The three reservations differ in the counter's key and in the message.
    method ReserveQuota(kind: Kind, id: string, day: string, amount: int, limit: int, refusal: string)
      returns (r: Result<()>)
      modifies `quotaCounters
      ensures match Reserve(old(quotaCounters), QuotaKey(kind, id, day), amount, limit)
              case None => r == Err(RateLimited(refusal)) && View() == old(View())
              case Some(after) => r == Ok(()) && View() == old(View()).(quota := after)
    {
      if limit <= 0 {
        return Ok(());
      }
      var key := QuotaKey(kind, id, day);
      var current := if key in quotaCounters then quotaCounters[key] else 0;
      if current + amount > limit {
        return Err(RateLimited(refusal));
      }
      quotaCounters := quotaCounters[key := current + amount];
      r := Ok(());
    }

    // ---------- organisations, projects, sources, agents, keys ----------

    method CreateOrgBootstrap() returns (ids: (string, string, string))
      requires Valid()
      modifies this
      ensures Valid() && (View(), ids) == M.CreateOrgBootstrap(old(View()))
    {
      hide Inv, M.AppendAudit, M.NextId;
      CreateOrgKeepsInv(View());
      var orgId := NextId("org");
      var agentId := NextId("agent");
      var keyId := NextId("key");
      orgs := orgs + {orgId};
      agents := agents[agentId := Agent(agentId, orgId)];
      apiKeys := apiKeys[keyId := ApiKey(keyId, agentId, orgId, [], [], false)];
      Audit("orgs.create", orgId, agentId, keyId, None, None, None);
      ids := (orgId, agentId, keyId);
    }

    method CreateProject(auth: Auth, orgId: string) returns (r: Result<Project>)
      requires Valid()
      modifies this
      ensures Valid() && (View(), r) == M.CreateProject(old(View()), auth, orgId)
    {
      hide Inv, M.AppendAudit, M.NextId;
      CreateProjectKeepsInv(View(), auth, orgId);
      var allowed := M.RequireOrg(View(), auth, orgId);
      if allowed.Err? {
        return Err(allowed.error);
      }
      var id := NextId("proj");
      var project := Project(id, orgId);
      projects := projects[id := project];
      Audit("projects.create", auth.key.orgId, auth.agent.id, auth.key.id, Some(id), None, None);
      r := Ok(project);
    }

    method CreateSource(auth: Auth, projectId: string) returns (r: Result<Source>)
      requires Valid()
      modifies this
      ensures Valid() && (View(), r) == M.CreateSource(old(View()), auth, projectId)
    {
      hide Inv, M.AppendAudit, M.NextId;
      CreateSourceKeepsInv(View(), auth, projectId);
      var found := SearchWhere.ProjectForKey(projects, auth.key, projectId);
      if found.Err? {
        return Err(found.error);
      }
      var project := found.value;
      var id := NextId("src");
      var source := Source(id, project.orgId, project.id);
      sources := sources.Put(id, source);
      Audit("sources.create", project.orgId, auth.agent.id, auth.key.id, Some(project.id), Some(id), None);
      r := Ok(source);
    }

    method CreateAgent(auth: Auth, orgId: string) returns (r: Result<Agent>)
      requires Valid()
      modifies this
      ensures Valid() && (View(), r) == M.CreateAgent(old(View()), auth, orgId)
    {
      hide Inv, M.AppendAudit, M.NextId;
      CreateAgentKeepsInv(View(), auth, orgId);
      var allowed := M.RequireOrg(View(), auth, orgId);
      if allowed.Err? {
        return Err(allowed.error);
      }
      var id := NextId("agent");
      var agent := Agent(id, orgId);
      agents := agents[id := agent];
      Audit("agents.create", auth.key.orgId, auth.agent.id, auth.key.id, None, None, None);
      r := Ok(agent);
    }

    // The checks of a key request, in the source's order; the first failure is reported.
    method CheckNewKey(auth: Auth, agentId: string, orgId: string, projectIds: seq<string>, sourceIds: seq<string>)
      returns (r: Result<()>)
      ensures r == M.CheckNewKey(View(), auth, agentId, orgId, projectIds, sourceIds)
    {
      ghost var s := View();
      var allowed := M.RequireOrg(View(), auth, orgId);
      if allowed.Err? {
        return Err(allowed.error);
      }
      if agentId !in agents {
        return Err(NotFound("Agent"));
      }
      if agents[agentId].orgId != orgId {
        return Err(PermissionDenied);
      }
      for i := 0 to |projectIds|
        invariant M.CheckProjects(s, auth.key, projectIds) == M.CheckProjects(s, auth.key, projectIds[i..])
      {
        var project := SearchWhere.ProjectForKey(projects, auth.key, projectIds[i]);
        if project.Err? {
          return Err(project.error);
        }
      }
      for i := 0 to |sourceIds|
        invariant M.CheckSources(s, auth.key, sourceIds) == M.CheckSources(s, auth.key, sourceIds[i..])
      {
        var source := SearchWhere.SourceForKey(sources.at, auth.key, sourceIds[i]);
        if source.Err? {
          return Err(source.error);
        }
      }
      r := Ok(());
    }

    method CreateApiKey(auth: Auth, agentId: string, orgId: string, projectIds: seq<string>, sourceIds: seq<string>)
      returns (r: Result<ApiKey>)
      requires Valid()
      modifies this
      ensures Valid() && (View(), r) == M.CreateApiKey(old(View()), auth, agentId, orgId, projectIds, sourceIds)
    {
      hide Inv, M.AppendAudit, M.NextId, M.CheckNewKey, M.SortedUnique;
      CreateApiKeyKeepsInv(View(), auth, agentId, orgId, projectIds, sourceIds);
      var allowed := CheckNewKey(auth, agentId, orgId, projectIds, sourceIds);
      if allowed.Err? {
        return Err(allowed.error);
      }
      var id := NextId("key");
      var key := ApiKey(id, agentId, orgId, M.SortedUnique(projectIds), M.SortedUnique(sourceIds), false);
      apiKeys := apiKeys[id := key];
      Audit("api_keys.create", auth.key.orgId, auth.agent.id, auth.key.id, None, None, None);
      r := Ok(key);
    }

    method RevokeApiKey(auth: Auth, keyId: string) returns (r: Result<ApiKey>)
      requires Valid()
      modifies this
      ensures Valid() && (View(), r) == M.RevokeApiKey(old(View()), auth, keyId)
    {
      hide Inv, M.AppendAudit;
      RevokeKeepsInv(View(), auth, keyId);
      if keyId !in apiKeys || apiKeys[keyId].orgId != auth.key.orgId {
        return Err(NotFound("API key"));
      }
      var key := apiKeys[keyId].(revoked := true);
      apiKeys := apiKeys[keyId := key];
      Audit("api_keys.revoke", auth.key.orgId, auth.agent.id, auth.key.id, None, None, None);
      r := Ok(key);
    }

    // ---------- ingestion ----------

    method ResolveProjectSource(key: ApiKey, projectId: Option<string>, sourceId: Option<string>)
      returns (r: Result<(Project, Source)>)
      ensures r == M.ResolveProjectSource(View(), key, projectId, sourceId)
    {
      if Given(sourceId) {
        var found := SearchWhere.SourceForKey(sources.at, key, sourceId.value);
        if found.Err? {
          return Err(found.error);
        }
        var owner := SearchWhere.ProjectForKey(projects, key, found.value.projectId);
        if owner.Err? {
          return Err(owner.error);
        }
        if Given(projectId) && projectId.value != owner.value.id {
          return Err(BadRequest("source_project_mismatch"));
        }
        return Ok((owner.value, found.value));
      }
      var candidates := CandidateSources(key, projectId);
      if |candidates| != 1 {
        return Err(BadRequest("source_required"));
      }
      var owner := SearchWhere.ProjectForKey(projects, key, candidates[0].projectId);
      if owner.Err? {
        return Err(owner.error);
      }
      r := Ok((owner.value, candidates[0]));
    }

    method CandidateSources(key: ApiKey, projectId: Option<string>) returns (candidates: seq<Source>)
      ensures candidates == Filter(Values(sources), (source: Source) => M.IsCandidate(key, projectId, source))
    {
      hide *;
      candidates := [];
      var all := Values(sources);
      ghost var keep := (source: Source) => M.IsCandidate(key, projectId, source);
      assert Filter(all[..0], keep) == [];
      for i := 0 to |all|
        invariant candidates == Filter(all[..i], keep)
      {
        FilterOneMore(all[..i], all[i], keep);
        assert all[..i + 1] == all[..i] + [all[i]];
        if M.IsCandidate(key, projectId, all[i]) {
          candidates := candidates + [all[i]];
        }
      }
      assert all[..|all|] == all;
    }

    // The key's quota stays charged when the project's quota refuses.
    method ReserveIngestQuotas(keyId: string, projectId: string, arrival: M.Arrival, settings: M.Settings)
      returns (r: Result<()>)
      modifies `quotaCounters
      ensures var charge := M.ChargeIngest(old(quotaCounters), keyId, projectId, arrival, settings);
              && View() == old(View()).(quota := charge.quota)
              && r == if charge.refusal.Some? then Err(charge.refusal.value) else Ok(())
    {
      hide Reserve, QuotaKey;
      r := ReserveQuota(KeyIngest, keyId, arrival.keyDay, arrival.payloadSize,
                        settings.maxKeyDailyIngestBytes, M.KEY_REFUSAL);
      if r.Ok? {
        r := ReserveQuota(ProjectIngest, projectId, arrival.projectDay, arrival.payloadSize,
                          settings.maxProjectDailyIngestBytes, M.PROJECT_REFUSAL);
      }
    }

    method StoreRecord(auth: Auth, record: LogRecord, idem: Option<string>)
      modifies `logs, `idempotency, `counters, `auditEvents
      ensures View() == M.StoreRecord(old(View()), auth, record, idem)
    {
      hide M.AppendAudit;
      logs := logs.Put(record.id, record);
      if Given(idem) {
        idempotency := idempotency[(auth.key.id, idem.value) := record.id];
      }
      Audit("logs.write", auth.key.orgId, auth.agent.id, auth.key.id,
            Some(record.projectId), Some(record.sourceId), Some(record.id));
    }

    method Accept(auth: Auth, project: Project, source: Source, severity: string, log: LogCreate,
                  idem: Option<string>, arrival: M.Arrival, settings: M.Settings) returns (r: Result<LogRecord>)
      modifies `quotaCounters, `logs, `idempotency, `counters, `auditEvents
      ensures (View(), r) == M.Accept(old(View()), auth, project, source, severity, log, idem, arrival, settings)
    {
      hide M.StoreRecord, M.NextId, M.NewRecord, M.ChargeIngest;
      var charged := ReserveIngestQuotas(auth.key.id, project.id, arrival, settings);
      if charged.Err? {
        return Err(charged.error);
      }
      var id := NextId("log");
      var record := M.NewRecord(id, auth, project, source, severity, log, arrival.now);
      StoreRecord(auth, record, idem);
      r := Ok(record);
    }

    // Everything up to the publication; `isNew` tells whether a log was stored.
    method Ingest(auth: Auth, log: LogCreate, idempotencyKey: Option<string>, arrival: M.Arrival, settings: M.Settings)
      returns (r: Result<LogRecord>, isNew: bool)
      requires Inv(View())
      modifies this
      ensures Inv(View()) && (View(), r) == M.IngestLog(old(View()), auth, log, idempotencyKey, arrival, settings)
      ensures isNew <==> r.Ok? && !M.IsReplay(old(View()), auth, M.EffectiveKey(idempotencyKey, log))
    {
      hide Inv, M.Accept, M.ResolveProjectSource, NormalizeSeverity;
      isNew := false;
      IngestKeepsInv(View(), auth, log, idempotencyKey, arrival, settings);
      var idem := M.EffectiveKey(idempotencyKey, log);
      if Given(idem) && (auth.key.id, idem.value) in idempotency {
        var existing := idempotency[(auth.key.id, idem.value)];
        if existing in logs.at {
          return Ok(logs.at[existing]), false;
        }
      }
      var resolved := ResolveProjectSource(auth.key, log.projectId, log.sourceId);
      if resolved.Err? {
        return Err(resolved.error), false;
      }
      var (project, source) := resolved.value;
      var severity := NormalizeSeverity(log.severity);
      if severity.Err? {
        return Err(severity.error), false;
      }
      r := Accept(auth, project, source, severity.value, log, idem, arrival, settings);
      isNew := r.Ok?;
    }

    method IngestLog(auth: Auth, log: LogCreate, idempotencyKey: Option<string>, arrival: M.Arrival,
                     settings: M.Settings)
      returns (r: Result<LogRecord>)
      requires Valid()
      modifies this, tailHub, tailHub.queues
      ensures Valid() && tailHub.queues == old(tailHub.queues)
      ensures (View(), tailHub.hub, r)
              == M.IngestAndPublish(old(View()), old(tailHub.hub), auth, log, idempotencyKey, arrival, settings)
    {
      hide Inv, M.IngestLog, M.IsReplay, M.EffectiveKey, Tail.HubNext, Tail.Completes;
      var isNew;
      r, isNew := Ingest(auth, log, idempotencyKey, arrival, settings);
      if isNew {
        var published := tailHub.Publish(r.value);
        if published.Err? {
          return Err(published.error);
        }
      }
    }


    // ---------- search ----------

    method MatchingRecords(key: ApiKey, request: SearchRequest) returns (found: seq<LogRecord>)
      requires AllKnown(request.severity)
      ensures found == SearchWhere.MatchingRecords(key, request, Values(logs))
    {
      hide SearchWhere.Matches;
      found := [];
      var all := Values(logs);
      for i := 0 to |all|
        invariant SearchWhere.MatchingRecords(key, request, all)
                  == found + SearchWhere.MatchingRecords(key, request, all[i..])
      {
        if SearchWhere.Matches(key, all[i], request) {
          found := found + [all[i]];
        }
      }
    }

    method CheckSources(key: ApiKey, ids: seq<string>, projectId: string) returns (r: Result<()>)
      ensures r == SearchWhere.SourcesOfProject(sources.at, key, ids, projectId)
    {
      for i := 0 to |ids|
        invariant SearchWhere.SourcesOfProject(sources.at, key, ids, projectId)
                  == SearchWhere.SourcesOfProject(sources.at, key, ids[i..], projectId)
      {
        var source := SearchWhere.SourceForKey(sources.at, key, ids[i]);
        if source.Err? {
          return Err(source.error);
        }
        if source.value.projectId != projectId {
          return Err(PermissionDenied);
        }
      }
      r := Ok(());
    }

    method SearchLogs(auth: Auth, request: SearchRequest, limitOverride: Option<int>, day: string, settings: M.Settings)
      returns (r: Result<M.Page>)
      requires Valid()
      modifies this
      ensures Valid() && (View(), r) == M.SearchLogs(old(View()), auth, request, limitOverride, day, settings)
    {
      hide Inv, M.AppendAudit, Reserve, QuotaKey, DecodeCursor, AllKnown, M.PageOf, M.PageLimit;
      hide SearchWhere.MatchingRecords, SearchWhere.SourcesOfProject, SearchWhere.ProjectForKey;
      SearchKeepsInv(View(), auth, request, limitOverride, day, settings);
      var range := SearchWhere.ValidateTimeRange(request, settings.maxSearchRangeDays);
      if range.Err? {
        return Err(range.error);
      }
      var project := SearchWhere.ProjectForKey(projects, auth.key, request.projectId);
      if project.Err? {
        return Err(project.error);
      }
      var quota := ReserveQuota(AgentReads, auth.agent.id, day, 1, settings.maxAgentDailyReadQueries, M.READ_REFUSAL);
      if quota.Err? {
        return Err(quota.error);
      }
      var limit := M.PageLimit(request, limitOverride, settings);
      var offset := DecodeCursor(request.cursor);
      if offset.Err? {
        return Err(offset.error);
      }
      if !AllKnown(request.severity) {
        return Err(BadRequest("invalid_severity"));
      }
      var allowed := CheckSources(auth.key, request.sources, request.projectId);
      if allowed.Err? {
        return Err(allowed.error);
      }
      var records := MatchingRecords(auth.key, request);
      records := M.SortRecords(records, request.sort);
      var page := M.PageOf(records, offset.value, limit);
      Audit("logs.search", auth.key.orgId, auth.agent.id, auth.key.id, Some(request.projectId), None, None);
      r := Ok(page);
    }
  }
}
