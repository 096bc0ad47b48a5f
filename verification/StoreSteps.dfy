// Every operation of the in-memory store keeps the invariant and lets the state grow, and so does
// every run.
module StoreSteps {
  import opened Base
  import opened Records
  import opened Severity
  import opened Ids
  import opened Quota
  import opened StoreModel
  import opened StoreInvariant
  import SearchWhere

  // ---------- the operations ----------

  // Adding one entity under the next identifier.

  lemma NextIdNotUsed(s: State, prefix: string, used: set<string>)
    requires NewIssued(s.counters, prefix, {}, used)
    ensures NextId(s, prefix).1 !in used
    ensures NewIssued(NextId(s, prefix).0.counters, prefix, used, used + {NextId(s, prefix).1})
  {
    NextIsNew(s, prefix);
  }

  lemma NothingNewIn(s: State, counters: map<string, nat>)
    ensures NewIssued(counters, "org", s.orgs, s.orgs)
    ensures NewIssued(counters, "proj", s.projects.Keys, s.projects.Keys)
    ensures NewIssued(counters, "src", s.sources.at.Keys, s.sources.at.Keys)
    ensures NewIssued(counters, "agent", s.agents.Keys, s.agents.Keys)
    ensures NewIssued(counters, "key", s.apiKeys.Keys, s.apiKeys.Keys)
    ensures NewIssued(counters, "log", s.logs.at.Keys, s.logs.at.Keys)
  {
  }

  lemma LinkedSame(s: State, t: State)
    requires Linked(s) && t.audit == s.audit && t.logs == s.logs && t.idempotency == s.idempotency
    ensures Linked(t)
  {
  }

  lemma NoNewPlaces(s: State, t: State)
    requires t.projects == s.projects && t.sources == s.sources && t.agents == s.agents
    requires t.apiKeys == s.apiKeys && t.logs == s.logs
    ensures NewIsPlaced(s, t) && (Named(s) ==> Named(t))
  {
  }

  lemma AddOrg(s: State)
    requires Inv(s)
    ensures var (u, id) := NextId(s, "org");
            var t := u.(orgs := u.orgs + {id});
            Inv(t) && Grows(s, t)
  {
    var (u, id) := NextId(s, "org");
    var t := u.(orgs := u.orgs + {id});
    NextIsNew(s, "org");
    SameGrows(s);
    NextIdNotUsed(s, "org", s.orgs);
    NothingNewIn(s, t.counters);
    NoNewPlaces(s, t);
    hide NewIssued, Named, Tenancy, Linked, MapGrows, KeysGrow, CountersGrow, NewIsPlaced, Issued, CounterOf, NextId;
    LinkedSame(s, t);
    GrownInv(s, t);
  }

  lemma ProjectAdded(s: State, t: State, id: string, added: Project)
    requires Named(s) && id !in s.projects && added.id == id
    requires t == s.(counters := t.counters, projects := s.projects[id := added])
    requires ProjectOk(t, added)
    ensures MapGrows(s.projects, t.projects) && t.projects.Keys == s.projects.Keys + {id}
    ensures Named(t) && NewIsPlaced(s, t)
  {
  }

  lemma AddProject(s: State, orgId: string)
    requires Inv(s) && orgId in s.orgs
    ensures var (u, id) := NextId(s, "proj");
            var t := u.(projects := u.projects[id := Project(id, orgId)]);
            Inv(t) && Grows(s, t)
  {
    var (u, id) := NextId(s, "proj");
    var t := u.(projects := u.projects[id := Project(id, orgId)]);
    NextIsNew(s, "proj");
    SameGrows(s);
    NextIdNotUsed(s, "proj", s.projects.Keys);
    NothingNewIn(s, t.counters);
    ProjectAdded(s, t, id, Project(id, orgId));
    hide NewIssued, Named, Tenancy, Linked, MapGrows, KeysGrow, CountersGrow, NewIsPlaced, Issued, CounterOf, NextId;
    LinkedSame(s, t);
    GrownInv(s, t);
  }

  lemma TableGrows<V(!new)>(table: Table<V>, id: string, added: V)
    requires table.Ok() && id !in table.at
    ensures var next := table.Put(id, added);
            && next.Ok() && MapGrows(table.at, next.at) && next.at.Keys == table.at.Keys + {id}
            && table.order <= next.order
  {
    PutFresh(table, id, added);
    NewEntry(table, id, added);
    PutMapGrows(table.at, id, added);
    hide *;
  }

  lemma NewEntry<V>(table: Table<V>, id: string, added: V)
    requires id !in table.at
    ensures table.Put(id, added) == Table(table.order + [id], table.at[id := added])
  {
  }

  lemma PutMapGrows<V(!new)>(m: map<string, V>, id: string, added: V)
    requires id !in m
    ensures MapGrows(m, m[id := added]) && m[id := added].Keys == m.Keys + {id}
  {
  }

  lemma SourceTableGrows(table: Table<Source>, id: string, added: Source)
    requires table.Ok() && SourcesNamed(table.at) && id !in table.at && added.id == id
    ensures var next := table.Put(id, added);
            && next.Ok() && SourcesNamed(next.at) && MapGrows(table.at, next.at) && next.at.Keys == table.at.Keys + {id}
  {
    TableGrows(table, id, added);
    hide Table<Source>.Ok, MapGrows;
  }

  lemma SourcePlaced(s: State, t: State, id: string, added: Source)
    requires t.sources.at == s.sources.at[id := added] && SourceOk(t, added)
    ensures SourcesPlaced(s, t)
  {
    hide SourceOk;
  }

  lemma SourceAdded(s: State, t: State, id: string, added: Source)
    requires Named(s) && id !in s.sources.at && added.id == id
    requires t == s.(counters := t.counters, sources := s.sources.Put(id, added))
    requires SourceOk(t, added)
    ensures MapGrows(s.sources.at, t.sources.at) && t.sources.at.Keys == s.sources.at.Keys + {id}
    ensures Named(t) && NewIsPlaced(s, t)
  {
    hide ProjectOk, SourceOk, KeyOk, LogOk;
    SourceTableGrows(s.sources, id, added);
    SourcePlaced(s, t, id, added);
    NothingPlaced(s, t);
    hide ProjectsNamed, SourcesNamed, AgentsNamed, KeysNamed, LogsNamed, MapGrows, KeysGrow;
    hide ProjectsPlaced, SourcesPlaced, AgentsPlaced, KeysPlaced, LogsPlaced;
  }

  lemma AddSource(s: State, projectId: string)
    requires Inv(s) && projectId in s.projects
    ensures var (u, id) := NextId(s, "src");
            var t := u.(sources := u.sources.Put(id, Source(id, s.projects[projectId].orgId, projectId)));
            Inv(t) && Grows(s, t)
  {
    var (u, id) := NextId(s, "src");
    var t := u.(sources := u.sources.Put(id, Source(id, s.projects[projectId].orgId, projectId)));
    NextIsNew(s, "src");
    SameGrows(s);
    NextIdNotUsed(s, "src", s.sources.at.Keys);
    NothingNewIn(s, t.counters);
    SourceAdded(s, t, id, Source(id, s.projects[projectId].orgId, projectId));
    hide NewIssued, Named, Tenancy, Linked, MapGrows, KeysGrow, CountersGrow, NewIsPlaced, Issued, CounterOf, NextId;
    LinkedSame(s, t);
    GrownInv(s, t);
  }

  lemma AgentAdded(s: State, t: State, id: string, added: Agent)
    requires Named(s) && id !in s.agents && added.id == id
    requires t == s.(counters := t.counters, agents := s.agents[id := added])
    requires added.orgId in t.orgs
    ensures MapGrows(s.agents, t.agents) && t.agents.Keys == s.agents.Keys + {id}
    ensures Named(t) && NewIsPlaced(s, t)
  {
  }

  lemma AddAgent(s: State, orgId: string)
    requires Inv(s) && orgId in s.orgs
    ensures var (u, id) := NextId(s, "agent");
            var t := u.(agents := u.agents[id := Agent(id, orgId)]);
            Inv(t) && Grows(s, t)
  {
    var (u, id) := NextId(s, "agent");
    var t := u.(agents := u.agents[id := Agent(id, orgId)]);
    NextIsNew(s, "agent");
    SameGrows(s);
    NextIdNotUsed(s, "agent", s.agents.Keys);
    NothingNewIn(s, t.counters);
    AgentAdded(s, t, id, Agent(id, orgId));
    hide NewIssued, Named, Tenancy, Linked, MapGrows, KeysGrow, CountersGrow, NewIsPlaced, Issued, CounterOf, NextId;
    LinkedSame(s, t);
    GrownInv(s, t);
  }

  lemma KeyAdded(s: State, t: State, id: string, added: ApiKey)
    requires Named(s) && id !in s.apiKeys && added.id == id
    requires t == s.(counters := t.counters, apiKeys := s.apiKeys[id := added])
    requires KeyOk(t, added)
    ensures KeysGrow(s.apiKeys, t.apiKeys) && t.apiKeys.Keys == s.apiKeys.Keys + {id}
    ensures Named(t) && NewIsPlaced(s, t)
  {
  }

  lemma AddKey(s: State, agentId: string, orgId: string, projectIds: seq<string>, sourceIds: seq<string>)
    requires Inv(s) && KeyOk(s, ApiKey("", agentId, orgId, projectIds, sourceIds, false))
    ensures var (u, id) := NextId(s, "key");
            var t := u.(apiKeys := u.apiKeys[id := ApiKey(id, agentId, orgId, projectIds, sourceIds, false)]);
            Inv(t) && Grows(s, t)
  {
    var (u, id) := NextId(s, "key");
    var t := u.(apiKeys := u.apiKeys[id := ApiKey(id, agentId, orgId, projectIds, sourceIds, false)]);
    NextIsNew(s, "key");
    SameGrows(s);
    NextIdNotUsed(s, "key", s.apiKeys.Keys);
    NothingNewIn(s, t.counters);
    KeyAdded(s, t, id, ApiKey(id, agentId, orgId, projectIds, sourceIds, false));
    hide NewIssued, Named, Tenancy, Linked, MapGrows, KeysGrow, CountersGrow, NewIsPlaced, Issued, CounterOf, NextId;
    LinkedSame(s, t);
    GrownInv(s, t);
  }

  // The three new identifiers do not depend on the tables, so the three entities can be added one by one.
  lemma BootstrapStages(s: State)
    ensures var (s1, orgId) := NextId(s, "org");
            var t1 := s1.(orgs := s1.orgs + {orgId});
            var (s2, agentId) := NextId(t1, "agent");
            var t2 := s2.(agents := s2.agents[agentId := Agent(agentId, orgId)]);
            var (s3, keyId) := NextId(t2, "key");
            var t3 := s3.(apiKeys := s3.apiKeys[keyId := ApiKey(keyId, agentId, orgId, [], [], false)]);
            CreateOrgBootstrap(s).0 == AppendAudit(t3, "orgs.create", orgId, agentId, keyId, None, None, None)
  {
    hide AppendAudit, MakeId, CounterOf;
  }

  lemma CreateOrgKeepsInv(s: State)
    requires Inv(s)
    ensures Inv(CreateOrgBootstrap(s).0) && Grows(s, CreateOrgBootstrap(s).0)
  {
    var (s1, orgId) := NextId(s, "org");
    var t1 := s1.(orgs := s1.orgs + {orgId});
    var (s2, agentId) := NextId(t1, "agent");
    var t2 := s2.(agents := s2.agents[agentId := Agent(agentId, orgId)]);
    var (s3, keyId) := NextId(t2, "key");
    var t3 := s3.(apiKeys := s3.apiKeys[keyId := ApiKey(keyId, agentId, orgId, [], [], false)]);
    assert t1.orgs == s1.orgs + {orgId} && t2.orgs == t1.orgs && t2.agents[agentId] == Agent(agentId, orgId);
    assert KeyOk(t2, ApiKey("", agentId, orgId, [], [], false));
    hide *;
    BootstrapStages(s);
    AddOrg(s);
    AddAgent(t1, orgId);
    AddKey(t2, agentId, orgId, [], []);
    GrowsTransitive(s, t1, t2);
    GrowsTransitive(s, t2, t3);
    ThenAudit(s, t3, "orgs.create", orgId, agentId, keyId, None, None);
  }

  lemma CreateProjectKeepsInv(s: State, auth: Auth, orgId: string)
    requires Inv(s)
    ensures var t := CreateProject(s, auth, orgId).0; Inv(t) && Grows(s, t)
  {
    hide Inv, Grows, NextId, AppendAudit;
    if RequireOrg(s, auth, orgId).Ok? {
      AddProject(s, orgId);
      var (u, id) := NextId(s, "proj");
      var t := u.(projects := u.projects[id := Project(id, orgId)]);
      ThenAudit(s, t, "projects.create", auth.key.orgId, auth.agent.id, auth.key.id, Some(id), None);
    } else {
      SameGrows(s);
    }
  }

  lemma ProjectNamed(s: State, projectId: string)
    requires Inv(s) && projectId in s.projects
    ensures s.projects[projectId].id == projectId
  {
  }

  lemma CreateSourceKeepsInv(s: State, auth: Auth, projectId: string)
    requires Inv(s)
    ensures var t := CreateSource(s, auth, projectId).0; Inv(t) && Grows(s, t)
  {
    hide Inv, Grows, NextId, AppendAudit;
    if SearchWhere.ProjectForKey(s.projects, auth.key, projectId).Ok? {
      var project := s.projects[projectId];
      ProjectNamed(s, projectId);
      AddSource(s, projectId);
      var (u, id) := NextId(s, "src");
      var t := u.(sources := u.sources.Put(id, Source(id, project.orgId, projectId)));
      ThenAudit(s, t, "sources.create", project.orgId, auth.agent.id, auth.key.id, Some(project.id), Some(id));
    } else {
      SameGrows(s);
    }
  }

  lemma CreateAgentKeepsInv(s: State, auth: Auth, orgId: string)
    requires Inv(s)
    ensures var t := CreateAgent(s, auth, orgId).0; Inv(t) && Grows(s, t)
  {
    hide Inv, Grows, NextId, AppendAudit;
    if RequireOrg(s, auth, orgId).Ok? {
      AddAgent(s, orgId);
      var (u, id) := NextId(s, "agent");
      var t := u.(agents := u.agents[id := Agent(id, orgId)]);
      ThenAudit(s, t, "agents.create", auth.key.orgId, auth.agent.id, auth.key.id, None, None);
    } else {
      SameGrows(s);
    }
  }

  lemma {:induction false} CheckedProjects(s: State, key: ApiKey, ids: seq<string>)
    requires CheckProjects(s, key, ids).Ok?
    ensures forall p :: p in ids ==> p in s.projects && s.projects[p].orgId == key.orgId
  {
    if ids != [] {
      CheckedProjects(s, key, ids[1..]);
    }
  }

  lemma {:induction false} CheckedSources(s: State, key: ApiKey, ids: seq<string>)
    requires CheckSources(s, key, ids).Ok?
    ensures forall x :: x in ids ==> x in s.sources.at && s.sources.at[x].orgId == key.orgId
  {
    if ids != [] {
      CheckedSources(s, key, ids[1..]);
    }
  }

  lemma NewKeyFits(s: State, auth: Auth, agentId: string, orgId: string,
                   projectIds: seq<string>, sourceIds: seq<string>)
    requires CheckNewKey(s, auth, agentId, orgId, projectIds, sourceIds).Ok?
    ensures KeyOk(s, ApiKey("", agentId, orgId, SortedUnique(projectIds), SortedUnique(sourceIds), false))
  {
    CheckedProjects(s, auth.key, projectIds);
    CheckedSources(s, auth.key, sourceIds);
    hide SortedUnique, CheckProjects, CheckSources;
  }

  lemma CreateApiKeyKeepsInv(s: State, auth: Auth, agentId: string, orgId: string,
                             projectIds: seq<string>, sourceIds: seq<string>)
    requires Inv(s)
    ensures var t := CreateApiKey(s, auth, agentId, orgId, projectIds, sourceIds).0; Inv(t) && Grows(s, t)
  {
    hide Inv, Grows, NextId, AppendAudit, SortedUnique, CheckNewKey, KeyOk;
    if CheckNewKey(s, auth, agentId, orgId, projectIds, sourceIds).Ok? {
      var ps, xs := SortedUnique(projectIds), SortedUnique(sourceIds);
      NewKeyFits(s, auth, agentId, orgId, projectIds, sourceIds);
      AddKey(s, agentId, orgId, ps, xs);
      var (u, id) := NextId(s, "key");
      var t := u.(apiKeys := u.apiKeys[id := ApiKey(id, agentId, orgId, ps, xs, false)]);
      ThenAudit(s, t, "api_keys.create", auth.key.orgId, auth.agent.id, auth.key.id, None, None);
    } else {
      SameGrows(s);
    }
  }

  lemma RevokeKeepsInv(s: State, auth: Auth, keyId: string)
    requires Inv(s)
    ensures var t := RevokeApiKey(s, auth, keyId).0; Inv(t) && Grows(s, t)
  {
    hide Inv, Grows, AppendAudit;
    if keyId in s.apiKeys && s.apiKeys[keyId].orgId == auth.key.orgId {
      var t := s.(apiKeys := s.apiKeys[keyId := s.apiKeys[keyId].(revoked := true)]);
      Revoked(s, keyId);
      ThenAudit(s, t, "api_keys.revoke", auth.key.orgId, auth.agent.id, auth.key.id, None, None);
    } else {
      SameGrows(s);
    }
  }

  lemma KeyRevoked(m: map<string, ApiKey>, keyId: string)
    requires keyId in m && KeysNamed(m)
    ensures var n := m[keyId := m[keyId].(revoked := true)];
            n.Keys == m.Keys && KeysNamed(n) && KeysGrow(m, n)
  {
  }

  lemma Revoked(s: State, keyId: string)
    requires Inv(s) && keyId in s.apiKeys
    ensures var t := s.(apiKeys := s.apiKeys[keyId := s.apiKeys[keyId].(revoked := true)]); Inv(t) && Grows(s, t)
  {
    var t := s.(apiKeys := s.apiKeys[keyId := s.apiKeys[keyId].(revoked := true)]);
    SameGrows(s);
    NothingNewIn(s, t.counters);
    KeyRevoked(s.apiKeys, keyId);
    NothingPlaced(s, t);
    hide ProjectOk, SourceOk, KeyOk, LogOk;
    hide NewIssued, Tenancy, Linked, CountersGrow;
    hide ProjectsNamed, SourcesNamed, AgentsNamed, KeysNamed, LogsNamed, MapGrows, KeysGrow;
    hide ProjectsPlaced, SourcesPlaced, AgentsPlaced, KeysPlaced, LogsPlaced;
    LinkedSame(s, t);
    GrownInv(s, t);
  }

  // ---------- ingestion ----------

  lemma SourceNamed(s: State, sourceId: string)
    requires Inv(s) && sourceId in s.sources.at
    ensures s.sources.at[sourceId].id == sourceId
  {
  }

  lemma ListedSource(s: State, x: Source)
    requires x in Values(s.sources)
    ensures exists id :: id in s.sources.at && s.sources.at[id] == x
  {
    ValueMembers(s.sources.order, s.sources.at);
  }

  // The resolved source and project belong together and to the caller's org.
  lemma ResolvedFits(s: State, key: ApiKey, projectId: Option<string>, sourceId: Option<string>)
    requires Inv(s) && ResolveProjectSource(s, key, projectId, sourceId).Ok?
    ensures var (project, source) := ResolveProjectSource(s, key, projectId, sourceId).value;
            && source.id in s.sources.at && s.sources.at[source.id] == source && source.orgId == key.orgId
            && source.projectId == project.id
            && project.id in s.projects && s.projects[project.id] == project && project.orgId == key.orgId
            && ProjectAllowed(key, project.id) && SourceAllowed(key, source.id)
  {
    hide Inv, Values;
    forall id | id in s.projects
      ensures s.projects[id].id == id
    {
      ProjectNamed(s, id);
    }
    forall id | id in s.sources.at
      ensures s.sources.at[id].id == id
    {
      SourceNamed(s, id);
    }
    if !Given(sourceId) {
      var f := (source: Source) => IsCandidate(key, projectId, source);
      var candidates := Filter(Values(s.sources), f);
      assert candidates[0] in candidates;
      ListedSource(s, candidates[0]);
    }
  }

  // The state with the log and its idempotency entry, before the audit entry.
  function WithLog(s: State, auth: Auth, record: LogRecord, idem: Option<string>): State {
    s.(logs := s.logs.Put(record.id, record),
       idempotency := if Given(idem) then s.idempotency[(auth.key.id, idem.value) := record.id] else s.idempotency)
  }

  lemma StoreStages(s: State, auth: Auth, record: LogRecord, idem: Option<string>)
    ensures var v := WithLog(s, auth, record, idem);
            var t := StoreRecord(s, auth, record, idem);
            && t == v.(counters := t.counters, audit := t.audit) && Grows(v, t)
            && WrittenLogs(t.audit) == WrittenLogs(s.audit) + [record.id]
  {
    var v := WithLog(s, auth, record, idem);
    AuditAppends(v, "logs.write", auth.key.orgId, auth.agent.id, auth.key.id,
                 Some(record.projectId), Some(record.sourceId), Some(record.id));
    hide Grows, AppendAudit;
  }

  lemma WithLogGrows(s: State, auth: Auth, record: LogRecord, idem: Option<string>)
    requires Inv(s) && LogOk(s, record) && record.id == NextId(s, "log").1
    requires Given(idem) ==> (auth.key.id, idem.value) !in s.idempotency
    ensures record.id !in s.logs.at
    ensures var v := WithLog(NextId(s, "log").0, auth, record, idem);
            && Grows(s, v) && NewIsIssued(s, v) && NewIsPlaced(s, v) && v.logs == s.logs.Put(record.id, record)
  {
    var (u, id) := NextId(s, "log");
    NextIsNew(s, "log");
    NextIdNotUsed(s, "log", s.logs.at.Keys);
    var v := WithLog(u, auth, record, idem);
    SameGrows(s);
    NothingNewIn(s, v.counters);
    LogAdded(s, v, id, record);
    IdempotencyGrows(s, u, auth, record, idem);
    hide NewIssued, Named, Tenancy, Linked, MapGrows, KeysGrow, CountersGrow, NewIsPlaced, Issued, CounterOf, LogOk;
  }

  lemma IdempotencyGrows(s: State, u: State, auth: Auth, record: LogRecord, idem: Option<string>)
    requires u.idempotency == s.idempotency
    requires Given(idem) ==> (auth.key.id, idem.value) !in s.idempotency
    ensures MapGrows(s.idempotency, WithLog(u, auth, record, idem).idempotency)
  {
  }

  lemma StoreKeepsInv(s: State, auth: Auth, record: LogRecord, idem: Option<string>)
    requires Inv(s) && LogOk(s, record) && record.id == NextId(s, "log").1
    requires Given(idem) ==> (auth.key.id, idem.value) !in s.idempotency
    ensures var t := StoreRecord(NextId(s, "log").0, auth, record, idem); Inv(t) && Grows(s, t)
  {
    var u := NextId(s, "log").0;
    var v, t := WithLog(u, auth, record, idem), StoreRecord(u, auth, record, idem);
    WithLogGrows(s, auth, record, idem);
    StoreStages(u, auth, record, idem);
    LogLinked(s, u, auth, record, idem);
    hide *;
    GrowsTransitive(s, v, t);
    NewLater(s, v, t);
    GrownInv(s, t);
  }

  lemma LogLinked(s: State, u: State, auth: Auth, record: LogRecord, idem: Option<string>)
    requires Linked(s) && record.id !in s.logs.at
    requires u == s.(counters := u.counters)
    ensures Linked(StoreRecord(u, auth, record, idem))
  {
    StoreStages(u, auth, record, idem);
    hide StoreRecord, Grows, WrittenLogs;
  }

  lemma NewLater(s: State, v: State, t: State)
    requires NewIsPlaced(s, v) && NewIsIssued(s, v) && Grows(v, t) && t == v.(counters := t.counters, audit := t.audit)
    ensures NewIsPlaced(s, t) && NewIsIssued(s, t)
  {
    NoNewPlacesLater(s, v, t);
    hide Named, NewIsPlaced, NewIssued, MapGrows, KeysGrow, CountersGrow;
    IssuedStays(v.counters, t.counters, "org", s.orgs, t.orgs);
    IssuedStays(v.counters, t.counters, "proj", s.projects.Keys, t.projects.Keys);
    IssuedStays(v.counters, t.counters, "src", s.sources.at.Keys, t.sources.at.Keys);
    IssuedStays(v.counters, t.counters, "agent", s.agents.Keys, t.agents.Keys);
    IssuedStays(v.counters, t.counters, "key", s.apiKeys.Keys, t.apiKeys.Keys);
    IssuedStays(v.counters, t.counters, "log", s.logs.at.Keys, t.logs.at.Keys);
  }

  lemma IssuedStays(c: map<string, nat>, d: map<string, nat>, prefix: string, before: set<string>, after: set<string>)
    requires NewIssued(c, prefix, before, after) && CountersGrow(c, d)
    ensures NewIssued(d, prefix, before, after)
  {
    forall id | id in after && id !in before
      ensures Issued(d, prefix, id)
    {
      var n: nat :| 1 <= n <= CounterOf(c, prefix) && id == MakeId(prefix, n);
      assert 1 <= n <= CounterOf(d, prefix);
    }
  }

  lemma LogTableGrows(table: Table<LogRecord>, id: string, added: LogRecord)
    requires table.Ok() && LogsNamed(table.at) && id !in table.at && added.id == id
    ensures var next := table.Put(id, added);
            && next.Ok() && LogsNamed(next.at) && MapGrows(table.at, next.at) && next.at.Keys == table.at.Keys + {id}
            && table.order <= next.order
  {
    TableGrows(table, id, added);
    hide Table<LogRecord>.Ok, MapGrows;
  }

  lemma LogPlaced(s: State, t: State, id: string, added: LogRecord)
    requires t.logs.at == s.logs.at[id := added] && LogOk(t, added)
    ensures LogsPlaced(s, t)
  {
    hide LogOk;
  }

  lemma LogAdded(s: State, v: State, id: string, record: LogRecord)
    requires Named(s) && id !in s.logs.at && record.id == id && LogOk(s, record)
    requires v == s.(counters := v.counters, logs := s.logs.Put(id, record), idempotency := v.idempotency)
    ensures MapGrows(s.logs.at, v.logs.at) && v.logs.at.Keys == s.logs.at.Keys + {id} && s.logs.order <= v.logs.order
    ensures Named(v) && NewIsPlaced(s, v)
  {
    LogOkHere(s, v, record);
    hide ProjectOk, SourceOk, KeyOk, LogOk;
    LogTableGrows(s.logs, id, record);
    LogPlaced(s, v, id, record);
    NothingPlaced(s, v);
    hide ProjectsNamed, SourcesNamed, AgentsNamed, KeysNamed, LogsNamed, MapGrows, KeysGrow;
    hide ProjectsPlaced, SourcesPlaced, AgentsPlaced, KeysPlaced, LogsPlaced;
  }

  lemma LogOkHere(s: State, v: State, record: LogRecord)
    requires LogOk(s, record) && v.projects == s.projects && v.sources == s.sources
    ensures LogOk(v, record)
  {
  }

  lemma NoNewPlacesLater(s: State, v: State, t: State)
    requires NewIsPlaced(s, v) && Named(v) && t == v.(counters := t.counters, audit := t.audit)
    ensures NewIsPlaced(s, t) && Named(t)
  {
  }

  // Whether a call gets past the checks that precede the quotas.
  predicate Admitted(s: State, auth: Auth, log: LogCreate, idempotencyKey: Option<string>) {
    && !IsReplay(s, auth, EffectiveKey(idempotencyKey, log))
    && ResolveProjectSource(s, auth.key, log.projectId, log.sourceId).Ok?
    && NormalizeSeverity(log.severity).Ok?
  }

  function ChargeOf(s: State, auth: Auth, log: LogCreate, arrival: Arrival, settings: Settings): Charge
    requires ResolveProjectSource(s, auth.key, log.projectId, log.sourceId).Ok?
  {
    var project := ResolveProjectSource(s, auth.key, log.projectId, log.sourceId).value.0;
    ChargeIngest(s.quota, auth.key.id, project.id, arrival, settings)
  }

  predicate Accepted(s: State, auth: Auth, log: LogCreate, idempotencyKey: Option<string>,
                     arrival: Arrival, settings: Settings)
  {
    Admitted(s, auth, log, idempotencyKey) && ChargeOf(s, auth, log, arrival, settings).refusal.None?
  }

  function AcceptedRecord(s: State, auth: Auth, log: LogCreate, now: int): LogRecord
    requires ResolveProjectSource(s, auth.key, log.projectId, log.sourceId).Ok? && NormalizeSeverity(log.severity).Ok?
  {
    var (project, source) := ResolveProjectSource(s, auth.key, log.projectId, log.sourceId).value;
    NewRecord(NextId(s, "log").1, auth, project, source, NormalizeSeverity(log.severity).value, log, now)
  }

  // The three ways an ingestion ends: nothing changes, only quotas change, or a log is stored.
  lemma IngestCases(s: State, auth: Auth, log: LogCreate, idempotencyKey: Option<string>,
                    arrival: Arrival, settings: Settings)
    ensures var (t, r) := IngestLog(s, auth, log, idempotencyKey, arrival, settings);
            var idem := EffectiveKey(idempotencyKey, log);
            if !Admitted(s, auth, log, idempotencyKey) then
              t == s && (r.Ok? <==> IsReplay(s, auth, idem))
              && (r.Ok? ==> r.value == s.logs.at[s.idempotency[(auth.key.id, idem.value)]])
            else
              var charge := ChargeOf(s, auth, log, arrival, settings);
              var charged := s.(quota := charge.quota);
              if charge.refusal.Some? then t == charged && r == Err(charge.refusal.value)
              else
                var record := AcceptedRecord(s, auth, log, arrival.now);
                r == Ok(record) && t == StoreRecord(NextId(charged, "log").0, auth, record, idem)
  {
    hide ResolveProjectSource, NormalizeSeverity, ChargeIngest, StoreRecord, NewRecord, MakeId, CounterOf;
  }

  lemma AcceptedFits(s: State, auth: Auth, log: LogCreate, now: int)
    requires Inv(s)
    requires ResolveProjectSource(s, auth.key, log.projectId, log.sourceId).Ok? && NormalizeSeverity(log.severity).Ok?
    ensures LogOk(s, AcceptedRecord(s, auth, log, now)) && AcceptedRecord(s, auth, log, now).id == NextId(s, "log").1
  {
    ResolvedFits(s, auth.key, log.projectId, log.sourceId);
    hide ResolveProjectSource, NormalizeSeverity, Inv, NextId, ProjectAllowed, SourceAllowed;
  }

  // An entry of the idempotency table always leads to a log, so a call that is no replay has no entry.
  lemma NoReplayNoEntry(s: State, auth: Auth, idem: Option<string>)
    requires Inv(s) && !IsReplay(s, auth, idem) && Given(idem)
    ensures (auth.key.id, idem.value) !in s.idempotency
  {
  }

  lemma IngestKeepsInv(s: State, auth: Auth, log: LogCreate, idempotencyKey: Option<string>,
                       arrival: Arrival, settings: Settings)
    requires Inv(s)
    ensures var t := IngestLog(s, auth, log, idempotencyKey, arrival, settings).0; Inv(t) && Grows(s, t)
  {
    var idem := EffectiveKey(idempotencyKey, log);
    IngestCases(s, auth, log, idempotencyKey, arrival, settings);
    hide IngestLog, Inv, Grows, StoreRecord, NextId, ChargeOf, AcceptedRecord, IsReplay, ResolveProjectSource;
    hide NormalizeSeverity;
    if Admitted(s, auth, log, idempotencyKey) {
      var charged := s.(quota := ChargeOf(s, auth, log, arrival, settings).quota);
      QuotaKeepsInv(s, charged.quota);
      if Accepted(s, auth, log, idempotencyKey, arrival, settings) {
        var record := AcceptedRecord(s, auth, log, arrival.now);
        AcceptedFits(s, auth, log, arrival.now);
        LogOkLater(s, charged, record);
        QuotaOnly(s, charged);
        if Given(idem) {
          NoReplayNoEntry(s, auth, idem);
        }
        StoreKeepsInv(charged, auth, record, idem);
        GrowsTransitive(s, charged, StoreRecord(NextId(charged, "log").0, auth, record, idem));
      }
    } else {
      SameGrows(s);
    }
  }

  lemma QuotaOnly(s: State, t: State)
    requires t == s.(quota := t.quota)
    ensures NextId(t, "log").1 == NextId(s, "log").1
  {
  }

  lemma SearchKeepsInv(s: State, auth: Auth, request: SearchRequest, limitOverride: Option<int>,
                       day: string, settings: Settings)
    requires Inv(s)
    ensures var t := SearchLogs(s, auth, request, limitOverride, day, settings).0; Inv(t) && Grows(s, t)
  {
    SearchChanges(s, auth, request, limitOverride, day, settings);
    hide SearchLogs, Inv, Grows, AppendAudit;
    var (t, r) := SearchLogs(s, auth, request, limitOverride, day, settings);
    var u := s.(quota := t.quota);
    QuotaKeepsInv(s, t.quota);
    if r.Ok? {
      ThenAudit(s, u, "logs.search", auth.key.orgId, auth.agent.id, auth.key.id, Some(request.projectId), None);
    }
  }

  // A search changes quotas, and when it succeeds it adds one audit entry.
  lemma SearchChanges(s: State, auth: Auth, request: SearchRequest, limitOverride: Option<int>,
                      day: string, settings: Settings)
    ensures var (t, r) := SearchLogs(s, auth, request, limitOverride, day, settings);
            var u := s.(quota := t.quota);
            t == if r.Ok? then AuditBy(u, auth, "logs.search", Some(request.projectId), None, None) else u
  {
    hide MakeId, CounterOf, CheckSearch, CheckFilters, Matching, PageOf, PageLimit, Reserve, QuotaKey;
  }

  // ---------- every run ----------

  lemma ExecuteKeepsInv(s: State, c: Command, settings: Settings)
    requires Inv(s)
    ensures Inv(Execute(s, c, settings)) && Grows(s, Execute(s, c, settings))
  {
    hide Inv, Grows, Authenticate;
    SameGrows(s);
    if c.Bootstrap? {
      CreateOrgKeepsInv(s);
    } else if Authenticate(s, c.keyId).Some? {
      var auth := Authenticate(s, c.keyId).value;
      match c {
        case Bootstrap =>
        case NewProject(_, orgId) => CreateProjectKeepsInv(s, auth, orgId);
        case NewSource(_, projectId) => CreateSourceKeepsInv(s, auth, projectId);
        case NewAgent(_, orgId) => CreateAgentKeepsInv(s, auth, orgId);
        case NewKey(_, agentId, orgId, projectIds, sourceIds) =>
          CreateApiKeyKeepsInv(s, auth, agentId, orgId, projectIds, sourceIds);
        case Revoke(_, target) => RevokeKeepsInv(s, auth, target);
        case Ingest(_, log, idempotencyKey, arrival) =>
          IngestKeepsInv(s, auth, log, idempotencyKey, arrival, settings);
        case Search(_, request, limitOverride, day) =>
          SearchKeepsInv(s, auth, request, limitOverride, day, settings);
      }
    }
  }

  lemma RunOneMore(commands: seq<Command>, c: Command, settings: Settings)
    ensures Run(commands + [c], settings) == Execute(Run(commands, settings), c, settings)
  {
    assert (commands + [c])[..|commands + [c]| - 1] == commands;
    hide Execute;
  }

  lemma EmptyInv()
    ensures Inv(EMPTY_STATE)
  {
  }

  lemma {:induction false} RunKeepsInv(commands: seq<Command>, settings: Settings)
    ensures Inv(Run(commands, settings))
  {
    hide Inv, Execute, Grows;
    if commands == [] {
      EmptyInv();
    } else {
      RunKeepsInv(commands[..|commands| - 1], settings);
      ExecuteKeepsInv(Run(commands[..|commands| - 1], settings), commands[|commands| - 1], settings);
    }
  }

  // Whatever a run has built is still there, unchanged, at the end of every longer run.
  lemma {:induction false} RunGrows(commands: seq<Command>, more: seq<Command>, settings: Settings)
    ensures Grows(Run(commands, settings), Run(commands + more, settings))
    decreases |more|
  {
    hide Inv, Execute, Grows;
    if more == [] {
      assert commands + more == commands;
      SameGrows(Run(commands, settings));
    } else {
      var last := |more| - 1;
      assert (commands + more)[..|commands + more| - 1] == commands + more[..last];
      RunGrows(commands, more[..last], settings);
      RunKeepsInv(commands + more[..last], settings);
      ExecuteKeepsInv(Run(commands + more[..last], settings), more[last], settings);
      GrowsTransitive(Run(commands, settings), Run(commands + more[..last], settings), Run(commands + more, settings));
    }
  }
}
