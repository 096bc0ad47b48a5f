// What every operation of the in-memory store keeps: fresh identifiers, tenancy, one audit entry per
// stored log, and idempotency entries that name stored logs.
module StoreInvariant {
  import opened Base
  import opened Records
  import opened Ids
  import opened StoreModel

  // ---------- the invariant ----------

  // The identifier has been handed out for this prefix.
  ghost predicate Issued(counters: map<string, nat>, prefix: string, id: string) {
    exists n: nat :: 1 <= n <= CounterOf(counters, prefix) && id == MakeId(prefix, n)
  }

  ghost predicate Fresh(s: State) {
    && NewIssued(s.counters, "org", {}, s.orgs)
    && NewIssued(s.counters, "proj", {}, s.projects.Keys)
    && NewIssued(s.counters, "src", {}, s.sources.at.Keys)
    && NewIssued(s.counters, "agent", {}, s.agents.Keys)
    && NewIssued(s.counters, "key", {}, s.apiKeys.Keys)
    && NewIssued(s.counters, "log", {}, s.logs.at.Keys)
    && Named(s)
  }

  ghost predicate ProjectOk(s: State, p: Project) {
    p.orgId in s.orgs
  }

  // A source belongs to the org of its project.
  ghost predicate SourceOk(s: State, x: Source) {
    x.projectId in s.projects && s.projects[x.projectId].orgId == x.orgId
  }

  // A key belongs to the org of its agent, and lists only projects and sources of that org.
  ghost predicate KeyOk(s: State, k: ApiKey) {
    && k.orgId in s.orgs
    && k.agentId in s.agents && s.agents[k.agentId].orgId == k.orgId
    && (forall p :: p in k.projectIds ==> p in s.projects && s.projects[p].orgId == k.orgId)
    && (forall x :: x in k.sourceIds ==> x in s.sources.at && s.sources.at[x].orgId == k.orgId)
  }

  // A log belongs to the org of its project and of its source, and its source to its project.
  ghost predicate LogOk(s: State, r: LogRecord) {
    && r.projectId in s.projects && s.projects[r.projectId].orgId == r.orgId
    && r.sourceId in s.sources.at && s.sources.at[r.sourceId].projectId == r.projectId
    && s.sources.at[r.sourceId].orgId == r.orgId
  }

  ghost predicate Tenancy(s: State) {
    && (forall id :: id in s.projects ==> ProjectOk(s, s.projects[id]))
    && (forall id :: id in s.sources.at ==> SourceOk(s, s.sources.at[id]))
    && (forall id :: id in s.agents ==> s.agents[id].orgId in s.orgs)
    && (forall id :: id in s.apiKeys ==> KeyOk(s, s.apiKeys[id]))
    && (forall id :: id in s.logs.at ==> LogOk(s, s.logs.at[id]))
  }

  // The logs named by the `logs.write` entries of the audit trail, in their order.
  function WrittenLogs(audit: seq<AuditEvent>): seq<string> {
    if audit == [] then []
    else
      var last := audit[|audit| - 1];
      WrittenLogs(audit[..|audit| - 1])
      + if last.action == "logs.write" && last.logId.Some? then [last.logId.value] else []
  }

  ghost predicate Linked(s: State) {
    && WrittenLogs(s.audit) == s.logs.order
    && (forall k :: k in s.idempotency ==> s.idempotency[k] in s.logs.at)
  }

  ghost predicate Inv(s: State) {
    Fresh(s) && Tenancy(s) && Linked(s)
  }

  // ---------- growth ----------

  ghost predicate MapGrows<K(!new), V(!new)>(m: map<K, V>, n: map<K, V>) {
    forall k :: k in m ==> k in n && n[k] == m[k]
  }

  // A key keeps everything but that it may be revoked.
  ghost predicate KeysGrow(m: map<string, ApiKey>, n: map<string, ApiKey>) {
    forall id :: id in m ==> id in n && n[id].(revoked := m[id].revoked) == m[id] && (m[id].revoked ==> n[id].revoked)
  }

  ghost predicate CountersGrow(m: map<string, nat>, n: map<string, nat>) {
    forall p :: CounterOf(m, p) <= CounterOf(n, p)
  }

  // Nothing that exists is removed or re-parented, nothing recorded is forgotten.
  ghost predicate Grows(s: State, t: State) {
    && CountersGrow(s.counters, t.counters)
    && s.orgs <= t.orgs
    && MapGrows(s.projects, t.projects)
    && MapGrows(s.sources.at, t.sources.at)
    && MapGrows(s.agents, t.agents)
    && KeysGrow(s.apiKeys, t.apiKeys)
    && s.logs.order <= t.logs.order
    && MapGrows(s.logs.at, t.logs.at)
    && s.audit <= t.audit
    && MapGrows(s.idempotency, t.idempotency)
  }

  lemma SameGrows(s: State)
    ensures Grows(s, s)
  {
  }

  lemma IssuedLater(s: State, t: State, prefix: string, id: string)
    requires CountersGrow(s.counters, t.counters) && Issued(s.counters, prefix, id)
    ensures Issued(t.counters, prefix, id)
  {
    var n: nat :| 1 <= n <= CounterOf(s.counters, prefix) && id == MakeId(prefix, n);
    assert 1 <= n <= CounterOf(t.counters, prefix);
  }

  // The next identifier has never been handed out.
  lemma NextIsNew(s: State, prefix: string)
    ensures var (t, id) := NextId(s, prefix);
            && !Issued(s.counters, prefix, id) && Issued(t.counters, prefix, id)
            && CountersGrow(s.counters, t.counters)
  {
    var (t, id) := NextId(s, prefix);
    var m := CounterOf(s.counters, prefix) + 1;
    assert CounterOf(t.counters, prefix) == m && id == MakeId(prefix, m);
    forall n: nat | 1 <= n <= CounterOf(s.counters, prefix)
      ensures id != MakeId(prefix, n)
    {
      if MakeId(prefix, m) == MakeId(prefix, n) {
        IdsDiffer(prefix, m, n);
      }
    }
  }

  lemma KeyOkLater(s: State, t: State, k: ApiKey)
    requires Grows(s, t) && KeyOk(s, k)
    ensures KeyOk(t, k)
  {
  }

  lemma LogOkLater(s: State, t: State, r: LogRecord)
    requires Grows(s, t) && LogOk(s, r)
    ensures LogOk(t, r)
  {
  }

  // The identifiers of a table that are new in it have been handed out.
  ghost predicate NewIssued(counters: map<string, nat>, prefix: string, before: set<string>, after: set<string>) {
    forall id :: id in after && id !in before ==> Issued(counters, prefix, id)
  }

  ghost predicate ProjectsNamed(m: map<string, Project>) {
    forall id :: id in m ==> m[id].id == id
  }

  ghost predicate SourcesNamed(m: map<string, Source>) {
    forall id :: id in m ==> m[id].id == id
  }

  ghost predicate AgentsNamed(m: map<string, Agent>) {
    forall id :: id in m ==> m[id].id == id
  }

  ghost predicate KeysNamed(m: map<string, ApiKey>) {
    forall id :: id in m ==> m[id].id == id
  }

  ghost predicate LogsNamed(m: map<string, LogRecord>) {
    forall id :: id in m ==> m[id].id == id
  }

  ghost predicate Named(s: State) {
    && ProjectsNamed(s.projects) && SourcesNamed(s.sources.at) && AgentsNamed(s.agents)
    && KeysNamed(s.apiKeys) && LogsNamed(s.logs.at)
    && s.sources.Ok() && s.logs.Ok()
  }

  // What is new in t carries new identifiers ...
  ghost predicate NewIsIssued(s: State, t: State) {
    && NewIssued(t.counters, "org", s.orgs, t.orgs)
    && NewIssued(t.counters, "proj", s.projects.Keys, t.projects.Keys)
    && NewIssued(t.counters, "src", s.sources.at.Keys, t.sources.at.Keys)
    && NewIssued(t.counters, "agent", s.agents.Keys, t.agents.Keys)
    && NewIssued(t.counters, "key", s.apiKeys.Keys, t.apiKeys.Keys)
    && NewIssued(t.counters, "log", s.logs.at.Keys, t.logs.at.Keys)
    && Named(t)
  }

  // ... and is placed under one organisation.
  ghost predicate NewIsPlaced(s: State, t: State) {
    ProjectsPlaced(s, t) && SourcesPlaced(s, t) && AgentsPlaced(s, t) && KeysPlaced(s, t) && LogsPlaced(s, t)
  }

  ghost predicate ProjectsPlaced(s: State, t: State) {
    forall id :: id in t.projects && id !in s.projects ==> ProjectOk(t, t.projects[id])
  }

  ghost predicate SourcesPlaced(s: State, t: State) {
    forall id :: id in t.sources.at && id !in s.sources.at ==> SourceOk(t, t.sources.at[id])
  }

  ghost predicate AgentsPlaced(s: State, t: State) {
    forall id :: id in t.agents && id !in s.agents ==> t.agents[id].orgId in t.orgs
  }

  ghost predicate KeysPlaced(s: State, t: State) {
    forall id :: id in t.apiKeys && id !in s.apiKeys ==> KeyOk(t, t.apiKeys[id])
  }

  ghost predicate LogsPlaced(s: State, t: State) {
    forall id :: id in t.logs.at && id !in s.logs.at ==> LogOk(t, t.logs.at[id])
  }

  lemma NothingPlaced(s: State, t: State)
    ensures t.projects.Keys == s.projects.Keys ==> ProjectsPlaced(s, t)
    ensures t.sources.at.Keys == s.sources.at.Keys ==> SourcesPlaced(s, t)
    ensures t.agents.Keys == s.agents.Keys ==> AgentsPlaced(s, t)
    ensures t.apiKeys.Keys == s.apiKeys.Keys ==> KeysPlaced(s, t)
    ensures t.logs.at.Keys == s.logs.at.Keys ==> LogsPlaced(s, t)
  {
    hide ProjectOk, SourceOk, KeyOk, LogOk;
  }

  lemma IssuedTogether(s: State, t: State, prefix: string, before: set<string>, after: set<string>)
    requires CountersGrow(s.counters, t.counters)
    requires NewIssued(s.counters, prefix, {}, before) && NewIssued(t.counters, prefix, before, after)
    ensures NewIssued(t.counters, prefix, {}, after)
  {
    forall id | id in after
      ensures Issued(t.counters, prefix, id)
    {
      if id in before {
        IssuedLater(s, t, prefix, id);
      }
    }
  }

  lemma FreshLater(s: State, t: State)
    requires Fresh(s) && Grows(s, t) && NewIsIssued(s, t)
    ensures Fresh(t)
  {
    hide NewIssued, Named, MapGrows, KeysGrow, CountersGrow;
    IssuedTogether(s, t, "org", s.orgs, t.orgs);
    IssuedTogether(s, t, "proj", s.projects.Keys, t.projects.Keys);
    IssuedTogether(s, t, "src", s.sources.at.Keys, t.sources.at.Keys);
    IssuedTogether(s, t, "agent", s.agents.Keys, t.agents.Keys);
    IssuedTogether(s, t, "key", s.apiKeys.Keys, t.apiKeys.Keys);
    IssuedTogether(s, t, "log", s.logs.at.Keys, t.logs.at.Keys);
  }

  lemma TenancyLater(s: State, t: State)
    requires Tenancy(s) && Grows(s, t) && NewIsPlaced(s, t)
    ensures Tenancy(t)
  {
    forall id | id in s.apiKeys
      ensures KeyOk(t, t.apiKeys[id])
    {
      KeyOkLater(s, t, s.apiKeys[id]);
      RevokedStillOk(t, s.apiKeys[id], t.apiKeys[id]);
    }
    forall id | id in s.logs.at
      ensures LogOk(t, t.logs.at[id])
    {
      LogOkLater(s, t, s.logs.at[id]);
    }
    hide KeyOk, LogOk;
  }

  // A grown state keeps the invariant if everything new in it fits.
  lemma GrownInv(s: State, t: State)
    requires Inv(s) && Grows(s, t) && NewIsIssued(s, t) && NewIsPlaced(s, t) && Linked(t)
    ensures Inv(t)
  {
    hide Fresh, Tenancy, Linked, Grows, NewIsIssued, NewIsPlaced;
    FreshLater(s, t);
    TenancyLater(s, t);
  }

  lemma RevokedStillOk(t: State, k: ApiKey, r: ApiKey)
    requires KeyOk(t, k) && r.(revoked := k.revoked) == k
    ensures KeyOk(t, r)
  {
  }

  lemma AuditAppends(s: State, action: string, orgId: string, agentId: string, apiKeyId: string,
                     projectId: Option<string>, sourceId: Option<string>, logId: Option<string>)
    ensures var t := AppendAudit(s, action, orgId, agentId, apiKeyId, projectId, sourceId, logId);
            && t == s.(counters := t.counters, audit := t.audit)
            && Grows(s, t)
            && WrittenLogs(t.audit) == WrittenLogs(s.audit)
               + if action == "logs.write" && logId.Some? then [logId.value] else []
  {
    var t := AppendAudit(s, action, orgId, agentId, apiKeyId, projectId, sourceId, logId);
    NextIsNew(s, "audit");
    assert t.audit[..|t.audit| - 1] == s.audit;
  }

  lemma GrowsTransitive(s: State, t: State, u: State)
    requires Grows(s, t) && Grows(t, u)
    ensures Grows(s, u)
  {
  }

  // An audit entry about anything but a stored log changes nothing else.
  lemma AuditKeepsInv(s: State, action: string, orgId: string, agentId: string, apiKeyId: string,
                      projectId: Option<string>, sourceId: Option<string>)
    requires Inv(s)
    ensures var t := AppendAudit(s, action, orgId, agentId, apiKeyId, projectId, sourceId, None);
            Inv(t) && Grows(s, t)
  {
    AuditAppends(s, action, orgId, agentId, apiKeyId, projectId, sourceId, None);
    var t := AppendAudit(s, action, orgId, agentId, apiKeyId, projectId, sourceId, None);
    hide AppendAudit, Issued, KeyOk, LogOk, WrittenLogs;
    SameTables(s, t);
    GrownInv(s, t);
  }

  lemma ThenAudit(s: State, t: State, action: string, orgId: string, agentId: string, apiKeyId: string,
                  projectId: Option<string>, sourceId: Option<string>)
    requires Inv(t) && Grows(s, t)
    ensures var u := AppendAudit(t, action, orgId, agentId, apiKeyId, projectId, sourceId, None);
            Inv(u) && Grows(s, u)
  {
    hide *;
    AuditKeepsInv(t, action, orgId, agentId, apiKeyId, projectId, sourceId);
    GrowsTransitive(s, t, AppendAudit(t, action, orgId, agentId, apiKeyId, projectId, sourceId, None));
  }

  // Changing only counters, audit trail and quota adds nothing that would need an owner.
  lemma SameTables(s: State, t: State)
    requires t == s.(counters := t.counters, audit := t.audit, quota := t.quota)
    requires Inv(s)
    ensures NewIsIssued(s, t) && NewIsPlaced(s, t)
  {
  }

  lemma QuotaKeepsInv(s: State, quota: map<string, int>)
    requires Inv(s)
    ensures Inv(s.(quota := quota)) && Grows(s, s.(quota := quota))
  {
    var t := s.(quota := quota);
    SameTables(s, t);
    SameGrows(s);
    hide Fresh, Tenancy, NewIsIssued, NewIsPlaced, MapGrows, KeysGrow, CountersGrow, WrittenLogs;
    GrownInv(s, t);
  }
}
