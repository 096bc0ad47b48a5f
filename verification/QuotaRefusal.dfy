// When the in-memory quotas refuse: exactly when the day's total would exceed the limit
// (_reserve_quota of panda_trace/store.py).
module QuotaRefusal {
  import opened Base
  import opened Records
  import opened Quota
  import opened StoreModel
  import opened StoreInvariant
  import opened StoreSteps
  import opened IngestQuota

  // The day's total so far and the amount are more than a limit that is switched on.
  predicate Exceeds(limit: int, total: int, amount: int) {
    limit > 0 && total + amount > limit
  }

  lemma ReserveIff(quota: map<string, int>, key: string, amount: int, limit: int)
    ensures Reserve(quota, key, amount, limit).None? <==> Exceeds(limit, Counter(quota, key), amount)
  {
  }

  // The two reservations of an ingestion in terms of the counters before the call.
  lemma ChargeRefusedIff(quota: map<string, int>, keyId: string, projectId: string, arrival: Arrival,
                         settings: Settings)
    requires IsDay(arrival.keyDay) && IsDay(arrival.projectDay)
    ensures var refusal := ChargeIngest(quota, keyId, projectId, arrival, settings).refusal;
            var ofKey := Counter(quota, QuotaKey(KeyIngest, keyId, arrival.keyDay));
            var ofProject := Counter(quota, QuotaKey(ProjectIngest, projectId, arrival.projectDay));
            refusal ==
            if Exceeds(settings.maxKeyDailyIngestBytes, ofKey, arrival.payloadSize)
            then Some(RateLimited("API key daily ingest byte quota exceeded."))
            else if Exceeds(settings.maxProjectDailyIngestBytes, ofProject, arrival.payloadSize)
            then Some(RateLimited("Project daily ingest quota exceeded."))
            else None
  {
    if QuotaKey(KeyIngest, keyId, arrival.keyDay) == QuotaKey(ProjectIngest, projectId, arrival.projectDay) {
      QuotaKeysDiffer(KeyIngest, keyId, arrival.keyDay, ProjectIngest, projectId, arrival.projectDay);
    }
    hide QuotaKey, IsDay;
  }

  lemma CounterIsTotal(commands: seq<Command>, settings: Settings, kind: Kind, id: string, day: string, amount: int)
    requires IsDay(day) && forall c :: c in commands ==> HasDays(c)
    ensures Exceeds(LimitOf(kind, settings), Counter(Run(commands, settings).quota, QuotaKey(kind, id, day)), amount)
            <==> Exceeds(LimitOf(kind, settings), TotalCost(commands, settings, kind, id, day), amount)
  {
    QuotaConserved(commands, settings, kind, id, day);
    hide Run, TotalCost, QuotaKey, IsDay;
  }

  // In every run: an ingestion that gets as far as the quotas is refused for its key exactly if what the
  // key was charged that day and its own size are more than the key's limit; otherwise for its project
  // exactly if the logs stored in the project that day and its size are more than the project's limit; and
  // else it is stored.
  lemma IngestRefusedIff(commands: seq<Command>, settings: Settings, auth: Auth, log: LogCreate,
                         idempotencyKey: Option<string>, arrival: Arrival)
    requires IsDay(arrival.keyDay) && IsDay(arrival.projectDay) && forall c :: c in commands ==> HasDays(c)
    requires Admitted(Run(commands, settings), auth, log, idempotencyKey)
    ensures var s := Run(commands, settings);
            var r := IngestLog(s, auth, log, idempotencyKey, arrival, settings).1;
            var project := ResolveProjectSource(s, auth.key, log.projectId, log.sourceId).value.0.id;
            var ofKey := TotalCost(commands, settings, KeyIngest, auth.key.id, arrival.keyDay);
            var ofProject := TotalCost(commands, settings, ProjectIngest, project, arrival.projectDay);
            if Exceeds(settings.maxKeyDailyIngestBytes, ofKey, arrival.payloadSize)
            then r == Err(RateLimited("API key daily ingest byte quota exceeded."))
            else if Exceeds(settings.maxProjectDailyIngestBytes, ofProject, arrival.payloadSize)
            then r == Err(RateLimited("Project daily ingest quota exceeded."))
            else r.Ok?
  {
    var s := Run(commands, settings);
    IngestCases(s, auth, log, idempotencyKey, arrival, settings);
    var project := ResolveProjectSource(s, auth.key, log.projectId, log.sourceId).value.0.id;
    ChargeRefusedIff(s.quota, auth.key.id, project, arrival, settings);
    CounterIsTotal(commands, settings, KeyIngest, auth.key.id, arrival.keyDay, arrival.payloadSize);
    CounterIsTotal(commands, settings, ProjectIngest, project, arrival.projectDay, arrival.payloadSize);
    hide Run, TotalCost, QuotaKey, IsDay, IngestLog, ResolveProjectSource, ChargeIngest, StoreRecord, AcceptedRecord;
    hide HasDays, Admitted, Exceeds;
  }

  // A search that passes its first checks is refused for the quota exactly if the agent's reads of that
  // day have used it up.
  lemma ReadRefusedIff(commands: seq<Command>, settings: Settings, auth: Auth, request: SearchRequest,
                       limitOverride: Option<int>, day: string)
    requires IsDay(day) && forall c :: c in commands ==> HasDays(c)
    requires CheckSearch(Run(commands, settings), auth, request, settings).Ok?
    ensures SearchLogs(Run(commands, settings), auth, request, limitOverride, day, settings).1
            == Err(RateLimited("Agent daily read query quota exceeded."))
            <==> Exceeds(settings.maxAgentDailyReadQueries,
                         TotalCost(commands, settings, AgentReads, auth.agent.id, day), 1)
  {
    var s := Run(commands, settings);
    CounterIsTotal(commands, settings, AgentReads, auth.agent.id, day, 1);
    ReserveIff(s.quota, QuotaKey(AgentReads, auth.agent.id, day), 1, settings.maxAgentDailyReadQueries);
    FiltersError(s, auth, request, settings, day);
    hide Run, TotalCost, QuotaKey, IsDay, CheckSearch, CheckFilters, Matching, PageOf, PageLimit, AuditBy, Exceeds;
    hide HasDays, Reserve;
  }

  lemma FiltersError(s: State, auth: Auth, request: SearchRequest, settings: Settings, day: string)
    ensures var quota := Reserve(s.quota, QuotaKey(AgentReads, auth.agent.id, day), 1,
                                 settings.maxAgentDailyReadQueries);
            quota.Some? && CheckFilters(s.(quota := quota.value), auth, request).Err? ==>
              !CheckFilters(s.(quota := quota.value), auth, request).error.RateLimited?
  {
    var quota := Reserve(s.quota, QuotaKey(AgentReads, auth.agent.id, day), 1, settings.maxAgentDailyReadQueries);
    if quota.Some? && CheckFilters(s.(quota := quota.value), auth, request).Err? {
      FiltersNeverRateLimit(s.(quota := quota.value), auth, request);
    }
    hide CheckFilters, QuotaKey;
  }
}
