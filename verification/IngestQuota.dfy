// The daily quota counters over whole runs: each equals what was charged to it, and none passes its limit.
module IngestQuota {
  import opened Base
  import opened Records
  import opened Severity
  import opened Ids
  import opened Quota
  import opened StoreModel
  import opened StoreInvariant
  import opened StoreSteps
  import opened ExactlyOnce
  import SearchWhere

  // ---------- what a command is charged for ----------

  // The project of the log that the step from s to t stored.
  function StoredProject(s: State, t: State): Option<string> {
    if |t.logs.order| <= |s.logs.order| then None
    else
      var id := t.logs.order[|t.logs.order| - 1];
      if id in t.logs.at then Some(t.logs.at[id].projectId) else None
  }

  predicate RefusedByProject(s: State, c: Command, settings: Settings)
    requires c.Ingest?
  {
    var auth := Authenticate(s, c.keyId);
    && auth.Some?
    && IngestLog(s, auth.value, c.log, c.idempotencyKey, c.arrival, settings).1 == Err(RateLimited(PROJECT_REFUSAL))
  }

  predicate RefusedRead(s: State, c: Command, settings: Settings)
    requires c.Search?
  {
    var auth := Authenticate(s, c.keyId);
    && auth.Some?
    && SearchLogs(s, auth.value, c.request, c.limitOverride, c.day, settings).1 == Err(RateLimited(READ_REFUSAL))
  }

  // The project of a stored log pays its size; the key pays for its stored logs and for those that the
  // project's quota then refused; the agent pays one for every search that passes the first checks.
  function Cost(s: State, c: Command, settings: Settings, kind: Kind, id: string, day: string): int {
    match kind
    case ProjectIngest =>
      if c.Ingest? && c.arrival.projectDay == day && StoredProject(s, Execute(s, c, settings)) == Some(id)
      then c.arrival.payloadSize else 0
    case KeyIngest =>
      if && c.Ingest? && c.keyId == id && c.arrival.keyDay == day
         && (StoredProject(s, Execute(s, c, settings)).Some? || RefusedByProject(s, c, settings))
      then c.arrival.payloadSize else 0
    case AgentReads =>
      var auth := if c.Search? then Authenticate(s, c.keyId) else None;
      if && auth.Some? && auth.value.agent.id == id && c.day == day
         && CheckSearch(s, auth.value, c.request, settings).Ok? && !RefusedRead(s, c, settings)
      then 1 else 0
  }

  function TotalCost(commands: seq<Command>, settings: Settings, kind: Kind, id: string, day: string): int {
    if commands == [] then 0
    else
      var before, c := commands[..|commands| - 1], commands[|commands| - 1];
      TotalCost(before, settings, kind, id, day) + Cost(Run(before, settings), c, settings, kind, id, day)
  }

  function LimitOf(kind: Kind, settings: Settings): int {
    match kind
    case ProjectIngest => settings.maxProjectDailyIngestBytes
    case KeyIngest => settings.maxKeyDailyIngestBytes
    case AgentReads => settings.maxAgentDailyReadQueries
  }

  // The dates a command carries are ISO dates.
  predicate HasDays(c: Command) {
    && (c.Ingest? ==> IsDay(c.arrival.keyDay) && IsDay(c.arrival.projectDay))
    && (c.Search? ==> IsDay(c.day))
  }

  // ---------- one reservation ----------

  predicate Within(quota: map<string, int>, kind: Kind, id: string, day: string, settings: Settings) {
    LimitOf(kind, settings) > 0 ==> Counter(quota, QuotaKey(kind, id, day)) <= LimitOf(kind, settings)
  }

  // A reservation charges its own counter and no other, and keeps it within the limit.
  lemma ReserveCharges(quota: map<string, int>, kind: Kind, id: string, day: string, amount: int, settings: Settings,
                       otherKind: Kind, otherId: string, otherDay: string)
    requires IsDay(day) && IsDay(otherDay)
    requires Reserve(quota, QuotaKey(kind, id, day), amount, LimitOf(kind, settings)).Some?
    ensures var after := Reserve(quota, QuotaKey(kind, id, day), amount, LimitOf(kind, settings)).value;
            var key := QuotaKey(otherKind, otherId, otherDay);
            var same := otherKind == kind && otherId == id && otherDay == day;
            && Counter(after, key) == Counter(quota, key) + (if same && LimitOf(kind, settings) > 0 then amount else 0)
            && (Within(quota, otherKind, otherId, otherDay, settings)
                ==> Within(after, otherKind, otherId, otherDay, settings))
  {
    if QuotaKey(kind, id, day) == QuotaKey(otherKind, otherId, otherDay) {
      QuotaKeysDiffer(kind, id, day, otherKind, otherId, otherDay);
    }
    hide QuotaKey;
  }

  // What an ingestion for this key and project charges to the given counter.
  function IngestCost(charge: Charge, keyId: string, projectId: string, arrival: Arrival,
                      kind: Kind, id: string, day: string): int
  {
    match kind
    case ProjectIngest =>
      if charge.refusal.None? && projectId == id && arrival.projectDay == day then arrival.payloadSize else 0
    case KeyIngest =>
      if charge.refusal != Some(RateLimited(KEY_REFUSAL)) && keyId == id && arrival.keyDay == day
      then arrival.payloadSize else 0
    case AgentReads => 0
  }

  lemma IngestCharges(quota: map<string, int>, keyId: string, projectId: string, arrival: Arrival, settings: Settings,
                      kind: Kind, id: string, day: string)
    requires IsDay(arrival.keyDay) && IsDay(arrival.projectDay) && IsDay(day)
    ensures var charge := ChargeIngest(quota, keyId, projectId, arrival, settings);
            var key := QuotaKey(kind, id, day);
            && (charge.refusal.Some? ==>
                  || charge.refusal == Some(RateLimited(KEY_REFUSAL))
                  || charge.refusal == Some(RateLimited(PROJECT_REFUSAL)))
            && Counter(charge.quota, key)
               == Counter(quota, key)
                  + (if LimitOf(kind, settings) <= 0 then 0
                     else IngestCost(charge, keyId, projectId, arrival, kind, id, day))
            && (Within(quota, kind, id, day, settings) ==> Within(charge.quota, kind, id, day, settings))
  {
    var first := Reserve(quota, QuotaKey(KeyIngest, keyId, arrival.keyDay), arrival.payloadSize,
                         LimitOf(KeyIngest, settings));
    if first.Some? {
      ReserveCharges(quota, KeyIngest, keyId, arrival.keyDay, arrival.payloadSize, settings, kind, id, day);
      var second := Reserve(first.value, QuotaKey(ProjectIngest, projectId, arrival.projectDay), arrival.payloadSize,
                            LimitOf(ProjectIngest, settings));
      if second.Some? {
        ReserveCharges(first.value, ProjectIngest, projectId, arrival.projectDay, arrival.payloadSize, settings, kind,
                       id, day);
      }
    }
    RefusalsDiffer();
    hide Reserve, QuotaKey, Counter, Within;
  }

  lemma RefusalsDiffer()
    ensures KEY_REFUSAL != PROJECT_REFUSAL
  {
    assert KEY_REFUSAL[0] != PROJECT_REFUSAL[0];
  }

  // ---------- one command ----------

  // The counter after a step is the counter before it plus the given cost, if the quota is on.
  ghost predicate Charged(s: State, t: State, settings: Settings, kind: Kind, id: string, day: string, cost: int) {
    var key := QuotaKey(kind, id, day);
    && Counter(t.quota, key) == Counter(s.quota, key) + (if LimitOf(kind, settings) > 0 then cost else 0)
    && (Within(s.quota, kind, id, day, settings) ==> Within(t.quota, kind, id, day, settings))
  }

  lemma NotCharged(s: State, t: State, settings: Settings, kind: Kind, id: string, day: string)
    requires t.quota == s.quota
    ensures Charged(s, t, settings, kind, id, day, 0)
  {
  }

  lemma ResolveNeverRateLimits(s: State, key: ApiKey, projectId: Option<string>, sourceId: Option<string>)
    requires ResolveProjectSource(s, key, projectId, sourceId).Err?
    ensures !ResolveProjectSource(s, key, projectId, sourceId).error.RateLimited?
  {
    hide IsCandidate, Values;
  }

  lemma NotAdmittedError(s: State, auth: Auth, log: LogCreate, idempotencyKey: Option<string>,
                         arrival: Arrival, settings: Settings)
    requires !Admitted(s, auth, log, idempotencyKey)
    ensures IngestLog(s, auth, log, idempotencyKey, arrival, settings).1 != Err(RateLimited(PROJECT_REFUSAL))
  {
    if ResolveProjectSource(s, auth.key, log.projectId, log.sourceId).Err? {
      ResolveNeverRateLimits(s, auth.key, log.projectId, log.sourceId);
    }
    hide ResolveProjectSource, ChargeIngest, StoreRecord, NewRecord;
  }

  // The project an admitted ingestion is charged to.
  function ChargedProject(s: State, auth: Auth, log: LogCreate): string
    requires ResolveProjectSource(s, auth.key, log.projectId, log.sourceId).Ok?
  {
    ResolveProjectSource(s, auth.key, log.projectId, log.sourceId).value.0.id
  }

  lemma PutStores(s: State, t: State, record: LogRecord)
    requires record.id !in s.logs.at && t.logs == s.logs.Put(record.id, record)
    ensures StoredProject(s, t) == Some(record.projectId)
  {
  }

  lemma IngestStored(s: State, auth: Auth, log: LogCreate, idempotencyKey: Option<string>,
                     arrival: Arrival, settings: Settings)
    requires Inv(s)
    ensures StoredProject(s, IngestLog(s, auth, log, idempotencyKey, arrival, settings).0)
            == if Accepted(s, auth, log, idempotencyKey, arrival, settings) then Some(ChargedProject(s, auth, log))
               else None
  {
    IngestTables(s, auth, log, idempotencyKey, arrival, settings);
    if Accepted(s, auth, log, idempotencyKey, arrival, settings) {
      AcceptedProject(s, auth, log, arrival.now);
      hide IngestLog, AcceptedRecord, ChargeOf, ChargedProject, Inv, EffectiveKey;
      PutStores(s, IngestLog(s, auth, log, idempotencyKey, arrival, settings).0,
                AcceptedRecord(s, auth, log, arrival.now));
    } else {
      hide IngestLog, AcceptedRecord, ChargeOf, Inv, EffectiveKey, Accepted, ChargedProject;
    }
  }

  lemma AcceptedProject(s: State, auth: Auth, log: LogCreate, now: int)
    requires ResolveProjectSource(s, auth.key, log.projectId, log.sourceId).Ok? && NormalizeSeverity(log.severity).Ok?
    ensures AcceptedRecord(s, auth, log, now).projectId == ChargedProject(s, auth, log)
  {
    hide ResolveProjectSource, NormalizeSeverity;
  }

  lemma IngestQuotaAfter(s: State, auth: Auth, log: LogCreate, idempotencyKey: Option<string>,
                         arrival: Arrival, settings: Settings)
    ensures IngestLog(s, auth, log, idempotencyKey, arrival, settings).0.quota
            == if Admitted(s, auth, log, idempotencyKey)
               then ChargeOf(s, auth, log, arrival, settings).quota else s.quota
  {
    IngestCases(s, auth, log, idempotencyKey, arrival, settings);
    if Accepted(s, auth, log, idempotencyKey, arrival, settings) {
      var idem := EffectiveKey(idempotencyKey, log);
      var u := NextId(s.(quota := ChargeOf(s, auth, log, arrival, settings).quota), "log").0;
      StoreStages(u, auth, AcceptedRecord(s, auth, log, arrival.now), idem);
    }
    hide IngestLog, StoreRecord, AcceptedRecord, ChargeOf, Grows, WrittenLogs, EffectiveKey, IsReplay;
    hide ResolveProjectSource;
  }

  lemma IngestRefused(s: State, auth: Auth, log: LogCreate, idempotencyKey: Option<string>,
                      arrival: Arrival, settings: Settings)
    ensures IngestLog(s, auth, log, idempotencyKey, arrival, settings).1 == Err(RateLimited(PROJECT_REFUSAL))
            <==> Admitted(s, auth, log, idempotencyKey)
                 && ChargeOf(s, auth, log, arrival, settings).refusal == Some(RateLimited(PROJECT_REFUSAL))
  {
    IngestCases(s, auth, log, idempotencyKey, arrival, settings);
    if !Admitted(s, auth, log, idempotencyKey) {
      NotAdmittedError(s, auth, log, idempotencyKey, arrival, settings);
    }
    hide IngestLog, StoreRecord, AcceptedRecord, ChargeOf, EffectiveKey, IsReplay, ResolveProjectSource;
  }

  function AdmittedCost(s: State, auth: Auth, log: LogCreate, idempotencyKey: Option<string>, arrival: Arrival,
                        settings: Settings, kind: Kind, id: string, day: string): int
  {
    if Admitted(s, auth, log, idempotencyKey) then
      IngestCost(ChargeOf(s, auth, log, arrival, settings), auth.key.id, ChargedProject(s, auth, log), arrival, kind,
                 id, day)
    else 0
  }

  lemma IngestCharged(s: State, auth: Auth, log: LogCreate, idempotencyKey: Option<string>, arrival: Arrival,
                      settings: Settings, kind: Kind, id: string, day: string)
    requires IsDay(arrival.keyDay) && IsDay(arrival.projectDay) && IsDay(day)
    ensures Charged(s, IngestLog(s, auth, log, idempotencyKey, arrival, settings).0, settings, kind, id, day,
                    AdmittedCost(s, auth, log, idempotencyKey, arrival, settings, kind, id, day))
  {
    IngestQuotaAfter(s, auth, log, idempotencyKey, arrival, settings);
    hide IngestLog, ChargeIngest, IsDay, Within, Counter, QuotaKey, ResolveProjectSource, IsReplay;
    hide EffectiveKey, IngestCost;
    if Admitted(s, auth, log, idempotencyKey) {
      IngestCharges(s.quota, auth.key.id, ChargedProject(s, auth, log), arrival, settings, kind, id, day);
    } else {
      NotCharged(s, IngestLog(s, auth, log, idempotencyKey, arrival, settings).0, settings, kind, id, day);
    }
  }

  lemma CostIsAdmittedCost(s: State, auth: Auth, c: Command, settings: Settings, kind: Kind, id: string, day: string)
    requires Inv(s) && c.Ingest? && Authenticate(s, c.keyId) == Some(auth)
    ensures Cost(s, c, settings, kind, id, day)
            == AdmittedCost(s, auth, c.log, c.idempotencyKey, c.arrival, settings, kind, id, day)
  {
    hide *;
    match kind
    case ProjectIngest => ProjectCost(s, auth, c, settings, id, day);
    case KeyIngest => KeyCost(s, auth, c, settings, id, day);
    case AgentReads => NoReadCost(s, auth, c, settings, id, day);
  }

  lemma ProjectCost(s: State, auth: Auth, c: Command, settings: Settings, id: string, day: string)
    requires Inv(s) && c.Ingest? && Authenticate(s, c.keyId) == Some(auth)
    ensures Cost(s, c, settings, ProjectIngest, id, day)
            == AdmittedCost(s, auth, c.log, c.idempotencyKey, c.arrival, settings, ProjectIngest, id, day)
  {
    IngestIsExecuted(s, c, settings);
    IngestStored(s, auth, c.log, c.idempotencyKey, c.arrival, settings);
    hide Execute, IngestLog, Inv, Authenticate, StoredProject, ChargeOf, ChargedProject, Admitted, RefusedByProject;
    hide RefusedRead, CheckSearch;
  }

  lemma KeyCost(s: State, auth: Auth, c: Command, settings: Settings, id: string, day: string)
    requires Inv(s) && c.Ingest? && Authenticate(s, c.keyId) == Some(auth)
    ensures Cost(s, c, settings, KeyIngest, id, day)
            == AdmittedCost(s, auth, c.log, c.idempotencyKey, c.arrival, settings, KeyIngest, id, day)
  {
    IngestIsExecuted(s, c, settings);
    AuthenticatedKey(s, c.keyId);
    IngestStored(s, auth, c.log, c.idempotencyKey, c.arrival, settings);
    IngestRefused(s, auth, c.log, c.idempotencyKey, c.arrival, settings);
    RefusalKinds(s, auth, c.log, c.arrival, settings);
    RefusalsDiffer();
    hide Execute, IngestLog, Inv, Authenticate, StoredProject, ChargeOf, ChargedProject, Admitted;
    hide RefusedRead, CheckSearch;
  }

  lemma NoReadCost(s: State, auth: Auth, c: Command, settings: Settings, id: string, day: string)
    requires c.Ingest?
    ensures Cost(s, c, settings, AgentReads, id, day)
            == AdmittedCost(s, auth, c.log, c.idempotencyKey, c.arrival, settings, AgentReads, id, day)
  {
    hide Execute, Authenticate, ChargeOf, ChargedProject, Admitted, CheckSearch, StoredProject;
  }

  lemma RefusalKinds(s: State, auth: Auth, log: LogCreate, arrival: Arrival, settings: Settings)
    ensures ResolveProjectSource(s, auth.key, log.projectId, log.sourceId).Ok? ==>
              var refusal := ChargeOf(s, auth, log, arrival, settings).refusal;
              || refusal.None?
              || refusal == Some(RateLimited(KEY_REFUSAL)) || refusal == Some(RateLimited(PROJECT_REFUSAL))
  {
    hide ResolveProjectSource, Reserve, QuotaKey;
  }

  lemma IngestStep(s: State, c: Command, settings: Settings, kind: Kind, id: string, day: string)
    requires Inv(s) && c.Ingest? && HasDays(c) && IsDay(day)
    ensures Charged(s, Execute(s, c, settings), settings, kind, id, day, Cost(s, c, settings, kind, id, day))
  {
    IngestIsExecuted(s, c, settings);
    hide Execute, IngestLog, Inv, Authenticate, Charged, AdmittedCost, IsDay;
    var auth := Authenticate(s, c.keyId);
    if auth.Some? {
      CostIsAdmittedCost(s, auth.value, c, settings, kind, id, day);
      IngestCharged(s, auth.value, c.log, c.idempotencyKey, c.arrival, settings, kind, id, day);
    } else {
      NotCharged(s, s, settings, kind, id, day);
    }
  }

  lemma FiltersNeverRateLimit(s: State, auth: Auth, request: SearchRequest)
    requires CheckFilters(s, auth, request).Err?
    ensures !CheckFilters(s, auth, request).error.RateLimited?
  {
    SourcesNeverRateLimit(s.sources.at, auth.key, request.sources, request.projectId);
    hide SearchWhere.SourcesOfProject;
  }

  lemma {:induction false} SourcesNeverRateLimit(sources: map<string, Source>, key: ApiKey, ids: seq<string>,
                                                 projectId: string)
    ensures var r := SearchWhere.SourcesOfProject(sources, key, ids, projectId); r.Err? ==> !r.error.RateLimited?
  {
    if ids != [] {
      SourcesNeverRateLimit(sources, key, ids[1..], projectId);
    }
  }

  lemma SearchQuotaAfter(s: State, auth: Auth, request: SearchRequest, limitOverride: Option<int>,
                         day: string, settings: Settings)
    ensures var (t, r) := SearchLogs(s, auth, request, limitOverride, day, settings);
            var reserved := Reserve(s.quota, QuotaKey(AgentReads, auth.agent.id, day), 1,
                                    settings.maxAgentDailyReadQueries);
            if CheckSearch(s, auth, request, settings).Ok? && reserved.Some? then
              t.quota == reserved.value && r != Err(RateLimited(READ_REFUSAL))
            else
              && t.quota == s.quota
              && (CheckSearch(s, auth, request, settings).Ok? ==> r == Err(RateLimited(READ_REFUSAL)))
  {
    var reserved := Reserve(s.quota, QuotaKey(AgentReads, auth.agent.id, day), 1, settings.maxAgentDailyReadQueries);
    if reserved.Some? && CheckFilters(s.(quota := reserved.value), auth, request).Err? {
      FiltersNeverRateLimit(s.(quota := reserved.value), auth, request);
    }
    hide CheckSearch, CheckFilters, Matching, PageOf, PageLimit, MakeId, CounterOf, Reserve, QuotaKey;
  }

  lemma SearchStep(s: State, c: Command, settings: Settings, kind: Kind, id: string, day: string)
    requires c.Search? && HasDays(c) && IsDay(day)
    ensures Charged(s, Execute(s, c, settings), settings, kind, id, day, Cost(s, c, settings, kind, id, day))
  {
    var auth := Authenticate(s, c.keyId);
    if auth.Some? {
      SearchIsExecuted(s, c, settings);
      SearchQuotaAfter(s, auth.value, c.request, c.limitOverride, c.day, settings);
      var t := Execute(s, c, settings);
      hide Execute, SearchLogs, CheckSearch, Authenticate;
      if t.quota == s.quota && Cost(s, c, settings, kind, id, day) == 0 {
        NotCharged(s, t, settings, kind, id, day);
      } else {
        ReadCharged(s, auth.value.agent.id, c.day, settings, kind, id, day);
      }
    } else {
      NotCharged(s, s, settings, kind, id, day);
      hide Charged, Authenticate;
    }
  }

  lemma SearchIsExecuted(s: State, c: Command, settings: Settings)
    requires c.Search? && Authenticate(s, c.keyId).Some?
    ensures Execute(s, c, settings)
            == SearchLogs(s, Authenticate(s, c.keyId).value, c.request, c.limitOverride, c.day, settings).0
  {
    hide SearchLogs, Authenticate;
  }

  lemma ReadCharged(s: State, agentId: string, readDay: string, settings: Settings, kind: Kind, id: string, day: string)
    requires IsDay(readDay) && IsDay(day)
    ensures var reserved := Reserve(s.quota, QuotaKey(AgentReads, agentId, readDay), 1,
                                    settings.maxAgentDailyReadQueries);
            reserved.Some? ==>
              Charged(s, s.(quota := reserved.value), settings, kind, id, day,
                      if kind == AgentReads && agentId == id && readDay == day then 1 else 0)
  {
    hide IsDay, QuotaKey, Counter, Within, Reserve;
    if Reserve(s.quota, QuotaKey(AgentReads, agentId, readDay), 1, LimitOf(AgentReads, settings)).Some? {
      ReserveCharges(s.quota, AgentReads, agentId, readDay, 1, settings, kind, id, day);
    }
  }

  lemma StepCharges(s: State, c: Command, settings: Settings, kind: Kind, id: string, day: string)
    requires Inv(s) && HasDays(c) && IsDay(day)
    ensures Charged(s, Execute(s, c, settings), settings, kind, id, day, Cost(s, c, settings, kind, id, day))
  {
    hide Execute, Charged, Inv, IsDay;
    if c.Ingest? {
      IngestStep(s, c, settings, kind, id, day);
    } else if c.Search? {
      SearchStep(s, c, settings, kind, id, day);
    } else {
      OthersKeepIngestState(s, c, settings);
      NotCharged(s, Execute(s, c, settings), settings, kind, id, day);
    }
  }

  // ---------- every run ----------

  // Every counter is exactly what was charged to it, and stays within its limit. A quota that is
  // switched off counts nothing.
  lemma {:induction false} QuotaConserved(commands: seq<Command>, settings: Settings, kind: Kind, id: string,
                                          day: string)
    requires IsDay(day) && forall c :: c in commands ==> HasDays(c)
    ensures var counter := Counter(Run(commands, settings).quota, QuotaKey(kind, id, day));
            && counter == (if LimitOf(kind, settings) > 0 then TotalCost(commands, settings, kind, id, day) else 0)
            && (LimitOf(kind, settings) > 0 ==> counter <= LimitOf(kind, settings))
  {
    if commands != [] {
      var before, c := commands[..|commands| - 1], commands[|commands| - 1];
      QuotaConserved(before, settings, kind, id, day);
      RunKeepsInv(before, settings);
      hide Execute, Inv, HasDays, IsDay, Cost, QuotaKey, Counter;
      assert c in commands;
      StepCharges(Run(before, settings), c, settings, kind, id, day);
    }
  }
}
