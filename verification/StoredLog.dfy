// What a stored log is made of, and that searches and tail filters for its severity find it
// (InMemoryStore.ingest_log of panda_trace/store.py).
module StoredLog {
  import opened Base
  import opened Records
  import opened Severity
  import opened SeverityNames
  import opened Ids
  import opened StoreModel
  import opened StoreInvariant
  import opened StoreSteps
  import opened ExactlyOnce
  import Batch
  import SearchWhere
  import Tail

  // ---------- one call ----------

  // A call that succeeds and is no replay returns, and stores, a log made of what was sent: its severity
  // is the canonical one, and the time of receipt stands in for a missing timestamp.
  lemma StoredAsSent(s: State, auth: Auth, log: LogCreate, idempotencyKey: Option<string>, arrival: Arrival,
                     settings: Settings)
    requires Inv(s) && !IsReplay(s, auth, EffectiveKey(idempotencyKey, log))
    requires IngestLog(s, auth, log, idempotencyKey, arrival, settings).1.Ok?
    ensures var (t, r) := IngestLog(s, auth, log, idempotencyKey, arrival, settings);
            && Batch.IsItem(r.value, log, arrival.now)
            && r.value.orgId == auth.key.orgId
            && ProjectAllowed(auth.key, r.value.projectId) && SourceAllowed(auth.key, r.value.sourceId)
            && r.value.id !in s.logs.at && t.logs == s.logs.Put(r.value.id, r.value)
  {
    IngestCases(s, auth, log, idempotencyKey, arrival, settings);
    IngestTables(s, auth, log, idempotencyKey, arrival, settings);
    AcceptedIsOwn(s, auth, log, idempotencyKey, arrival.now);
    hide IngestLog, Inv, IsReplay, ResolveProjectSource, AcceptedRecord, ChargeOf, StoreRecord, Batch.IsItem;
    hide EffectiveKey, NormalizeSeverity, ProjectAllowed, SourceAllowed;
  }

  lemma AcceptedIsOwn(s: State, auth: Auth, log: LogCreate, idempotencyKey: Option<string>, now: int)
    requires Inv(s) && Admitted(s, auth, log, idempotencyKey)
    ensures var record := AcceptedRecord(s, auth, log, now);
            && Batch.IsItem(record, log, now) && record.orgId == auth.key.orgId
            && ProjectAllowed(auth.key, record.projectId) && SourceAllowed(auth.key, record.sourceId)
  {
    ResolvedFits(s, auth.key, log.projectId, log.sourceId);
    Batch.RecordIsItem(s, auth, log, now);
    hide Inv, IsReplay, ResolveProjectSource, NormalizeSeverity, ProjectAllowed, SourceAllowed, Batch.IsItem;
  }

  // A call that fails before the quotas reports what is wrong with its source first, then its severity.
  lemma IngestErrorIs(s: State, auth: Auth, log: LogCreate, idempotencyKey: Option<string>, arrival: Arrival,
                      settings: Settings)
    requires !IsReplay(s, auth, EffectiveKey(idempotencyKey, log))
    ensures var (t, r) := IngestLog(s, auth, log, idempotencyKey, arrival, settings);
            var resolved := ResolveProjectSource(s, auth.key, log.projectId, log.sourceId);
            && (resolved.Err? ==> t == s && r == Err(resolved.error))
            && (resolved.Ok? && NormalizeSeverity(log.severity).Err? ==>
                  t == s && r == Err(BadRequest("invalid_severity")))
  {
    hide IsReplay, ResolveProjectSource, Accept, EffectiveKey;
  }

  // ---------- all runs ----------

  // The severity of every stored log is canonical.
  ghost predicate Canonical(s: State) {
    forall id :: id in s.logs.at ==> s.logs.at[id].severity in CANONICAL
  }

  lemma IngestKeepsCanonical(s: State, auth: Auth, log: LogCreate, idempotencyKey: Option<string>, arrival: Arrival,
                             settings: Settings)
    requires Inv(s) && Canonical(s)
    ensures Canonical(IngestLog(s, auth, log, idempotencyKey, arrival, settings).0)
  {
    IngestTables(s, auth, log, idempotencyKey, arrival, settings);
    if Accepted(s, auth, log, idempotencyKey, arrival, settings) {
      AcceptedIsOwn(s, auth, log, idempotencyKey, arrival.now);
      NormalizedIsCanonical(log.severity);
    }
    hide IngestLog, Inv, AcceptedRecord, ChargeOf, NormalizeSeverity, CANONICAL, IsReplay, ResolveProjectSource;
  }

  lemma {:induction false} StoredSeverityCanonical(commands: seq<Command>, settings: Settings)
    ensures Canonical(Run(commands, settings))
  {
    if commands != [] {
      var before, c := commands[..|commands| - 1], commands[|commands| - 1];
      var s := Run(before, settings);
      StoredSeverityCanonical(before, settings);
      RunKeepsInv(before, settings);
      hide Execute, Inv, IngestLog, CANONICAL, Authenticate;
      if c.Ingest? {
        IngestIsExecuted(s, c, settings);
        if Authenticate(s, c.keyId).Some? {
          var auth := Authenticate(s, c.keyId).value;
          IngestKeepsCanonical(s, auth, c.log, c.idempotencyKey, c.arrival, settings);
        }
      } else {
        OthersKeepLogs(s, c, settings);
      }
    }
  }

  // ---------- finding a log by its severity ----------

  function AnySeverity(request: SearchRequest): SearchRequest {
    request.(severity := [])
  }

  // A search finds a log sent with some severity if and only if the log passes its other tests and the
  // search lists no severity, or one that names the same.
  lemma SearchesBySeverityIff(key: ApiKey, request: SearchRequest, record: LogRecord, log: LogCreate, now: int)
    requires Batch.IsItem(record, log, now) && AllKnown(request.severity)
    ensures AllKnown(AnySeverity(request).severity)
    ensures SearchWhere.Matches(key, record, request) <==>
              SearchWhere.Matches(key, record, AnySeverity(request))
              && (request.severity != [] ==> exists v :: v in request.severity && SameSeverity(log.severity, v))
  {
    ListedIff(request.severity, log.severity);
    SearchWhere.SetsAgree(request, record);
    hide NormalizeSeverity, KnownSeverity;
    assert SearchWhere.RequestedSources(AnySeverity(request)) == SearchWhere.RequestedSources(request);
    assert NormalizedSet([]) == {};
    hide NormalizedSet, Batch.IsItem;
  }

  // The same for a tail filter; one that names an unknown severity raises instead.
  lemma TailBySeverityIff(filter: TailFilter, record: LogRecord, log: LogCreate, now: int)
    requires Batch.IsItem(record, log, now) && AllKnown(filter.severity)
    ensures Tail.Wanted(record, filter) <==>
              Tail.Wanted(record, filter.(severity := []))
              && (filter.severity != [] ==> exists v :: v in filter.severity && SameSeverity(log.severity, v))
  {
    ListedIff(filter.severity, log.severity);
    hide NormalizeSeverity, NormalizedSet;
  }
}
