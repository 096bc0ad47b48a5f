// Idempotent ingestion over whole runs: one stored log per (API key, idempotency key), and replays
// that return it without changing anything.
module ExactlyOnce {
  import opened Base
  import opened Records
  import opened Severity
  import opened Ids
  import opened StoreModel
  import opened StoreInvariant
  import opened StoreSteps
  import SearchWhere

  // The log that the key and idempotency key lead to is r.
  ghost predicate Leads(s: State, keyId: string, idem: string, r: LogRecord) {
    && (keyId, idem) in s.idempotency
    && s.idempotency[(keyId, idem)] in s.logs.at
    && s.logs.at[s.idempotency[(keyId, idem)]] == r
  }

  lemma StoreLeads(s: State, auth: Auth, record: LogRecord, idem: Option<string>)
    requires Given(idem)
    ensures Leads(StoreRecord(s, auth, record, idem), auth.key.id, idem.value, record)
  {
    hide MakeId, CounterOf;
  }

  // An ingestion that returns a log under an idempotency key leaves the two tied together.
  lemma IngestLeads(s: State, auth: Auth, log: LogCreate, idempotencyKey: Option<string>,
                    arrival: Arrival, settings: Settings)
    requires Given(EffectiveKey(idempotencyKey, log))
    requires IngestLog(s, auth, log, idempotencyKey, arrival, settings).1.Ok?
    ensures var (t, r) := IngestLog(s, auth, log, idempotencyKey, arrival, settings);
            Leads(t, auth.key.id, EffectiveKey(idempotencyKey, log).value, r.value)
  {
    var idem := EffectiveKey(idempotencyKey, log);
    IngestCases(s, auth, log, idempotencyKey, arrival, settings);
    hide IngestLog, StoreRecord, AcceptedRecord, ChargeOf, NextId;
    if Admitted(s, auth, log, idempotencyKey) {
      var charged := s.(quota := ChargeOf(s, auth, log, arrival, settings).quota);
      StoreLeads(NextId(charged, "log").0, auth, AcceptedRecord(s, auth, log, arrival.now), idem);
    }
  }

  lemma LeadsLater(s: State, t: State, keyId: string, idem: string, r: LogRecord)
    requires Leads(s, keyId, idem, r) && Grows(s, t)
    ensures Leads(t, keyId, idem, r)
  {
  }

  lemma LeadsReplays(s: State, auth: Auth, log: LogCreate, idempotencyKey: Option<string>,
                     arrival: Arrival, settings: Settings, r: LogRecord)
    requires Given(EffectiveKey(idempotencyKey, log))
    requires Leads(s, auth.key.id, EffectiveKey(idempotencyKey, log).value, r)
    ensures IngestLog(s, auth, log, idempotencyKey, arrival, settings) == (s, Ok(r))
  {
    hide ResolveProjectSource, NormalizeSeverity, ChargeIngest, StoreRecord, NewRecord;
  }

  lemma IngestRuns(commands: seq<Command>, settings: Settings, auth: Auth, log: LogCreate,
                   idempotencyKey: Option<string>, arrival: Arrival)
    requires Authenticate(Run(commands, settings), auth.key.id) == Some(auth)
    ensures Run(commands + [Ingest(auth.key.id, log, idempotencyKey, arrival)], settings)
            == IngestLog(Run(commands, settings), auth, log, idempotencyKey, arrival, settings).0
  {
    RunOneMore(commands, Ingest(auth.key.id, log, idempotencyKey, arrival), settings);
    hide Run, IngestLog, Authenticate;
  }

  // However long after, whoever calls with the same key and whatever the body: the first log comes
  // back and nothing changes.
  lemma ReplayForever(commands: seq<Command>, more: seq<Command>, settings: Settings,
                      auth: Auth, log: LogCreate, idempotencyKey: Option<string>, arrival: Arrival,
                      again: Auth, log2: LogCreate, idempotencyKey2: Option<string>, arrival2: Arrival)
    requires Authenticate(Run(commands, settings), auth.key.id) == Some(auth)
    requires Given(EffectiveKey(idempotencyKey, log))
    requires IngestLog(Run(commands, settings), auth, log, idempotencyKey, arrival, settings).1.Ok?
    requires again.key.id == auth.key.id && EffectiveKey(idempotencyKey2, log2) == EffectiveKey(idempotencyKey, log)
    ensures var r := IngestLog(Run(commands, settings), auth, log, idempotencyKey, arrival, settings).1;
            var u := Run(commands + [Ingest(auth.key.id, log, idempotencyKey, arrival)] + more, settings);
            IngestLog(u, again, log2, idempotencyKey2, arrival2, settings) == (u, r)
  {
    var c := Ingest(auth.key.id, log, idempotencyKey, arrival);
    var s, t := Run(commands, settings), Run(commands + [c], settings);
    var u := Run(commands + [c] + more, settings);
    var r := IngestLog(s, auth, log, idempotencyKey, arrival, settings).1.value;
    hide Run, IngestLog, Leads, Grows, Authenticate, EffectiveKey;
    IngestRuns(commands, settings, auth, log, idempotencyKey, arrival);
    IngestLeads(s, auth, log, idempotencyKey, arrival, settings);
    RunGrows(commands + [c], more, settings);
    LeadsLater(t, u, auth.key.id, EffectiveKey(idempotencyKey, log).value, r);
    LeadsReplays(u, again, log2, idempotencyKey2, arrival2, settings, r);
  }

  // ---------- counting ----------

  // The command stored a log under this key and idempotency key.
  predicate StoresFor(s: State, c: Command, settings: Settings, keyId: string, idem: string) {
    && c.Ingest? && c.keyId == keyId && EffectiveKey(c.idempotencyKey, c.log) == Some(idem)
    && Execute(s, c, settings).logs.order != s.logs.order
  }

  function StoredFor(commands: seq<Command>, settings: Settings, keyId: string, idem: string): nat {
    if commands == [] then 0
    else
      var before, c := commands[..|commands| - 1], commands[|commands| - 1];
      StoredFor(before, settings, keyId, idem)
      + if StoresFor(Run(before, settings), c, settings, keyId, idem) then 1 else 0
  }

  // Nothing that ingestion works on has changed.
  predicate KeepsIngestState(s: State, t: State) {
    t.logs == s.logs && t.idempotency == s.idempotency && t.quota == s.quota
  }

  lemma BootstrapKeeps(s: State)
    ensures KeepsIngestState(s, CreateOrgBootstrap(s).0)
  {
    hide MakeId, CounterOf;
  }

  lemma CreatingKeeps(s: State, auth: Auth, id: string)
    ensures KeepsIngestState(s, CreateProject(s, auth, id).0)
    ensures KeepsIngestState(s, CreateSource(s, auth, id).0)
    ensures KeepsIngestState(s, CreateAgent(s, auth, id).0)
  {
    hide MakeId, CounterOf, RequireOrg, SearchWhere.ProjectForKey;
  }

  lemma KeysKeep(s: State, auth: Auth, id: string, orgId: string, projectIds: seq<string>, sourceIds: seq<string>)
    ensures KeepsIngestState(s, CreateApiKey(s, auth, id, orgId, projectIds, sourceIds).0)
    ensures KeepsIngestState(s, RevokeApiKey(s, auth, id).0)
  {
    hide MakeId, CounterOf, CheckNewKey, SortedUnique;
  }

  lemma OthersKeepIngestState(s: State, c: Command, settings: Settings)
    requires !c.Ingest? && !c.Search?
    ensures KeepsIngestState(s, Execute(s, c, settings))
  {
    hide CreateOrgBootstrap, CreateProject, CreateSource, CreateAgent, CreateApiKey, RevokeApiKey;
    hide KeepsIngestState, Authenticate;
    SameIngestState(s);
    BootstrapKeeps(s);
    if !c.Bootstrap? && Authenticate(s, c.keyId).Some? {
      var auth := Authenticate(s, c.keyId).value;
      match c {
        case Bootstrap =>
        case NewProject(_, orgId) => CreatingKeeps(s, auth, orgId);
        case NewSource(_, projectId) => CreatingKeeps(s, auth, projectId);
        case NewAgent(_, orgId) => CreatingKeeps(s, auth, orgId);
        case NewKey(_, agentId, orgId, projectIds, sourceIds) =>
          KeysKeep(s, auth, agentId, orgId, projectIds, sourceIds);
        case Revoke(_, target) => KeysKeep(s, auth, target, "", [], []);
      }
    }
  }

  lemma SameIngestState(s: State)
    ensures KeepsIngestState(s, s)
  {
  }

  // Only an ingestion touches the logs and the idempotency table.
  lemma OthersKeepLogs(s: State, c: Command, settings: Settings)
    requires !c.Ingest?
    ensures Execute(s, c, settings).logs == s.logs && Execute(s, c, settings).idempotency == s.idempotency
  {
    if c.Search? {
      SearchKeepsLogs(s, c, settings);
    } else {
      hide Execute;
      OthersKeepIngestState(s, c, settings);
    }
  }

  lemma SearchKeepsLogs(s: State, c: Command, settings: Settings)
    requires c.Search?
    ensures Execute(s, c, settings).logs == s.logs && Execute(s, c, settings).idempotency == s.idempotency
  {
    if Authenticate(s, c.keyId).Some? {
      SearchChanges(s, Authenticate(s, c.keyId).value, c.request, c.limitOverride, c.day, settings);
    }
    hide SearchLogs, MakeId, CounterOf, Authenticate;
  }

  // An ingestion either keeps both tables, or stores one log and at most its own entry.
  lemma IngestTables(s: State, auth: Auth, log: LogCreate, idempotencyKey: Option<string>,
                     arrival: Arrival, settings: Settings)
    requires Inv(s)
    ensures var t := IngestLog(s, auth, log, idempotencyKey, arrival, settings).0;
            var idem := EffectiveKey(idempotencyKey, log);
            if Accepted(s, auth, log, idempotencyKey, arrival, settings) then
              var record := AcceptedRecord(s, auth, log, arrival.now);
              var id := record.id;
              && id !in s.logs.at && t.logs == s.logs.Put(id, record) && t.logs.order == s.logs.order + [id]
              && t.idempotency
                 == (if Given(idem) then s.idempotency[(auth.key.id, idem.value) := id] else s.idempotency)
            else t.logs == s.logs && t.idempotency == s.idempotency
  {
    IngestCases(s, auth, log, idempotencyKey, arrival, settings);
    if Accepted(s, auth, log, idempotencyKey, arrival, settings) {
      var idem := EffectiveKey(idempotencyKey, log);
      var charged := s.(quota := ChargeOf(s, auth, log, arrival, settings).quota);
      var record := AcceptedRecord(s, auth, log, arrival.now);
      AcceptedFits(s, auth, log, arrival.now);
      NextLogUnused(s);
      StoreStages(NextId(charged, "log").0, auth, record, idem);
      hide IngestLog, StoreRecord, AcceptedRecord, ChargeOf, Inv, Grows, WrittenLogs, Admitted, EffectiveKey;
    } else {
      hide IngestLog, StoreRecord, AcceptedRecord, ChargeOf, Inv, EffectiveKey, IsReplay, ResolveProjectSource;
    }
  }

  lemma NextLogUnused(s: State)
    requires Inv(s)
    ensures NextId(s, "log").1 !in s.logs.at
  {
    NextIdNotUsed(s, "log", s.logs.at.Keys);
    hide NextId, NewIssued, Named, Tenancy, Linked;
  }

  lemma AuthenticatedKey(s: State, keyId: string)
    requires Inv(s) && Authenticate(s, keyId).Some?
    ensures Authenticate(s, keyId).value.key.id == keyId
  {
    hide NewIssued, Tenancy, Linked, ProjectsNamed, SourcesNamed, AgentsNamed, LogsNamed;
  }

  lemma IngestIsExecuted(s: State, c: Command, settings: Settings)
    requires c.Ingest?
    ensures Execute(s, c, settings) ==
            match Authenticate(s, c.keyId)
            case None => s
            case Some(auth) => IngestLog(s, auth, c.log, c.idempotencyKey, c.arrival, settings).0
  {
    hide IngestLog, Authenticate;
  }

  lemma IngestStores(s: State, c: Command, settings: Settings, keyId: string, idem: string)
    requires Inv(s) && idem != "" && c.Ingest? && Authenticate(s, c.keyId).Some?
    ensures var t := Execute(s, c, settings);
            (keyId, idem) in t.idempotency <==> (keyId, idem) in s.idempotency || StoresFor(s, c, settings, keyId, idem)
    ensures (keyId, idem) in s.idempotency ==> !StoresFor(s, c, settings, keyId, idem)
  {
    hide Execute, IngestLog, Inv, Accepted, AcceptedRecord, Authenticate, EffectiveKey;
    var auth := Authenticate(s, c.keyId).value;
    IngestIsExecuted(s, c, settings);
    AuthenticatedKey(s, c.keyId);
    IngestTables(s, auth, c.log, c.idempotencyKey, c.arrival, settings);
    BoundIsReplay(s, auth, c.log, c.idempotencyKey, c.arrival, settings);
  }

  lemma StepStores(s: State, c: Command, settings: Settings, keyId: string, idem: string)
    requires Inv(s) && idem != ""
    ensures var t := Execute(s, c, settings);
            (keyId, idem) in t.idempotency <==> (keyId, idem) in s.idempotency || StoresFor(s, c, settings, keyId, idem)
    ensures (keyId, idem) in s.idempotency ==> !StoresFor(s, c, settings, keyId, idem)
  {
    hide Execute, Inv, Authenticate;
    if !c.Ingest? {
      OthersKeepLogs(s, c, settings);
    } else if Authenticate(s, c.keyId).None? {
      IngestIsExecuted(s, c, settings);
    } else {
      IngestStores(s, c, settings, keyId, idem);
    }
  }

  lemma BoundIsReplay(s: State, auth: Auth, log: LogCreate, idempotencyKey: Option<string>,
                      arrival: Arrival, settings: Settings)
    requires Inv(s)
    ensures var idem := EffectiveKey(idempotencyKey, log);
            Given(idem) && (auth.key.id, idem.value) in s.idempotency
            ==> !Accepted(s, auth, log, idempotencyKey, arrival, settings)
  {
    hide ResolveProjectSource, NormalizeSeverity, ChargeOf, Fresh, Tenancy;
  }

  // In every run a key and idempotency key have stored one log if they are bound, and none otherwise.
  lemma {:induction false} StoredAtMostOnce(commands: seq<Command>, settings: Settings, keyId: string, idem: string)
    requires idem != ""
    ensures StoredFor(commands, settings, keyId, idem)
            == if (keyId, idem) in Run(commands, settings).idempotency then 1 else 0
  {
    if commands != [] {
      var before, c := commands[..|commands| - 1], commands[|commands| - 1];
      var s := Run(before, settings);
      StoredAtMostOnce(before, settings, keyId, idem);
      RunKeepsInv(before, settings);
      hide Execute, StoresFor, Inv;
      StepStores(s, c, settings, keyId, idem);
    }
  }
}
