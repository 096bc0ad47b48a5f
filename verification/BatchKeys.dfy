// When the key derived for a batch item is already taken (panda_trace/routes_logs.py:63 and
// panda_trace/store.py:267-271): exactly when the item is stored as a log of its own.
module BatchKeys {
  import opened Base
  import opened Text
  import opened Records
  import opened Severity
  import opened Ids
  import opened Quota
  import opened StoreModel
  import opened StoreInvariant
  import opened StoreSteps
  import opened ExactlyOnce
  import opened Batch

  // The item passes its checks, resolves to a source, and both quotas have room for it.
  predicate Storable(s: State, auth: Auth, item: LogCreate, moment: Moment, config: Config) {
    var clean := Prepare(item, config);
    && clean.Ok?
    && ResolveProjectSource(s, auth.key, clean.value.projectId, clean.value.sourceId).Ok?
    && NormalizeSeverity(clean.value.severity).Ok?
    && ChargeOf(s, auth, clean.value, ArrivalOf(clean.value, moment, config), config.settings).refusal.None?
  }

  predicate KeyTaken(s: State, auth: Auth, batchKey: string, index: nat) {
    (auth.key.id, BatchItemKey(batchKey, index)) in s.idempotency
  }

  lemma DerivedKey(clean: LogCreate, batchKey: string, index: nat)
    ensures EffectiveKey(ItemKey(Some(batchKey), index), clean)
            == if batchKey == "" then clean.idempotencyKey else Some(BatchItemKey(batchKey, index))
  {
    ItemKeyGiven(batchKey, index);
    hide BatchItemKey;
  }

  // A storable item is stored as a new log exactly when its derived key is free.
  lemma ItemStoredIff(s: State, auth: Auth, item: LogCreate, index: nat, batchKey: string, moment: Moment,
                      config: Config)
    requires Inv(s) && batchKey != "" && Storable(s, auth, item, moment, config)
    ensures var (t, r) := IngestItem(s, auth, item, index, Some(batchKey), moment, config);
            && r.Ok?
            && (t.logs.order == s.logs.order + [r.value.id] <==> !KeyTaken(s, auth, batchKey, index))
            && (KeyTaken(s, auth, batchKey, index) ==>
                  t == s && Leads(s, auth.key.id, BatchItemKey(batchKey, index), r.value))
  {
    var clean := Prepare(item, config).value;
    var arrival := ArrivalOf(clean, moment, config);
    var key := ItemKey(Some(batchKey), index);
    DerivedKey(clean, batchKey, index);
    ItemKeyGiven(batchKey, index);
    IngestTables(s, auth, clean, key, arrival, config.settings);
    IngestCases(s, auth, clean, key, arrival, config.settings);
    ReplayIffTaken(s, auth, BatchItemKey(batchKey, index));
    hide IngestLog, Inv, ChargeOf, AcceptedRecord, StoreRecord, NextId, ResolveProjectSource, BatchItemKey, Prepare;
    hide EffectiveKey, NormalizeSeverity, IsReplay;
    ReplayLeads(s, auth, Some(BatchItemKey(batchKey, index)));
  }

  lemma ReplayIffTaken(s: State, auth: Auth, key: string)
    requires Inv(s) && key != ""
    ensures IsReplay(s, auth, Some(key)) <==> (auth.key.id, key) in s.idempotency
  {
    hide Fresh, Tenancy, WrittenLogs;
  }

  lemma ReplayLeads(s: State, auth: Auth, idem: Option<string>)
    ensures IsReplay(s, auth, idem) ==>
              Leads(s, auth.key.id, idem.value, s.logs.at[s.idempotency[(auth.key.id, idem.value)]])
  {
  }

  // An item takes no other index's key.
  lemma OtherKeysKept(s: State, auth: Auth, item: LogCreate, index: nat, batchKey: string, moment: Moment,
                      config: Config, other: nat)
    requires Inv(s) && batchKey != "" && other != index
    ensures KeyTaken(IngestItem(s, auth, item, index, Some(batchKey), moment, config).0, auth, batchKey, other)
            <==> KeyTaken(s, auth, batchKey, other)
  {
    if Prepare(item, config).Ok? {
      var clean := Prepare(item, config).value;
      var key := ItemKey(Some(batchKey), index);
      DerivedKey(clean, batchKey, index);
      IngestTables(s, auth, clean, key, ArrivalOf(clean, moment, config), config.settings);
      if BatchItemKey(batchKey, index) == BatchItemKey(batchKey, other) {
        BatchItemKeysDiffer(batchKey, index, batchKey, other);
      }
      hide IngestLog, Inv, Accepted, AcceptedRecord, BatchItemKey, EffectiveKey, Prepare;
    }
  }

  lemma {:induction false} LaterKeysKept(s: State, auth: Auth, request: Request, config: Config, n: nat, index: nat)
    requires Inv(s) && n <= index && n <= |request.items| == |request.moments| && Given(request.batchKey)
    ensures KeyTaken(Outcomes(s, auth, request, config, n).0, auth, request.batchKey.value, index)
            <==> KeyTaken(s, auth, request.batchKey.value, index)
  {
    hide Inv, Grows, IngestItem, KeyTaken;
    if n > 0 {
      LaterKeysKept(s, auth, request, config, n - 1, index);
      BatchGrows(s, auth, request, config, n - 1, n - 1);
      OtherKeysKept(Outcomes(s, auth, request, config, n - 1).0, auth, request.items[n - 1], n - 1,
                    request.batchKey.value, request.moments[n - 1], config, index);
    }
  }

  // Item i of a batch is stored as a log of its own exactly when its derived key was free before the
  // batch. If it was taken, the log it was taken by is returned and the item is not stored.
  lemma BatchItemStoredIff(s: State, auth: Auth, request: Request, config: Config, i: nat)
    requires Inv(s) && i < |request.items| == |request.moments| && Given(request.batchKey)
    requires Storable(Outcomes(s, auth, request, config, i).0, auth, request.items[i], request.moments[i], config)
    ensures |Outcomes(s, auth, request, config, i + 1).1| == i + 1
    ensures var t, u := Outcomes(s, auth, request, config, i).0, Outcomes(s, auth, request, config, i + 1).0;
            var r := Outcomes(s, auth, request, config, i + 1).1[i];
            var taken := KeyTaken(s, auth, request.batchKey.value, i);
            && r.Ok? && (u.logs.order == t.logs.order + [r.value.id] <==> !taken)
            && (taken ==> u == t && Leads(t, auth.key.id, BatchItemKey(request.batchKey.value, i), r.value))
  {
    hide Inv, Grows, Outcomes, IngestItem, KeyTaken, Storable, Leads, BatchItemKey;
    BatchGrows(s, auth, request, config, i, i);
    LaterKeysKept(s, auth, request, config, i, i);
    OneMoreItem(s, auth, request, config, i);
    var t := Outcomes(s, auth, request, config, i).0;
    ItemStoredIff(t, auth, request.items[i], i, request.batchKey.value, request.moments[i], config);
  }

  // ---------- a single log under a derived key ----------

  // A log sent on its own under the key derived for item i of a later batch takes that item's place,
  // whatever the item is and whatever happened in between.
  lemma SingleLogTakesItem(s: State, auth: Auth, log: LogCreate, arrival: Arrival, u: State,
                           again: Auth, request: Request, config: Config, i: nat)
    requires Inv(s) && Given(request.batchKey) && i < |request.items| == |request.moments|
    requires log.idempotencyKey == Some(BatchItemKey(request.batchKey.value, i))
    requires IngestLog(s, auth, log, None, arrival, config.settings).1.Ok?
    requires Inv(u) && Grows(IngestLog(s, auth, log, None, arrival, config.settings).0, u)
    requires again.key.id == auth.key.id && Prepare(request.items[i], config).Ok?
    ensures |Outcomes(u, again, request, config, i + 1).1| == i + 1
    ensures Outcomes(u, again, request, config, i + 1).1[i] == IngestLog(s, auth, log, None, arrival, config.settings).1
    ensures Outcomes(u, again, request, config, i + 1).0 == Outcomes(u, again, request, config, i).0
  {
    var key := BatchItemKey(request.batchKey.value, i);
    ItemKeyGiven(request.batchKey.value, i);
    hide Inv, Grows, Leads, IngestItem, BatchItemKey, Outcomes, Prepare, IngestLog;
    IngestLeads(s, auth, log, None, arrival, config.settings);
    var (t, r) := IngestLog(s, auth, log, None, arrival, config.settings);
    LeadsLater(t, u, auth.key.id, key, r.value);
    BatchGrows(u, again, request, config, 0, i);
    StartsWith(u, again, request, config);
    var v := Outcomes(u, again, request, config, i).0;
    LeadsLater(u, v, auth.key.id, key, r.value);
    ItemReplays(v, again, request.items[i], i, request.batchKey, request.moments[i], config, r.value);
    OneMoreItem(u, again, request, config, i);
  }

  // ---------- a run in which this happens ----------

  const ORG := MakeId("org", 1)
  const AGENT := MakeId("agent", 1)
  const KEY := MakeId("key", 1)
  const PROJECT := MakeId("proj", 1)
  const SOURCE := MakeId("src", 1)
  const OWNER := Auth(ApiKey(KEY, AGENT, ORG, [], [], false), Agent(AGENT, ORG))

  // One organisation with one project and one source, and its owner's key.
  ghost predicate Owned(s: State) {
    && s.orgs == {ORG} && s.agents == map[AGENT := OWNER.agent] && s.apiKeys == map[KEY := OWNER.key]
    && s.idempotency == map[] && s.quota == map[] && s.logs == Table([], map[])
  }

  lemma OrgStep()
    ensures var s := CreateOrgBootstrap(EMPTY_STATE).0;
            Owned(s) && s.projects == map[] && s.sources == Table([], map[])
            && CounterOf(s.counters, "proj") == 0 && CounterOf(s.counters, "src") == 0
  {
    hide MakeId;
  }

  lemma ProjectStep(s: State)
    requires Owned(s) && CounterOf(s.counters, "proj") == 0 && CounterOf(s.counters, "src") == 0
    requires s.projects == map[] && s.sources == Table([], map[])
    ensures var t := CreateProject(s, OWNER, ORG).0;
            Owned(t) && t.projects == map[PROJECT := Project(PROJECT, ORG)] && t.sources == s.sources
            && CounterOf(t.counters, "src") == 0
  {
    hide MakeId;
  }

  lemma SourceStep(s: State)
    requires Owned(s) && CounterOf(s.counters, "src") == 0
    requires s.projects == map[PROJECT := Project(PROJECT, ORG)] && s.sources == Table([], map[])
    ensures var t := CreateSource(s, OWNER, PROJECT).0;
            && Owned(t) && t.projects == s.projects
            && t.sources == Table([SOURCE], map[SOURCE := Source(SOURCE, ORG, PROJECT)])
  {
    hide MakeId;
  }

  lemma OwnerAuthenticates(s: State)
    requires Owned(s)
    ensures Authenticate(s, KEY) == Some(OWNER) && OWNER.key.id == KEY
  {
    hide MakeId;
  }

  const SETUP := [Bootstrap] + [NewProject(KEY, ORG)] + [NewSource(KEY, PROJECT)]

  lemma SetupRun(settings: Settings)
    ensures var s := Run(SETUP, settings);
            && Inv(s) && Owned(s) && s.projects == map[PROJECT := Project(PROJECT, ORG)]
            && s.sources == Table([SOURCE], map[SOURCE := Source(SOURCE, ORG, PROJECT)])
  {
    hide MakeId, Inv, Owned, CreateOrgBootstrap, CreateProject, CreateSource, Authenticate, Run;
    RunKeepsInv(SETUP, settings);
    EmptyRun(settings);
    OrgStep();
    var s1 := CreateOrgBootstrap(EMPTY_STATE).0;
    assert [] + [Bootstrap] == [Bootstrap];
    RunOneMore([], Bootstrap, settings);
    ProjectStep(s1);
    OwnerAuthenticates(s1);
    RunOneMore([Bootstrap], NewProject(KEY, ORG), settings);
    var s2 := CreateProject(s1, OWNER, ORG).0;
    SourceStep(s2);
    OwnerAuthenticates(s2);
    RunOneMore([Bootstrap] + [NewProject(KEY, ORG)], NewSource(KEY, PROJECT), settings);
  }

  lemma EmptyRun(settings: Settings)
    ensures Run([], settings) == EMPTY_STATE
  {
  }

  // A log for the one source, sent under the given idempotency key.
  function SimpleLog(message: string, key: string): LogCreate {
    LogCreate(None, "info", message, None, None, None, None, None, None, None, None, Some(SOURCE), map[], None, 1,
              Some(key))
  }

  lemma InfoIsKnown()
    ensures NormalizeSeverity("info").Ok?
  {
    assert StripLeft("info") == "info" && StripRight("info") == "info";
    assert Lower("info") == "info";
  }

  lemma SimpleLogAccepted(s: State, message: string, key: string, arrival: Arrival, settings: Settings)
    requires Inv(s) && Owned(s) && s.projects == map[PROJECT := Project(PROJECT, ORG)]
    requires s.sources == Table([SOURCE], map[SOURCE := Source(SOURCE, ORG, PROJECT)])
    requires settings.maxKeyDailyIngestBytes <= 0 && settings.maxProjectDailyIngestBytes <= 0
    ensures IngestLog(s, OWNER, SimpleLog(message, key), None, arrival, settings).1.Ok?
  {
    InfoIsKnown();
    SourceIsGiven();
    hide MakeId, NormalizeSeverity, StoreRecord, NewRecord, NextId, QuotaKey;
  }

  lemma SourceIsGiven()
    ensures SOURCE != ""
  {
  }

  // After such a log, a batch with the new key "k" stores nothing for item 0 and reports the other log's id.
  lemma CollidingRun(config: Config, message: string, arrival: Arrival, item: LogCreate, moment: Moment)
    requires config.settings.maxKeyDailyIngestBytes <= 0 && config.settings.maxProjectDailyIngestBytes <= 0
    requires Prepare(item, config).Ok?
    ensures var commands := SETUP + [Ingest(KEY, SimpleLog(message, BatchItemKey("k", 0)), None, arrival)];
            var s, t := Run(SETUP, config.settings), Run(commands, config.settings);
            var (after, outcomes) := Outcomes(t, OWNER, Request([item], Some("k"), [moment]), config, 1);
            && |outcomes| == 1 && after == t
            && outcomes[0]
               == IngestLog(s, OWNER, SimpleLog(message, BatchItemKey("k", 0)), None, arrival, config.settings).1
            && outcomes[0].Ok?
  {
    hide *;
    var log := SimpleLog(message, BatchItemKey("k", 0));
    var request := Request([item], Some("k"), [moment]);
    var s := Run(SETUP, config.settings);
    SetupRun(config.settings);
    SimpleLogAccepted(s, message, BatchItemKey("k", 0), arrival, config.settings);
    SimpleLogKey(message, BatchItemKey("k", 0));
    OwnerAuthenticates(s);
    IngestRuns(SETUP, config.settings, OWNER, log, None, arrival);
    var t := IngestLog(s, OWNER, log, None, arrival, config.settings).0;
    RunKeepsInv(SETUP + [Ingest(KEY, log, None, arrival)], config.settings);
    SameGrows(t);
    SingleLogTakesItem(s, OWNER, log, arrival, t, OWNER, request, config, 0);
    StartsWith(t, OWNER, request, config);
  }

  lemma SimpleLogKey(message: string, key: string)
    ensures SimpleLog(message, key).idempotencyKey == Some(key) && Given(Some("k"))
  {
  }
}
