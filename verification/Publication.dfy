// What the caller of an ingestion hears when the publication at its end raises (InMemoryStore.ingest_log
// and TailHub.publish).
module Publication {
  import opened Base
  import opened Records
  import opened StoreModel
  import opened StoreInvariant
  import opened StoreSteps
  import opened ExactlyOnce
  import Tail

  // No current subscriber's filter raises on the record.
  ghost predicate NobodyRaises(hub: Tail.Hub, record: LogRecord) {
    forall i :: 0 <= i < |hub| && hub[i].active ==> !Tail.Raises(record, hub[i].filter)
  }

  lemma CompletesMeans(hub: Tail.Hub, record: LogRecord)
    ensures Tail.Completes(hub, record) <==> NobodyRaises(hub, record)
  {
    forall i: nat | i < |hub|
      ensures Tail.RaisesAt(hub, record, i) <==> hub[i].active && Tail.Raises(record, hub[i].filter)
    {
    }
    hide Tail.RaisesAt, Tail.Raises;
  }

  // The store's part of the call does not depend on the subscribers.
  lemma StoreIgnoresHub(s: State, hub: Tail.Hub, auth: Auth, log: LogCreate, idempotencyKey: Option<string>,
                        arrival: Arrival, settings: Settings)
    ensures IngestAndPublish(s, hub, auth, log, idempotencyKey, arrival, settings).0
            == IngestLog(s, auth, log, idempotencyKey, arrival, settings).0
  {
    hide IngestLog, IsReplay;
  }

  // A call that stores a log reports success if and only if no subscriber's filter raises on the log.
  // Every other call reports what the store decided.
  lemma ReportedIff(s: State, hub: Tail.Hub, auth: Auth, log: LogCreate, idempotencyKey: Option<string>,
                    arrival: Arrival, settings: Settings)
    requires Inv(s)
    ensures var (t, r) := IngestLog(s, auth, log, idempotencyKey, arrival, settings);
            var reported := IngestAndPublish(s, hub, auth, log, idempotencyKey, arrival, settings).2;
            if t.logs.order != s.logs.order then
              && r.Ok?
              && reported == if NobodyRaises(hub, r.value) then r else Err(BadRequest("invalid_severity"))
            else reported == r
  {
    hide IngestLog, Inv, IsReplay, NobodyRaises, EffectiveKey, Tail.Completes, Tail.HubNext;
    var (t, r) := IngestLog(s, auth, log, idempotencyKey, arrival, settings);
    StoresIff(s, auth, log, idempotencyKey, arrival, settings);
    if r.Ok? {
      CompletesMeans(hub, r.value);
    }
  }

  // A call stores a log exactly when it succeeds and is no replay.
  lemma StoresIff(s: State, auth: Auth, log: LogCreate, idempotencyKey: Option<string>,
                  arrival: Arrival, settings: Settings)
    requires Inv(s)
    ensures var (t, r) := IngestLog(s, auth, log, idempotencyKey, arrival, settings);
            t.logs.order != s.logs.order <==> r.Ok? && !IsReplay(s, auth, EffectiveKey(idempotencyKey, log))
  {
    IngestTables(s, auth, log, idempotencyKey, arrival, settings);
    IngestCases(s, auth, log, idempotencyKey, arrival, settings);
    hide IngestLog, Inv, ChargeOf, AcceptedRecord, StoreRecord, NextId, IsReplay, ResolveProjectSource, EffectiveKey;
  }

  // A log that was stored although its call failed is found again: with its idempotency key any later
  // call returns it, changes nothing and publishes nothing.
  lemma RetryReturnsStoredLog(
    commands: seq<Command>, more: seq<Command>, settings: Settings, laterHub: Tail.Hub,
    auth: Auth, log: LogCreate, idempotencyKey: Option<string>, arrival: Arrival,
    again: Auth, log2: LogCreate, idempotencyKey2: Option<string>, arrival2: Arrival)
    requires Authenticate(Run(commands, settings), auth.key.id) == Some(auth)
    requires Given(EffectiveKey(idempotencyKey, log))
    requires IngestLog(Run(commands, settings), auth, log, idempotencyKey, arrival, settings).1.Ok?
    requires again.key.id == auth.key.id && EffectiveKey(idempotencyKey2, log2) == EffectiveKey(idempotencyKey, log)
    ensures var r := IngestLog(Run(commands, settings), auth, log, idempotencyKey, arrival, settings).1;
            var u := Run(commands + [Ingest(auth.key.id, log, idempotencyKey, arrival)] + more, settings);
            IngestAndPublish(u, laterHub, again, log2, idempotencyKey2, arrival2, settings) == (u, laterHub, r)
  {
    var c := Ingest(auth.key.id, log, idempotencyKey, arrival);
    var t, u := Run(commands + [c], settings), Run(commands + [c] + more, settings);
    var r := IngestLog(Run(commands, settings), auth, log, idempotencyKey, arrival, settings).1.value;
    hide Run, IngestLog, Leads, Grows, Authenticate, EffectiveKey;
    IngestRuns(commands, settings, auth, log, idempotencyKey, arrival);
    IngestLeads(Run(commands, settings), auth, log, idempotencyKey, arrival, settings);
    RunGrows(commands + [c], more, settings);
    LeadsLater(t, u, auth.key.id, EffectiveKey(idempotencyKey, log).value, r);
    LeadsReports(u, laterHub, again, log2, idempotencyKey2, arrival2, settings, r);
  }

  lemma LeadsReports(s: State, hub: Tail.Hub, auth: Auth, log: LogCreate, idempotencyKey: Option<string>,
                     arrival: Arrival, settings: Settings, r: LogRecord)
    requires Given(EffectiveKey(idempotencyKey, log))
    requires Leads(s, auth.key.id, EffectiveKey(idempotencyKey, log).value, r)
    ensures IngestAndPublish(s, hub, auth, log, idempotencyKey, arrival, settings) == (s, hub, Ok(r))
  {
    LeadsReplays(s, auth, log, idempotencyKey, arrival, settings, r);
    assert IsReplay(s, auth, EffectiveKey(idempotencyKey, log));
    hide IngestLog, IsReplay;
  }
}
