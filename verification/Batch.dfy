// The batch endpoint (ingest_batch of panda_trace/routes_logs.py): one ingestion per item under a key
// derived from the batch key and the item's index.
module Batch {
  import opened Base
  import opened Records
  import opened Ids
  import opened StoreModel
  import opened StoreInvariant
  import opened StoreSteps
  import opened ExactlyOnce
  import Redaction
  import Severity
  import Store
  import Tail

  // The configured limits of the endpoint, and the size of a log printed as JSON.
  datatype Config = Config(
    redactionMode: string, maxLogBytes: int, maxBatchItems: int, maxBatchBytes: int,
    size: LogCreate -> nat, settings: Settings)

  // What an item reads from the clock: the dates of the two quotas and the time of receipt.
  datatype Moment = Moment(keyDay: string, projectDay: string, now: int)

  // The item as it is stored, or the error that stops it before it reaches the store.
  function Prepare(item: LogCreate, config: Config): Result<LogCreate> {
    var clean :- Redaction.ApplyRedaction(item, config.redactionMode);
    if config.size(clean) > config.maxLogBytes then Err(PayloadTooLarge) else Ok(clean)
  }

  function ItemKey(batchKey: Option<string>, index: nat): Option<string> {
    if Given(batchKey) then Some(BatchItemKey(batchKey.value, index)) else None
  }

  function ArrivalOf(clean: LogCreate, moment: Moment, config: Config): Arrival {
    Arrival(config.size(clean), moment.keyDay, moment.projectDay, moment.now)
  }

  function IngestItem(s: State, auth: Auth, item: LogCreate, index: nat, batchKey: Option<string>,
                      moment: Moment, config: Config): (State, Result<LogRecord>)
  {
    match Prepare(item, config)
    case Err(e) => (s, Err(e))
    case Ok(clean) =>
      IngestLog(s, auth, clean, ItemKey(batchKey, index), ArrivalOf(clean, moment, config), config.settings)
  }

  datatype Request = Request(items: seq<LogCreate>, batchKey: Option<string>, moments: seq<Moment>)

  // The same item as the endpoint hears of it, with the publication of a new log.
  function ReportItem(s: State, hub: Tail.Hub, auth: Auth, item: LogCreate, index: nat, batchKey: Option<string>,
                      moment: Moment, config: Config): (State, Tail.Hub, Result<LogRecord>)
  {
    match Prepare(item, config)
    case Err(e) => (s, hub, Err(e))
    case Ok(clean) =>
      IngestAndPublish(s, hub, auth, clean, ItemKey(batchKey, index), ArrivalOf(clean, moment, config), config.settings)
  }

  // What the endpoint has heard after the first n items.
  function Reports(s: State, hub: Tail.Hub, auth: Auth, request: Request, config: Config, n: nat)
    : (State, Tail.Hub, seq<Result<LogRecord>>)
    requires n <= |request.items| == |request.moments|
  {
    if n == 0 then (s, hub, [])
    else
      var (t, h, before) := Reports(s, hub, auth, request, config, n - 1);
      var (u, next, r) := ReportItem(t, h, auth, request.items[n - 1], n - 1, request.batchKey,
                                     request.moments[n - 1], config);
      (u, next, before + [r])
  }

  // The state after the first n items and what the store did with each of them, publications aside.
  function Outcomes(s: State, auth: Auth, request: Request, config: Config, n: nat): (State, seq<Result<LogRecord>>)
    requires n <= |request.items| == |request.moments|
  {
    if n == 0 then (s, [])
    else
      var (t, before) := Outcomes(s, auth, request, config, n - 1);
      var (u, r) := IngestItem(t, auth, request.items[n - 1], n - 1, request.batchKey, request.moments[n - 1], config);
      (u, before + [r])
  }

  datatype AcceptedItem = AcceptedItem(index: nat, id: string)
  datatype RejectedItem = RejectedItem(index: nat, error: ApiError)

  function AcceptedOf(outcomes: seq<Result<LogRecord>>): seq<AcceptedItem> {
    if outcomes == [] then []
    else
      var n := |outcomes| - 1;
      AcceptedOf(outcomes[..n]) + if outcomes[n].Ok? then [AcceptedItem(n, outcomes[n].value.id)] else []
  }

  function RejectedOf(outcomes: seq<Result<LogRecord>>): seq<RejectedItem> {
    if outcomes == [] then []
    else
      var n := |outcomes| - 1;
      RejectedOf(outcomes[..n]) + if outcomes[n].Err? then [RejectedItem(n, outcomes[n].error)] else []
  }

  lemma OneMoreOutcome(outcomes: seq<Result<LogRecord>>, r: Result<LogRecord>)
    ensures AcceptedOf(outcomes + [r])
            == AcceptedOf(outcomes) + if r.Ok? then [AcceptedItem(|outcomes|, r.value.id)] else []
    ensures RejectedOf(outcomes + [r])
            == RejectedOf(outcomes) + if r.Err? then [RejectedItem(|outcomes|, r.error)] else []
  {
    assert (outcomes + [r])[..|outcomes|] == outcomes;
  }

  lemma OneMoreItem(s: State, auth: Auth, request: Request, config: Config, n: nat)
    requires n < |request.items| == |request.moments|
    ensures var (t, before) := Outcomes(s, auth, request, config, n);
            var (u, r) := IngestItem(t, auth, request.items[n], n, request.batchKey, request.moments[n], config);
            Outcomes(s, auth, request, config, n + 1) == (u, before + [r])
  {
    hide IngestItem;
  }

  lemma NoOutcomes()
    ensures AcceptedOf([]) == [] && RejectedOf([]) == []
  {
  }

  lemma OneMoreReport(s: State, hub: Tail.Hub, auth: Auth, request: Request, config: Config, n: nat)
    requires n < |request.items| == |request.moments|
    ensures var (t, h, before) := Reports(s, hub, auth, request, config, n);
            var (u, next, r) := ReportItem(t, h, auth, request.items[n], n, request.batchKey, request.moments[n],
                                           config);
            Reports(s, hub, auth, request, config, n + 1) == (u, next, before + [r])
  {
    hide ReportItem;
  }

  method IngestBatch(store: Store.InMemoryStore, auth: Auth, request: Request, batchSize: nat, config: Config)
    returns (r: Result<(seq<AcceptedItem>, seq<RejectedItem>)>)
    requires store.Valid() && |request.items| == |request.moments|
    modifies store, store.tailHub, store.tailHub.queues
    ensures store.Valid()
    ensures |request.items| > config.maxBatchItems ==>
              && r == Err(BadRequest("too_many_items"))
              && store.View() == old(store.View()) && store.tailHub.hub == old(store.tailHub.hub)
    ensures |request.items| <= config.maxBatchItems && batchSize > config.maxBatchBytes ==>
              && r == Err(PayloadTooLarge)
              && store.View() == old(store.View()) && store.tailHub.hub == old(store.tailHub.hub)
    ensures |request.items| <= config.maxBatchItems && batchSize <= config.maxBatchBytes ==>
              var (after, hub, reports) :=
                Reports(old(store.View()), old(store.tailHub.hub), auth, request, config, |request.items|);
              && store.View() == after && store.tailHub.hub == hub
              && r == Ok((AcceptedOf(reports), RejectedOf(reports)))
  {
    if |request.items| > config.maxBatchItems {
      return Err(BadRequest("too_many_items"));
    }
    if batchSize > config.maxBatchBytes {
      return Err(PayloadTooLarge);
    }
    var accepted: seq<AcceptedItem>, rejected: seq<RejectedItem> := [], [];
    ghost var s, hub := store.View(), store.tailHub.hub;
    ghost var reports: seq<Result<LogRecord>> := [];
    assert Reports(s, hub, auth, request, config, 0) == (s, hub, []);
    hide ReportItem, Reports, AcceptedOf, RejectedOf, Inv;
    NoOutcomes();
    for index := 0 to |request.items|
      invariant store.Valid() && store.tailHub.queues == old(store.tailHub.queues)
      invariant Reports(s, hub, auth, request, config, index) == (store.View(), store.tailHub.hub, reports)
      invariant |reports| == index
      invariant accepted == AcceptedOf(reports) && rejected == RejectedOf(reports)
    {
      var report := IngestOne(store, auth, request.items[index], index, request.batchKey, request.moments[index],
                              config);
      OneMoreReport(s, hub, auth, request, config, index);
      OneMoreOutcome(reports, report);
      if report.Ok? {
        accepted := accepted + [AcceptedItem(index, report.value.id)];
      } else {
        rejected := rejected + [RejectedItem(index, report.error)];
      }
      reports := reports + [report];
    }
    r := Ok((accepted, rejected));
  }

  // One turn of the loop; an error is what the endpoint hears of the item.
  method IngestOne(store: Store.InMemoryStore, auth: Auth, item: LogCreate, index: nat, batchKey: Option<string>,
                   moment: Moment, config: Config) returns (r: Result<LogRecord>)
    requires store.Valid()
    modifies store, store.tailHub, store.tailHub.queues
    ensures store.Valid() && store.tailHub.queues == old(store.tailHub.queues)
    ensures (store.View(), store.tailHub.hub, r)
            == ReportItem(old(store.View()), old(store.tailHub.hub), auth, item, index, batchKey, moment, config)
  {
    hide Inv, IngestAndPublish;
    var clean := Prepare(item, config);
    if clean.Err? {
      return Err(clean.error);
    }
    r := store.IngestLog(auth, clean.value, ItemKey(batchKey, index),
                         ArrivalOf(clean.value, moment, config), config.settings);
  }

  // ---------- accepted and rejected ----------

  predicate AcceptedAscend(xs: seq<AcceptedItem>) {
    forall i, j :: 0 <= i < j < |xs| ==> xs[i].index < xs[j].index
  }

  predicate RejectedAscend(xs: seq<RejectedItem>) {
    forall i, j :: 0 <= i < j < |xs| ==> xs[i].index < xs[j].index
  }

  lemma {:induction false} AcceptedMembers(outcomes: seq<Result<LogRecord>>)
    ensures forall a :: a in AcceptedOf(outcomes) <==>
              a.index < |outcomes| && outcomes[a.index].Ok? && a.id == outcomes[a.index].value.id
  {
    if outcomes != [] {
      AcceptedMembers(outcomes[..|outcomes| - 1]);
    }
  }

  lemma {:induction false} RejectedMembers(outcomes: seq<Result<LogRecord>>)
    ensures forall b :: b in RejectedOf(outcomes) <==>
              b.index < |outcomes| && outcomes[b.index].Err? && b.error == outcomes[b.index].error
  {
    if outcomes != [] {
      RejectedMembers(outcomes[..|outcomes| - 1]);
    }
  }

  lemma AcceptedSnoc(xs: seq<AcceptedItem>, a: AcceptedItem)
    requires AcceptedAscend(xs) && forall x :: x in xs ==> x.index < a.index
    ensures AcceptedAscend(xs + [a])
  {
    assert forall i :: 0 <= i < |xs| ==> xs[i] in xs;
  }

  lemma RejectedSnoc(xs: seq<RejectedItem>, a: RejectedItem)
    requires RejectedAscend(xs) && forall x :: x in xs ==> x.index < a.index
    ensures RejectedAscend(xs + [a])
  {
    assert forall i :: 0 <= i < |xs| ==> xs[i] in xs;
  }

  lemma {:induction false} BothAscend(outcomes: seq<Result<LogRecord>>)
    ensures AcceptedAscend(AcceptedOf(outcomes)) && RejectedAscend(RejectedOf(outcomes))
  {
    if outcomes == [] {
      NoOutcomes();
    } else {
      var before, last := outcomes[..|outcomes| - 1], outcomes[|outcomes| - 1];
      BothAscend(before);
      AcceptedMembers(before);
      RejectedMembers(before);
      OneMoreOutcome(before, last);
      assert outcomes == before + [last];
      hide AcceptedOf, RejectedOf, AcceptedAscend, RejectedAscend;
      if last.Ok? {
        AcceptedSnoc(AcceptedOf(before), AcceptedItem(|before|, last.value.id));
        assert RejectedOf(before) + [] == RejectedOf(before);
      } else {
        RejectedSnoc(RejectedOf(before), RejectedItem(|before|, last.error));
        assert AcceptedOf(before) + [] == AcceptedOf(before);
      }
    }
  }

  // The response lists every index once, in order, on the side its outcome belongs to.
  lemma EveryIndexOnce(outcomes: seq<Result<LogRecord>>)
    ensures forall a :: a in AcceptedOf(outcomes) <==>
              a.index < |outcomes| && outcomes[a.index].Ok? && a.id == outcomes[a.index].value.id
    ensures forall b :: b in RejectedOf(outcomes) <==>
              b.index < |outcomes| && outcomes[b.index].Err? && b.error == outcomes[b.index].error
    ensures AcceptedAscend(AcceptedOf(outcomes)) && RejectedAscend(RejectedOf(outcomes))
  {
    AcceptedMembers(outcomes);
    RejectedMembers(outcomes);
    BothAscend(outcomes);
  }

  // ---------- what a batch leaves behind ----------

  lemma IngestItemKeepsInv(s: State, auth: Auth, item: LogCreate, index: nat, batchKey: Option<string>,
                           moment: Moment, config: Config)
    requires Inv(s)
    ensures var t := IngestItem(s, auth, item, index, batchKey, moment, config).0; Inv(t) && Grows(s, t)
  {
    hide Inv, Grows, IngestLog;
    SameGrows(s);
    var clean := Prepare(item, config);
    if clean.Ok? {
      IngestKeepsInv(s, auth, clean.value, ItemKey(batchKey, index), ArrivalOf(clean.value, moment, config),
                     config.settings);
    }
  }

  lemma {:induction false} BatchGrows(s: State, auth: Auth, request: Request, config: Config, m: nat, n: nat)
    requires Inv(s) && m <= n <= |request.items| == |request.moments|
    ensures Inv(Outcomes(s, auth, request, config, n).0)
    ensures Grows(Outcomes(s, auth, request, config, m).0, Outcomes(s, auth, request, config, n).0)
    ensures |Outcomes(s, auth, request, config, n).1| == n
    ensures Outcomes(s, auth, request, config, m).1 == Outcomes(s, auth, request, config, n).1[..m]
  {
    hide Inv, Grows, IngestItem;
    SameGrows(Outcomes(s, auth, request, config, m).0);
    if n > 0 {
      BatchGrows(s, auth, request, config, if m < n then m else n - 1, n - 1);
      var (t, before) := Outcomes(s, auth, request, config, n - 1);
      IngestItemKeepsInv(t, auth, request.items[n - 1], n - 1, request.batchKey, request.moments[n - 1], config);
      if m < n {
        GrowsTransitive(Outcomes(s, auth, request, config, m).0, t, Outcomes(s, auth, request, config, n).0);
      }
    }
  }

  lemma ItemLeads(s: State, auth: Auth, item: LogCreate, index: nat, batchKey: Option<string>,
                  moment: Moment, config: Config)
    requires Given(batchKey) && IngestItem(s, auth, item, index, batchKey, moment, config).1.Ok?
    ensures var (t, r) := IngestItem(s, auth, item, index, batchKey, moment, config);
            Leads(t, auth.key.id, BatchItemKey(batchKey.value, index), r.value)
  {
    hide IngestLog, Leads, BatchItemKey;
    ItemKeyGiven(batchKey.value, index);
    var clean := Prepare(item, config).value;
    IngestLeads(s, auth, clean, ItemKey(batchKey, index), ArrivalOf(clean, moment, config), config.settings);
  }

  lemma ItemKeyGiven(key: string, index: nat)
    ensures BatchItemKey(key, index) != ""
  {
  }

  lemma AcceptedLeads(s: State, auth: Auth, request: Request, config: Config, i: nat, n: nat)
    requires Inv(s) && Given(request.batchKey) && i < n <= |request.items| == |request.moments|
    requires |Outcomes(s, auth, request, config, n).1| == n && Outcomes(s, auth, request, config, n).1[i].Ok?
    ensures var (t, outcomes) := Outcomes(s, auth, request, config, n);
            Leads(t, auth.key.id, BatchItemKey(request.batchKey.value, i), outcomes[i].value)
  {
    hide Inv, Grows, Leads, IngestItem, BatchItemKey, Outcomes;
    BatchGrows(s, auth, request, config, i + 1, n);
    OneMoreItem(s, auth, request, config, i);
    BatchGrows(s, auth, request, config, i, i);
    var u := Outcomes(s, auth, request, config, i).0;
    var r := Outcomes(s, auth, request, config, n).1[i];
    assert Outcomes(s, auth, request, config, i + 1).1[i] == r;
    ItemLeads(u, auth, request.items[i], i, request.batchKey, request.moments[i], config);
    LeadsLater(Outcomes(s, auth, request, config, i + 1).0, Outcomes(s, auth, request, config, n).0,
               auth.key.id, BatchItemKey(request.batchKey.value, i), r.value);
  }

  lemma ItemReplays(s: State, auth: Auth, item: LogCreate, index: nat, batchKey: Option<string>,
                    moment: Moment, config: Config, r: LogRecord)
    requires Given(batchKey) && Prepare(item, config).Ok?
    requires Leads(s, auth.key.id, BatchItemKey(batchKey.value, index), r)
    ensures IngestItem(s, auth, item, index, batchKey, moment, config) == (s, Ok(r))
  {
    hide IngestLog, Leads, BatchItemKey;
    ItemKeyGiven(batchKey.value, index);
    var clean := Prepare(item, config).value;
    LeadsReplays(s, auth, clean, ItemKey(batchKey, index), ArrivalOf(clean, moment, config), config.settings, r);
  }

  // ---------- resubmission ----------

  // Any commands executed from a state.
  function ExecuteAll(s: State, commands: seq<Command>, settings: Settings): State {
    if commands == [] then s
    else Execute(ExecuteAll(s, commands[..|commands| - 1], settings), commands[|commands| - 1], settings)
  }

  lemma {:induction false} ExecuteAllGrows(s: State, commands: seq<Command>, settings: Settings)
    requires Inv(s)
    ensures Inv(ExecuteAll(s, commands, settings)) && Grows(s, ExecuteAll(s, commands, settings))
  {
    hide Inv, Grows, Execute;
    if commands == [] {
      SameGrows(s);
    } else {
      var before := ExecuteAll(s, commands[..|commands| - 1], settings);
      ExecuteAllGrows(s, commands[..|commands| - 1], settings);
      ExecuteKeepsInv(before, commands[|commands| - 1], settings);
      GrowsTransitive(s, before, ExecuteAll(s, commands, settings));
    }
  }

  // An item accepted before comes back as the same log, whatever happened in between and whatever the
  // other items of the new batch are.
  lemma ResubmittedItem(s: State, auth: Auth, first: Request, config: Config, u: State,
                        again: Auth, second: Request, i: nat)
    requires Inv(s) && |first.items| == |first.moments| && |second.items| == |second.moments|
    requires Inv(u) && Grows(Outcomes(s, auth, first, config, |first.items|).0, u)
    requires again.key.id == auth.key.id && Given(first.batchKey) && second.batchKey == first.batchKey
    requires i < |first.items| && i < |second.items| && Prepare(second.items[i], config).Ok?
    requires var outcomes := Outcomes(s, auth, first, config, |first.items|).1;
             |outcomes| == |first.items| && outcomes[i].Ok?
    ensures |Outcomes(u, again, second, config, |second.items|).1| == |second.items|
    ensures Outcomes(u, again, second, config, |second.items|).1[i]
            == Outcomes(s, auth, first, config, |first.items|).1[i]
    ensures Outcomes(u, again, second, config, i + 1).0 == Outcomes(u, again, second, config, i).0
  {
    hide Inv, Grows, Leads, IngestItem, BatchItemKey, Outcomes, Prepare;
    var t := Outcomes(s, auth, first, config, |first.items|).0;
    var r := Outcomes(s, auth, first, config, |first.items|).1[i].value;
    var key := BatchItemKey(first.batchKey.value, i);
    AcceptedLeads(s, auth, first, config, i, |first.items|);
    LeadsLater(t, u, auth.key.id, key, r);
    BatchGrows(u, again, second, config, 0, i);
    StartsWith(u, again, second, config);
    var v := Outcomes(u, again, second, config, i).0;
    LeadsLater(u, v, auth.key.id, key, r);
    ItemReplays(v, again, second.items[i], i, second.batchKey, second.moments[i], config, r);
    OneMoreItem(u, again, second, config, i);
    BatchGrows(u, again, second, config, i + 1, |second.items|);
    assert Outcomes(u, again, second, config, i + 1).1[i] == Ok(r);
  }

  lemma StartsWith(s: State, auth: Auth, request: Request, config: Config)
    requires |request.items| == |request.moments|
    ensures Outcomes(s, auth, request, config, 0) == (s, [])
  {
  }

  lemma AcceptedIsPrepared(s: State, auth: Auth, request: Request, config: Config, i: nat)
    requires Inv(s) && i < |request.items| == |request.moments|
    requires var outcomes := Outcomes(s, auth, request, config, |request.items|).1;
             |outcomes| == |request.items| && outcomes[i].Ok?
    ensures Prepare(request.items[i], config).Ok?
  {
    hide Inv, Grows, Outcomes, Prepare, IngestItem;
    BatchGrows(s, auth, request, config, i + 1, |request.items|);
    OneMoreItem(s, auth, request, config, i);
    BatchGrows(s, auth, request, config, i, i);
    assert Outcomes(s, auth, request, config, i + 1).1[i] == Outcomes(s, auth, request, config, |request.items|).1[i];
    var t := Outcomes(s, auth, request, config, i).0;
    OkIsPrepared(t, auth, request.items[i], i, request.batchKey, request.moments[i], config);
  }

  lemma OkIsPrepared(s: State, auth: Auth, item: LogCreate, index: nat, batchKey: Option<string>,
                     moment: Moment, config: Config)
    requires IngestItem(s, auth, item, index, batchKey, moment, config).1.Ok?
    ensures Prepare(item, config).Ok?
  {
    hide IngestLog, Prepare;
  }

  // Sending the same batch again, after any other commands, returns the same id for every index that
  // was accepted.
  lemma ResubmissionSameIds(s: State, auth: Auth, request: Request, config: Config, between: seq<Command>,
                            again: Auth, moments: seq<Moment>)
    requires Inv(s) && |request.items| == |request.moments| == |moments|
    requires again.key.id == auth.key.id && Given(request.batchKey)
    ensures var n := |request.items|;
            var (t, outcomes) := Outcomes(s, auth, request, config, n);
            var u := ExecuteAll(t, between, config.settings);
            var outcomes2 := Outcomes(u, again, request.(moments := moments), config, n).1;
            && |outcomes| == |outcomes2| == n
            && forall i :: 0 <= i < n && outcomes[i].Ok? ==> outcomes2[i] == outcomes[i]
  {
    hide Inv, Grows, Outcomes, Prepare;
    var n := |request.items|;
    var (t, outcomes) := Outcomes(s, auth, request, config, n);
    BatchGrows(s, auth, request, config, n, n);
    ExecuteAllGrows(t, between, config.settings);
    var u := ExecuteAll(t, between, config.settings);
    var second := request.(moments := moments);
    BatchGrows(u, again, second, config, n, n);
    forall i | 0 <= i < n && outcomes[i].Ok?
      ensures Outcomes(u, again, second, config, n).1[i] == outcomes[i]
    {
      AcceptedIsPrepared(s, auth, request, config, i);
      ResubmittedItem(s, auth, request, config, u, again, second, i);
    }
  }

  lemma {:induction false} ReplayedBatchChangesNothing(
    s: State, auth: Auth, first: Request, config: Config, u: State, again: Auth, second: Request, n: nat)
    requires Inv(s) && |first.items| == |first.moments| && |second.items| == |second.moments|
    requires Inv(u) && Grows(Outcomes(s, auth, first, config, |first.items|).0, u)
    requires again.key.id == auth.key.id && Given(first.batchKey)
    requires second.batchKey == first.batchKey && second.items == first.items && n <= |first.items|
    requires |Outcomes(s, auth, first, config, |first.items|).1| == |first.items|
    requires forall i :: 0 <= i < n ==> Outcomes(s, auth, first, config, |first.items|).1[i].Ok?
    ensures Outcomes(u, again, second, config, n).0 == u
  {
    hide Inv, Grows, Outcomes, Prepare;
    if n == 0 {
      StartsWith(u, again, second, config);
    } else {
      ReplayedBatchChangesNothing(s, auth, first, config, u, again, second, n - 1);
      AcceptedIsPrepared(s, auth, first, config, n - 1);
      ResubmittedItem(s, auth, first, config, u, again, second, n - 1);
    }
  }

  // ---------- a batch under a new key ----------

  ghost predicate NewKeys(s: State, keyId: string, batchKey: string, from: nat) {
    forall i: nat :: i >= from ==> (keyId, BatchItemKey(batchKey, i)) !in s.idempotency
  }

  function IdsOf(accepted: seq<AcceptedItem>): seq<string> {
    if accepted == [] then [] else IdsOf(accepted[..|accepted| - 1]) + [accepted[|accepted| - 1].id]
  }

  // The log stored for an item received at a time is that item's own.
  predicate IsItem(record: LogRecord, clean: LogCreate, now: int) {
    && Severity.NormalizeSeverity(clean.severity) == Ok(record.severity)
    && record.receivedAt == now
    && record.timestamp == (if clean.timestamp.Some? then clean.timestamp.value else now)
    && record.message == clean.message && record.attributes == clean.attributes && record.exception == clean.exception
    && record.traceId == clean.traceId && record.spanId == clean.spanId && record.requestId == clean.requestId
    && record.service == clean.service && record.environment == clean.environment && record.logger == clean.logger
    && record.event == clean.event && record.schemaVersion == clean.schemaVersion
    && (Given(clean.sourceId) ==> record.sourceId == clean.sourceId.value)
    && (Given(clean.projectId) ==> record.projectId == clean.projectId.value)
  }

  lemma NewItem(s: State, auth: Auth, item: LogCreate, index: nat, batchKey: Option<string>,
                moment: Moment, config: Config)
    requires Inv(s) && Given(batchKey) && NewKeys(s, auth.key.id, batchKey.value, index)
    ensures var (t, r) := IngestItem(s, auth, item, index, batchKey, moment, config);
            && NewKeys(t, auth.key.id, batchKey.value, index + 1)
            && t.logs.order == s.logs.order + (if r.Ok? then [r.value.id] else [])
            && (r.Ok? ==> Prepare(item, config).Ok? && IsItem(r.value, Prepare(item, config).value, moment.now))
  {
    var prepared := Prepare(item, config);
    if prepared.Ok? {
      NewIngest(s, auth, prepared.value, index, batchKey.value, ArrivalOf(prepared.value, moment, config),
                config.settings);
    }
    hide IngestLog, BatchItemKey, Prepare, IsItem;
  }

  lemma NewIngest(s: State, auth: Auth, clean: LogCreate, index: nat, batchKey: string, arrival: Arrival,
                  settings: Settings)
    requires Inv(s) && NewKeys(s, auth.key.id, batchKey, index)
    ensures var (t, r) := IngestLog(s, auth, clean, Some(BatchItemKey(batchKey, index)), arrival, settings);
            && NewKeys(t, auth.key.id, batchKey, index + 1)
            && t.logs.order == s.logs.order + (if r.Ok? then [r.value.id] else [])
            && (r.Ok? ==> IsItem(r.value, clean, arrival.now))
  {
    var key := Some(BatchItemKey(batchKey, index));
    ItemKeyGiven(batchKey, index);
    assert (auth.key.id, key.value) !in s.idempotency;
    IngestTables(s, auth, clean, key, arrival, settings);
    IngestCases(s, auth, clean, key, arrival, settings);
    assert !IsReplay(s, auth, EffectiveKey(key, clean));
    if Accepted(s, auth, clean, key, arrival, settings) {
      RecordIsItem(s, auth, clean, arrival.now);
      forall i: nat | i >= index + 1
        ensures BatchItemKey(batchKey, i) != key.value
      {
        if BatchItemKey(batchKey, i) == key.value {
          BatchItemKeysDiffer(batchKey, i, batchKey, index);
        }
      }
    }
    hide IngestLog, StoreRecord, AcceptedRecord, ChargeOf, Inv, BatchItemKey, IsReplay, ResolveProjectSource, IsItem;
  }

  lemma ResolvedAsAsked(s: State, key: ApiKey, projectId: Option<string>, sourceId: Option<string>)
    requires Inv(s) && ResolveProjectSource(s, key, projectId, sourceId).Ok?
    ensures var (project, source) := ResolveProjectSource(s, key, projectId, sourceId).value;
            && (Given(sourceId) ==> source.id == sourceId.value)
            && (Given(projectId) ==> project.id == projectId.value)
  {
    hide Inv, Values;
    if Given(sourceId) {
      SourceNamed(s, sourceId.value);
    } else {
      var f := (source: Source) => IsCandidate(key, projectId, source);
      var candidates := Filter(Values(s.sources), f);
      assert candidates[0] in candidates;
      ProjectNamed(s, candidates[0].projectId);
    }
  }

  lemma RecordIsItem(s: State, auth: Auth, clean: LogCreate, now: int)
    requires Inv(s)
    requires ResolveProjectSource(s, auth.key, clean.projectId, clean.sourceId).Ok?
    requires Severity.NormalizeSeverity(clean.severity).Ok?
    ensures IsItem(AcceptedRecord(s, auth, clean, now), clean, now)
  {
    ResolvedAsAsked(s, auth.key, clean.projectId, clean.sourceId);
    hide ResolveProjectSource, Severity.NormalizeSeverity, Inv;
  }

  lemma IdsSnoc(accepted: seq<AcceptedItem>, a: AcceptedItem)
    ensures IdsOf(accepted + [a]) == IdsOf(accepted) + [a.id]
  {
    assert (accepted + [a])[..|accepted|] == accepted;
  }

  // The logs of the accepted items are those items' own.
  ghost predicate AreItems(outcomes: seq<Result<LogRecord>>, request: Request, config: Config)
    requires |outcomes| <= |request.items| == |request.moments|
  {
    forall i :: 0 <= i < |outcomes| && outcomes[i].Ok? ==> ItsOwn(outcomes[i].value, request, config, i)
  }

  predicate ItsOwn(record: LogRecord, request: Request, config: Config, i: nat)
    requires i < |request.items| == |request.moments|
  {
    var clean := Prepare(request.items[i], config);
    clean.Ok? && IsItem(record, clean.value, request.moments[i].now)
  }

  lemma AreItemsSnoc(before: seq<Result<LogRecord>>, r: Result<LogRecord>, request: Request, config: Config)
    requires |before| < |request.items| == |request.moments| && AreItems(before, request, config)
    requires r.Ok? ==> ItsOwn(r.value, request, config, |before|)
    ensures AreItems(before + [r], request, config)
  {
    hide ItsOwn;
  }

  // What a step adds to the log table is what it adds to the accepted list.
  lemma IdsFollow(before: seq<Result<LogRecord>>, r: Result<LogRecord>, start: seq<string>, early: seq<string>,
                  late: seq<string>)
    requires early == start + IdsOf(AcceptedOf(before))
    requires late == early + if r.Ok? then [r.value.id] else []
    ensures late == start + IdsOf(AcceptedOf(before + [r]))
  {
    OneMoreOutcome(before, r);
    hide AcceptedOf;
    if r.Ok? {
      IdsSnoc(AcceptedOf(before), AcceptedItem(|before|, r.value.id));
    } else {
      assert AcceptedOf(before) + [] == AcceptedOf(before);
    }
  }

  // Under a batch key not used before, exactly the accepted items are stored, one log each, in the
  // order of their indices, and each log is its own item's.
  lemma {:induction false} NewBatchStoresEachItem(s: State, auth: Auth, request: Request, config: Config, n: nat)
    requires Inv(s) && n <= |request.items| == |request.moments|
    requires Given(request.batchKey) && NewKeys(s, auth.key.id, request.batchKey.value, 0)
    ensures var (t, outcomes) := Outcomes(s, auth, request, config, n);
            && NewKeys(t, auth.key.id, request.batchKey.value, n)
            && t.logs.order == s.logs.order + IdsOf(AcceptedOf(outcomes))
            && |outcomes| == n && AreItems(outcomes, request, config)
  {
    hide Inv, Grows, IngestItem, Prepare, IsItem, NewKeys, Outcomes, IdsOf, AcceptedOf, AreItems;
    StartsWith(s, auth, request, config);
    if n == 0 {
      NoItems(s.logs.order, request, config);
    } else {
      NewBatchStoresEachItem(s, auth, request, config, n - 1);
      BatchGrows(s, auth, request, config, n - 1, n - 1);
      var (t, before) := Outcomes(s, auth, request, config, n - 1);
      var (u, r) := IngestItem(t, auth, request.items[n - 1], n - 1, request.batchKey, request.moments[n - 1], config);
      NewItem(t, auth, request.items[n - 1], n - 1, request.batchKey, request.moments[n - 1], config);
      OneMoreItem(s, auth, request, config, n - 1);
      AreItemsSnoc(before, r, request, config);
      IdsFollow(before, r, s.logs.order, t.logs.order, u.logs.order);
    }
  }

  lemma NoItems(order: seq<string>, request: Request, config: Config)
    requires |request.items| == |request.moments|
    ensures order == order + IdsOf(AcceptedOf([])) && AreItems([], request, config)
  {
  }
}
