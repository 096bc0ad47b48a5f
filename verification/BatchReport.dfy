// The response of the batch endpoint against what was stored: publications that raise, resubmission,
// and derived keys that are already taken (panda_trace/routes_logs.py, panda_trace/store.py).
module BatchReport {
  import opened Base
  import opened Records
  import opened StoreModel
  import opened StoreInvariant
  import opened Publication
  import opened Batch
  import Tail

  // ---------- what is reported of a stored item ----------

  // Publications do not change what the store does.
  lemma {:induction false} ReportsFollowStore(s: State, hub: Tail.Hub, auth: Auth, request: Request, config: Config,
                                              n: nat)
    requires n <= |request.items| == |request.moments|
    ensures Reports(s, hub, auth, request, config, n).0 == Outcomes(s, auth, request, config, n).0
    ensures |Reports(s, hub, auth, request, config, n).2| == n
  {
    if n > 0 {
      ReportsFollowStore(s, hub, auth, request, config, n - 1);
      var (t, h, before) := Reports(s, hub, auth, request, config, n - 1);
      ReportItemState(t, h, auth, request.items[n - 1], n - 1, request.batchKey, request.moments[n - 1], config);
      hide IngestItem, ReportItem;
    }
  }

  lemma ReportItemState(s: State, hub: Tail.Hub, auth: Auth, item: LogCreate, index: nat, batchKey: Option<string>,
                        moment: Moment, config: Config)
    ensures ReportItem(s, hub, auth, item, index, batchKey, moment, config).0
            == IngestItem(s, auth, item, index, batchKey, moment, config).0
  {
    var clean := Prepare(item, config);
    if clean.Ok? {
      StoreIgnoresHub(s, hub, auth, clean.value, ItemKey(batchKey, index),
                      ArrivalOf(clean.value, moment, config), config.settings);
    }
    hide IngestAndPublish, IngestLog, Prepare;
  }

  // The item of this turn stored a log.
  predicate StoredNew(s: State, auth: Auth, request: Request, config: Config, i: nat)
    requires i < |request.items| == |request.moments|
  {
    Outcomes(s, auth, request, config, i + 1).0.logs.order != Outcomes(s, auth, request, config, i).0.logs.order
  }

  lemma StoredNewMeans(s: State, auth: Auth, request: Request, config: Config, i: nat)
    requires i < |request.items| == |request.moments|
    ensures StoredNew(s, auth, request, config, i)
            <==> Outcomes(s, auth, request, config, i + 1).0.logs.order
                 != Outcomes(s, auth, request, config, i).0.logs.order
  {
    hide Outcomes;
  }

  lemma ReportItemIff(s: State, hub: Tail.Hub, auth: Auth, item: LogCreate, index: nat, batchKey: Option<string>,
                      moment: Moment, config: Config)
    requires Inv(s)
    ensures var (t, r) := IngestItem(s, auth, item, index, batchKey, moment, config);
            var report := ReportItem(s, hub, auth, item, index, batchKey, moment, config).2;
            if t.logs.order != s.logs.order then
              && r.Ok?
              && report == if NobodyRaises(hub, r.value) then r else Err(BadRequest("invalid_severity"))
            else report == r
  {
    var clean := Prepare(item, config);
    if clean.Ok? {
      ReportedIff(s, hub, auth, clean.value, ItemKey(batchKey, index),
                  ArrivalOf(clean.value, moment, config), config.settings);
    }
    hide IngestAndPublish, IngestLog, Prepare, NobodyRaises;
  }

  // An item that was stored is reported accepted if and only if no subscriber's filter raises on its
  // log at that moment; every other item is reported as the store decided.
  lemma StoredItemReportedIff(s: State, hub: Tail.Hub, auth: Auth, request: Request, config: Config, i: nat)
    requires Inv(s) && i < |request.items| == |request.moments|
    ensures |Outcomes(s, auth, request, config, |request.items|).1| == |request.items|
    ensures |Reports(s, hub, auth, request, config, |request.items|).2| == |request.items|
    ensures var r := Outcomes(s, auth, request, config, |request.items|).1[i];
            var report := Reports(s, hub, auth, request, config, |request.items|).2[i];
            var hubThen := Reports(s, hub, auth, request, config, i).1;
            if StoredNew(s, auth, request, config, i) then
              && r.Ok? && (report.Ok? <==> NobodyRaises(hubThen, r.value)) && (report.Ok? ==> report == r)
            else report == r
  {
    hide Inv, Grows, Outcomes, Reports, IngestItem, ReportItem, NobodyRaises;
    var n := |request.items|;
    BatchGrows(s, auth, request, config, i + 1, n);
    BatchGrows(s, auth, request, config, i, i);
    ReportsFollowStore(s, hub, auth, request, config, i);
    ReportStands(s, hub, auth, request, config, i, n);
    OneMoreItem(s, auth, request, config, i);
    OneMoreReport(s, hub, auth, request, config, i);
    var (t, before) := Outcomes(s, auth, request, config, i);
    var (t2, h, reports) := Reports(s, hub, auth, request, config, i);
    ReportItemIff(t, h, auth, request.items[i], i, request.batchKey, request.moments[i], config);
    assert Outcomes(s, auth, request, config, n).1[i] == Outcomes(s, auth, request, config, i + 1).1[i];
  }

  // A report once made is not changed by later items.
  lemma {:induction false} ReportStands(s: State, hub: Tail.Hub, auth: Auth, request: Request, config: Config, i: nat,
                                        n: nat)
    requires i < n <= |request.items| == |request.moments|
    ensures |Reports(s, hub, auth, request, config, n).2| == n
    ensures |Reports(s, hub, auth, request, config, i + 1).2| == i + 1
    ensures Reports(s, hub, auth, request, config, n).2[i] == Reports(s, hub, auth, request, config, i + 1).2[i]
  {
    ReportsFollowStore(s, hub, auth, request, config, n);
    ReportsFollowStore(s, hub, auth, request, config, i + 1);
    if i + 1 < n {
      ReportStands(s, hub, auth, request, config, i, n - 1);
      OneMoreReport(s, hub, auth, request, config, n - 1);
      hide ReportItem, Reports;
    }
  }

  // Under a batch key not used before, the accepted list names exactly the stored logs whose publication
  // raised nothing; the others are stored but listed as rejected.
  lemma NewBatchReports(s: State, hub: Tail.Hub, auth: Auth, request: Request, config: Config, i: nat)
    requires Inv(s) && i < |request.items| == |request.moments|
    requires Given(request.batchKey) && NewKeys(s, auth.key.id, request.batchKey.value, 0)
    ensures |Outcomes(s, auth, request, config, |request.items|).1| == |request.items|
    ensures |Reports(s, hub, auth, request, config, |request.items|).2| == |request.items|
    ensures var r := Outcomes(s, auth, request, config, |request.items|).1[i];
            var report := Reports(s, hub, auth, request, config, |request.items|).2[i];
            && (StoredNew(s, auth, request, config, i) <==> r.Ok?)
            && (report.Ok? <==> r.Ok? && NobodyRaises(Reports(s, hub, auth, request, config, i).1, r.value))
            && (report.Ok? ==> report == r)
  {
    hide *;
    StoredItemReportedIff(s, hub, auth, request, config, i);
    NewItemStoredIff(s, auth, request, config, i);
    BatchGrows(s, auth, request, config, i + 1, |request.items|);
  }

  // Under such a key an item is stored if and only if the store takes it.
  lemma NewItemStoredIff(s: State, auth: Auth, request: Request, config: Config, i: nat)
    requires Inv(s) && i < |request.items| == |request.moments|
    requires Given(request.batchKey) && NewKeys(s, auth.key.id, request.batchKey.value, 0)
    ensures |Outcomes(s, auth, request, config, i + 1).1| == i + 1
    ensures StoredNew(s, auth, request, config, i) <==> Outcomes(s, auth, request, config, i + 1).1[i].Ok?
  {
    hide *;
    NewBatchStoresEachItem(s, auth, request, config, i);
    NewBatchStoresEachItem(s, auth, request, config, i + 1);
    OneMoreItem(s, auth, request, config, i);
    StoredNewMeans(s, auth, request, config, i);
    var before, after := Outcomes(s, auth, request, config, i).1, Outcomes(s, auth, request, config, i + 1).1;
    assert after == before + [after[i]];
    IdsOfOneMore(before, after[i]);
  }

  lemma IdsOfOneMore(before: seq<Result<LogRecord>>, r: Result<LogRecord>)
    ensures IdsOf(AcceptedOf(before + [r])) == IdsOf(AcceptedOf(before)) + if r.Ok? then [r.value.id] else []
  {
    OneMoreOutcome(before, r);
    hide AcceptedOf;
    if r.Ok? {
      IdsSnoc(AcceptedOf(before), AcceptedItem(|before|, r.value.id));
    } else {
      assert AcceptedOf(before) + [] == AcceptedOf(before);
    }
  }

  // Sending the batch again reports as accepted, with its id, every item that the store had taken,
  // also those that were stored but listed as rejected, whoever is subscribed by then.
  lemma ResubmissionReportsStored(s: State, auth: Auth, request: Request, config: Config, between: seq<Command>,
                                  again: Auth, moments: seq<Moment>, hub: Tail.Hub, i: nat)
    requires Inv(s) && |request.items| == |request.moments| == |moments| && i < |request.items|
    requires again.key.id == auth.key.id && Given(request.batchKey)
    requires |Outcomes(s, auth, request, config, |request.items|).1| == |request.items|
    requires Outcomes(s, auth, request, config, |request.items|).1[i].Ok?
    ensures var n := |request.items|;
            var (t, outcomes) := Outcomes(s, auth, request, config, n);
            var u := ExecuteAll(t, between, config.settings);
            var reports := Reports(u, hub, again, request.(moments := moments), config, n).2;
            |reports| == n && reports[i] == outcomes[i]
  {
    var n, second := |request.items|, request.(moments := moments);
    var (t, outcomes) := Outcomes(s, auth, request, config, n);
    var u := ExecuteAll(t, between, config.settings);
    hide Inv, Grows, Outcomes, Reports, Prepare, ExecuteAll;
    BatchGrows(s, auth, request, config, n, n);
    ExecuteAllGrows(t, between, config.settings);
    AcceptedIsPrepared(s, auth, request, config, i);
    ResubmittedItem(s, auth, request, config, u, again, second, i);
    StoredItemReportedIff(u, hub, again, second, config, i);
  }
}
