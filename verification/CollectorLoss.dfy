// What a 2xx answer of the batch endpoint (panda_trace/routes_logs.py) means for the collector, which reads
// only its status (panda_trace_collector/collector.py).
module CollectorLoss {
  import opened Base
  import opened Numbers
  import opened Records
  import opened Severity
  import opened Ids
  import opened Quota
  import opened StoreModel
  import opened StoreInvariant
  import opened StoreSteps
  import opened ExactlyOnce
  import Publication
  import Batch
  import BatchReport
  import BatchKeys
  import D = Delivery
  import L = SendLoop
  import Tail

  // The positions that the endpoint's answer lists as rejected.
  function Rejected(reports: seq<Result<LogRecord>>): set<int> {
    set b | b in Batch.RejectedOf(reports) :: b.index
  }

  lemma RejectedIff(reports: seq<Result<LogRecord>>, k: int)
    ensures k in Rejected(reports) <==> 0 <= k < |reports| && reports[k].Err?
  {
    Batch.RejectedMembers(reports);
    if 0 <= k < |reports| && reports[k].Err? {
      assert Batch.RejectedItem(k, reports[k].error) in Batch.RejectedOf(reports);
    }
  }

  // The request as the collector sends it: no batch key, every item at the same moment.
  function Plain(items: seq<LogCreate>, moment: Batch.Moment): (r: Batch.Request)
    ensures r.items == items && |r.moments| == |items| && r.batchKey == None
  {
    Batch.Request(items, None, seq(|items|, _ => moment))
  }

  // The endpoint's answer to such a request in a given state; `bytes` is the printed size of a request.
  function Answer(s: State, hub: Tail.Hub, auth: Auth, config: Batch.Config, bytes: seq<LogCreate> -> nat,
                  moment: Batch.Moment, items: seq<LogCreate>): D.Response
  {
    if |items| > config.maxBatchItems then D.HttpError(400, None)
    else if bytes(items) > config.maxBatchBytes then D.HttpError(413, None)
    else D.Accepted(Rejected(Batch.Reports(s, hub, auth, Plain(items, moment), config, |items|).2))
  }

  // ---------- a confirmed record is stored ----------

  // For records without idempotency keys: a record that a 2xx answer does not list as rejected was stored
  // as a new log; a listed one was not, unless a tail subscriber's filter raised on its log.
  lemma ConfirmedIsStored(s: State, hub: Tail.Hub, auth: Auth, config: Batch.Config, bytes: seq<LogCreate> -> nat,
                          moment: Batch.Moment, items: seq<LogCreate>, i: nat)
    requires Inv(s) && i < |items| && items[i].idempotencyKey == None
    requires Answer(s, hub, auth, config, bytes, moment, items).Accepted?
    ensures var request := Plain(items, moment);
            && |Batch.Outcomes(s, auth, request, config, |items|).1| == |items|
            && var r := Batch.Outcomes(s, auth, request, config, |items|).1[i];
               var hubThen := Batch.Reports(s, hub, auth, request, config, i).1;
               var raised := r.Ok? && !Publication.NobodyRaises(hubThen, r.value);
               && (BatchReport.StoredNew(s, auth, request, config, i) <==> r.Ok?)
               && (i !in Answer(s, hub, auth, config, bytes, moment, items).rejected
                   <==> BatchReport.StoredNew(s, auth, request, config, i) && !raised)
  {
    hide *;
    var request := Plain(items, moment);
    BatchReport.StoredItemReportedIff(s, hub, auth, request, config, i);
    KeylessStoredNew(s, auth, request, config, i);
    AnswerLists(s, hub, auth, config, bytes, moment, items, i);
  }

  lemma AnswerLists(s: State, hub: Tail.Hub, auth: Auth, config: Batch.Config, bytes: seq<LogCreate> -> nat,
                    moment: Batch.Moment, items: seq<LogCreate>, i: nat)
    requires i < |items| && Answer(s, hub, auth, config, bytes, moment, items).Accepted?
    ensures |Batch.Reports(s, hub, auth, Plain(items, moment), config, |items|).2| == |items|
    ensures i in Answer(s, hub, auth, config, bytes, moment, items).rejected
            <==> Batch.Reports(s, hub, auth, Plain(items, moment), config, |items|).2[i].Err?
  {
    BatchReport.ReportsFollowStore(s, hub, auth, Plain(items, moment), config, |items|);
    RejectedIff(Batch.Reports(s, hub, auth, Plain(items, moment), config, |items|).2, i);
    hide Batch.Reports, Rejected, Batch.Outcomes;
  }

  lemma KeylessStoredNew(s: State, auth: Auth, request: Batch.Request, config: Batch.Config, i: nat)
    requires Inv(s) && i < |request.items| == |request.moments|
    requires request.items[i].idempotencyKey == None && request.batchKey == None
    ensures |Batch.Outcomes(s, auth, request, config, |request.items|).1| == |request.items|
    ensures BatchReport.StoredNew(s, auth, request, config, i)
            <==> Batch.Outcomes(s, auth, request, config, |request.items|).1[i].Ok?
  {
    hide *;
    var t := Batch.Outcomes(s, auth, request, config, i).0;
    BatchReport.StoredNewMeans(s, auth, request, config, i);
    Batch.BatchGrows(s, auth, request, config, i, i);
    Batch.OneMoreItem(s, auth, request, config, i);
    OutcomeStands(s, auth, request, config, i);
    KeylessStoresIff(t, auth, request.items[i], i, request.moments[i], config);
  }

  // What the store did with an item is its outcome in the whole batch.
  lemma OutcomeStands(s: State, auth: Auth, request: Batch.Request, config: Batch.Config, i: nat)
    requires Inv(s) && i < |request.items| == |request.moments|
    ensures |Batch.Outcomes(s, auth, request, config, |request.items|).1| == |request.items|
    ensures var t := Batch.Outcomes(s, auth, request, config, i).0;
            Batch.Outcomes(s, auth, request, config, |request.items|).1[i]
            == Batch.IngestItem(t, auth, request.items[i], i, request.batchKey, request.moments[i], config).1
  {
    hide *;
    Batch.BatchGrows(s, auth, request, config, i, i);
    Batch.BatchGrows(s, auth, request, config, i + 1, |request.items|);
    Batch.OneMoreItem(s, auth, request, config, i);
    var first := Batch.Outcomes(s, auth, request, config, i + 1).1;
    assert first == Batch.Outcomes(s, auth, request, config, |request.items|).1[..i + 1];
    assert first[i] == Batch.Outcomes(s, auth, request, config, |request.items|).1[i];
  }

  lemma KeylessStoresIff(s: State, auth: Auth, item: LogCreate, index: nat, moment: Batch.Moment, config: Batch.Config)
    requires Inv(s) && item.idempotencyKey == None
    ensures var (t, r) := Batch.IngestItem(s, auth, item, index, None, moment, config);
            t.logs.order != s.logs.order <==> r.Ok?
  {
    PrepareKeepsKey(item, config);
    var clean := Batch.Prepare(item, config);
    hide Inv, IngestLog, Batch.Prepare;
    if clean.Ok? {
      Publication.StoresIff(s, auth, clean.value, None, Batch.ArrivalOf(clean.value, moment, config), config.settings);
    }
  }

  lemma PrepareKeepsKey(item: LogCreate, config: Batch.Config)
    ensures var clean := Batch.Prepare(item, config);
            clean.Ok? ==> clean.value.idempotencyKey == item.idempotencyKey && clean.value.severity == item.severity
                          && config.size(clean.value) <= config.maxLogBytes
  {
  }

  // ---------- items that are rejected one by one ----------

  // A record with a severity the aliases do not know is rejected and changes nothing.
  lemma UnknownSeverityRejected(s: State, hub: Tail.Hub, auth: Auth, item: LogCreate, index: nat,
                                moment: Batch.Moment, config: Batch.Config)
    requires item.idempotencyKey == None && !KnownSeverity(item.severity)
    ensures var (t, h, r) := Batch.ReportItem(s, hub, auth, item, index, None, moment, config);
            t == s && h == hub && r.Err?
  {
    PrepareKeepsKey(item, config);
    var clean := Batch.Prepare(item, config);
    hide Batch.Prepare, StoreRecord, NewRecord, ResolveProjectSource, ChargeIngest;
  }

  // The day's quota of every project is used up.
  ghost predicate UsedUp(s: State, day: string, settings: Settings) {
    && 0 < settings.maxProjectDailyIngestBytes
    && forall id :: id in s.projects ==>
         Counter(s.quota, QuotaKey(ProjectIngest, id, day)) >= settings.maxProjectDailyIngestBytes
  }

  // Nothing but counters has changed, and the projects' quota is still used up.
  ghost predicate OnlyCharged(s: State, t: State, day: string, settings: Settings) {
    t == s.(quota := t.quota) && Inv(t) && UsedUp(t, day, settings)
  }

  predicate Dated(moment: Batch.Moment) {
    IsDay(moment.keyDay) && IsDay(moment.projectDay)
  }

  lemma UsedUpRefuses(s: State, auth: Auth, log: LogCreate, arrival: Arrival, settings: Settings)
    requires Inv(s) && UsedUp(s, arrival.projectDay, settings) && IsDay(arrival.keyDay) && IsDay(arrival.projectDay)
    requires log.idempotencyKey == None && arrival.payloadSize > 0
    ensures var (t, r) := IngestLog(s, auth, log, None, arrival, settings);
            r.Err? && OnlyCharged(s, t, arrival.projectDay, settings)
  {
    var resolved := ResolveProjectSource(s, auth.key, log.projectId, log.sourceId);
    IngestKeepsInv(s, auth, log, None, arrival, settings);
    IngestCases(s, auth, log, None, arrival, settings);
    if resolved.Ok? {
      ResolvedKnown(s, auth, log);
      UsedUpCharge(s, auth.key.id, resolved.value.0.id, arrival, settings);
    }
    hide Inv, UsedUp, ResolveProjectSource, ChargeIngest, StoreRecord, NormalizeSeverity, IngestLog, AcceptedRecord;
    hide Grows;
    assert s.(quota := s.quota) == s;
  }

  lemma ResolvedKnown(s: State, auth: Auth, log: LogCreate)
    requires Inv(s) && ResolveProjectSource(s, auth.key, log.projectId, log.sourceId).Ok?
    ensures ResolveProjectSource(s, auth.key, log.projectId, log.sourceId).value.0.id in s.projects
  {
    ResolvedFits(s, auth.key, log.projectId, log.sourceId);
  }

  lemma KindsDiffer(keyId: string, keyDay: string, projectId: string, projectDay: string)
    requires IsDay(keyDay) && IsDay(projectDay)
    ensures QuotaKey(KeyIngest, keyId, keyDay) != QuotaKey(ProjectIngest, projectId, projectDay)
  {
    if QuotaKey(KeyIngest, keyId, keyDay) == QuotaKey(ProjectIngest, projectId, projectDay) {
      QuotaKeysDiffer(KeyIngest, keyId, keyDay, ProjectIngest, projectId, projectDay);
    }
  }

  lemma UsedUpCharge(s: State, keyId: string, projectId: string, arrival: Arrival, settings: Settings)
    requires UsedUp(s, arrival.projectDay, settings) && projectId in s.projects && arrival.payloadSize > 0
    requires IsDay(arrival.keyDay) && IsDay(arrival.projectDay)
    ensures var charge := ChargeIngest(s.quota, keyId, projectId, arrival, settings);
            charge.refusal.Some? && UsedUp(s.(quota := charge.quota), arrival.projectDay, settings)
  {
    forall id
      ensures QuotaKey(KeyIngest, keyId, arrival.keyDay) != QuotaKey(ProjectIngest, id, arrival.projectDay)
    {
      KindsDiffer(keyId, arrival.keyDay, id, arrival.projectDay);
    }
    hide QuotaKey, IsDay;
  }

  lemma UsedUpRejectsItem(s: State, hub: Tail.Hub, auth: Auth, item: LogCreate, index: nat, moment: Batch.Moment,
                          config: Batch.Config)
    requires Inv(s) && UsedUp(s, moment.projectDay, config.settings) && Dated(moment)
    requires item.idempotencyKey == None && forall log :: config.size(log) > 0
    ensures var (t, h, r) := Batch.ReportItem(s, hub, auth, item, index, None, moment, config);
            r.Err? && h == hub && OnlyCharged(s, t, moment.projectDay, config.settings)
  {
    PrepareKeepsKey(item, config);
    var clean := Batch.Prepare(item, config);
    hide Inv, UsedUp, Batch.Prepare, IngestLog, IsReplay;
    if clean.Ok? {
      UsedUpRefuses(s, auth, clean.value, Batch.ArrivalOf(clean.value, moment, config), config.settings);
    }
  }

  ghost predicate Keyless(items: seq<LogCreate>) {
    forall item :: item in items ==> item.idempotencyKey == None
  }

  // With the quota used up the whole batch is rejected, item by item: nothing is stored or published, and
  // the quota stays used up.
  lemma {:induction false} UsedUpRejectsAll(s: State, hub: Tail.Hub, auth: Auth, config: Batch.Config,
                                            moment: Batch.Moment, items: seq<LogCreate>, n: nat)
    requires Inv(s) && UsedUp(s, moment.projectDay, config.settings) && Dated(moment)
    requires forall log :: config.size(log) > 0
    requires Keyless(items) && n <= |items|
    ensures var (t, h, reports) := Batch.Reports(s, hub, auth, Plain(items, moment), config, n);
            && OnlyCharged(s, t, moment.projectDay, config.settings) && h == hub
            && |reports| == n && forall k :: 0 <= k < n ==> reports[k].Err?
  {
    hide Inv, UsedUp, Batch.ReportItem, Dated;
    if n > 0 {
      UsedUpRejectsAll(s, hub, auth, config, moment, items, n - 1);
      var before := Batch.Reports(s, hub, auth, Plain(items, moment), config, n - 1).0;
      UsedUpRejectsItem(before, hub, auth, items[n - 1], n - 1, moment, config);
    }
  }

  // ---------- the collector against such a service ----------

  ghost predicate AllGood<T(!new)>(items: seq<T>, good: T -> bool) {
    forall x :: x in items ==> good(x)
  }

  // For requests of good records: no 422, and a 2xx answer lists every position as rejected.
  ghost predicate ConfirmsNothing<T(!new)>(server: D.Server<T>, good: T -> bool) {
    forall n, items :: AllGood(items, good) ==> AnswersNothing(server(n, items), |items|)
  }

  ghost predicate AnswersNothing(response: D.Response, n: nat) {
    && !D.IsInvalid(response)
    && (response.Accepted? ==> forall k :: 0 <= k < n ==> k in response.rejected)
  }

  lemma {:induction false} NothingRemains<T>(items: seq<T>, gone: set<int>)
    requires forall k :: 0 <= k < |items| ==> k in gone
    ensures D.Rest(items, gone) == []
  {
    if items != [] {
      NothingRemains(items[..|items| - 1], gone);
    }
  }

  lemma RecoverConfirmsNothing<T(!new)>(server: D.Server<T>, n: nat, batch: seq<T>, good: T -> bool)
    requires ConfirmsNothing(server, good) && AllGood(batch, good)
    ensures var d := D.Recover(server, n, batch);
            D.ConfirmedItems(d.sends) == [] && d.dropped == []
  {
    if batch != [] {
      var response := server(n, batch);
      var send := D.Send(batch, response);
      D.RecoverUnfold(server, n, batch);
      assert AnswersNothing(response, |batch|);
      if response.Accepted? {
        NothingRemains(batch, response.rejected);
      }
      D.FirstParts([send]);
    }
  }

  // All records are good, and nothing has been confirmed.
  ghost predicate Fruitless<T(!new)>(s: L.State<T>, good: T -> bool) {
    && AllGood(s.queue, good) && AllGood(s.batch, good)
    && (forall f :: f in s.flushed ==> AllGood(f.batch, good))
    && D.ConfirmedItems(s.sends) == []
  }

  lemma {:induction false} ConfirmedConcat<T>(a: seq<D.Send<T>>, b: seq<D.Send<T>>)
    ensures D.ConfirmedItems(a + b) == D.ConfirmedItems(a) + D.ConfirmedItems(b)
  {
    if a == [] {
      assert a + b == b;
    } else {
      assert (a + b)[1..] == a[1..] + b;
      ConfirmedConcat(a[1..], b);
    }
  }

  lemma StepFruitless<T(!new)>(s: L.State<T>, e: L.Event<T>, server: D.Server<T>, batchSize: int, good: T -> bool)
    requires ConfirmsNothing(server, good) && Fruitless(s, good)
    requires e.Put? ==> good(e.item)
    ensures Fruitless(L.Next(s, e, server, batchSize), good)
  {
    hide D.Recover, D.ConfirmedItems, ConfirmsNothing;
    if e.Turn? && s.place.Flushing? {
      RecoverConfirmsNothing(server, |s.sends|, s.batch, good);
      ConfirmedConcat(s.sends, D.Recover(server, |s.sends|, s.batch).sends);
    }
  }

  lemma {:induction false} RunFruitless<T(!new)>(events: seq<L.Event<T>>, server: D.Server<T>, batchSize: int,
                                                 good: T -> bool)
    requires ConfirmsNothing(server, good) && forall e :: e in events && e.Put? ==> good(e.item)
    ensures Fruitless(L.After(events, server, batchSize), good)
  {
    if events != [] {
      var n := |events| - 1;
      RunFruitless(events[..n], server, batchSize, good);
      StepFruitless(L.After(events[..n], server, batchSize), events[n], server, batchSize, good);
      hide ConfirmsNothing, Fruitless, L.Next;
    }
  }

  lemma SentConfirmsNothing<T(!new)>(f: L.Flush<T>, sends: seq<D.Send<T>>, server: D.Server<T>, good: T -> bool)
    requires ConfirmsNothing(server, good) && AllGood(f.batch, good) && L.Sent(f, sends, server)
    ensures D.ConfirmedItems(L.FlushSends(f, sends, server)) == []
    ensures D.DroppedItems(D.Recover(server, f.first, f.batch).dropped) == []
  {
    RecoverConfirmsNothing(server, f.first, f.batch, good);
    hide D.Recover, D.ConfirmedItems, ConfirmsNothing, AllGood;
  }

  lemma {:induction false} FlushesConfirmNothing<T(!new)>(flushed: seq<L.Flush<T>>, sends: seq<D.Send<T>>,
                                                          server: D.Server<T>, good: T -> bool)
    requires ConfirmsNothing(server, good)
    requires forall f :: f in flushed ==> AllGood(f.batch, good) && L.Sent(f, sends, server)
    ensures L.ConfirmedIn(flushed, sends, server) == [] && L.DroppedIn(flushed, server) == []
  {
    if flushed != [] {
      var n := |flushed| - 1;
      SentConfirmsNothing(flushed[n], sends, server, good);
      hide ConfirmsNothing, AllGood, L.Sent, L.FlushSends, D.Recover, D.ConfirmedItems, D.DroppedItems;
      FlushesConfirmNothing(flushed[..n], sends, server, good);
    }
  }

  // Against a service that rejects every record inside its 2xx answers no run confirms any record, and
  // every flushed record was listed as rejected and is gone.
  lemma EverythingLost<T(!new)>(events: seq<L.Event<T>>, server: D.Server<T>, batchSize: int, good: T -> bool)
    requires batchSize >= 1 && ConfirmsNothing(server, good)
    requires forall e :: e in events && e.Put? ==> good(e.item)
    ensures var s := L.After(events, server, batchSize);
            && D.ConfirmedItems(s.sends) == [] && L.DroppedIn(s.flushed, server) == []
            && multiset(L.RejectedIn(s.flushed, s.sends, server)) == multiset(L.Flat(s.flushed))
  {
    hide *;
    var s := L.After(events, server, batchSize);
    L.AllConfirmedRunIff(events, server, batchSize);
    L.AlwaysInv(events, server, batchSize);
    RunFruitless(events, server, batchSize, good);
    FlushesAreGood(s, server, batchSize, good);
    FlushesConfirmNothing(s.flushed, s.sends, server, good);
  }

  lemma FlushesAreGood<T(!new)>(s: L.State<T>, server: D.Server<T>, batchSize: int, good: T -> bool)
    requires L.Inv(s, server, batchSize) && Fruitless(s, good)
    ensures forall f :: f in s.flushed ==> AllGood(f.batch, good) && L.Sent(f, s.sends, server)
    ensures D.ConfirmedItems(s.sends) == []
  {
    hide AllGood, L.Sent, L.Flat, D.ConfirmedItems;
  }

  // ---------- the service with its quota used up ----------

  // What the service answers a request from: its state, its subscribers and the clock.
  datatype Situation = Situation(state: State, hub: Tail.Hub, moment: Batch.Moment)

  // The service as the collector sees it; `at` gives the situation at each request.
  function Service(at: nat -> Situation, auth: Auth, config: Batch.Config, bytes: seq<LogCreate> -> nat)
    : D.Server<LogCreate>
  {
    (n: nat, items: seq<LogCreate>) =>
      Answer(at(n).state, at(n).hub, auth, config, bytes, at(n).moment, items)
  }

  ghost predicate NoQuotaLeft(at: Situation, settings: Settings) {
    Inv(at.state) && UsedUp(at.state, at.moment.projectDay, settings) && Dated(at.moment)
  }

  const NO_KEY := (log: LogCreate) => log.idempotencyKey == None

  lemma UsedUpAnswer(s: State, hub: Tail.Hub, auth: Auth, config: Batch.Config, bytes: seq<LogCreate> -> nat,
                     moment: Batch.Moment, items: seq<LogCreate>)
    requires Inv(s) && UsedUp(s, moment.projectDay, config.settings) && Dated(moment)
    requires Keyless(items) && forall log :: config.size(log) > 0
    ensures AnswersNothing(Answer(s, hub, auth, config, bytes, moment, items), |items|)
  {
    UsedUpRejectsAll(s, hub, auth, config, moment, items, |items|);
    var reports := Batch.Reports(s, hub, auth, Plain(items, moment), config, |items|).2;
    hide Inv, UsedUp, Batch.Reports, Rejected;
    forall k | 0 <= k < |items|
      ensures k in Rejected(reports)
    {
      RejectedIff(reports, k);
    }
  }

  // While the projects' quota is used up no record that the collector sends is confirmed, in any run,
  // however the service's state changes meanwhile.
  lemma UsedUpLosesEverything(at: nat -> Situation, auth: Auth, config: Batch.Config, bytes: seq<LogCreate> -> nat,
                              events: seq<L.Event<LogCreate>>, batchSize: int)
    requires forall n :: NoQuotaLeft(at(n), config.settings)
    requires forall log :: config.size(log) > 0
    requires batchSize >= 1 && forall e :: e in events && e.Put? ==> e.item.idempotencyKey == None
    ensures var server := Service(at, auth, config, bytes);
            var end := L.After(events, server, batchSize);
            && D.ConfirmedItems(end.sends) == [] && L.DroppedIn(end.flushed, server) == []
            && multiset(L.RejectedIn(end.flushed, end.sends, server)) == multiset(L.Flat(end.flushed))
  {
    var server := Service(at, auth, config, bytes);
    hide Inv, UsedUp, Dated, Answer, AnswersNothing, L.After, L.Flat, L.RejectedIn, L.DroppedIn, D.ConfirmedItems;
    forall n: nat, items | AllGood(items, NO_KEY)
      ensures AnswersNothing(server(n, items), |items|)
    {
      assert NoQuotaLeft(at(n), config.settings);
      UsedUpAnswer(at(n).state, at(n).hub, auth, config, bytes, at(n).moment, items);
    }
    EverythingLost(events, server, batchSize, NO_KEY);
  }

  // ---------- a run in which a record is lost ----------

  // The commands that use the quota up: the set-up, and one log as large as the limit.
  function Exhausting(log: LogCreate, arrival: Arrival): seq<Command> {
    BatchKeys.SETUP + [Ingest(BatchKeys.KEY, log, None, arrival)]
  }

  // A state with the one project and source of the set-up and no charge on any counter.
  ghost predicate Fresh(s: State) {
    && BatchKeys.Owned(s) && s.projects == map[BatchKeys.PROJECT := Project(BatchKeys.PROJECT, BatchKeys.ORG)]
    && s.sources == Table([BatchKeys.SOURCE],
                          map[BatchKeys.SOURCE := Source(BatchKeys.SOURCE, BatchKeys.ORG, BatchKeys.PROJECT)])
  }

  lemma FreshResolves(s: State, message: string, key: string)
    requires Fresh(s)
    ensures var log := BatchKeys.SimpleLog(message, key);
            var resolved := ResolveProjectSource(s, BatchKeys.OWNER.key, log.projectId, log.sourceId);
            resolved.Ok? && resolved.value.0.id == BatchKeys.PROJECT
  {
    BatchKeys.SourceIsGiven();
    hide MakeId;
  }

  // The log is as large as the project's limit, and the key may send that much.
  predicate Fills(arrival: Arrival, settings: Settings) {
    && settings.maxProjectDailyIngestBytes > 0 && arrival.payloadSize == settings.maxProjectDailyIngestBytes
    && (settings.maxKeyDailyIngestBytes > 0 ==> arrival.payloadSize <= settings.maxKeyDailyIngestBytes)
    && IsDay(arrival.keyDay) && IsDay(arrival.projectDay)
  }

  lemma FillingCharge(s: State, arrival: Arrival, settings: Settings)
    requires Fresh(s) && Fills(arrival, settings)
    ensures var charge := ChargeIngest(s.quota, BatchKeys.OWNER.key.id, BatchKeys.PROJECT, arrival, settings);
            var key := QuotaKey(ProjectIngest, BatchKeys.PROJECT, arrival.projectDay);
            charge.refusal == None && Counter(charge.quota, key) == settings.maxProjectDailyIngestBytes
  {
    KindsDiffer(BatchKeys.OWNER.key.id, arrival.keyDay, BatchKeys.PROJECT, arrival.projectDay);
    hide MakeId, QuotaKey, IsDay;
  }

  lemma FillingLog(s: State, message: string, arrival: Arrival, settings: Settings)
    requires Fresh(s) && Fills(arrival, settings)
    ensures UsedUp(IngestLog(s, BatchKeys.OWNER, BatchKeys.SimpleLog(message, "first"), None, arrival, settings).0,
                   arrival.projectDay, settings)
  {
    FreshResolves(s, message, "first");
    BatchKeys.InfoIsKnown();
    FillingCharge(s, arrival, settings);
    NoReplayYet(s, message);
    hide MakeId, QuotaKey, NormalizeSeverity, ResolveProjectSource, ChargeIngest, NewRecord, NextId, IsReplay, IsDay;
  }

  lemma NoReplayYet(s: State, message: string)
    requires Fresh(s)
    ensures var log := BatchKeys.SimpleLog(message, "first");
            !IsReplay(s, BatchKeys.OWNER, EffectiveKey(None, log))
  {
    hide MakeId;
  }

  // One log as large as the limit uses the day's quota up.
  lemma QuotaUsedUp(message: string, arrival: Arrival, settings: Settings)
    requires Fills(arrival, settings)
    ensures var s := Run(Exhausting(BatchKeys.SimpleLog(message, "first"), arrival), settings);
            Inv(s) && UsedUp(s, arrival.projectDay, settings)
  {
    hide *;
    var log := BatchKeys.SimpleLog(message, "first");
    var s := Run(BatchKeys.SETUP, settings);
    SetupFresh(settings);
    BatchKeys.OwnerAuthenticates(s);
    IngestRuns(BatchKeys.SETUP, settings, BatchKeys.OWNER, log, None, arrival);
    ExhaustingMeans(log, arrival);
    RunKeepsInv(Exhausting(log, arrival), settings);
    FillingLog(s, message, arrival, settings);
  }

  lemma SetupFresh(settings: Settings)
    ensures Fresh(Run(BatchKeys.SETUP, settings)) && BatchKeys.Owned(Run(BatchKeys.SETUP, settings))
  {
    BatchKeys.SetupRun(settings);
    hide Run, BatchKeys.Owned, Inv;
  }

  lemma ExhaustingMeans(log: LogCreate, arrival: Arrival)
    ensures Exhausting(log, arrival) == BatchKeys.SETUP + [Ingest(BatchKeys.KEY, log, None, arrival)]
  {
  }

  // A record arrives, and the sender takes it and flushes it.
  function OneRecord<T>(x: T): seq<L.Event<T>> {
    [L.Put(x)] + [L.Turn(false)] + [L.Turn(false)] + [L.Turn(false)] + [L.Turn(false)]
  }

  lemma OneMoreEvent<T>(events: seq<L.Event<T>>, e: L.Event<T>, server: D.Server<T>, batchSize: int)
    ensures L.After(events + [e], server, batchSize) == L.Next(L.After(events, server, batchSize), e, server, batchSize)
  {
    assert (events + [e])[..|events|] == events;
    hide L.Next;
  }

  lemma OneRecordRun<T(!new)>(x: T, server: D.Server<T>)
    requires server(0, [x]).Accepted?
    ensures L.After(OneRecord(x), server, 1)
            == L.State(L.Top, [], [], false, [D.Send([x], server(0, [x]))], [x], [L.Flush([x], 0)])
  {
    FirstSteps(x, server);
    FlushStep(x, server);
    var turn: L.Event<T> := L.Turn(false);
    hide *;
    hide L.Next;
    OneRecordMeans(x);
    OneMoreEvent([L.Put(x)], turn, server, 1);
    OneMoreEvent([L.Put(x)] + [turn], turn, server, 1);
    OneMoreEvent([L.Put(x)] + [turn] + [turn], turn, server, 1);
    OneMoreEvent([L.Put(x)] + [turn] + [turn] + [turn], turn, server, 1);
    Begin(x, server, 1);
  }

  lemma OneRecordMeans<T>(x: T)
    ensures OneRecord(x) == [L.Put(x)] + [L.Turn(false)] + [L.Turn(false)] + [L.Turn(false)] + [L.Turn(false)]
  {
  }

  lemma FirstSteps<T>(x: T, server: D.Server<T>)
    ensures var turn: L.Event<T> := L.Turn(false);
            && L.Next(L.State(L.Top, [x], [], false, [], [], []), turn, server, 1)
               == L.State(L.Getting, [x], [], false, [], [], [])
            && L.Next(L.State(L.Getting, [x], [], false, [], [], []), turn, server, 1)
               == L.State(L.Deciding, [], [x], false, [], [x], [])
            && L.Next(L.State(L.Deciding, [], [x], false, [], [x], []), turn, server, 1)
               == L.State(L.Flushing, [], [x], false, [], [x], [])
  {
    hide D.Recover;
  }

  lemma FlushStep<T>(x: T, server: D.Server<T>)
    requires server(0, [x]).Accepted?
    ensures L.Next(L.State(L.Flushing, [], [x], false, [], [x], []), L.Turn(false), server, 1)
            == L.State(L.Top, [], [], false, [D.Send([x], server(0, [x]))], [x], [L.Flush([x], 0)])
  {
    D.RecoverUnfold(server, 0, [x]);
    hide D.Recover;
  }

  lemma Begin<T>(x: T, server: D.Server<T>, batchSize: int)
    ensures L.After([L.Put(x)], server, batchSize) == L.State(L.Top, [x], [], false, [], [], [])
  {
    assert [L.Put(x)][..0] == [];
    hide D.Recover;
  }

  // After such a log the collector sends a record, gets a 2xx answer, and clears its batch; the record was
  // neither confirmed nor dropped, and no log was stored.
  lemma LostToQuota(config: Batch.Config, bytes: seq<LogCreate> -> nat, hub: Tail.Hub, message: string,
                    arrival: Arrival, moment: Batch.Moment, x: LogCreate)
    requires Fills(arrival, config.settings) && Dated(moment) && moment.projectDay == arrival.projectDay
    requires x.idempotencyKey == None && forall log :: config.size(log) > 0
    requires 1 <= config.maxBatchItems && bytes([x]) <= config.maxBatchBytes
    ensures var s := Run(Exhausting(BatchKeys.SimpleLog(message, "first"), arrival), config.settings);
            var server := Service(Always(Situation(s, hub, moment)), BatchKeys.OWNER, config, bytes);
            var end := L.After(OneRecord(x), server, 1);
            && end.place.Top? && end.queue == [] && end.batch == [] && L.Flat(end.flushed) == [x]
            && D.AcceptedItems(end.sends) == [x] && D.ConfirmedItems(end.sends) == []
            && L.DroppedIn(end.flushed, server) == []
            && Batch.Reports(s, hub, BatchKeys.OWNER, Plain([x], moment), config, 1).0.logs == s.logs
  {
    var s := Run(Exhausting(BatchKeys.SimpleLog(message, "first"), arrival), config.settings);
    var here := Situation(s, hub, moment);
    var server := Service(Always(here), BatchKeys.OWNER, config, bytes);
    hide *;
    QuotaUsedUp(message, arrival, config.settings);
    OneRejected(s, hub, config, moment, x);
    AcceptedWithinLimits(here, BatchKeys.OWNER, config, bytes, [x]);
    OneRecordKeyless(x);
    AlwaysUsedUp(here, config.settings);
    UsedUpLosesEverything(Always(here), BatchKeys.OWNER, config, bytes, OneRecord(x), 1);
    OneRecordRun(x, server);
    OneFlush(x);
    OneAccepted(x, server(0, [x]));
  }

  function Always(here: Situation): nat -> Situation {
    (n: nat) => here
  }

  lemma AlwaysUsedUp(here: Situation, settings: Settings)
    requires Inv(here.state) && UsedUp(here.state, here.moment.projectDay, settings) && Dated(here.moment)
    ensures forall n :: NoQuotaLeft(Always(here)(n), settings)
  {
  }

  lemma OneRejected(s: State, hub: Tail.Hub, config: Batch.Config, moment: Batch.Moment, x: LogCreate)
    requires Inv(s) && UsedUp(s, moment.projectDay, config.settings) && Dated(moment)
    requires x.idempotencyKey == None && forall log :: config.size(log) > 0
    ensures Batch.Reports(s, hub, BatchKeys.OWNER, Plain([x], moment), config, 1).0.logs == s.logs
  {
    hide Inv, UsedUp, Dated, Batch.Reports;
    UsedUpRejectsAll(s, hub, BatchKeys.OWNER, config, moment, [x], 1);
  }

  lemma AcceptedWithinLimits(here: Situation, auth: Auth, config: Batch.Config, bytes: seq<LogCreate> -> nat,
                             items: seq<LogCreate>)
    requires |items| <= config.maxBatchItems && bytes(items) <= config.maxBatchBytes
    ensures Service(Always(here), auth, config, bytes)(0, items).Accepted?
  {
    hide Batch.Reports, Rejected;
  }

  lemma OneRecordKeyless(x: LogCreate)
    requires x.idempotencyKey == None
    ensures forall e :: e in OneRecord(x) && e.Put? ==> e.item.idempotencyKey == None
  {
  }

  lemma OneFlush<T>(x: T)
    ensures L.Flat([L.Flush([x], 0)]) == [x]
  {
  }

  lemma OneAccepted<T>(x: T, response: D.Response)
    requires response.Accepted?
    ensures D.AcceptedItems([D.Send([x], response)]) == [x]
  {
  }
}
