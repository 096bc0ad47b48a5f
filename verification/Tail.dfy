// Live tailing (panda_trace/tail.py): bounded queues, eviction of slow subscribers, stream counting.
module Tail {
  import opened Base
  import opened Text
  import opened Records
  import opened Severity

  const QUEUE_SIZE := 100

  // record_matches_tail: an unknown severity in the filter raises, once project and source agree.
  function RecordMatchesTail(record: LogRecord, filter: TailFilter): Result<bool> {
    if record.projectId != filter.projectId then Ok(false)
    else if Given(filter.sourceId) && record.sourceId != filter.sourceId.value then Ok(false)
    else if filter.severity != [] && !AllKnown(filter.severity) then Err(BadRequest("invalid_severity"))
    else if filter.severity != [] && record.severity !in NormalizedSet(filter.severity) then Ok(false)
    else if Given(filter.query) && !Includes(Lower(record.message), Lower(filter.query.value)) then Ok(false)
    else Ok(true)
  }

  predicate Raises(record: LogRecord, filter: TailFilter) {
    RecordMatchesTail(record, filter).Err?
  }

  predicate Wanted(record: LogRecord, filter: TailFilter) {
    RecordMatchesTail(record, filter) == Ok(true)
  }

  // A filter whose severities are all known never raises; any other filter raises on the records
  // of its project and source.
  lemma RaisesIff(record: LogRecord, filter: TailFilter)
    ensures Raises(record, filter) <==>
            && !AllKnown(filter.severity)
            && record.projectId == filter.projectId
            && (Given(filter.sourceId) ==> record.sourceId == filter.sourceId.value)
  {
  }

  // What publishing a record does to one subscriber's queue, and whether the subscriber stays.
  function Offer(queue: seq<LogRecord>, record: LogRecord, filter: TailFilter): (seq<LogRecord>, bool) {
    if !Wanted(record, filter) then (queue, true)
    else if |queue| < QUEUE_SIZE then (queue + [record], true)
    else (queue, false)
  }

  // ---------- the hub as a state machine ----------

  // A subscription from its beginning on; it keeps its place when it has ended, and its consumer may
  // still take what is queued.
  datatype Subscription = Subscription(
    filter: TailFilter, queue: seq<LogRecord>, delivered: seq<LogRecord>, active: bool)

  // All subscriptions so far, in the order they began.
  type Hub = seq<Subscription>

  datatype Event = Subscribed(filter: TailFilter) | Published(record: LogRecord) | Taken(index: nat) | Left(index: nat)

  // The publication of the record raises at subscription i, if it gets there.
  predicate RaisesAt(hub: Hub, record: LogRecord, i: nat)
    requires i < |hub|
  {
    hub[i].active && Raises(record, hub[i].filter)
  }

  // The publication gets past subscription i.
  predicate Reaches(hub: Hub, record: LogRecord, i: nat) {
    forall j | 0 <= j <= i && j < |hub| :: !RaisesAt(hub, record, j)
  }

  predicate Completes(hub: Hub, record: LogRecord) {
    forall j | 0 <= j < |hub| :: !RaisesAt(hub, record, j)
  }

  // Full queues leave only after the last subscription has been served.
  function Served(s: Subscription, record: LogRecord, reached: bool, completes: bool): Subscription {
    if !s.active || !reached then s
    else
      var (queue, stays) := Offer(s.queue, record, s.filter);
      s.(queue := queue, active := stays || !completes)
  }

  function HubNext(hub: Hub, event: Event): Hub {
    match event
    case Subscribed(filter) => hub + [Subscription(filter, [], [], true)]
    case Published(record) =>
      seq(|hub|, i requires 0 <= i < |hub| => Served(hub[i], record, Reaches(hub, record, i), Completes(hub, record)))
    case Taken(i) =>
      if i < |hub| && hub[i].queue != []
      then hub[i := hub[i].(queue := hub[i].queue[1..], delivered := hub[i].delivered + [hub[i].queue[0]])]
      else hub
    case Left(i) => if i < |hub| then hub[i := hub[i].(active := false)] else hub
  }

  // The error of a filter that raises.
  lemma OnlyThisError(record: LogRecord, filter: TailFilter)
    requires Raises(record, filter)
    ensures RecordMatchesTail(record, filter).error == BadRequest("invalid_severity")
  {
  }

  function OfferedQueue(s: Subscription, record: LogRecord): seq<LogRecord> {
    if s.active then Offer(s.queue, record, s.filter).0 else s.queue
  }

  predicate FindsFull(s: Subscription, record: LogRecord) {
    s.active && !Offer(s.queue, record, s.filter).1
  }

  lemma CompletedHub(hub: Hub, record: LogRecord)
    requires forall i :: 0 <= i < |hub| ==> !RaisesAt(hub, record, i)
    ensures Completes(hub, record)
    ensures var next := HubNext(hub, Published(record));
            && |next| == |hub|
            && forall i :: 0 <= i < |hub| ==>
                 && next[i].queue == OfferedQueue(hub[i], record) && next[i].filter == hub[i].filter
                 && (next[i].active <==> hub[i].active && !FindsFull(hub[i], record))
  {
    hide Offer;
  }

  lemma SameFilters(hub: Hub, record: LogRecord)
    ensures var next := HubNext(hub, Published(record));
            |next| == |hub| && forall i :: 0 <= i < |hub| ==> next[i].filter == hub[i].filter
  {
    hide Offer, Reaches, Completes;
  }

  // The publication stopped at subscription f.
  lemma StoppedHub(hub: Hub, record: LogRecord, f: nat)
    requires f < |hub| && RaisesAt(hub, record, f) && forall i :: 0 <= i < f ==> !RaisesAt(hub, record, i)
    ensures !Completes(hub, record)
    ensures var next := HubNext(hub, Published(record));
            && |next| == |hub|
            && forall i :: 0 <= i < |hub| ==>
                 && next[i].queue == (if i < f then OfferedQueue(hub[i], record) else hub[i].queue)
                 && next[i].filter == hub[i].filter && next[i].active == hub[i].active
  {
    forall i: nat | i < |hub|
      ensures Reaches(hub, record, i) <==> i < f
    {
    }
    hide Offer, RaisesAt, Reaches;
  }

  // One turn of the publishing loop: false when the queue was full.
  method OfferTo(s: Subscriber, record: LogRecord) returns (stays: Result<bool>)
    modifies s.queue
    ensures Raises(record, s.filter) ==>
              stays == Err(BadRequest("invalid_severity")) && s.queue.items == old(s.queue.items)
    ensures !Raises(record, s.filter) ==>
              && stays.Ok? && s.queue.items == Offer(old(s.queue.items), record, s.filter).0
              && stays.value == Offer(old(s.queue.items), record, s.filter).1
  {
    hide RecordMatchesTail;
    var matches := RecordMatchesTail(record, s.filter);
    if matches.Err? {
      OnlyThisError(record, s.filter);
      return Err(matches.error);
    }
    if !matches.value {
      return Ok(true);
    }
    var stored := s.queue.Put(record);
    stays := Ok(stored);
  }

  // How far the hub has got after n active subscriptions.
  function Boundary(hub: Hub, n: nat): nat {
    if n < |ActiveIndices(hub)| then ActiveIndices(hub)[n] else |hub|
  }

  // Between an active subscription and the next there is none.
  lemma NextBoundary(hub: Hub, n: nat)
    requires n < |ActiveIndices(hub)|
    ensures var here := ActiveIndices(hub)[n];
            && here < |hub| && hub[here].active && Boundary(hub, n) == here < Boundary(hub, n + 1) <= |hub|
            && forall i :: here < i < Boundary(hub, n + 1) ==> !hub[i].active
  {
    var r := ActiveIndices(hub);
    assert r[n] in r;
    if n + 1 < |r| {
      assert r[n + 1] in r;
    }
    forall i: nat | r[n] < i < Boundary(hub, n + 1)
      ensures !hub[i].active
    {
      assert forall q :: 0 <= q < |r| ==> r[q] != i;
    }
  }

  // What the turn for subscription `here` does, up to the next active one.
  lemma OneTurn(hub: Hub, record: LogRecord, here: nat, next: nat)
    requires here < next <= |hub| && hub[here].active && forall i :: here < i < next ==> !hub[i].active
    ensures RaisesAt(hub, record, here) <==> Raises(record, hub[here].filter)
    ensures OfferedQueue(hub[here], record) == Offer(hub[here].queue, record, hub[here].filter).0
    ensures forall i :: here < i < next ==> !RaisesAt(hub, record, i) && OfferedQueue(hub[i], record) == hub[i].queue
  {
    hide Raises, Offer;
  }

  lemma NoTurn(hub: Hub, record: LogRecord, n: nat)
    requires n <= |hub| && forall i :: 0 <= i < n ==> !hub[i].active
    ensures forall i :: 0 <= i < n ==> !RaisesAt(hub, record, i) && OfferedQueue(hub[i], record) == hub[i].queue
  {
  }

  lemma FirstBoundary(hub: Hub)
    ensures Boundary(hub, 0) <= |hub| && forall i :: 0 <= i < Boundary(hub, 0) ==> !hub[i].active
    ensures Boundary(hub, |ActiveIndices(hub)|) == |hub|
  {
    var r := ActiveIndices(hub);
    if r != [] {
      assert r[0] in r;
    }
    forall i: nat | i < Boundary(hub, 0)
      ensures !hub[i].active
    {
      assert forall q :: 0 <= q < |r| ==> r[q] != i;
    }
  }

  class TailQueue {
    var items: seq<LogRecord>

    constructor ()
      ensures items == []
    {
      items := [];
    }

    // put_nowait: false when the queue is full.
    method Put(record: LogRecord) returns (stored: bool)
      modifies this
      ensures stored <==> |old(items)| < QUEUE_SIZE
      ensures items == if stored then old(items) + [record] else old(items)
    {
      stored := |items| < QUEUE_SIZE;
      if stored {
        items := items + [record];
      }
    }

    // get on a non-empty queue
    method Get() returns (record: LogRecord)
      requires items != []
      modifies this
      ensures record == old(items)[0] && items == old(items)[1..]
    {
      record := items[0];
      items := items[1..];
    }
  }

  datatype Subscriber = Subscriber(filter: TailFilter, queue: TailQueue)

  // The subscribers whose queue is not among the given ones, in their order.
  function Without(subscribers: seq<Subscriber>, gone: set<TailQueue>): seq<Subscriber> {
    if subscribers == [] then []
    else (if subscribers[0].queue in gone then [] else [subscribers[0]]) + Without(subscribers[1..], gone)
  }

  lemma WithoutFrom(subscribers: seq<Subscriber>, n: nat, gone: set<TailQueue>)
    requires n < |subscribers|
    ensures Without(subscribers[n..], gone)
            == (if subscribers[n].queue in gone then [] else [subscribers[n]]) + Without(subscribers[n + 1..], gone)
  {
    assert subscribers[n..][1..] == subscribers[n + 1..];
  }

  lemma {:induction false} WithoutTwice(subscribers: seq<Subscriber>, a: set<TailQueue>, b: set<TailQueue>)
    ensures Without(Without(subscribers, a), b) == Without(subscribers, a + b)
  {
    if subscribers != [] {
      WithoutTwice(subscribers[1..], a, b);
      var rest := Without(subscribers[1..], a);
      if subscribers[0].queue in a {
        assert Without(subscribers, a) == rest;
      } else {
        assert ([subscribers[0]] + rest)[1..] == rest;
      }
    }
  }

  lemma {:induction false} WithoutNone(subscribers: seq<Subscriber>)
    ensures Without(subscribers, {}) == subscribers
  {
    if subscribers != [] {
      WithoutNone(subscribers[1..]);
    }
  }

  lemma {:induction false} WithoutMembers(subscribers: seq<Subscriber>, gone: set<TailQueue>)
    ensures forall s :: s in Without(subscribers, gone) <==> s in subscribers && s.queue !in gone
  {
    if subscribers != [] {
      WithoutMembers(subscribers[1..], gone);
    }
  }

  lemma {:induction false} WithoutConcat(a: seq<Subscriber>, b: seq<Subscriber>, gone: set<TailQueue>)
    ensures Without(a + b, gone) == Without(a, gone) + Without(b, gone)
  {
    if a == [] {
      assert a + b == b;
    } else {
      assert (a + b)[0] == a[0] && (a + b)[1..] == a[1..] + b;
      WithoutConcat(a[1..], b, gone);
    }
  }

  // The queues found full among the first n subscriptions.
  ghost predicate StaleUpTo(hub: Hub, queues: seq<TailQueue>, record: LogRecord, n: nat, stale: seq<TailQueue>)
    requires |queues| == |hub| && n <= |hub|
  {
    && (forall q :: q in stale ==> exists i :: 0 <= i < n && queues[i] == q && FindsFull(hub[i], record))
    && (forall i :: 0 <= i < n && FindsFull(hub[i], record) ==> queues[i] in stale)
  }

  lemma NextStale(hub: Hub, queues: seq<TailQueue>, record: LogRecord, here: nat, next: nat, stale: seq<TailQueue>)
    requires |queues| == |hub| && here < next <= |hub| && hub[here].active
    requires forall i :: here < i < next ==> !hub[i].active
    requires StaleUpTo(hub, queues, record, here, stale)
    ensures StaleUpTo(hub, queues, record, next,
                      if Offer(hub[here].queue, record, hub[here].filter).1 then stale else stale + [queues[here]])
  {
    hide Offer;
  }

  lemma NoneStale(hub: Hub, queues: seq<TailQueue>, record: LogRecord, n: nat)
    requires |queues| == |hub| && n <= |hub| && forall i :: 0 <= i < n ==> !hub[i].active
    ensures StaleUpTo(hub, queues, record, n, [])
  {
  }

  lemma AllStale(hub: Hub, queues: seq<TailQueue>, record: LogRecord, stale: seq<TailQueue>)
    requires |queues| == |hub| && forall i, j :: 0 <= i < j < |queues| ==> queues[i] != queues[j]
    requires StaleUpTo(hub, queues, record, |hub|, stale)
    ensures forall i :: 0 <= i < |queues| ==> (queues[i] in stale <==> FindsFull(hub[i], record))
  {
    hide FindsFull;
  }

  // The active subscriptions, as the hub lists them.
  ghost function Entries(hub: Hub, queues: seq<TailQueue>): seq<Subscriber>
    requires |queues| == |hub|
  {
    if hub == [] then []
    else
      var n := |hub| - 1;
      Entries(hub[..n], queues[..n]) + if hub[n].active then [Subscriber(hub[n].filter, queues[n])] else []
  }

  function ActiveIndices(hub: Hub): (r: seq<nat>)
    ensures forall i :: i in r ==> i < |hub| && hub[i].active
    ensures forall i :: 0 <= i < |hub| && hub[i].active ==> i in r
    ensures forall p, q :: 0 <= p < q < |r| ==> r[p] < r[q]
  {
    if hub == [] then []
    else
      var n := |hub| - 1;
      var before := ActiveIndices(hub[..n]);
      assert forall p :: 0 <= p < |before| ==> before[p] in before;
      before + if hub[n].active then [n] else []
  }

  lemma {:induction false} EntryAt(hub: Hub, queues: seq<TailQueue>)
    requires |queues| == |hub|
    ensures |Entries(hub, queues)| == |ActiveIndices(hub)|
    ensures forall p :: 0 <= p < |ActiveIndices(hub)| ==>
              && ActiveIndices(hub)[p] < |hub|
              && Entries(hub, queues)[p] == Subscriber(hub[ActiveIndices(hub)[p]].filter, queues[ActiveIndices(hub)[p]])
  {
    var r := ActiveIndices(hub);
    assert forall p :: 0 <= p < |r| ==> r[p] in r;
    if hub != [] {
      EntryAt(hub[..|hub| - 1], queues[..|hub| - 1]);
    }
  }

  // Only who is active, and under which filter, matters for the list.
  lemma {:induction false} EntriesWithout(hub: Hub, next: Hub, queues: seq<TailQueue>, gone: set<TailQueue>)
    requires |queues| == |hub| == |next|
    requires forall i :: 0 <= i < |hub| ==> next[i].filter == hub[i].filter
    requires forall i :: 0 <= i < |hub| ==> (next[i].active <==> hub[i].active && queues[i] !in gone)
    ensures Entries(next, queues) == Without(Entries(hub, queues), gone)
  {
    if hub != [] {
      var n := |hub| - 1;
      EntriesWithout(hub[..n], next[..n], queues[..n], gone);
      var last := if hub[n].active then [Subscriber(hub[n].filter, queues[n])] else [];
      WithoutConcat(Entries(hub[..n], queues[..n]), last, gone);
      assert Without(last, gone) == if next[n].active then [Subscriber(next[n].filter, queues[n])] else [];
    }
  }

  function QueueSet(queues: seq<TailQueue>): set<TailQueue> {
    set q | q in queues
  }

  lemma QueueSetGrows(queues: seq<TailQueue>, n: nat)
    requires n < |queues|
    ensures QueueSet(queues[..n + 1]) == QueueSet(queues[..n]) + {queues[n]}
  {
    assert queues[..n + 1] == queues[..n] + [queues[n]];
  }

  function AcquireStream(counts: map<string, nat>, key: string, limit: int): (map<string, nat>, bool) {
    var current := if key in counts then counts[key] else 0;
    if limit <= 0 then (counts, true)
    else if current >= limit then (counts, false)
    else (counts[key := current + 1], true)
  }

  function ReleaseStream(counts: map<string, nat>, key: string): map<string, nat> {
    var current := if key in counts then counts[key] else 0;
    if current <= 1 then counts - {key} else counts[key := current - 1]
  }

  class TailHub {
    var subscribers: seq<Subscriber>
    var streamCounts: map<string, nat>
    // Every subscription so far, and the queue of each.
    ghost var hub: Hub
    ghost var queues: seq<TailQueue>

    // Every subscription has a queue of its own, and the subscribers are the active subscriptions.
    ghost predicate Valid()
      reads this, queues
    {
      && |queues| == |hub|
      && (forall i, j :: 0 <= i < j < |queues| ==> queues[i] != queues[j])
      && (forall i :: 0 <= i < |queues| ==> queues[i].items == hub[i].queue)
      && subscribers == Entries(hub, queues)
    }

    constructor ()
      ensures Valid() && hub == [] && queues == [] && subscribers == [] && streamCounts == map[]
    {
      subscribers := [];
      streamCounts := map[];
      hub, queues := [], [];
    }

    method Subscribe(filter: TailFilter) returns (queue: TailQueue)
      requires Valid()
      modifies this
      ensures Valid() && fresh(queue) && queue.items == []
      ensures subscribers == old(subscribers) + [Subscriber(filter, queue)]
      ensures hub == HubNext(old(hub), Subscribed(filter)) && queues == old(queues) + [queue]
      ensures streamCounts == old(streamCounts)
    {
      queue := new TailQueue();
      subscribers := subscribers + [Subscriber(filter, queue)];
      hub := HubNext(hub, Subscribed(filter));
      queues := queues + [queue];
      assert hub[..|hub| - 1] == old(hub) && queues[..|hub| - 1] == old(queues);
    }

    // What the consumer of subscription i gets next, when its queue is not empty.
    method Take(queue: TailQueue, ghost i: nat) returns (record: LogRecord)
      requires Valid() && i < |queues| && queues[i] == queue && queue.items != []
      modifies this, queue
      ensures Valid() && hub == HubNext(old(hub), Taken(i)) && record == old(queue.items)[0]
      ensures subscribers == old(subscribers) && queues == old(queues) && streamCounts == old(streamCounts)
    {
      record := queue.Get();
      hub := HubNext(hub, Taken(i));
      EntriesWithout(old(hub), hub, queues, {});
      WithoutNone(subscribers);
    }

    // The end of subscription i by its consumer.
    method Leave(queue: TailQueue, ghost i: nat)
      requires Valid() && i < |queues| && queues[i] == queue
      modifies this
      ensures Valid() && hub == HubNext(old(hub), Left(i))
      ensures queues == old(queues) && streamCounts == old(streamCounts)
    {
      Unsubscribe(queue);
      hub := HubNext(hub, Left(i));
      EntriesWithout(old(hub), hub, queues, {queue});
    }

    method Unsubscribe(queue: TailQueue)
      modifies this`subscribers
      ensures subscribers == Without(old(subscribers), {queue})
      ensures streamCounts == old(streamCounts)
    {
      var kept: seq<Subscriber> := [];
      for n := 0 to |subscribers|
        invariant subscribers == old(subscribers) && streamCounts == old(streamCounts)
        invariant kept + Without(subscribers[n..], {queue}) == Without(subscribers, {queue})
      {
        hide Without;
        WithoutFrom(subscribers, n, {queue});
        if subscribers[n].queue != queue {
          kept := kept + [subscribers[n]];
        }
      }
      subscribers := kept;
    }

    // Every subscriber's queue is offered the record on its own; those whose queue was full leave.
    // A filter that raises stops the publication: the queues after it get nothing and nobody leaves.
    method Publish(record: LogRecord) returns (r: Result<()>)
      requires Valid()
      modifies this, queues
      ensures Valid() && hub == HubNext(old(hub), Published(record))
      ensures queues == old(queues) && streamCounts == old(streamCounts)
      ensures r == if Completes(old(hub), record) then Ok(()) else Err(BadRequest("invalid_severity"))
    {
      ghost var next := HubNext(hub, Published(record));
      SameFilters(hub, record);
      hide HubNext, Entries, Completes, Without;
      var served, stale := Serve(record);
      if served.Err? {
        EntriesWithout(hub, next, queues, {});
        WithoutNone(subscribers);
        hub := next;
        return served;
      }
      RemoveStale(stale);
      EntriesWithout(hub, next, queues, QueueSet(stale));
      hub := next;
      r := Ok(());
    }

    // The loop over the subscribers: what it puts where, where it stops, and whom it finds full.
    method Serve(record: LogRecord) returns (r: Result<()>, stale: seq<TailQueue>)
      requires Valid()
      modifies queues
      ensures r == if Completes(hub, record) then Ok(()) else Err(BadRequest("invalid_severity"))
      ensures var next := HubNext(hub, Published(record));
              && (forall i :: 0 <= i < |queues| ==> queues[i].items == next[i].queue)
              && (forall i :: 0 <= i < |queues| ==>
                    (next[i].active <==> hub[i].active && (r.Err? || queues[i] !in stale)))
    {
      hide RecordMatchesTail, Entries, ActiveIndices, HubNext, Offer, Raises, RaisesAt, OfferedQueue;
      hide Boundary, QueueSet, Completes, StaleUpTo, FindsFull;
      EntryAt(hub, queues);
      FirstBoundary(hub);
      ghost var indices := ActiveIndices(hub);
      ghost var done := Boundary(hub, 0);
      stale := [];
      NoneStale(hub, queues, record, done);
      NoTurn(hub, record, done);
      for n := 0 to |subscribers|
        invariant done == Boundary(hub, n) <= |hub|
        invariant forall i :: 0 <= i < done ==> !RaisesAt(hub, record, i)
        invariant forall i :: 0 <= i < done ==> queues[i].items == OfferedQueue(hub[i], record)
        invariant forall i :: done <= i < |queues| ==> queues[i].items == hub[i].queue
        invariant StaleUpTo(hub, queues, record, done, stale)
      {
        ghost var here := indices[n];
        NextBoundary(hub, n);
        OneTurn(hub, record, here, Boundary(hub, n + 1));
        var s := subscribers[n];
        assert s == Subscriber(hub[here].filter, queues[here]);
        var stays := OfferTo(s, record);
        if stays.Err? {
          StoppedHub(hub, record, here);
          return Err(stays.error), stale;
        }
        NextStale(hub, queues, record, here, Boundary(hub, n + 1), stale);
        stale := if stays.value then stale else stale + [s.queue];
        done := Boundary(hub, n + 1);
      }
      CompletedHub(hub, record);
      AllStale(hub, queues, record, stale);
      r := Ok(());
    }

    method RemoveStale(stale: seq<TailQueue>)
      modifies this`subscribers
      ensures streamCounts == old(streamCounts)
      ensures subscribers == Without(old(subscribers), QueueSet(stale))
    {
      WithoutNone(subscribers);
      assert QueueSet(stale[..0]) == {};
      for n := 0 to |stale|
        invariant streamCounts == old(streamCounts)
        invariant subscribers == Without(old(subscribers), QueueSet(stale[..n]))
      {
        WithoutTwice(old(subscribers), QueueSet(stale[..n]), {stale[n]});
        Unsubscribe(stale[n]);
        QueueSetGrows(stale, n);
      }
      assert stale[..|stale|] == stale;
    }

    method Acquire(keyId: string, limit: int) returns (r: Result<()>)
      modifies this`streamCounts
      ensures streamCounts == AcquireStream(old(streamCounts), keyId, limit).0
      ensures r == if AcquireStream(old(streamCounts), keyId, limit).1 then Ok(())
                   else Err(RateLimited("Concurrent tail stream limit exceeded."))
    {
      if limit <= 0 {
        return Ok(());
      }
      var current := if keyId in streamCounts then streamCounts[keyId] else 0;
      if current >= limit {
        return Err(RateLimited("Concurrent tail stream limit exceeded."));
      }
      streamCounts := streamCounts[keyId := current + 1];
      r := Ok(());
    }

    method Release(keyId: string)
      modifies this`streamCounts
      ensures streamCounts == ReleaseStream(old(streamCounts), keyId)
    {
      var current := if keyId in streamCounts then streamCounts[keyId] else 0;
      if current <= 1 {
        streamCounts := streamCounts - {keyId};
      } else {
        streamCounts := streamCounts[keyId := current - 1];
      }
    }
  }

  // ---------- stream counts over time ----------

  datatype StreamEvent = Acquired(key: string) | Released(key: string)

  function CountsAfter(events: seq<StreamEvent>, limit: int): map<string, nat> {
    if events == [] then map[]
    else
      var before, last := CountsAfter(events[..|events| - 1], limit), events[|events| - 1];
      match last
      case Acquired(key) => AcquireStream(before, key, limit).0
      case Released(key) => ReleaseStream(before, key)
  }

  // The streams a key holds: its successful acquisitions minus its releases.
  function Held(events: seq<StreamEvent>, key: string, limit: int): int {
    if events == [] then 0
    else
      var before, last := events[..|events| - 1], events[|events| - 1];
      Held(before, key, limit)
      + (if last.key != key then 0
         else if last.Released? then -1
         else if AcquireStream(CountsAfter(before, limit), key, limit).1 then 1 else 0)
  }

  // Only held streams are released.
  predicate Matched(events: seq<StreamEvent>, limit: int) {
    events == []
    || (var before, last := events[..|events| - 1], events[|events| - 1];
        Matched(before, limit) && (last.Released? ==> Held(before, last.key, limit) > 0))
  }

  lemma {:induction false} CountsAreHeld(events: seq<StreamEvent>, key: string, limit: int)
    requires limit > 0 && Matched(events, limit)
    ensures var counts := CountsAfter(events, limit);
            && 0 <= Held(events, key, limit) <= limit
            && (key in counts <==> Held(events, key, limit) > 0)
            && (key in counts ==> counts[key] == Held(events, key, limit))
  {
    if events != [] {
      CountsAreHeld(events[..|events| - 1], key, limit);
    }
  }

  // A stream is granted if and only if the key holds fewer than the limit; without a positive limit every
  // stream is granted and none is counted.
  lemma GrantedIff(events: seq<StreamEvent>, key: string, limit: int)
    requires Matched(events, limit)
    ensures var counts := CountsAfter(events, limit);
            AcquireStream(counts, key, limit).1 <==> limit <= 0 || Held(events, key, limit) < limit
    ensures limit <= 0 ==> AcquireStream(CountsAfter(events, limit), key, limit).0 == CountsAfter(events, limit)
  {
    if limit > 0 {
      CountsAreHeld(events, key, limit);
    }
  }
}
