// What every subscriber of the tail hub has received after any run of subscriptions, publications,
// reads and departures (panda_trace/tail.py).
module TailHistory {
  import opened Base
  import opened Records
  import opened Severity
  import opened Tail

  function HubAfter(events: seq<Event>): Hub {
    if events == [] then []
    else HubNext(HubAfter(events[..|events| - 1]), events[|events| - 1])
  }

  // What a subscription has received, taken or not.
  function Received(s: Subscription): seq<LogRecord> {
    s.delivered + s.queue
  }

  // The records published since subscription i began that its filter wants.
  function WantedSince(events: seq<Event>, i: nat): seq<LogRecord> {
    if events == [] then []
    else
      var before, last := events[..|events| - 1], events[|events| - 1];
      WantedSince(before, i) + WantedNow(HubAfter(before), last, i)
  }

  function WantedNow(hub: Hub, event: Event, i: nat): seq<LogRecord> {
    if event.Published? && i < |hub| && Wanted(event.record, hub[i].filter) then [event.record] else []
  }

  // The event publishes a record that subscription i wants, and i stays subscribed without getting it.
  predicate Loses(hub: Hub, event: Event, i: nat) {
    && event.Published? && i < |hub| && hub[i].active && Wanted(event.record, hub[i].filter)
    && HubNext(hub, event)[i].active && Received(HubNext(hub, event)[i]) == Received(hub[i])
  }

  function Losses(events: seq<Event>, i: nat): nat {
    if events == [] then 0
    else
      var before, last := events[..|events| - 1], events[|events| - 1];
      Losses(before, i) + if Loses(HubAfter(before), last, i) then 1 else 0
  }

  // ---------- one event ----------

  // A subscriber loses a wanted record and stays exactly when the publication raises before reaching
  // it, or after finding its queue full and before anybody is made to leave.
  lemma LosesIff(hub: Hub, record: LogRecord, i: nat)
    requires i < |hub| && hub[i].active && Wanted(record, hub[i].filter) && |hub[i].queue| <= QUEUE_SIZE
    ensures Loses(hub, Published(record), i) <==>
              !Completes(hub, record) && (!Reaches(hub, record, i) || |hub[i].queue| == QUEUE_SIZE)
  {
    hide Wanted, Raises;
    var s := hub[i];
    assert |Received(s.(queue := s.queue + [record]))| == |Received(s)| + 1;
  }

  // What one event adds to what subscription i has received.
  lemma ReceivedNext(hub: Hub, event: Event, i: nat)
    requires i < |hub| && |hub[i].queue| <= QUEUE_SIZE
    ensures var next := HubNext(hub, event);
            && i < |next| && next[i].filter == hub[i].filter && |next[i].queue| <= QUEUE_SIZE
            && (next[i].active ==> hub[i].active)
            && Received(next[i]) == Received(hub[i]) + (if Gets(hub, event, i) then [event.record] else [])
  {
    if event.Published? {
      hide *;
      ReceivedServed(hub, event.record, i);
    } else {
      ReceivedQuietly(hub, event, i);
    }
  }

  lemma ReceivedQuietly(hub: Hub, event: Event, i: nat)
    requires i < |hub| && !event.Published?
    ensures var next := HubNext(hub, event);
            && i < |next| && next[i].filter == hub[i].filter && |next[i].queue| <= |hub[i].queue|
            && (next[i].active ==> hub[i].active) && Received(next[i]) == Received(hub[i])
  {
    hide Reaches, Completes;
    var s := hub[i];
    if event.Taken? && event.index == i && s.queue != [] {
      assert s.queue == [s.queue[0]] + s.queue[1..];
    }
  }

  lemma ReceivedServed(hub: Hub, record: LogRecord, i: nat)
    requires i < |hub| && |hub[i].queue| <= QUEUE_SIZE
    ensures |HubNext(hub, Published(record))| == |hub|
    ensures var next := HubNext(hub, Published(record))[i];
            && next.filter == hub[i].filter && |next.queue| <= QUEUE_SIZE && (next.active ==> hub[i].active)
            && Received(next) == Received(hub[i]) + if Gets(hub, Published(record), i) then [record] else []
  {
    hide Raises, Completes, Reaches;
    var s := hub[i];
    assert s.delivered + (s.queue + [record]) == s.delivered + s.queue + [record];
  }

  predicate Gets(hub: Hub, event: Event, i: nat)
    requires i < |hub|
  {
    && event.Published? && hub[i].active && Reaches(hub, event.record, i)
    && Wanted(event.record, hub[i].filter) && |hub[i].queue| < QUEUE_SIZE
  }

  // While a subscription lasts, every wanted record is either received or lost.
  lemma GetsOrLoses(hub: Hub, event: Event, i: nat)
    requires i < |hub| && hub[i].active && HubNext(hub, event)[i].active && |hub[i].queue| <= QUEUE_SIZE
    ensures |WantedNow(hub, event, i)|
            == (if Gets(hub, event, i) then 1 else 0) + (if Loses(hub, event, i) then 1 else 0)
  {
    ReceivedNext(hub, event, i);
    if event.Published? && Wanted(event.record, hub[i].filter) {
      LosesIff(hub, event.record, i);
      hide Wanted, Reaches, Completes, HubNext, Loses;
    }
  }

  // A subscription ends only by its consumer leaving, or by a wanted record that finds its queue full in
  // a publication that completes.
  lemma EndsOnlyWhenFull(hub: Hub, event: Event, i: nat)
    requires i < |hub| && hub[i].active && |hub[i].queue| <= QUEUE_SIZE
    ensures i < |HubNext(hub, event)|
    ensures !HubNext(hub, event)[i].active <==>
            || event == Left(i)
            || (event.Published? && Wanted(event.record, hub[i].filter) && |hub[i].queue| == QUEUE_SIZE
                && Completes(hub, event.record))
  {
    if event.Published? && Completes(hub, event.record) {
      assert Reaches(hub, event.record, i);
    }
    hide Wanted, Raises, Completes, Reaches;
  }

  // ---------- whole runs ----------

  lemma {:induction false} QueuesBounded(events: seq<Event>, i: nat)
    requires i < |HubAfter(events)|
    ensures |HubAfter(events)[i].queue| <= QUEUE_SIZE
  {
    var before, last := events[..|events| - 1], events[|events| - 1];
    var hub := HubAfter(before);
    if i < |hub| {
      QueuesBounded(before, i);
      ReceivedNext(hub, last, i);
    } else {
      NewSubscription(hub, last, i);
    }
  }

  lemma NewSubscription(hub: Hub, event: Event, i: nat)
    requires |hub| <= i < |HubNext(hub, event)|
    ensures HubNext(hub, event)[i].active && HubNext(hub, event)[i].queue == []
    ensures Received(HubNext(hub, event)[i]) == []
    ensures WantedNow(hub, event, i) == []
  {
  }

  lemma {:induction false} NothingBefore(events: seq<Event>, i: nat)
    requires i >= |HubAfter(events)|
    ensures WantedSince(events, i) == [] && Losses(events, i) == 0
  {
    if events != [] {
      var before, last := events[..|events| - 1], events[|events| - 1];
      NeverFewer(HubAfter(before), last);
      NothingBefore(before, i);
    }
  }

  lemma NeverFewer(hub: Hub, event: Event)
    ensures |HubNext(hub, event)| >= |hub|
  {
  }

  // The claims about one subscription after a run.
  ghost predicate History(received: seq<LogRecord>, wanted: seq<LogRecord>, losses: nat, active: bool) {
    && IsSubsequence(received, wanted)
    && (active ==> |wanted| == |received| + losses)
    && (losses == 0 ==> received <= wanted)
  }

  lemma HistoryStep(received: seq<LogRecord>, wanted: seq<LogRecord>, losses: nat, active: bool,
                    gain: seq<LogRecord>, now: seq<LogRecord>, lost: bool, stays: bool)
    requires History(received, wanted, losses, active)
    requires |now| <= 1 && (gain == [] || gain == now)
    requires if stays then active && |now| == |gain| + (if lost then 1 else 0) else gain == []
    ensures History(received + gain, wanted + now, losses + (if lost then 1 else 0), stays)
  {
    hide IsSubsequence;
    if now == [] {
      assert wanted + now == wanted && received + gain == received;
    } else {
      SubsequenceAppend(received, wanted, now[0]);
      assert now == [now[0]];
      assert received + [] == received;
    }
  }

  // What a step does to one subscription, as HistoryStep takes it.
  lemma StepOfOne(hub: Hub, event: Event, i: nat)
    requires i < |hub| && |hub[i].queue| <= QUEUE_SIZE
    ensures var next := HubNext(hub, event);
            var gain := if Gets(hub, event, i) then [event.record] else [];
            && i < |next| && Received(next[i]) == Received(hub[i]) + gain
            && (gain == [] || gain == WantedNow(hub, event, i)) && |WantedNow(hub, event, i)| <= 1
            && (if next[i].active then
                  hub[i].active && |WantedNow(hub, event, i)| == |gain| + (if Loses(hub, event, i) then 1 else 0)
                else gain == [] && !Loses(hub, event, i))
  {
    ReceivedNext(hub, event, i);
    if hub[i].active {
      EndsOnlyWhenFull(hub, event, i);
      if HubNext(hub, event)[i].active {
        GetsOrLoses(hub, event, i);
      }
    }
    hide Wanted, Reaches, Completes, HubNext, Received;
  }

  // In every run, for every subscription: at most 100 records are queued; what was received are wanted
  // records in the order of their publication, none twice; while it lasts the number of wanted records
  // it is missing is the number of its losses; and without a loss it received a prefix.
  lemma {:induction false} HistoryCounts(events: seq<Event>, i: nat)
    requires i < |HubAfter(events)|
    ensures var s := HubAfter(events)[i];
            && |s.queue| <= QUEUE_SIZE
            && IsSubsequence(Received(s), WantedSince(events, i))
            && (s.active ==> |WantedSince(events, i)| == |Received(s)| + Losses(events, i))
            && (Losses(events, i) == 0 ==> Received(s) <= WantedSince(events, i))
  {
    QueuesBounded(events, i);
    HistoryHolds(events, i);
  }

  lemma {:induction false} HistoryHolds(events: seq<Event>, i: nat)
    requires i < |HubAfter(events)|
    ensures var s := HubAfter(events)[i];
            History(Received(s), WantedSince(events, i), Losses(events, i), s.active)
  {
    var before, last := events[..|events| - 1], events[|events| - 1];
    var hub := HubAfter(before);
    hide History, HubNext, Received, WantedNow, Loses, Gets;
    if i < |hub| {
      HistoryHolds(before, i);
      QueuesBounded(before, i);
      StepOfOne(hub, last, i);
      HistoryStep(Received(hub[i]), WantedSince(before, i), Losses(before, i), hub[i].active,
                  if Gets(hub, last, i) then [last.record] else [], WantedNow(hub, last, i),
                  Loses(hub, last, i), HubNext(hub, last)[i].active);
    } else {
      NothingBefore(before, i);
      NewSubscription(hub, last, i);
      NoHistory(hub, last, i);
    }
  }

  lemma NoHistory(hub: Hub, event: Event, i: nat)
    requires i >= |hub|
    ensures !Loses(hub, event, i) && History([], [], 0, true)
  {
  }

  // While a subscription lasts, it has received exactly the records it wants if and only if it lost none.
  lemma HistoryExactIff(events: seq<Event>, i: nat)
    requires i < |HubAfter(events)| && HubAfter(events)[i].active
    ensures Received(HubAfter(events)[i]) == WantedSince(events, i) <==> Losses(events, i) == 0
  {
    HistoryCounts(events, i);
    hide HubAfter, WantedSince, Losses, Received, IsSubsequence;
  }

  // Every publication of the run completes.
  ghost predicate NothingRaised(events: seq<Event>) {
    forall n :: 0 <= n < |events| && events[n].Published? ==> Completes(HubAfter(events[..n]), events[n].record)
  }

  lemma {:induction false} NoRaiseNoLoss(events: seq<Event>, i: nat)
    requires NothingRaised(events)
    ensures Losses(events, i) == 0
  {
    if events != [] {
      var before, last := events[..|events| - 1], events[|events| - 1];
      forall n | 0 <= n < |before| && before[n].Published?
        ensures Completes(HubAfter(before[..n]), before[n].record)
      {
        assert events[n] == before[n] && events[..n] == before[..n];
      }
      NoRaiseNoLoss(before, i);
      var hub := HubAfter(before);
      assert events[..|events| - 1] == before && events[|events| - 1] == last;
      if i < |hub| {
        QueuesBounded(before, i);
      }
      CompletesNoLoss(hub, last, i);
    }
  }

  lemma CompletesNoLoss(hub: Hub, event: Event, i: nat)
    requires event.Published? ==> Completes(hub, event.record)
    requires i < |hub| ==> |hub[i].queue| <= QUEUE_SIZE
    ensures !Loses(hub, event, i)
  {
    if event.Published? && i < |hub| && hub[i].active && Wanted(event.record, hub[i].filter) {
      LosesIff(hub, event.record, i);
      assert Reaches(hub, event.record, i);
    }
  }

  // In a run in which no publication raises, every subscriber has received a prefix of the records it
  // wants, and all of them while it is subscribed.
  lemma HistoryKept(events: seq<Event>, i: nat)
    requires i < |HubAfter(events)| && NothingRaised(events)
    ensures var s := HubAfter(events)[i];
            && |s.queue| <= QUEUE_SIZE
            && Received(s) <= WantedSince(events, i)
            && (s.active ==> Received(s) == WantedSince(events, i))
  {
    NoRaiseNoLoss(events, i);
    HistoryCounts(events, i);
    hide HubAfter, WantedSince, Losses, Received, IsSubsequence, NothingRaised;
  }

  // Once a subscription has ended, what it has received never grows.
  lemma {:induction false} EndedNeverGrows(events: seq<Event>, more: seq<Event>, i: nat)
    requires i < |HubAfter(events)| && !HubAfter(events)[i].active
    ensures i < |HubAfter(events + more)| && !HubAfter(events + more)[i].active
    ensures Received(HubAfter(events + more)[i]) == Received(HubAfter(events)[i])
  {
    if more == [] {
      assert events + more == events;
    } else {
      var all, fewer := events + more, more[..|more| - 1];
      EndedNeverGrows(events, fewer, i);
      assert all[..|all| - 1] == events + fewer;
      QueuesBounded(events + fewer, i);
      ReceivedNext(HubAfter(events + fewer), more[|more| - 1], i);
      hide HubNext;
    }
  }

  // ---------- when a publication can raise ----------

  function RecordFor(filter: TailFilter): LogRecord {
    LogRecord("", "", filter.projectId, if Given(filter.sourceId) then filter.sourceId.value else "", 0, 0, "", "",
              None, None, None, None, None, None, None, map[], None, 1)
  }

  // Some record makes a publication raise exactly when a current subscriber's filter names an unknown severity.
  lemma CanRaiseIff(hub: Hub)
    ensures (exists record :: !Completes(hub, record))
            <==> exists i :: 0 <= i < |hub| && hub[i].active && !AllKnown(hub[i].filter.severity)
  {
    forall record, j: nat | j < |hub| && RaisesAt(hub, record, j)
      ensures hub[j].active && !AllKnown(hub[j].filter.severity)
    {
      RaisesIff(record, hub[j].filter);
    }
    if i: nat :| i < |hub| && hub[i].active && !AllKnown(hub[i].filter.severity) {
      var record := RecordFor(hub[i].filter);
      RaisesIff(record, hub[i].filter);
      assert RaisesAt(hub, record, i);
      assert !Completes(hub, record);
    }
  }

  lemma {:induction false} FiltersOfRun(events: seq<Event>, i: nat)
    requires i < |HubAfter(events)|
    ensures exists n :: 0 <= n < |events| && events[n] == Subscribed(HubAfter(events)[i].filter)
  {
    var before, last := events[..|events| - 1], events[|events| - 1];
    var hub := HubAfter(before);
    if i < |hub| {
      FiltersOfRun(before, i);
      QueuesBounded(before, i);
      ReceivedNext(hub, last, i);
      var n :| 0 <= n < |before| && before[n] == Subscribed(hub[i].filter);
      assert events[n] == before[n];
    } else {
      assert last.Subscribed? && events[|events| - 1] == last;
    }
  }

  // If every filter that subscribes names known severities only, nothing ever raises, so HistoryKept applies.
  lemma KnownFiltersNeverRaise(events: seq<Event>)
    requires forall e :: e in events && e.Subscribed? ==> AllKnown(e.filter.severity)
    ensures NothingRaised(events)
  {
    forall n | 0 <= n < |events| && events[n].Published?
      ensures Completes(HubAfter(events[..n]), events[n].record)
    {
      var hub := HubAfter(events[..n]);
      forall j: nat | j < |hub|
        ensures !RaisesAt(hub, events[n].record, j)
      {
        FiltersOfRun(events[..n], j);
        var m :| 0 <= m < n && events[..n][m] == Subscribed(hub[j].filter);
        assert events[m] in events;
        RaisesIff(events[n].record, hub[j].filter);
      }
    }
  }

  // ---------- a gap ----------

  // After a loss the stream simply goes on: the next wanted record is received, the lost one never.
  lemma GapAfterLoss(hub: Hub, lost: LogRecord, next: LogRecord, i: nat)
    requires i < |hub| && |hub[i].queue| < QUEUE_SIZE && Loses(hub, Published(lost), i)
    requires Wanted(next, hub[i].filter) && Completes(HubNext(hub, Published(lost)), next)
    ensures var after := HubNext(HubNext(hub, Published(lost)), Published(next));
            i < |after| && after[i].active && Received(after[i]) == Received(hub[i]) + [next]
  {
    ReceivedNext(hub, Published(lost), i);
    LosesIff(hub, lost, i);
    var middle := HubNext(hub, Published(lost));
    assert middle[i].queue == hub[i].queue;
    assert Reaches(middle, next, i);
    ReceivedNext(middle, Published(next), i);
    EndsOnlyWhenFull(middle, Published(next), i);
  }

  function GapEvents(bad: TailFilter, good: TailFilter, first: LogRecord, second: LogRecord): seq<Event> {
    [Subscribed(bad)] + [Subscribed(good)] + [Published(first)] + [Left(0)] + [Published(second)]
  }

  // A subscriber whose filter is fine misses a record because another's filter raises, and then goes on
  // receiving: what it has is not a prefix of what it wants.
  lemma GapRun(bad: TailFilter, good: TailFilter, first: LogRecord, second: LogRecord)
    requires Raises(first, bad) && Wanted(first, good) && Wanted(second, good) && first != second
    ensures var events := GapEvents(bad, good, first, second);
            && |HubAfter(events)| == 2 && HubAfter(events)[1].active
            && WantedSince(events, 1) == [first, second] && Received(HubAfter(events)[1]) == [second]
            && !(Received(HubAfter(events)[1]) <= WantedSince(events, 1))
  {
    var b, g := Subscription(bad, [], [], true), Subscription(good, [], [], true);
    GapHubs(b, g);
    FirstIsMissed(b, g, first);
    SecondArrives(b, g, second);
    var e1 := [Subscribed(bad)];
    var e2 := e1 + [Subscribed(good)];
    var e3 := e2 + [Published(first)];
    var e4 := e3 + [Left(0)];
    assert e1 == [] + [Subscribed(bad)];
    hide HubAfter, WantedSince, HubNext, WantedNow, Received, Raises, Wanted;
    NoEvents(1);
    OneMore([], Subscribed(bad), 1);
    OneMore(e1, Subscribed(good), 1);
    OneMore(e2, Published(first), 1);
    OneMore(e3, Left(0), 1);
    OneMore(e4, Published(second), 1);
    TwoWanted(first, second);
  }

  lemma TwoWanted(first: LogRecord, second: LogRecord)
    requires first != second
    ensures [] + [first] == [first] && [first] + [] == [first]
    ensures [first] + [second] == [first, second] && !([second] <= [first, second])
  {
    assert [second][0] != [first, second][0];
  }

  lemma NoEvents(i: nat)
    ensures HubAfter([]) == [] && WantedSince([], i) == []
  {
  }

  lemma OneMore(events: seq<Event>, event: Event, i: nat)
    ensures HubAfter(events + [event]) == HubNext(HubAfter(events), event)
    ensures WantedSince(events + [event], i) == WantedSince(events, i) + WantedNow(HubAfter(events), event, i)
  {
    assert (events + [event])[..|events + [event]| - 1] == events;
    hide HubNext, WantedNow;
  }

  lemma GapHubs(b: Subscription, g: Subscription)
    requires b == Subscription(b.filter, [], [], true) && g == Subscription(g.filter, [], [], true)
    ensures HubNext([], Subscribed(b.filter)) == [b] && WantedNow([], Subscribed(b.filter), 1) == []
    ensures HubNext([b], Subscribed(g.filter)) == [b, g] && WantedNow([b], Subscribed(g.filter), 1) == []
    ensures HubNext([b, g], Left(0)) == [b.(active := false), g] && WantedNow([b, g], Left(0), 1) == []
  {
  }

  lemma FirstIsMissed(b: Subscription, g: Subscription, record: LogRecord)
    requires b.active && Raises(record, b.filter)
    ensures HubNext([b, g], Published(record)) == [b, g]
    ensures Wanted(record, g.filter) ==> WantedNow([b, g], Published(record), 1) == [record]
  {
    var hub := [b, g];
    assert RaisesAt(hub, record, 0);
    assert !Reaches(hub, record, 0) && !Reaches(hub, record, 1);
  }

  lemma SecondArrives(b: Subscription, g: Subscription, record: LogRecord)
    requires g.active && g.queue == [] && g.delivered == [] && Wanted(record, g.filter)
    ensures var next := HubNext([b.(active := false), g], Published(record));
            && |next| == 2 && next[1].active && Received(next[1]) == [record]
            && WantedNow([b.(active := false), g], Published(record), 1) == [record]
  {
    var hub := [b.(active := false), g];
    assert Completes(hub, record) && Reaches(hub, record, 1);
    assert [] + [record] == [record];
  }
}
