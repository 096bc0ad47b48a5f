// Nothing that arrives is lost or overtaken on the way to a flush, and an incomplete batch is flushed when
// the interval has passed, and not before (_send_loop of panda_trace_collector/collector.py).
module Progress {
  import opened Base
  import opened Delivery
  import opened SendLoop
  import opened Shutdown

  // ---------- arrivals ----------

  // Everything that was put into the queue, in order.
  function Arrived<T>(events: seq<Event<T>>): seq<T> {
    if events == [] then []
    else Arrived(events[..|events| - 1]) + if events[|events| - 1].Put? then [events[|events| - 1].item] else []
  }

  lemma StepKeepsOrder<T>(s: State<T>, e: Event<T>, server: Server<T>, batchSize: int)
    ensures var t := Next(s, e, server, batchSize);
            t.taken + t.queue == s.taken + s.queue + if e.Put? then [e.item] else []
  {
    hide Recover;
    if e.Turn? && s.place.Getting? && s.queue != [] {
      assert s.queue == [s.queue[0]] + s.queue[1..];
    }
  }

  // What was taken and what is queued are together what arrived, each record once and in order.
  lemma {:induction false} TakenInOrder<T(!new)>(events: seq<Event<T>>, server: Server<T>, batchSize: int)
    ensures var s := After(events, server, batchSize); s.taken + s.queue == Arrived(events)
  {
    if events != [] {
      var before, e := events[..|events| - 1], events[|events| - 1];
      TakenInOrder(before, server, batchSize);
      StepKeepsOrder(After(before, server, batchSize), e, server, batchSize);
      hide Next;
      var t := After(events, server, batchSize);
      assert Arrived(before) + [] == Arrived(before);
    }
  }

  // Flushed batches, current batch and queue together are what arrived, in order.
  lemma ArrivalsAccountedFor<T(!new)>(events: seq<Event<T>>, server: Server<T>, batchSize: int)
    requires batchSize >= 1
    ensures var s := After(events, server, batchSize); Flat(s.flushed) + s.batch + s.queue == Arrived(events)
  {
    TakenInOrder(events, server, batchSize);
    AlwaysInv(events, server, batchSize);
    hide After, Arrived, Flat, Sent;
  }

  // ---------- when the interval has passed ----------

  // The turns until nothing is left, if the interval has passed at each of them and stop is not set.
  function FromTopOpen(queued: nat, holding: bool): nat {
    if queued > 0 then 4 * queued else if holding then 4 else 0
  }

  function TurnsToEmpty<T>(s: State<T>): nat {
    var queued, holding := |s.queue|, s.batch != [];
    match s.place
    case Getting => if queued > 0 then 4 * queued - 1 else if holding then 3 else 0
    case Deciding => if holding then 2 + FromTopOpen(queued, false) else if queued > 0 then 1 + 4 * queued else 0
    case Flushing => 1 + FromTopOpen(queued, false)
    case Waiting => 2 + FromTopOpen(queued, false)
    case _ => FromTopOpen(queued, holding)
  }

  // The places of a thread that has not been told to stop.
  predicate Running<T>(s: State<T>) {
    && !s.stop && (s.place.Top? || s.place.Getting? || s.place.Deciding? || s.place.Flushing? || s.place.Waiting?)
    && (s.place.Flushing? || s.place.Waiting? ==> s.batch != [])
  }

  lemma TurnEmptier<T(!new)>(s: State<T>, server: Server<T>, batchSize: int)
    requires Answers(server) && Running(s)
    ensures var t := Turned(s, true, server, batchSize);
            Running(t) && TurnsToEmpty(t) == if TurnsToEmpty(s) == 0 then 0 else TurnsToEmpty(s) - 1
  {
    hide Recover, Answers;
    if s.place.Flushing? {
      RecoverReturns(server, |s.sends|, s.batch);
    }
  }

  lemma InvIsRunning<T(!new)>(s: State<T>, server: Server<T>, batchSize: int)
    requires Inv(s, server, batchSize) && !s.stop
    ensures Running(s)
  {
    hide Sent, Flat;
  }

  lemma EmptyIff<T>(s: State<T>)
    requires Running(s)
    ensures TurnsToEmpty(s) == 0 <==> s.queue == [] && s.batch == []
    ensures TurnsToEmpty(s) <= 4 * |s.queue| + 4
  {
  }

  ghost predicate AllDue<T(!new)>(later: seq<Event<T>>) {
    forall e :: e in later ==> e == Turn(true)
  }

  lemma {:induction false} DueCountdown<T(!new)>(events: seq<Event<T>>, later: seq<Event<T>>, server: Server<T>,
                                                 batchSize: int)
    requires batchSize >= 1 && Answers(server) && !After(events, server, batchSize).stop && AllDue(later)
    ensures var s, t := After(events, server, batchSize), After(events + later, server, batchSize);
            Running(s) && Running(t)
            && TurnsToEmpty(t) == if |later| < TurnsToEmpty(s) then TurnsToEmpty(s) - |later| else 0
    decreases |later|
  {
    if later == [] {
      AlwaysInv(events, server, batchSize);
      InvIsRunning(After(events, server, batchSize), server, batchSize);
      assert events + later == events;
    } else {
      var n := |later| - 1;
      assert later[n] in later && forall e :: e in later[..n] ==> e in later;
      DueCountdown(events, later[..n], server, batchSize);
      AfterLater(events, later, server, batchSize);
      hide After, Turned, TurnsToEmpty, Running, Answers;
      TurnEmptier(After(events + later[..n], server, batchSize), server, batchSize);
    }
  }

  lemma {:induction false} TurnsBringNothing<T>(events: seq<Event<T>>, later: seq<Event<T>>)
    requires forall e :: e in later ==> !e.Put?
    ensures Arrived(events + later) == Arrived(events)
    decreases |later|
  {
    if later == [] {
      assert events + later == events;
    } else {
      var n := |later| - 1;
      TurnsBringNothing(events, later[..n]);
      assert (events + later)[..|events| + n] == events + later[..n];
    }
  }

  // While the thread runs, with no more arrivals, a server that answers every request with 2xx or 422, and
  // the interval passed at every turn: queue and batch are empty exactly when it has had the turns that
  // were left, at most 4 a queued record and 4 more; and then everything that arrived is in a flushed
  // batch, in order.
  lemma FlushedWhenDue<T(!new)>(events: seq<Event<T>>, later: seq<Event<T>>, server: Server<T>, batchSize: int)
    requires batchSize >= 1 && Answers(server) && !After(events, server, batchSize).stop && AllDue(later)
    ensures var s, t := After(events, server, batchSize), After(events + later, server, batchSize);
            && (t.queue == [] && t.batch == [] <==> |later| >= TurnsToEmpty(s))
            && TurnsToEmpty(s) <= 4 * |s.queue| + 4
            && (|later| >= TurnsToEmpty(s) ==> Flat(t.flushed) == Arrived(events))
  {
    DueCountdown(events, later, server, batchSize);
    EmptyIff(After(events, server, batchSize));
    EmptyIff(After(events + later, server, batchSize));
    ArrivalsAccountedFor(events + later, server, batchSize);
    TurnsBringNothing(events, later);
    hide After, Arrived, Flat, TurnsToEmpty, Running, Answers;
    var t := After(events + later, server, batchSize);
    assert t.queue == [] && t.batch == [] ==> Flat(t.flushed) + t.batch + t.queue == Flat(t.flushed);
  }

  // ---------- when it has not ----------

  // No event sets stop, and the interval has not passed at any turn.
  ghost predicate NoneDue<T(!new)>(later: seq<Event<T>>) {
    forall e :: e in later ==> e.Put? || e == Turn(false)
  }

  predicate Collecting<T>(s: State<T>) {
    !s.stop && (s.place.Top? || s.place.Getting? || s.place.Deciding?)
  }

  lemma CollectsOn<T>(s: State<T>, e: Event<T>, server: Server<T>, batchSize: int)
    requires Collecting(s) && (e.Put? || e == Turn(false)) && |s.batch| < batchSize
    ensures var t := Next(s, e, server, batchSize);
            && Collecting(t) && t.sends == s.sends && t.flushed == s.flushed
            && |t.batch| + |t.queue| == |s.batch| + |s.queue| + if e.Put? then 1 else 0
  {
    hide Recover;
  }

  function PutsIn<T>(events: seq<Event<T>>): nat {
    if events == [] then 0
    else PutsIn(events[..|events| - 1]) + if events[|events| - 1].Put? then 1 else 0
  }

  // A batch that stays incomplete with everything that arrives is not sent before the interval has passed.
  lemma {:induction false} NotSentEarly<T(!new)>(events: seq<Event<T>>, later: seq<Event<T>>, server: Server<T>,
                                                 batchSize: int)
    requires Collecting(After(events, server, batchSize)) && NoneDue(later)
    requires var s := After(events, server, batchSize); |s.batch| + |s.queue| + PutsIn(later) < batchSize
    ensures var s, t := After(events, server, batchSize), After(events + later, server, batchSize);
            && Collecting(t) && t.sends == s.sends && t.flushed == s.flushed
            && |t.batch| + |t.queue| == |s.batch| + |s.queue| + PutsIn(later)
    decreases |later|
  {
    if later == [] {
      assert events + later == events;
    } else {
      var n := |later| - 1;
      assert later[n] in later;
      NotSentEarly(events, later[..n], server, batchSize);
      AfterLater(events, later, server, batchSize);
      hide After, Next, Collecting;
      CollectsOn(After(events + later[..n], server, batchSize), later[n], server, batchSize);
    }
  }

  // ---------- when the batch is full ----------

  // A thread that decides on a full batch, or on any batch when the interval has passed, sends it with its
  // next turns.
  lemma FullBatchIsSent<T(!new)>(s: State<T>, elapsed: bool, next: bool, server: Server<T>, batchSize: int)
    requires s.place.Deciding? && s.batch != [] && (|s.batch| >= batchSize || elapsed)
    ensures var t := Turned(Turned(s, elapsed, server, batchSize), next, server, batchSize);
            && |t.sends| > |s.sends| && t.sends[..|s.sends|] == s.sends && t.sends[|s.sends|].items == s.batch
  {
    RecoverUnfold(server, |s.sends|, s.batch);
    hide Recover;
    var first := Recover(server, |s.sends|, s.batch).sends;
    assert first != [] && first[0].items == s.batch;
  }
}
