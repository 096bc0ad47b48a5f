// Whether and when the collector's sender thread ends (the loop condition, the flush and the wait after
// a failure in _send_loop of panda_trace_collector/collector.py).
module Shutdown {
  import opened Base
  import opened Delivery
  import opened SendLoop

  // Every request is answered with 2xx or 422.
  ghost predicate Answers<T(!new)>(server: Server<T>) {
    forall n, items :: items != [] ==> server(n, items).Accepted? || IsInvalid(server(n, items))
  }

  // No request is answered with 2xx or 422.
  ghost predicate AlwaysFails<T(!new)>(server: Server<T>) {
    forall n, items :: items != [] ==> !server(n, items).Accepted? && !IsInvalid(server(n, items))
  }

  lemma HonestAnswers<T(!new)>(server: Server<T>, valid: T -> bool)
    requires Honest(server, valid)
    ensures Answers(server)
  {
    forall n, items | items != []
      ensures server(n, items).Accepted? || IsInvalid(server(n, items))
    {
      assert HonestResponse(server(n, items), items, valid);
    }
  }

  lemma {:induction false} SingletonsReturn<T(!new)>(server: Server<T>, n: nat, items: seq<T>)
    requires Answers(server)
    ensures Singletons(server, n, items).outcome == Done
    decreases |items|
  {
    if items != [] {
      SingletonsUnfold(server, n, items);
      SingletonsReturn(server, n + 1, items[1..]);
    }
  }

  lemma {:induction false} RecoverReturns<T(!new)>(server: Server<T>, n: nat, pending: seq<T>)
    requires Answers(server)
    ensures Recover(server, n, pending).outcome == Done
    decreases |pending|
  {
    if pending != [] {
      RecoverUnfold(server, n, pending);
      var gone := InvalidIndices(server(n, pending), |pending|);
      hide Recover, InvalidIndices;
      SingletonsReturn(server, n + 1, pending);
      if gone != {} {
        RecoverReturns(server, n + 1, Rest(pending, gone));
      }
    }
  }

  // ---------- the end of the loop ----------

  // The turns the thread still takes from the top of the loop, with `queued` records waiting.
  function FromTop(queued: nat, holding: bool): nat {
    if queued > 0 then 5 * queued + 3 else if holding then 9 else 3
  }

  function FromDeciding(queued: nat, holding: bool): nat {
    if holding then 2 + FromTop(queued, false) else 1 + FromTop(queued, false)
  }

  function FromGetting(queued: nat, holding: bool): nat {
    1 + if queued > 0 then FromDeciding(queued - 1, true) else FromDeciding(0, holding)
  }

  function TurnsLeft<T>(s: State<T>): nat {
    var queued, holding := |s.queue|, s.batch != [];
    match s.place
    case Top => FromTop(queued, holding)
    case StopSeen => FromTop(queued, holding) - 1
    case EmptySeen => if holding then 1 + FromGetting(queued, true) else 1
    case Getting => FromGetting(queued, holding)
    case Deciding => FromDeciding(queued, holding)
    case Flushing => 1 + FromTop(queued, false)
    case Waiting => 1 + FromTop(queued, holding)
    case Exited => 0
  }

  // Once stop is set, every turn brings the end one turn nearer.
  lemma TurnNearer<T(!new)>(s: State<T>, elapsed: bool, server: Server<T>, batchSize: int)
    requires Answers(server) && s.stop
    requires s.place.Flushing? ==> s.batch != []
    ensures var t := Turned(s, elapsed, server, batchSize);
            t.stop && TurnsLeft(t) == if s.place.Exited? then 0 else TurnsLeft(s) - 1
  {
    hide Recover, Answers;
    if s.place.Flushing? {
      RecoverReturns(server, |s.sends|, s.batch);
    }
  }

  function TurnsIn<T>(events: seq<Event<T>>): nat {
    if events == [] then 0
    else TurnsIn(events[..|events| - 1]) + if events[|events| - 1].Turn? then 1 else 0
  }

  lemma AfterLater<T>(events: seq<Event<T>>, later: seq<Event<T>>, server: Server<T>, batchSize: int)
    requires later != []
    ensures var n := |later| - 1;
            After(events + later, server, batchSize)
            == Next(After(events + later[..n], server, batchSize), later[n], server, batchSize)
  {
    var n := |later| - 1;
    assert (events + later)[..|events| + n] == events + later[..n];
  }

  lemma {:induction false} Countdown<T(!new)>(events: seq<Event<T>>, later: seq<Event<T>>, server: Server<T>,
                                              batchSize: int)
    requires batchSize >= 1 && Answers(server) && After(events, server, batchSize).stop
    requires forall e :: e in later ==> !e.Put?
    ensures var s, t := After(events, server, batchSize), After(events + later, server, batchSize);
            t.stop && TurnsLeft(t) == if TurnsIn(later) < TurnsLeft(s) then TurnsLeft(s) - TurnsIn(later) else 0
    decreases |later|
  {
    if later == [] {
      assert events + later == events;
    } else {
      var n := |later| - 1;
      Countdown(events, later[..n], server, batchSize);
      AfterLater(events, later, server, batchSize);
      AlwaysInv(events + later[..n], server, batchSize);
      var s := After(events + later[..n], server, batchSize);
      hide After, Turned, TurnsLeft, Answers;
      ExitedIff(s);
      if later[n].Turn? {
        TurnNearer(s, later[n].elapsed, server, batchSize);
      } else {
        assert Next(s, later[n], server, batchSize) == s;
      }
    }
  }

  lemma ExitedIff<T>(s: State<T>)
    ensures s.place.Exited? <==> TurnsLeft(s) == 0
    ensures TurnsLeft(s) <= 5 * |s.queue| + 11
  {
  }

  // After stop, with no more arrivals and a server that answers every request with 2xx or 422, the loop
  // has ended exactly when it has had the turns that were left, at most 5 a queued record and 11 more.
  lemma EndsWithin<T(!new)>(events: seq<Event<T>>, later: seq<Event<T>>, server: Server<T>, batchSize: int)
    requires batchSize >= 1 && Answers(server) && After(events, server, batchSize).stop
    requires forall e :: e in later ==> !e.Put?
    ensures var s := After(events, server, batchSize);
            && (After(events + later, server, batchSize).place.Exited? <==> TurnsIn(later) >= TurnsLeft(s))
            && TurnsLeft(s) <= 5 * |s.queue| + 11
  {
    Countdown(events, later, server, batchSize);
    ExitedIff(After(events + later, server, batchSize));
    ExitedIff(After(events, server, batchSize));
  }

  // ---------- a server that always fails ----------

  lemma FailedFlush<T(!new)>(server: Server<T>, n: nat, batch: seq<T>)
    requires AlwaysFails(server) && batch != []
    ensures !Recover(server, n, batch).outcome.Done?
  {
    RecoverUnfold(server, n, batch);
  }

  ghost predicate Holds<T>(t: State<T>, s: State<T>) {
    s.batch <= t.batch && t.flushed == s.flushed
  }

  lemma FailingStep<T(!new)>(s: State<T>, t: State<T>, e: Event<T>, server: Server<T>, batchSize: int)
    requires AlwaysFails(server) && s.batch != [] && Holds(t, s)
    ensures Holds(Next(t, e, server, batchSize), s)
  {
    hide Recover, AlwaysFails;
    if e.Turn? && t.place.Flushing? {
      FailedFlush(server, |t.sends|, t.batch);
    }
  }

  // With a server that always fails, a batch that is not empty is kept for ever: whatever happens next,
  // no flush completes, no record leaves the batch and the loop does not end, stop or no stop.
  lemma {:induction false} NeverEnds<T(!new)>(events: seq<Event<T>>, later: seq<Event<T>>, server: Server<T>,
                                              batchSize: int)
    requires batchSize >= 1 && AlwaysFails(server) && After(events, server, batchSize).batch != []
    ensures var s, t := After(events, server, batchSize), After(events + later, server, batchSize);
            s.batch <= t.batch && t.flushed == s.flushed && !t.place.Exited?
    decreases |later|
  {
    if later == [] {
      assert events + later == events;
    } else {
      var n := |later| - 1;
      NeverEnds(events, later[..n], server, batchSize);
      AfterLater(events, later, server, batchSize);
      FailingStep(After(events, server, batchSize), After(events + later[..n], server, batchSize), later[n], server,
                  batchSize);
    }
    AlwaysInv(events + later, server, batchSize);
  }
}
