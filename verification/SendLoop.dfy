// The collector's sender thread (_send_loop of panda_trace_collector/collector.py) as a state
// machine. Other threads put records into the queue and set the stop flag between any two of its
// steps; clock readings are arbitrary.
module SendLoop {
  import opened Base
  import opened Delivery

  // Where the thread is: testing the loop condition (the stop flag, then the queue, then the batch),
  // waiting for a record, deciding whether to flush, flushing, waiting after a failure, or finished.
  datatype Place = Top | StopSeen | EmptySeen | Getting | Deciding | Flushing | Waiting | Exited

  // A batch that was cleared, and the number of requests made before it was sent for the last time.
  datatype Flush<T> = Flush(batch: seq<T>, first: nat)

  datatype State<T> = State(
    place: Place, queue: seq<T>, batch: seq<T>, stop: bool,
    sends: seq<Send<T>>,       // every request so far
    taken: seq<T>,             // every record taken from the queue so far
    flushed: seq<Flush<T>>)

  // Another thread puts a record or sets the stop flag, or the sender takes its next step; `elapsed`
  // is the outcome of comparing the clock with the flush interval.
  datatype Event<T> = Put(item: T) | SetStop | Turn(elapsed: bool)

  function Turned<T>(s: State<T>, elapsed: bool, server: Server<T>, batchSize: int): State<T> {
    match s.place
    case Top => s.(place := if s.stop then StopSeen else Getting)
    case StopSeen => s.(place := if s.queue == [] then EmptySeen else Getting)
    case EmptySeen => s.(place := if s.batch == [] then Exited else Getting)
    case Getting =>
      if s.queue == [] then s.(place := Deciding)
      else s.(place := Deciding, queue := s.queue[1..], batch := s.batch + [s.queue[0]],
              taken := s.taken + [s.queue[0]])
    case Deciding =>
      var shouldFlush := |s.batch| >= batchSize || (s.batch != [] && elapsed) || (s.stop && s.batch != []);
      s.(place := if shouldFlush && s.batch != [] then Flushing else Top)
    case Flushing =>
      var d := Recover(server, |s.sends|, s.batch);
      var t := s.(sends := s.sends + d.sends);
      if d.outcome.Done? then t.(place := Top, batch := [], flushed := s.flushed + [Flush(s.batch, |s.sends|)])
      else t.(place := Waiting)
    case Waiting => s.(place := if s.stop then Top else Flushing)
    case Exited => s
  }

  function Next<T>(s: State<T>, e: Event<T>, server: Server<T>, batchSize: int): State<T> {
    match e
    case Put(item) => s.(queue := s.queue + [item])
    case SetStop => s.(stop := true)
    case Turn(elapsed) => Turned(s, elapsed, server, batchSize)
  }

  function After<T>(events: seq<Event<T>>, server: Server<T>, batchSize: int): State<T> {
    if events == [] then State(Top, [], [], false, [], [], [])
    else Next(After(events[..|events| - 1], server, batchSize), events[|events| - 1], server, batchSize)
  }

  function Flat<T>(flushed: seq<Flush<T>>): seq<T> {
    if flushed == [] then [] else Flat(flushed[..|flushed| - 1]) + flushed[|flushed| - 1].batch
  }

  // The requests of a flush are in the history, and the delivery returned normally.
  ghost predicate Sent<T(!new)>(f: Flush<T>, sends: seq<Send<T>>, server: Server<T>) {
    var d := Recover(server, f.first, f.batch);
    && d.outcome.Done?
    && f.first + |d.sends| <= |sends|
    && sends[f.first..f.first + |d.sends|] == d.sends
  }

  ghost predicate Inv<T(!new)>(s: State<T>, server: Server<T>, batchSize: int) {
    && s.taken == Flat(s.flushed) + s.batch
    && (forall f :: f in s.flushed ==> Sent(f, s.sends, server))
    && (s.place.StopSeen? || s.place.EmptySeen? || s.place.Exited? ==> s.stop)
    && (s.place.Flushing? || s.place.Waiting? ==> s.batch != [])
    && (s.place.Exited? ==> s.batch == [])
    && (s.stop || |s.batch| <= batchSize)
    && (s.stop || s.place.Deciding? || s.place.Flushing? || s.place.Waiting? || |s.batch| < batchSize)
  }

  lemma SentLater<T(!new)>(f: Flush<T>, sends: seq<Send<T>>, more: seq<Send<T>>, server: Server<T>)
    requires Sent(f, sends, server)
    ensures Sent(f, sends + more, server)
  {
    var n := |Recover(server, f.first, f.batch).sends|;
    assert (sends + more)[f.first..f.first + n] == sends[f.first..f.first + n];
  }

  lemma FlushKeepsInv<T(!new)>(s: State<T>, server: Server<T>, batchSize: int)
    requires Inv(s, server, batchSize) && s.place.Flushing? && batchSize >= 1
    ensures Inv(Turned(s, false, server, batchSize), server, batchSize)
  {
    hide Recover, Sent, Flat;
    var d := Recover(server, |s.sends|, s.batch);
    var t := Turned(s, false, server, batchSize);
    forall f | f in s.flushed
      ensures Sent(f, t.sends, server)
    {
      SentLater(f, s.sends, d.sends, server);
    }
    if d.outcome.Done? {
      var f := Flush(s.batch, |s.sends|);
      SentNow(f, s.sends, server);
      FlatAppend(s.flushed, f);
      assert t.taken == Flat(t.flushed) + [];
    }
  }

  lemma SentNow<T(!new)>(f: Flush<T>, sends: seq<Send<T>>, server: Server<T>)
    requires f.first == |sends| && Recover(server, f.first, f.batch).outcome.Done?
    ensures Sent(f, sends + Recover(server, f.first, f.batch).sends, server)
  {
  }

  lemma QuietKeepsInv<T(!new)>(s: State<T>, e: Event<T>, server: Server<T>, batchSize: int)
    requires Inv(s, server, batchSize) && batchSize >= 1
    requires e.Turn? ==> !s.place.Flushing? && !s.place.Getting?
    ensures Inv(Next(s, e, server, batchSize), server, batchSize)
  {
    hide Recover, Sent, Flat;
    var t := Next(s, e, server, batchSize);
    assert t.batch == s.batch && t.taken == s.taken && t.flushed == s.flushed && t.sends == s.sends;
  }

  lemma GetKeepsInv<T(!new)>(s: State<T>, server: Server<T>, batchSize: int)
    requires Inv(s, server, batchSize) && batchSize >= 1 && s.place.Getting?
    ensures Inv(Turned(s, false, server, batchSize), server, batchSize)
  {
    hide Recover, Sent, Flat;
  }

  lemma NextKeepsInv<T(!new)>(s: State<T>, e: Event<T>, server: Server<T>, batchSize: int)
    requires Inv(s, server, batchSize) && batchSize >= 1
    ensures Inv(Next(s, e, server, batchSize), server, batchSize)
  {
    if e.Turn? && s.place.Flushing? {
      FlushKeepsInv(s, server, batchSize);
    } else if e.Turn? && s.place.Getting? {
      GetKeepsInv(s, server, batchSize);
    } else {
      QuietKeepsInv(s, e, server, batchSize);
    }
  }

  lemma {:induction false} AlwaysInv<T(!new)>(events: seq<Event<T>>, server: Server<T>, batchSize: int)
    requires batchSize >= 1
    ensures Inv(After(events, server, batchSize), server, batchSize)
  {
    if events != [] {
      var before := events[..|events| - 1];
      AlwaysInv(before, server, batchSize);
      NextKeepsInv(After(before, server, batchSize), events[|events| - 1], server, batchSize);
    }
  }

  // Every record of the batch was confirmed by a 2xx answer, listed as rejected in one, or justifiably
  // dropped, by the given requests; and once a 2xx answer came, its records were not sent again.
  ghost predicate Settled<T(!new)>(batch: seq<T>, sends: seq<Send<T>>, dropped: seq<Drop<T>>, first: nat) {
    && multiset(AcceptedItems(sends)) + multiset(DroppedItems(dropped)) == multiset(batch)
    && multiset(AcceptedItems(sends)) == multiset(ConfirmedItems(sends)) + multiset(RejectedItems(sends))
    && IsSubsequence(AcceptedItems(sends), batch) && IsSubsequence(ConfirmedItems(sends), AcceptedItems(sends))
    && NeverResent(sends, batch)
    && forall d :: d in dropped ==> Justified(d, first, sends)
  }

  // The requests that carried out a flush.
  function FlushSends<T>(f: Flush<T>, sends: seq<Send<T>>, server: Server<T>): seq<Send<T>> {
    var last := f.first + |Recover(server, f.first, f.batch).sends|;
    if last <= |sends| then sends[f.first..last] else []
  }

  lemma FlushSettled<T(!new)>(f: Flush<T>, sends: seq<Send<T>>, server: Server<T>)
    requires Sent(f, sends, server)
    ensures Settled(f.batch, FlushSends(f, sends, server), Recover(server, f.first, f.batch).dropped, f.first)
  {
    hide Recover, IsSubsequence, Justified, NeverResent, AcceptedItems, ConfirmedItems, RejectedItems, DroppedItems;
    RecoverConserves(server, f.first, f.batch);
    RecoverInOrder(server, f.first, f.batch);
    RecoverJustified(server, f.first, f.batch);
    RecoverNeverResends(server, f.first, f.batch);
    AcceptedSplit(Recover(server, f.first, f.batch).sends);
    ConfirmedInOrder(Recover(server, f.first, f.batch).sends);
  }

  // For any server and any interleaving: the records taken so far are the flushed batches, in order,
  // followed by the current batch, and every record of a flushed batch is settled by the requests of
  // that flush.
  lemma NothingLost<T(!new)>(events: seq<Event<T>>, server: Server<T>, batchSize: int)
    requires batchSize >= 1
    ensures var s := After(events, server, batchSize);
            && s.taken == Flat(s.flushed) + s.batch
            && forall f :: f in s.flushed ==>
                 Settled(f.batch, FlushSends(f, s.sends, server), Recover(server, f.first, f.batch).dropped, f.first)
  {
    AlwaysInv(events, server, batchSize);
    hide After, Sent, Settled, FlushSends, Recover, Flat;
    var s := After(events, server, batchSize);
    forall f | f in s.flushed
      ensures Settled(f.batch, FlushSends(f, s.sends, server), Recover(server, f.first, f.batch).dropped, f.first)
    {
      FlushSettled(f, s.sends, server);
    }
  }

  // What the requests of the given flushes confirmed, listed as rejected, and dropped.
  function ConfirmedIn<T>(flushed: seq<Flush<T>>, sends: seq<Send<T>>, server: Server<T>): seq<T> {
    if flushed == [] then []
    else
      var n := |flushed| - 1;
      ConfirmedIn(flushed[..n], sends, server) + ConfirmedItems(FlushSends(flushed[n], sends, server))
  }

  function RejectedIn<T>(flushed: seq<Flush<T>>, sends: seq<Send<T>>, server: Server<T>): seq<T> {
    if flushed == [] then []
    else
      var n := |flushed| - 1;
      RejectedIn(flushed[..n], sends, server) + RejectedItems(FlushSends(flushed[n], sends, server))
  }

  function DroppedIn<T>(flushed: seq<Flush<T>>, server: Server<T>): seq<T> {
    if flushed == [] then []
    else
      var n := |flushed| - 1;
      DroppedIn(flushed[..n], server) + DroppedItems(Recover(server, flushed[n].first, flushed[n].batch).dropped)
  }

  // No answer that ended the sending of a record lists a rejected position.
  ghost predicate NoFlushRejects<T(!new)>(flushed: seq<Flush<T>>, sends: seq<Send<T>>, server: Server<T>) {
    forall f :: f in flushed ==> RejectsNothing(FlushSends(f, sends, server))
  }

  lemma {:induction false} FlushesSplit<T(!new)>(flushed: seq<Flush<T>>, sends: seq<Send<T>>, server: Server<T>)
    requires forall f :: f in flushed ==> Sent(f, sends, server)
    ensures multiset(ConfirmedIn(flushed, sends, server)) + multiset(RejectedIn(flushed, sends, server))
            + multiset(DroppedIn(flushed, server)) == multiset(Flat(flushed))
  {
    if flushed != [] {
      var n := |flushed| - 1;
      FlushesSplit(flushed[..n], sends, server);
      FlushSettled(flushed[n], sends, server);
      hide Sent, Recover, FlushSends, Justified, NeverResent, IsSubsequence, AcceptedItems, ConfirmedItems,
           RejectedItems, DroppedItems;
    }
  }

  lemma {:induction false} FlushesRejectIff<T(!new)>(flushed: seq<Flush<T>>, sends: seq<Send<T>>, server: Server<T>)
    ensures RejectedIn(flushed, sends, server) == [] <==> NoFlushRejects(flushed, sends, server)
  {
    if flushed != [] {
      FlushesRejectIff(flushed[..|flushed| - 1], sends, server);
      OneMoreRejectIff(flushed, sends, server);
    }
  }

  lemma OneMoreRejectIff<T(!new)>(flushed: seq<Flush<T>>, sends: seq<Send<T>>, server: Server<T>)
    requires flushed != []
    requires var before := flushed[..|flushed| - 1];
             RejectedIn(before, sends, server) == [] <==> NoFlushRejects(before, sends, server)
    ensures RejectedIn(flushed, sends, server) == [] <==> NoFlushRejects(flushed, sends, server)
  {
    hide *;
    var before, f := flushed[..|flushed| - 1], flushed[|flushed| - 1];
    RejectedNothingIff(FlushSends(f, sends, server));
    NoneRejectsIff(before, f, sends, server);
    RejectedInMore(flushed, sends, server);
    BothEmpty(RejectedIn(before, sends, server), RejectedItems(FlushSends(f, sends, server)));
    assert flushed == before + [f];
  }

  lemma RejectedInMore<T>(flushed: seq<Flush<T>>, sends: seq<Send<T>>, server: Server<T>)
    requires flushed != []
    ensures var n := |flushed| - 1;
            RejectedIn(flushed, sends, server)
            == RejectedIn(flushed[..n], sends, server) + RejectedItems(FlushSends(flushed[n], sends, server))
  {
    hide FlushSends, RejectedItems;
  }

  lemma NoneRejectsIff<T(!new)>(flushed: seq<Flush<T>>, f: Flush<T>, sends: seq<Send<T>>, server: Server<T>)
    ensures NoFlushRejects(flushed + [f], sends, server)
            <==> NoFlushRejects(flushed, sends, server) && RejectsNothing(FlushSends(f, sends, server))
  {
    hide FlushSends, RejectsNothing;
  }

  // For any server and any interleaving: the flushed records are those confirmed, those listed as
  // rejected in a 2xx answer and those dropped for a 422; and every one that was not dropped is confirmed
  // if and only if no 2xx answer of a flush lists a rejected position.
  lemma AllConfirmedRunIff<T(!new)>(events: seq<Event<T>>, server: Server<T>, batchSize: int)
    requires batchSize >= 1
    ensures var s := After(events, server, batchSize);
            var confirmed, dropped := ConfirmedIn(s.flushed, s.sends, server), DroppedIn(s.flushed, server);
            && multiset(confirmed) + multiset(RejectedIn(s.flushed, s.sends, server)) + multiset(dropped)
               == multiset(Flat(s.flushed))
            && (multiset(confirmed) + multiset(dropped) == multiset(Flat(s.flushed))
                <==> NoFlushRejects(s.flushed, s.sends, server))
  {
    AlwaysInv(events, server, batchSize);
    var s := After(events, server, batchSize);
    FlushesSplit(s.flushed, s.sends, server);
    FlushesRejectIff(s.flushed, s.sends, server);
    hide *;
    var rejected := multiset(RejectedIn(s.flushed, s.sends, server));
    assert |rejected| == |RejectedIn(s.flushed, s.sends, server)|;
    NoneMissingIff(multiset(ConfirmedIn(s.flushed, s.sends, server)), rejected, multiset(DroppedIn(s.flushed, server)),
                   multiset(Flat(s.flushed)));
  }

  lemma NoneMissingIff<T>(a: multiset<T>, b: multiset<T>, c: multiset<T>, whole: multiset<T>)
    requires a + b + c == whole
    ensures a + c == whole <==> |b| == 0
  {
    assert |a + b + c| == |a| + |b| + |c| && |a + c| == |a| + |c|;
    assert |b| == 0 ==> b == multiset{};
    assert b == multiset{} ==> a + b + c == a + c;
  }

  // Until stop is set the batch stays within its configured size, and a finished loop means that stop
  // was set and that nothing taken from the queue is unsettled.
  lemma BatchBounded<T(!new)>(events: seq<Event<T>>, server: Server<T>, batchSize: int)
    requires batchSize >= 1
    ensures var s := After(events, server, batchSize);
            && (s.stop || |s.batch| <= batchSize)
            && (s.place.Exited? ==> s.stop && s.batch == [] && s.taken == Flat(s.flushed))
  {
    AlwaysInv(events, server, batchSize);
  }

  // The moment the loop ended: the test of the batch.
  lemma {:induction false} ExitMoment<T(!new)>(events: seq<Event<T>>, server: Server<T>,
                                               batchSize: int) returns (n: nat)
    requires After(events, server, batchSize).place.Exited?
    ensures n < |events| && After(events[..n], server, batchSize).place.EmptySeen?
  {
    var before := events[..|events| - 1];
    if After(before, server, batchSize).place.Exited? {
      n := ExitMoment(before, server, batchSize);
      assert before[..n] == events[..n];
    } else {
      n := |events| - 1;
    }
  }

  lemma {:induction false} EmptyMoment<T(!new)>(events: seq<Event<T>>, server: Server<T>,
                                                batchSize: int) returns (n: nat)
    requires After(events, server, batchSize).place.EmptySeen?
    ensures n < |events| && var s := After(events[..n], server, batchSize); s.place.StopSeen? && s.queue == []
  {
    var before := events[..|events| - 1];
    if After(before, server, batchSize).place.EmptySeen? {
      n := EmptyMoment(before, server, batchSize);
      assert before[..n] == events[..n];
    } else {
      n := |events| - 1;
    }
  }

  // The loop ends only after a test that saw stop set and, after that, the queue empty.
  lemma ExitSawEmptyQueue<T(!new)>(events: seq<Event<T>>, server: Server<T>, batchSize: int) returns (n: nat)
    requires batchSize >= 1 && After(events, server, batchSize).place.Exited?
    ensures n < |events| && var s := After(events[..n], server, batchSize);
                            s.place.StopSeen? && s.stop && s.queue == []
  {
    var m := ExitMoment(events, server, batchSize);
    n := EmptyMoment(events[..m], server, batchSize);
    assert events[..m][..n] == events[..n];
    AlwaysInv(events[..n], server, batchSize);
  }

  // ---------- whole runs against an honest server ----------

  lemma {:induction false} AcceptedConcat<T>(a: seq<Send<T>>, b: seq<Send<T>>)
    ensures AcceptedItems(a + b) == AcceptedItems(a) + AcceptedItems(b)
  {
    if a == [] {
      assert a + b == b;
    } else {
      assert (a + b)[1..] == a[1..] + b;
      AcceptedConcat(a[1..], b);
    }
  }

  ghost predicate ExactSoFar<T>(s: State<T>, valid: T -> bool) {
    AcceptedItems(s.sends) == Filter(Flat(s.flushed), valid)
  }

  lemma FlushIsExact<T(!new)>(s: State<T>, server: Server<T>, batchSize: int, valid: T -> bool)
    requires Honest(server, valid) && ExactSoFar(s, valid) && s.place.Flushing?
    ensures ExactSoFar(Turned(s, false, server, batchSize), valid)
  {
    hide *;
    var d := Recover(server, |s.sends|, s.batch);
    var f := Flush(s.batch, |s.sends|);
    RecoverExact(server, |s.sends|, s.batch, valid);
    var t := Turned(s, false, server, batchSize);
    FlushTurn(s, server, batchSize);
    AcceptedConcat(s.sends, d.sends);
    FlatAppend(s.flushed, f);
    FilterConcat(Flat(s.flushed), s.batch, valid);
    ExactMeans(s, valid);
    ExactMeans(t, valid);
  }

  lemma FlushTurn<T>(s: State<T>, server: Server<T>, batchSize: int)
    requires s.place.Flushing? && Recover(server, |s.sends|, s.batch).outcome == Done
    ensures var t := Turned(s, false, server, batchSize);
            && t.sends == s.sends + Recover(server, |s.sends|, s.batch).sends
            && t.flushed == s.flushed + [Flush(s.batch, |s.sends|)]
  {
    hide Recover;
  }

  lemma ExactMeans<T>(s: State<T>, valid: T -> bool)
    ensures ExactSoFar(s, valid) <==> AcceptedItems(s.sends) == Filter(Flat(s.flushed), valid)
  {
  }

  lemma FlatAppend<T>(flushed: seq<Flush<T>>, f: Flush<T>)
    ensures Flat(flushed + [f]) == Flat(flushed) + f.batch
  {
    assert (flushed + [f])[..|flushed|] == flushed;
  }

  // A step either flushes, whatever the clock says, or makes no request and flushes nothing.
  lemma FlushOrQuiet<T>(s: State<T>, e: Event<T>, server: Server<T>, batchSize: int)
    ensures var t := Next(s, e, server, batchSize);
            if e.Turn? && s.place.Flushing? then t == Turned(s, false, server, batchSize)
            else t.sends == s.sends && t.flushed == s.flushed
  {
    hide Recover;
  }

  lemma NextIsExact<T(!new)>(s: State<T>, e: Event<T>, server: Server<T>, batchSize: int, valid: T -> bool)
    requires Honest(server, valid) && ExactSoFar(s, valid)
    ensures ExactSoFar(Next(s, e, server, batchSize), valid)
  {
    hide *;
    FlushOrQuiet(s, e, server, batchSize);
    ExactMeans(s, valid);
    ExactMeans(Next(s, e, server, batchSize), valid);
    if e.Turn? && s.place.Flushing? {
      FlushIsExact(s, server, batchSize, valid);
    }
  }

  // With an honest server the whole run delivers exactly the valid records of the flushed batches,
  // each once and in the order they were taken.
  lemma {:induction false} HonestRunExactlyOnce<T(!new)>(
    events: seq<Event<T>>, server: Server<T>, batchSize: int, valid: T -> bool)
    requires Honest(server, valid)
    ensures ExactSoFar(After(events, server, batchSize), valid)
  {
    if events != [] {
      hide Honest, ExactSoFar, Next;
      var before, e := events[..|events| - 1], events[|events| - 1];
      HonestRunExactlyOnce(before, server, batchSize, valid);
      NextIsExact(After(before, server, batchSize), e, server, batchSize, valid);
    }
  }

  // So after a run with an honest server exactly the valid records of the flushed batches are confirmed,
  // once each and in order, if and only if no 2xx answer of the run lists a rejected position.
  lemma HonestRunConfirmsIff<T(!new)>(events: seq<Event<T>>, server: Server<T>, batchSize: int, valid: T -> bool)
    requires Honest(server, valid)
    ensures var s := After(events, server, batchSize);
            ConfirmedItems(s.sends) == Filter(Flat(s.flushed), valid) <==> RejectsNothing(s.sends)
  {
    HonestRunExactlyOnce(events, server, batchSize, valid);
    AllConfirmedIff(After(events, server, batchSize).sends);
  }
}
