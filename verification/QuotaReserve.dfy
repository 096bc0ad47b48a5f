// The shared daily counter (PostgresClickHouseStore._reserve_daily_redis_counter): many callers
// add to one Redis key, look at the value they got back, and take their amount off again when it
// exceeds the limit. Each Redis command is one atomic step; steps of different callers interleave.
module QuotaReserve {

  datatype Caller =
    | Waiting(amount: nat)
    | Added(amount: nat, value: int)   // INCRBY returned `value`
    | Granted(amount: nat)
    | Refused(amount: nat)             // over the limit, DECRBY still to come
    | RolledBack(amount: nat)

  datatype State = State(counter: int, callers: seq<Caller>)

  // The next step of caller i.
  function Step(s: State, i: nat, limit: int): State {
    if i >= |s.callers| then s
    else
      match s.callers[i]
      case Waiting(amount) =>
        var value := s.counter + amount;
        State(value, s.callers[i := Added(amount, value)])
      case Added(amount, value) =>
        State(s.counter, s.callers[i := if value > limit then Refused(amount) else Granted(amount)])
      case Refused(amount) => State(s.counter - amount, s.callers[i := RolledBack(amount)])
      case _ => s
  }

  function Init(amounts: seq<nat>): State {
    State(0, seq(|amounts|, i requires 0 <= i < |amounts| => Waiting(amounts[i])))
  }

  // The state after the callers have moved in the order of the schedule.
  function Run(amounts: seq<nat>, schedule: seq<nat>, limit: int): State {
    if schedule == [] then Init(amounts)
    else Step(Run(amounts, schedule[..|schedule| - 1], limit), schedule[|schedule| - 1], limit)
  }

  // The amount a caller has, or is certain to get, granted.
  function GrantedShare(c: Caller, limit: int): nat {
    match c
    case Granted(amount) => amount
    case Added(amount, value) => if value <= limit then amount else 0
    case _ => 0
  }

  // The amount a refused caller still has in the counter.
  function PendingShare(c: Caller, limit: int): nat {
    match c
    case Refused(amount) => amount
    case Added(amount, value) => if value > limit then amount else 0
    case _ => 0
  }

  function GrantedTotal(callers: seq<Caller>, limit: int): nat {
    if callers == [] then 0 else GrantedShare(callers[0], limit) + GrantedTotal(callers[1..], limit)
  }

  function PendingTotal(callers: seq<Caller>, limit: int): nat {
    if callers == [] then 0 else PendingShare(callers[0], limit) + PendingTotal(callers[1..], limit)
  }

  lemma {:induction false} TotalsAfterUpdate(callers: seq<Caller>, i: nat, c: Caller, limit: int)
    requires i < |callers|
    ensures GrantedTotal(callers[i := c], limit)
            == GrantedTotal(callers, limit) - GrantedShare(callers[i], limit) + GrantedShare(c, limit)
    ensures PendingTotal(callers[i := c], limit)
            == PendingTotal(callers, limit) - PendingShare(callers[i], limit) + PendingShare(c, limit)
  {
    if i == 0 {
      assert callers[i := c][1..] == callers[1..];
    } else {
      assert callers[i := c][1..] == callers[1..][i - 1 := c];
      TotalsAfterUpdate(callers[1..], i - 1, c, limit);
    }
  }

  lemma {:induction false} NothingGrantedYet(callers: seq<Caller>, limit: int)
    requires forall c :: c in callers ==> c.Waiting?
    ensures GrantedTotal(callers, limit) == 0 && PendingTotal(callers, limit) == 0
  {
    if callers != [] {
      NothingGrantedYet(callers[1..], limit);
    }
  }

  ghost predicate Conserved(s: State, limit: int) {
    && s.counter == GrantedTotal(s.callers, limit) + PendingTotal(s.callers, limit)
    && GrantedTotal(s.callers, limit) <= limit
  }

  lemma StepConserves(s: State, i: nat, limit: int)
    requires Conserved(s, limit)
    ensures Conserved(Step(s, i, limit), limit)
  {
    hide GrantedTotal, PendingTotal;
    if i < |s.callers| {
      var c := s.callers[i];
      var next := Step(s, i, limit).callers[i];
      assert Step(s, i, limit).callers == s.callers[i := next];
      TotalsAfterUpdate(s.callers, i, next, limit);
    }
  }

  // In every run: the counter is what was granted plus what refused callers have not yet taken back,
  // and the grants never exceed the limit.
  lemma {:induction false} CounterConserved(amounts: seq<nat>, schedule: seq<nat>, limit: int)
    requires limit > 0
    ensures var s := Run(amounts, schedule, limit);
            && s.counter == GrantedTotal(s.callers, limit) + PendingTotal(s.callers, limit)
            && GrantedTotal(s.callers, limit) <= limit
  {
    if schedule == [] {
      NothingGrantedYet(Init(amounts).callers, limit);
    } else {
      hide Step;
      var before, i := Run(amounts, schedule[..|schedule| - 1], limit), schedule[|schedule| - 1];
      CounterConserved(amounts, schedule[..|schedule| - 1], limit);
      StepConserves(before, i, limit);
    }
  }

  predicate Quiescent(s: State) {
    forall c :: c in s.callers ==> c.Waiting? || c.Granted? || c.RolledBack?
  }

  lemma {:induction false} NothingPending(callers: seq<Caller>, limit: int)
    requires forall c :: c in callers ==> c.Waiting? || c.Granted? || c.RolledBack?
    ensures PendingTotal(callers, limit) == 0
  {
    if callers != [] {
      NothingPending(callers[1..], limit);
    }
  }

  // When no caller is in the middle of the exchange, the counter is exactly what was granted.
  lemma QuiescentCounter(amounts: seq<nat>, schedule: seq<nat>, limit: int)
    requires limit > 0 && Quiescent(Run(amounts, schedule, limit))
    ensures Run(amounts, schedule, limit).counter == GrantedTotal(Run(amounts, schedule, limit).callers, limit)
  {
    CounterConserved(amounts, schedule, limit);
    NothingPending(Run(amounts, schedule, limit).callers, limit);
  }

  predicate IsDecided(c: Caller) {
    c.Granted? || c.Refused? || c.RolledBack?
  }

  // A caller whose addition returned `value`, now or later.
  predicate HasAdded(c: Caller, amount: nat, value: int, limit: int) {
    || c == Added(amount, value)
    || (value <= limit && c == Granted(amount))
    || (value > limit && (c == Refused(amount) || c == RolledBack(amount)))
  }

  lemma {:induction false} AddedStays(amounts: seq<nat>, schedule: seq<nat>, more: seq<nat>, limit: int,
                                      i: nat, amount: nat, value: int)
    requires i < |Run(amounts, schedule, limit).callers|
    requires HasAdded(Run(amounts, schedule, limit).callers[i], amount, value, limit)
    ensures i < |Run(amounts, schedule + more, limit).callers|
    ensures HasAdded(Run(amounts, schedule + more, limit).callers[i], amount, value, limit)
  {
    if more == [] {
      assert schedule + more == schedule;
    } else {
      var fewer := more[..|more| - 1];
      AddedStays(amounts, schedule, fewer, limit, i, amount, value);
      assert (schedule + more)[..|schedule + more| - 1] == schedule + fewer;
    }
  }

  // Whatever the others do between a caller's addition and its check: it is refused exactly when the
  // grants, the pending refusals and its own amount exceeded the limit at the moment of the addition.
  lemma RefusedIff(amounts: seq<nat>, schedule: seq<nat>, more: seq<nat>, limit: int, i: nat)
    requires limit > 0
    requires i < |Run(amounts, schedule, limit).callers| && Run(amounts, schedule, limit).callers[i].Waiting?
    ensures i < |Run(amounts, schedule + [i] + more, limit).callers|
    ensures var s, t := Run(amounts, schedule, limit), Run(amounts, schedule + [i] + more, limit);
            IsDecided(t.callers[i]) ==>
              (!t.callers[i].Granted? <==>
               GrantedTotal(s.callers, limit) + PendingTotal(s.callers, limit) + s.callers[i].amount > limit)
  {
    CounterConserved(amounts, schedule, limit);
    var s := Run(amounts, schedule, limit);
    assert (schedule + [i])[..|schedule + [i]| - 1] == schedule;
    assert Run(amounts, schedule + [i], limit) == Step(s, i, limit);
    var value := s.counter + s.callers[i].amount;
    AddedStays(amounts, schedule + [i], more, limit, i, s.callers[i].amount, value);
  }

  // Pending refusals can refuse a caller that the limit had room for: a caller asking for 11 of 10 is
  // in flight, so a caller asking for 5 is refused although nothing was granted and nothing ever will be.
  lemma SpuriousRefusal()
    ensures var s := Run([11, 5], [0, 1, 1, 0, 0, 1], 10);
            && s.callers == [RolledBack(11), RolledBack(5)]
            && s.counter == 0 && GrantedTotal(s.callers, 10) == 0
  {
    var amounts, schedule := [11, 5], [0, 1, 1, 0, 0, 1];
    hide *;
    var s0 := Init(amounts);
    RunStart(amounts, schedule, 10);
    var s1 := RunStep(amounts, schedule, 0, s0, 10);
    var s2 := RunStep(amounts, schedule, 1, s1, 10);
    var s3 := RunStep(amounts, schedule, 2, s2, 10);
    var s4 := RunStep(amounts, schedule, 3, s3, 10);
    var s5 := RunStep(amounts, schedule, 4, s4, 10);
    var s6 := RunStep(amounts, schedule, 5, s5, 10);
    assert schedule[..6] == schedule;
    FirstRefusal();
    BothRefused();
    NothingGranted();
  }

  lemma FirstRefusal()
    ensures Step(Step(Step(Init([11, 5]), 0, 10), 1, 10), 1, 10) == State(16, [Added(11, 11), Refused(5)])
  {
    assert Init([11, 5]).callers == [Waiting(11), Waiting(5)];
  }

  lemma BothRefused()
    ensures Step(Step(Step(State(16, [Added(11, 11), Refused(5)]), 0, 10), 0, 10), 1, 10)
            == State(0, [RolledBack(11), RolledBack(5)])
  {
  }

  lemma NothingGranted()
    ensures GrantedTotal([RolledBack(11), RolledBack(5)], 10) == 0
  {
    assert [RolledBack(11), RolledBack(5)][1..] == [RolledBack(5)];
  }

  lemma RunStart(amounts: seq<nat>, schedule: seq<nat>, limit: int)
    ensures Run(amounts, schedule[..0], limit) == Init(amounts)
  {
  }

  lemma RunStep(amounts: seq<nat>, schedule: seq<nat>, n: nat, before: State, limit: int) returns (after: State)
    requires n < |schedule| && Run(amounts, schedule[..n], limit) == before
    ensures after == Run(amounts, schedule[..n + 1], limit) == Step(before, schedule[n], limit)
  {
    assert schedule[..n + 1][..n] == schedule[..n];
    after := Run(amounts, schedule[..n + 1], limit);
  }

  // A decision once taken stands.
  lemma {:induction false} DecisionsStand(amounts: seq<nat>, schedule: seq<nat>, more: seq<nat>, limit: int, i: nat)
    requires i < |Run(amounts, schedule, limit).callers|
    ensures i < |Run(amounts, schedule + more, limit).callers|
    ensures Run(amounts, schedule, limit).callers[i].Granted?
            ==> Run(amounts, schedule + more, limit).callers[i] == Run(amounts, schedule, limit).callers[i]
    ensures Run(amounts, schedule, limit).callers[i].Refused? || Run(amounts, schedule, limit).callers[i].RolledBack?
            ==> Run(amounts, schedule + more, limit).callers[i].Refused?
                || Run(amounts, schedule + more, limit).callers[i].RolledBack?
  {
    if more == [] {
      assert schedule + more == schedule;
    } else {
      var fewer := more[..|more| - 1];
      DecisionsStand(amounts, schedule, fewer, limit, i);
      assert (schedule + more)[..|schedule + more| - 1] == schedule + fewer;
    }
  }
}
