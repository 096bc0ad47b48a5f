// Idempotent ingestion in the persistent store (PostgresClickHouseStore.ingest_log): a call looks
// its key up, inserts a log if it found none, and then binds the key unless somebody else has.
// The three database operations are atomic steps; steps of concurrent calls interleave, and a call
// that is never scheduled again has crashed.
module PersistentIdempotency {

  type Key = (string, string)   // (api key id, idempotency key)

  datatype Outcome = Found | Won | Lost

  datatype Phase =
    | Start
    | Missed(lookupAt: nat)
    | Inserted(lookupAt: nat, id: string)
    | Finished(lookupAt: nat, id: string, outcome: Outcome)

  datatype Call = Call(key: Key, phase: Phase)

  datatype State = State(
    clock: nat,
    logs: map<string, nat>,        // log id -> the call that inserted it
    bindings: map<Key, string>,
    boundAt: map<Key, nat>,
    calls: seq<Call>)

  function Init(keys: seq<Key>): State {
    State(0, map[], map[], map[], seq(|keys|, i requires 0 <= i < |keys| => Call(keys[i], Start)))
  }

  // The next step of call i; `newId` is the identifier an insertion draws, which must be unused.
  function Step(s: State, i: nat, newId: string): State {
    if i >= |s.calls| then s
    else
      var c := s.calls[i];
      var t := s.(clock := s.clock + 1);
      match c.phase
      case Start =>
        var next := if c.key in s.bindings then Finished(s.clock, s.bindings[c.key], Found) else Missed(s.clock);
        t.(calls := s.calls[i := c.(phase := next)])
      case Missed(at) =>
        if newId in s.logs then s
        else t.(logs := s.logs[newId := i], calls := s.calls[i := c.(phase := Inserted(at, newId))])
      case Inserted(at, id) =>
        if c.key in s.bindings then t.(calls := s.calls[i := c.(phase := Finished(at, id, Lost))])
        else t.(bindings := s.bindings[c.key := id], boundAt := s.boundAt[c.key := s.clock],
                calls := s.calls[i := c.(phase := Finished(at, id, Won))])
      case Finished(_, _, _) => s
  }

  function Run(keys: seq<Key>, schedule: seq<(nat, string)>): State {
    if schedule == [] then Init(keys)
    else
      var last := schedule[|schedule| - 1];
      Step(Run(keys, schedule[..|schedule| - 1]), last.0, last.1)
  }

  // ---------- the invariant ----------

  ghost predicate CallInv(s: State, i: nat)
    requires i < |s.calls| && s.bindings.Keys == s.boundAt.Keys
  {
    var c := s.calls[i];
    var bound := c.key in s.bindings;
    match c.phase
    case Start => true
    case Missed(at) => at < s.clock && (bound ==> at < s.boundAt[c.key])
    case Inserted(at, id) =>
      && at < s.clock && (bound ==> at < s.boundAt[c.key])
      && id in s.logs && s.logs[id] == i && (bound ==> s.bindings[c.key] != id)
    case Finished(at, id, Found) => bound && s.boundAt[c.key] < at < s.clock && id == s.bindings[c.key]
    case Finished(at, id, Won) =>
      bound && at < s.boundAt[c.key] && id == s.bindings[c.key] && id in s.logs && s.logs[id] == i
    case Finished(at, id, Lost) =>
      bound && at < s.boundAt[c.key] && id != s.bindings[c.key] && id in s.logs && s.logs[id] == i
  }

  ghost predicate LogInv(s: State, id: string)
    requires id in s.logs
  {
    var i := s.logs[id];
    i < |s.calls| && match s.calls[i].phase
                     case Inserted(_, own) => own == id
                     case Finished(_, own, outcome) => own == id && outcome != Found
                     case _ => false
  }

  ghost predicate Inv(s: State) {
    && s.bindings.Keys == s.boundAt.Keys
    && (forall i :: 0 <= i < |s.calls| ==> CallInv(s, i))
    && (forall id :: id in s.logs ==> LogInv(s, id))
    && (forall k :: k in s.bindings ==>
          && s.boundAt[k] < s.clock && s.bindings[k] in s.logs
          && s.logs[s.bindings[k]] < |s.calls| && s.calls[s.logs[s.bindings[k]]].key == k)
  }

  lemma OwnCallInvKept(s: State, i: nat, newId: string)
    requires Inv(s) && i < |s.calls|
    ensures var t := Step(s, i, newId); t.bindings.Keys == t.boundAt.Keys && CallInv(t, i)
  {
    assert CallInv(s, i);
  }

  lemma OtherCallInvKept(s: State, i: nat, newId: string, j: nat)
    requires Inv(s) && i < |s.calls| && j < |s.calls| && i != j
    ensures var t := Step(s, i, newId); t.bindings.Keys == t.boundAt.Keys && CallInv(t, j)
  {
    assert CallInv(s, j) && CallInv(s, i);
  }

  lemma LogInvKept(s: State, i: nat, newId: string, id: string)
    requires Inv(s) && i < |s.calls| && id in Step(s, i, newId).logs
    ensures LogInv(Step(s, i, newId), id)
  {
    assert id in s.logs ==> LogInv(s, id);
    assert CallInv(s, i);
  }

  lemma BindingKept(s: State, i: nat, newId: string, k: Key)
    requires Inv(s) && i < |s.calls| && k in Step(s, i, newId).bindings
    ensures var t := Step(s, i, newId);
            && k in t.boundAt && t.boundAt[k] < t.clock && t.bindings[k] in t.logs
            && t.logs[t.bindings[k]] < |t.calls| && t.calls[t.logs[t.bindings[k]]].key == k
  {
    assert CallInv(s, i);
    if k in s.bindings {
      assert LogInv(s, s.bindings[k]);
    }
  }

  lemma StepKeepsInv(s: State, i: nat, newId: string)
    requires Inv(s)
    ensures Inv(Step(s, i, newId))
  {
    if i < |s.calls| {
      var t := Step(s, i, newId);
      OwnCallInvKept(s, i, newId);
      assert |t.calls| == |s.calls|;
      hide Step, CallInv, LogInv;
      forall j | 0 <= j < |t.calls|
        ensures CallInv(t, j)
      {
        if j != i {
          OtherCallInvKept(s, i, newId, j);
        }
      }
      forall id | id in t.logs
        ensures LogInv(t, id)
      {
        LogInvKept(s, i, newId, id);
      }
      forall k | k in t.bindings
        ensures k in t.boundAt && t.boundAt[k] < t.clock && t.bindings[k] in t.logs
        ensures t.logs[t.bindings[k]] < |t.calls| && t.calls[t.logs[t.bindings[k]]].key == k
      {
        BindingKept(s, i, newId, k);
      }
    }
  }

  lemma StepGrows(s: State, i: nat, newId: string)
    ensures var t := Step(s, i, newId);
            && |t.calls| == |s.calls|
            && (forall j :: 0 <= j < |s.calls| ==> t.calls[j].key == s.calls[j].key)
            && (forall k :: k in s.bindings ==> k in t.bindings && t.bindings[k] == s.bindings[k])
            && (forall id :: id in s.logs ==> id in t.logs && t.logs[id] == s.logs[id])
  {
    StepKeepsCalls(s, i, newId);
    StepKeepsTables(s, i, newId);
    hide *;
  }

  lemma StepKeepsCalls(s: State, i: nat, newId: string)
    ensures var t := Step(s, i, newId);
            |t.calls| == |s.calls| && forall j :: 0 <= j < |s.calls| ==> t.calls[j].key == s.calls[j].key
  {
  }

  lemma StepKeepsTables(s: State, i: nat, newId: string)
    ensures var t := Step(s, i, newId);
            && (forall k :: k in s.bindings ==> k in t.bindings && t.bindings[k] == s.bindings[k])
            && (forall id :: id in s.logs ==> id in t.logs && t.logs[id] == s.logs[id])
  {
  }

  lemma {:induction false} RunKeepsInv(keys: seq<Key>, schedule: seq<(nat, string)>)
    ensures Inv(Run(keys, schedule))
    ensures |Run(keys, schedule).calls| == |keys|
    ensures forall i :: 0 <= i < |keys| ==> Run(keys, schedule).calls[i].key == keys[i]
  {
    if schedule != [] {
      var before, last := schedule[..|schedule| - 1], schedule[|schedule| - 1];
      hide Step, Inv;
      RunKeepsInv(keys, before);
      StepKeepsInv(Run(keys, before), last.0, last.1);
      StepGrows(Run(keys, before), last.0, last.1);
    }
  }

  // ---------- what callers can rely on ----------

  // A binding, once made, never changes, and inserted logs stay.
  lemma {:induction false} BindingsStand(keys: seq<Key>, schedule: seq<(nat, string)>, more: seq<(nat, string)>)
    ensures var s, t := Run(keys, schedule), Run(keys, schedule + more);
            && (forall k :: k in s.bindings ==> k in t.bindings && t.bindings[k] == s.bindings[k])
            && (forall id :: id in s.logs ==> id in t.logs && t.logs[id] == s.logs[id])
  {
    if more == [] {
      assert schedule + more == schedule;
    } else {
      var fewer := more[..|more| - 1];
      hide Step;
      BindingsStand(keys, schedule, fewer);
      StepGrows(Run(keys, schedule + fewer), more[|more| - 1].0, more[|more| - 1].1);
      assert (schedule + more)[|schedule + more| - 1] == more[|more| - 1];
      assert (schedule + more)[..|schedule + more| - 1] == schedule + fewer;
    }
  }

  // A bound key names a log that was inserted for that very key.
  lemma BindingNamesInsertedLog(keys: seq<Key>, schedule: seq<(nat, string)>, k: Key)
    requires k in Run(keys, schedule).bindings
    ensures var s := Run(keys, schedule);
            s.bindings[k] in s.logs && s.logs[s.bindings[k]] < |keys| && keys[s.logs[s.bindings[k]]] == k
  {
    RunKeepsInv(keys, schedule);
    var s := Run(keys, schedule);
    assert LogInv(s, s.bindings[k]);
  }

  // Whatever else runs in between, a lookup made after the binding returns the bound log.
  lemma LookupAfterBinding(keys: seq<Key>, schedule: seq<(nat, string)>, more: seq<(nat, string)>, i: nat,
                           newId: string)
    requires i < |keys| && keys[i] in Run(keys, schedule).bindings
    requires i < |Run(keys, schedule + more).calls| && Run(keys, schedule + more).calls[i].phase.Start?
    ensures var t := Step(Run(keys, schedule + more), i, newId);
            && t.calls[i].phase.Finished?
            && t.calls[i].phase.id == Run(keys, schedule).bindings[keys[i]]
            && t.logs == Run(keys, schedule + more).logs
  {
    BindingsStand(keys, schedule, more);
    RunKeepsInv(keys, schedule + more);
  }

  // Every log of a bound key comes from a call that looked the key up before it was first bound.
  lemma DuplicatesLookedUpEarly(keys: seq<Key>, schedule: seq<(nat, string)>, id: string)
    requires id in Run(keys, schedule).logs
    ensures var s := Run(keys, schedule);
            var i := s.logs[id];
            && i < |keys| == |s.calls| && s.bindings.Keys == s.boundAt.Keys
            && (s.calls[i].phase.Inserted? || s.calls[i].phase.Finished?) && s.calls[i].phase.id == id
            && (keys[i] in s.bindings ==> s.calls[i].phase.lookupAt < s.boundAt[keys[i]])
  {
    RunKeepsInv(keys, schedule);
    var s := Run(keys, schedule);
    assert LogInv(s, id);
    assert CallInv(s, s.logs[id]);
  }

  // A finished call returned the bound log exactly when it found the binding or made it.
  lemma ReturnsBoundLogIff(keys: seq<Key>, schedule: seq<(nat, string)>, i: nat)
    requires i < |Run(keys, schedule).calls| && Run(keys, schedule).calls[i].phase.Finished?
    ensures var s := Run(keys, schedule);
            var c := s.calls[i];
            && c.key in s.bindings && c.key in s.boundAt && s.bindings[c.key] in s.logs
            && (c.phase.id == s.bindings[c.key] <==> c.phase.outcome != Lost)
            && (c.phase.id == s.bindings[c.key] <==>
                  s.boundAt[c.key] < c.phase.lookupAt || s.logs[s.bindings[c.key]] == i)
  {
    RunKeepsInv(keys, schedule);
    var s := Run(keys, schedule);
    assert CallInv(s, i);
    assert LogInv(s, s.bindings[s.calls[i].key]);
  }

  // ---------- exactly when there is one log ----------

  // Call i inserted a log.
  predicate OwnsLog(s: State, i: nat) {
    exists id | id in s.logs :: s.logs[id] == i
  }

  // Call i is past its insertion step and its lookup came before the key was first bound.
  predicate LookedUpEarlyAndInserted(s: State, i: nat) {
    i < |s.calls| &&
    var c := s.calls[i];
    && (c.phase.Inserted? || c.phase.Finished?)
    && (c.key in s.boundAt ==> c.phase.lookupAt < s.boundAt[c.key])
  }

  // A finished call stored a log of its own exactly when it looked its key up before the key was bound.
  lemma FinishedStoredIff(keys: seq<Key>, schedule: seq<(nat, string)>, i: nat)
    requires i < |Run(keys, schedule).calls| && Run(keys, schedule).calls[i].phase.Finished?
    ensures var s := Run(keys, schedule);
            var c := s.calls[i];
            c.key in s.boundAt && (OwnsLog(s, i) <==> c.phase.lookupAt < s.boundAt[c.key])
  {
    RunKeepsInv(keys, schedule);
    assert CallInv(Run(keys, schedule), i);
    StoredIff(keys, schedule, i);
  }

  // The same for calls in any phase.
  lemma StoredIff(keys: seq<Key>, schedule: seq<(nat, string)>, i: nat)
    ensures OwnsLog(Run(keys, schedule), i) <==> LookedUpEarlyAndInserted(Run(keys, schedule), i)
  {
    RunKeepsInv(keys, schedule);
    var s := Run(keys, schedule);
    if OwnsLog(s, i) {
      var id :| id in s.logs && s.logs[id] == i;
      assert LogInv(s, id) && CallInv(s, i);
    }
    if LookedUpEarlyAndInserted(s, i) {
      assert CallInv(s, i);
      assert s.calls[i].phase.id in s.logs && s.logs[s.calls[i].phase.id] == i;
    }
  }

  predicate IsLogOf(s: State, id: string, k: Key) {
    id in s.logs && s.logs[id] < |s.calls| && s.calls[s.logs[id]].key == k
  }

  // Two calls on the key that both looked it up before it was bound and both inserted.
  ghost predicate Raced(s: State, k: Key) {
    exists i, j :: i != j && RacedPair(s, k, i, j)
  }

  predicate RacedPair(s: State, k: Key, i: nat, j: nat) {
    && LookedUpEarlyAndInserted(s, i) && s.calls[i].key == k
    && LookedUpEarlyAndInserted(s, j) && s.calls[j].key == k
  }

  // A call inserts at most one log.
  lemma OneLogPerCall(keys: seq<Key>, schedule: seq<(nat, string)>, a: string, b: string)
    requires a in Run(keys, schedule).logs && b in Run(keys, schedule).logs
    requires Run(keys, schedule).logs[a] == Run(keys, schedule).logs[b]
    ensures a == b
  {
    RunKeepsInv(keys, schedule);
    assert LogInv(Run(keys, schedule), a) && LogInv(Run(keys, schedule), b);
  }

  // A key has two logs exactly when two calls on it looked it up before it was first bound and both
  // inserted. So a bound key has the bound log and no other if and only if no second call did that.
  lemma OneLogIffNoRace(keys: seq<Key>, schedule: seq<(nat, string)>, k: Key)
    ensures var s := Run(keys, schedule);
            && ((forall a, b :: IsLogOf(s, a, k) && IsLogOf(s, b, k) ==> a == b) <==> !Raced(s, k))
            && (k in s.bindings ==>
                  ((forall id :: IsLogOf(s, id, k) <==> id == s.bindings[k]) <==> !Raced(s, k)))
  {
    var s := Run(keys, schedule);
    forall a, b | IsLogOf(s, a, k) && IsLogOf(s, b, k) && a != b
      ensures Raced(s, k)
    {
      StoredIff(keys, schedule, s.logs[a]);
      StoredIff(keys, schedule, s.logs[b]);
      if s.logs[a] == s.logs[b] {
        OneLogPerCall(keys, schedule, a, b);
      }
      assert RacedPair(s, k, s.logs[a], s.logs[b]);
    }
    if Raced(s, k) {
      var i, j :| i != j && RacedPair(s, k, i, j);
      StoredIff(keys, schedule, i);
      StoredIff(keys, schedule, j);
      var a :| a in s.logs && s.logs[a] == i;
      var b :| b in s.logs && s.logs[b] == j;
      assert IsLogOf(s, a, k) && IsLogOf(s, b, k) && a != b;
    }
    if k in s.bindings {
      BindingNamesInsertedLog(keys, schedule, k);
      RunKeepsInv(keys, schedule);
      assert IsLogOf(s, s.bindings[k], k);
    }
  }

  // ---------- what a caller can check beforehand ----------

  // A call that has not looked up yet either is still there later or has looked up since.
  lemma {:induction false} LookupComesLater(keys: seq<Key>, schedule: seq<(nat, string)>, more: seq<(nat, string)>,
                                            i: nat)
    requires i < |keys| && |Run(keys, schedule).calls| == |keys| && Run(keys, schedule).calls[i].phase.Start?
    ensures var s, t := Run(keys, schedule), Run(keys, schedule + more);
            && |t.calls| == |keys| && t.clock >= s.clock
            && (t.calls[i].phase.Start? || t.calls[i].phase.lookupAt >= s.clock)
            && (forall k :: k in s.boundAt ==> k in t.boundAt && t.boundAt[k] == s.boundAt[k])
  {
    if more == [] {
      assert schedule + more == schedule;
    } else {
      var fewer, last := more[..|more| - 1], more[|more| - 1];
      LookupComesLater(keys, schedule, fewer, i);
      assert (schedule + more)[|schedule + more| - 1] == last;
      assert (schedule + more)[..|schedule + more| - 1] == schedule + fewer;
      var t := Run(keys, schedule + fewer);
      assert Run(keys, schedule + more) == Step(t, last.0, last.1);
      RunKeepsInv(keys, schedule + fewer);
      hide Run;
      StepTimes(t, last.0, last.1, i);
    }
  }

  lemma StepTimes(s: State, j: nat, newId: string, i: nat)
    requires i < |s.calls| && s.bindings.Keys == s.boundAt.Keys
    ensures var t := Step(s, j, newId);
            && |t.calls| == |s.calls| && t.clock >= s.clock
            && (s.calls[i].phase.Start? ==> t.calls[i].phase.Start? || t.calls[i].phase.lookupAt >= s.clock)
            && (!s.calls[i].phase.Start? ==>
                  !t.calls[i].phase.Start? && t.calls[i].phase.lookupAt == s.calls[i].phase.lookupAt)
            && (forall k :: k in s.boundAt ==> k in t.boundAt && t.boundAt[k] == s.boundAt[k])
  {
    StepKeepsBoundAt(s, j, newId);
    StepKeepsLookup(s, j, newId, i);
    hide *;
  }

  lemma StepKeepsBoundAt(s: State, j: nat, newId: string)
    requires s.bindings.Keys == s.boundAt.Keys
    ensures var t := Step(s, j, newId);
            forall k :: k in s.boundAt ==> k in t.boundAt && t.boundAt[k] == s.boundAt[k]
  {
  }

  lemma StepKeepsLookup(s: State, j: nat, newId: string, i: nat)
    requires i < |s.calls|
    ensures var t := Step(s, j, newId);
            && |t.calls| == |s.calls| && t.clock >= s.clock
            && (s.calls[i].phase.Start? ==> t.calls[i].phase.Start? || t.calls[i].phase.lookupAt >= s.clock)
            && (!s.calls[i].phase.Start? ==>
                  !t.calls[i].phase.Start? && t.calls[i].phase.lookupAt == s.calls[i].phase.lookupAt)
  {
  }

  lemma {:induction false} SomeLengthUnused(ids: set<string>) returns (n: nat)
    ensures forall id :: id in ids ==> |id| < n
  {
    if ids == {} {
      n := 0;
    } else {
      var id :| id in ids;
      n := SomeLengthUnused(ids - {id});
      n := if n <= |id| then |id| + 1 else n;
    }
  }

  lemma UnusedId(ids: set<string>) returns (id: string)
    ensures id !in ids
  {
    var n := SomeLengthUnused(ids);
    id := seq(n, _ => 'a');
  }

  // A call about to look its key up stores no log, whatever happens from then on, if and only if the
  // key is bound at that moment.
  lemma StoresNothingIffBound(keys: seq<Key>, schedule: seq<(nat, string)>, i: nat)
    requires i < |keys| && |Run(keys, schedule).calls| == |keys| && Run(keys, schedule).calls[i].phase.Start?
    ensures (forall more :: !OwnsLog(Run(keys, schedule + more), i)) <==> keys[i] in Run(keys, schedule).bindings
  {
    RunKeepsInv(keys, schedule);
    var s := Run(keys, schedule);
    if keys[i] in s.bindings {
      forall more
        ensures !OwnsLog(Run(keys, schedule + more), i)
      {
        LookupComesLater(keys, schedule, more, i);
        RunKeepsInv(keys, schedule + more);
        StoredIff(keys, schedule + more, i);
      }
    } else {
      var id := UnusedId(s.logs.Keys);
      var t := Run(keys, schedule + [(i, ""), (i, id)]);
      TwoMoreSteps(keys, schedule, i, id);
      assert t.logs[id] == i;
      assert OwnsLog(t, i);
    }
  }

  lemma TwoMoreSteps(keys: seq<Key>, schedule: seq<(nat, string)>, i: nat, id: string)
    requires i < |Run(keys, schedule).calls| && Run(keys, schedule).calls[i].phase.Start?
    requires Run(keys, schedule).calls[i].key !in Run(keys, schedule).bindings && id !in Run(keys, schedule).logs
    ensures var t := Run(keys, schedule + [(i, ""), (i, id)]); id in t.logs && t.logs[id] == i
  {
    hide *;
    var all := schedule + [(i, ""), (i, id)];
    assert all[..|schedule|] == schedule;
    var s1 := RunStep(keys, all, |schedule|, Run(keys, schedule));
    var s2 := RunStep(keys, all, |schedule| + 1, s1);
    assert all[..|all|] == all;
    MissThenInsert(Run(keys, schedule), i, id);
  }

  lemma MissThenInsert(s: State, i: nat, id: string)
    requires i < |s.calls| && s.calls[i].phase.Start? && s.calls[i].key !in s.bindings && id !in s.logs
    ensures var t := Step(Step(s, i, ""), i, id); id in t.logs && t.logs[id] == i
  {
  }

  // Two calls with one key can both miss; then two logs exist and the calls return different ones.
  lemma RaceStoresTwoLogs(k: Key)
    ensures var s := Run([k, k], [(0, ""), (1, ""), (0, "a"), (1, "b"), (0, ""), (1, "")]);
            && |s.calls| == 2 && s.calls[0].phase == Finished(0, "a", Won) && s.calls[1].phase == Finished(1, "b", Lost)
            && s.bindings == map[k := "a"] && s.logs.Keys == {"a", "b"}
  {
    var schedule := [(0, ""), (1, ""), (0, "a"), (1, "b"), (0, ""), (1, "")];
    hide *;
    var s0 := Init([k, k]);
    RunStart([k, k], schedule);
    var s1 := RunStep([k, k], schedule, 0, s0);
    var s2 := RunStep([k, k], schedule, 1, s1);
    var s3 := RunStep([k, k], schedule, 2, s2);
    var s4 := RunStep([k, k], schedule, 3, s3);
    var s5 := RunStep([k, k], schedule, 4, s4);
    var s6 := RunStep([k, k], schedule, 5, s5);
    assert schedule[..6] == schedule;
    RaceStarts(k);
    RaceInserts(k, s2);
    RaceEnds(k, s4);
  }

  lemma RaceStarts(k: Key)
    ensures Step(Step(Init([k, k]), 0, ""), 1, "")
            == State(2, map[], map[], map[], [Call(k, Missed(0)), Call(k, Missed(1))])
  {
    var s := Init([k, k]);
    assert s.calls == [Call(k, Start), Call(k, Start)];
  }

  lemma RaceInserts(k: Key, s: State)
    requires s.logs == map[] && s.calls == [Call(k, Missed(0)), Call(k, Missed(1))]
    ensures var t := Step(Step(s, 0, "a"), 1, "b");
            t.logs.Keys == {"a", "b"} && t.bindings == s.bindings
            && t.calls == [Call(k, Inserted(0, "a")), Call(k, Inserted(1, "b"))]
  {
  }

  lemma RaceEnds(k: Key, s: State)
    requires s.bindings == map[] && s.calls == [Call(k, Inserted(0, "a")), Call(k, Inserted(1, "b"))]
    ensures var t := Step(Step(s, 0, ""), 1, "");
            && |t.calls| == 2 && t.calls[0].phase == Finished(0, "a", Won) && t.calls[1].phase == Finished(1, "b", Lost)
            && t.bindings == map[k := "a"] && t.logs == s.logs
  {
  }

  lemma RunStart(keys: seq<Key>, schedule: seq<(nat, string)>)
    ensures Run(keys, schedule[..0]) == Init(keys)
  {
  }

  lemma RunStep(keys: seq<Key>, schedule: seq<(nat, string)>, n: nat, before: State) returns (after: State)
    requires n < |schedule| && Run(keys, schedule[..n]) == before
    ensures after == Run(keys, schedule[..n + 1]) == Step(before, schedule[n].0, schedule[n].1)
  {
    assert schedule[..n + 1][..n] == schedule[..n];
    after := Run(keys, schedule[..n + 1]);
  }
}
