// Sending a batch with recovery from validation errors: _send_batch_with_422_recovery and
// _send_singletons_dropping_validation_errors of panda_trace_collector/collector.py. The server is
// an arbitrary function of how many requests it has seen and of the records in the request.
module Delivery {
  import opened Base
  import opened Collector

  // A 2xx answer lists the positions it rejected in its body, which the client does not read.
  datatype Response = Accepted(rejected: set<int>) | HttpError(status: int, body: Option<Json>) | NetworkError

  type Server<!T> = (nat, seq<T>) -> Response

  datatype Send<T> = Send(items: seq<T>, response: Response)

  datatype Outcome = Done | Raised(response: Response)

  // A record given up after the request with the given number.
  datatype Drop<T> = Drop(item: T, send: nat)

  datatype Delivery<T> = Delivery(sends: seq<Send<T>>, dropped: seq<Drop<T>>, outcome: Outcome)

  predicate IsInvalid(response: Response) {
    response.HttpError? && response.status == 422
  }

  // The response names position k of the request as invalid.
  predicate NamesIndex(response: Response, k: int) {
    IsInvalid(response) && exists d | d in ValidationDetails(response.body) :: Names(d, k)
  }

  function InvalidIndices(response: Response, n: nat): set<int> {
    set k | 0 <= k < n && NamesIndex(response, k)
  }

  // The items at positions outside, and inside, a set of positions.
  function Rest<T>(items: seq<T>, gone: set<int>): seq<T> {
    if items == [] then []
    else
      var n := |items| - 1;
      Rest(items[..n], gone) + if n in gone then [] else [items[n]]
  }

  function Picked<T>(items: seq<T>, gone: set<int>): seq<T> {
    if items == [] then []
    else
      var n := |items| - 1;
      Picked(items[..n], gone) + if n in gone then [items[n]] else []
  }

  function Mark<T>(items: seq<T>, send: nat): seq<Drop<T>> {
    if items == [] then [] else [Drop(items[0], send)] + Mark(items[1..], send)
  }

  function First<T>(send: Send<T>, dropped: seq<Drop<T>>, later: Delivery<T>): Delivery<T> {
    Delivery([send] + later.sends, dropped + later.dropped, later.outcome)
  }

  // One request per item; an item that is refused as invalid is dropped. `n` requests came before.
  function Singletons<T>(server: Server<T>, n: nat, items: seq<T>): Delivery<T>
    decreases |items|
  {
    if items == [] then Delivery([], [], Done)
    else
      var response := server(n, [items[0]]);
      var send := Send([items[0]], response);
      if response.Accepted? then First(send, [], Singletons(server, n + 1, items[1..]))
      else if IsInvalid(response) then First(send, [Drop(items[0], n)], Singletons(server, n + 1, items[1..]))
      else Delivery([send], [], Raised(response))
  }

  lemma SingletonsUnfold<T>(server: Server<T>, n: nat, items: seq<T>)
    requires items != []
    ensures var response := server(n, [items[0]]);
            var send := Send([items[0]], response);
            var dropped := if IsInvalid(response) then [Drop(items[0], n)] else [];
            Singletons(server, n, items) ==
            if response.Accepted? || IsInvalid(response)
            then First(send, dropped, Singletons(server, n + 1, items[1..]))
            else Delivery([send], [], Raised(response))
  {
  }

  lemma {:induction false} RestShorter<T>(items: seq<T>, gone: set<int>)
    ensures |Rest(items, gone)| + |Picked(items, gone)| == |items|
    ensures (exists k :: k in gone && 0 <= k < |items|) ==> |Rest(items, gone)| < |items|
  {
    if items != [] {
      var n := |items| - 1;
      RestShorter(items[..n], gone);
      if k :| k in gone && 0 <= k < |items| {
        assert k < n || n in gone;
      }
    }
  }

  function Recover<T>(server: Server<T>, n: nat, pending: seq<T>): Delivery<T>
    decreases |pending|
  {
    if pending == [] then Delivery([], [], Done)
    else
      var response := server(n, pending);
      var send := Send(pending, response);
      if response.Accepted? then Delivery([send], [], Done)
      else if !IsInvalid(response) then Delivery([send], [], Raised(response))
      else
        var gone := InvalidIndices(response, |pending|);
        if gone == {} then First(send, [], Singletons(server, n + 1, pending))
        else
          RestShorter(pending, gone);
          assert exists k :: k in gone && 0 <= k < |pending|;
          First(send, Mark(Picked(pending, gone), n), Recover(server, n + 1, Rest(pending, gone)))
  }

  // ---------- the code ----------

  class Client<!T> {
    const server: Server<T>
    ghost var log: seq<Send<T>>
    var sent: nat

    constructor (server: Server<T>)
      ensures this.server == server && log == [] && sent == 0
    {
      this.server := server;
      log, sent := [], 0;
    }

    method SendBatch(items: seq<T>) returns (response: Response)
      modifies this
      ensures response == server(old(sent), items)
      ensures log == old(log) + [Send(items, response)] && sent == old(sent) + 1
    {
      response := server(sent, items);
      log := log + [Send(items, response)];
      sent := sent + 1;
    }
  }

  method SendSingletonsDroppingValidationErrors<T>(client: Client<T>, batch: seq<T>) returns (outcome: Outcome)
    modifies client
    ensures var d := Singletons(client.server, old(client.sent), batch);
            && client.log == old(client.log) + d.sends
            && client.sent == old(client.sent) + |d.sends|
            && outcome == d.outcome
  {
    ghost var d := Singletons(client.server, client.sent, batch);
    for i := 0 to |batch|
      invariant var rest := Singletons(client.server, client.sent, batch[i..]);
                && client.log + rest.sends == old(client.log) + d.sends
                && client.sent + |rest.sends| == old(client.sent) + |d.sends|
                && rest.outcome == d.outcome
    {
      assert batch[i..][0] == batch[i] && batch[i..][1..] == batch[i + 1..];
      var response := client.SendBatch([batch[i]]);
      if !response.Accepted? && !IsInvalid(response) {
        return Raised(response);
      }
    }
    outcome := Done;
  }

  // The request sent for the pending records, and what is left to do after its response.
  lemma RecoverUnfold<T>(server: Server<T>, n: nat, pending: seq<T>)
    requires pending != []
    ensures var response := server(n, pending);
            var send := Send(pending, response);
            var gone := InvalidIndices(response, |pending|);
            && (gone != {} ==> |Rest(pending, gone)| < |pending|)
            && Recover(server, n, pending) ==
               if response.Accepted? then Delivery([send], [], Done)
               else if !IsInvalid(response) then Delivery([send], [], Raised(response))
               else if gone == {} then First(send, [], Singletons(server, n + 1, pending))
               else First(send, Mark(Picked(pending, gone), n), Recover(server, n + 1, Rest(pending, gone)))
  {
    var response := server(n, pending);
    var gone := InvalidIndices(response, |pending|);
    RestShorter(pending, gone);
    assert gone != {} ==> exists k :: k in gone && 0 <= k < |pending|;
  }

  lemma Shift<T>(log: seq<T>, x: T, later: seq<T>)
    ensures log + [x] + later == log + ([x] + later)
  {
  }

  method SendBatchWith422Recovery<T>(client: Client<T>, batch: seq<T>) returns (outcome: Outcome)
    modifies client
    ensures var d := Recover(client.server, old(client.sent), batch);
            && client.log == old(client.log) + d.sends
            && client.sent == old(client.sent) + |d.sends|
            && outcome == d.outcome
  {
    hide Singletons, Rest, Picked, Mark, InvalidIndices, NamesIndex, ValidationDetails, Names;
    ghost var d := Recover(client.server, client.sent, batch);
    var pending := batch;
    while pending != []
      invariant var rest := Recover(client.server, client.sent, pending);
                && client.log + rest.sends == old(client.log) + d.sends
                && client.sent + |rest.sends| == old(client.sent) + |d.sends|
                && rest.outcome == d.outcome
      decreases |pending|
    {
      hide Recover;
      RecoverUnfold(client.server, client.sent, pending);
      ghost var log, todo := client.log, Recover(client.server, client.sent, pending).sends;
      Shift(log, todo[0], todo[1..]);
      var response := client.SendBatch(pending);
      if response.Accepted? {
        return Done;
      }
      if !IsInvalid(response) {
        return Raised(response);
      }
      var invalid := InvalidInRange(response, |pending|);
      if invalid != {} {
        pending := Rest(pending, invalid);
      } else {
        outcome := SendSingletonsDroppingValidationErrors(client, pending);
        return outcome;
      }
    }
    outcome := Done;
  }

  // The indices named by a 422 response that lie within the request.
  method InvalidInRange(response: Response, n: nat) returns (invalid: set<int>)
    requires IsInvalid(response)
    ensures invalid == InvalidIndices(response, n)
  {
    var indices := ExtractBatchLogIndices(ValidationDetails(response.body));
    invalid := set k | k in indices && 0 <= k < n;
  }

  // ---------- what a delivery achieves ----------

  // The records of the accepted requests, in the order they were sent.
  function AcceptedItems<T>(sends: seq<Send<T>>): seq<T> {
    if sends == [] then []
    else (if sends[0].response.Accepted? then sends[0].items else []) + AcceptedItems(sends[1..])
  }

  function DroppedItems<T>(dropped: seq<Drop<T>>): seq<T> {
    if dropped == [] then [] else [dropped[0].item] + DroppedItems(dropped[1..])
  }

  lemma {:induction false} DroppedConcat<T>(a: seq<Drop<T>>, b: seq<Drop<T>>)
    ensures DroppedItems(a + b) == DroppedItems(a) + DroppedItems(b)
  {
    if a == [] {
      assert a + b == b;
    } else {
      assert (a + b)[1..] == a[1..] + b;
      DroppedConcat(a[1..], b);
    }
  }

  lemma {:induction false} MarkItems<T>(items: seq<T>, send: nat)
    ensures DroppedItems(Mark(items, send)) == items
    ensures forall d :: d in Mark(items, send) ==> d.send == send && d.item in items
  {
    if items != [] {
      MarkItems(items[1..], send);
    }
  }

  lemma {:induction false} PickedAreNamed<T>(items: seq<T>, gone: set<int>)
    ensures forall x :: x in Picked(items, gone) ==> exists k :: 0 <= k < |items| && k in gone && items[k] == x
  {
    if items != [] {
      PickedAreNamed(items[..|items| - 1], gone);
    }
  }

  lemma {:induction false} RestAndPicked<T>(items: seq<T>, gone: set<int>)
    ensures multiset(Rest(items, gone)) + multiset(Picked(items, gone)) == multiset(items)
  {
    if items != [] {
      RestAndPicked(items[..|items| - 1], gone);
      RestAndPickedNext(items, gone);
    }
  }

  lemma RestAndPickedNext<T>(items: seq<T>, gone: set<int>)
    requires items != []
    requires var before := items[..|items| - 1];
             multiset(Rest(before, gone)) + multiset(Picked(before, gone)) == multiset(before)
    ensures multiset(Rest(items, gone)) + multiset(Picked(items, gone)) == multiset(items)
  {
    hide *;
    var n := |items| - 1;
    LastRestPicked(items, gone);
    BackMultiset(items[..n], items[n]);
    BackMultiset(Rest(items[..n], gone), items[n]);
    BackMultiset(Picked(items[..n], gone), items[n]);
    assert items == items[..n] + [items[n]];
  }

  lemma LastRestPicked<T>(items: seq<T>, gone: set<int>)
    requires items != []
    ensures var n := |items| - 1;
            var rest, picked := Rest(items[..n], gone), Picked(items[..n], gone);
            && Rest(items, gone) == (if n in gone then rest else rest + [items[n]])
            && Picked(items, gone) == (if n in gone then picked + [items[n]] else picked)
  {
    var n := |items| - 1;
    assert Rest(items[..n], gone) + [] == Rest(items[..n], gone);
    assert Picked(items[..n], gone) + [] == Picked(items[..n], gone);
  }

  lemma BackMultiset<T>(s: seq<T>, x: T)
    ensures multiset(s + [x]) == multiset(s) + multiset{x}
  {
  }

  lemma FirstAccepted<T>(send: Send<T>, dropped: seq<Drop<T>>, later: Delivery<T>)
    ensures AcceptedItems(First(send, dropped, later).sends)
            == if send.response.Accepted? then send.items + AcceptedItems(later.sends) else AcceptedItems(later.sends)
    ensures DroppedItems(First(send, dropped, later).dropped) == DroppedItems(dropped) + DroppedItems(later.dropped)
  {
    DroppedConcat(dropped, later.dropped);
    assert ([send] + later.sends)[1..] == later.sends;
    assert [] + AcceptedItems(later.sends) == AcceptedItems(later.sends);
  }

  ghost predicate Conserves<T>(d: Delivery<T>, items: seq<T>) {
    var settled := multiset(AcceptedItems(d.sends)) + multiset(DroppedItems(d.dropped));
    settled <= multiset(items) && (d.outcome.Done? ==> settled == multiset(items))
  }

  // If the rest of a delivery conserves its records, so does the delivery with its first request.
  lemma FirstConserves<T>(send: Send<T>, dropped: seq<Drop<T>>, later: Delivery<T>, rest: seq<T>, items: seq<T>)
    requires Conserves(later, rest)
    requires multiset(items) == multiset(rest) + multiset(DroppedItems(dropped))
                                + multiset(if send.response.Accepted? then send.items else [])
    ensures Conserves(First(send, dropped, later), items)
  {
    FirstAccepted(send, dropped, later);
  }

  lemma NothingSettled<T>(send: Send<T>, items: seq<T>)
    requires !send.response.Accepted?
    ensures Conserves(Delivery([send], [], Raised(send.response)), items)
  {
  }

  lemma {:induction false} SingletonsConserve<T>(server: Server<T>, n: nat, items: seq<T>)
    ensures Conserves(Singletons(server, n, items), items) && |Singletons(server, n, items).sends| <= |items|
    decreases |items|
  {
    if items != [] {
      var response := server(n, [items[0]]);
      var send := Send([items[0]], response);
      var drop := Drop(items[0], n);
      assert DroppedItems([drop]) == [items[0]] + DroppedItems([]);
      SingletonsUnfold(server, n, items);
      hide Conserves, Singletons, AcceptedItems, DroppedItems;
      SingletonsConserve(server, n + 1, items[1..]);
      assert items == [items[0]] + items[1..];
      if response.Accepted? {
        FirstConserves(send, [], Singletons(server, n + 1, items[1..]), items[1..], items);
      } else if IsInvalid(response) {
        FirstConserves(send, [drop], Singletons(server, n + 1, items[1..]), items[1..], items);
      } else {
        NothingSettled(send, items);
      }
    }
  }

  // Whatever the server does, no record of the batch is both accepted and dropped or settled twice;
  // when the call returns normally every record is settled; a batch of n takes at most n + 1 requests.
  lemma {:induction false} RecoverConserves<T>(server: Server<T>, n: nat, pending: seq<T>)
    ensures Conserves(Recover(server, n, pending), pending)
    ensures |Recover(server, n, pending).sends| <= if pending == [] then 0 else |pending| + 1
    decreases |pending|
  {
    if pending != [] {
      hide Conserves;
      RecoverUnfold(server, n, pending);
      var response := server(n, pending);
      var send := Send(pending, response);
      var gone := InvalidIndices(response, |pending|);
      if response.Accepted? {
        AllSettled(send);
      } else if !IsInvalid(response) {
        NothingSettled(send, pending);
      } else if gone == {} {
        SingletonsConserve(server, n + 1, pending);
        FirstConserves(send, [], Singletons(server, n + 1, pending), pending, pending);
      } else {
        var rest := Rest(pending, gone);
        RestAndPicked(pending, gone);
        MarkItems(Picked(pending, gone), n);
        RecoverConserves(server, n + 1, rest);
        FirstConserves(send, Mark(Picked(pending, gone), n), Recover(server, n + 1, rest), rest, pending);
      }
    }
  }

  lemma AllSettled<T>(send: Send<T>)
    requires send.response.Accepted?
    ensures Conserves(Delivery([send], [], Done), send.items)
  {
    assert AcceptedItems([send]) == send.items + AcceptedItems([]);
  }

  // Where a drop comes from: its request was refused as invalid, and either the response named the
  // record's position in that request or the record was alone in it.
  ghost predicate Justified<T(!new)>(drop: Drop<T>, n: nat, sends: seq<Send<T>>) {
    && n <= drop.send < n + |sends|
    && var send := sends[drop.send - n];
       && IsInvalid(send.response)
       && (|| send.items == [drop.item]
           || exists k :: 0 <= k < |send.items| && send.items[k] == drop.item && NamesIndex(send.response, k))
  }

  ghost predicate AllJustified<T(!new)>(d: Delivery<T>, n: nat) {
    forall x :: x in d.dropped ==> Justified(x, n, d.sends)
  }

  lemma FirstJustified<T(!new)>(send: Send<T>, dropped: seq<Drop<T>>, later: Delivery<T>, n: nat)
    requires AllJustified(later, n + 1)
    requires forall x :: x in dropped ==> Justified(x, n, [send])
    ensures AllJustified(First(send, dropped, later), n)
  {
    var sends := [send] + later.sends;
    forall x | x in dropped + later.dropped
      ensures Justified(x, n, sends)
    {
      if x in dropped {
        assert sends[0] == send;
      } else {
        assert sends[x.send - n] == later.sends[x.send - (n + 1)];
      }
    }
  }

  lemma {:induction false} SingletonsJustified<T(!new)>(server: Server<T>, n: nat, items: seq<T>)
    ensures AllJustified(Singletons(server, n, items), n)
    decreases |items|
  {
    if items != [] {
      hide AllJustified;
      SingletonsUnfold(server, n, items);
      SingletonsJustified(server, n + 1, items[1..]);
      var response := server(n, [items[0]]);
      var send := Send([items[0]], response);
      if response.Accepted? || IsInvalid(response) {
        FirstJustified(send, if IsInvalid(response) then [Drop(items[0], n)] else [],
                       Singletons(server, n + 1, items[1..]), n);
      } else {
        NoDrops([send], Raised(response), n);
      }
    } else {
      NoDrops<T>([], Done, n);
    }
  }

  lemma NoDrops<T(!new)>(sends: seq<Send<T>>, outcome: Outcome, n: nat)
    ensures AllJustified(Delivery(sends, [], outcome), n)
  {
  }

  // Every dropped record is justified by the response to a request that held it.
  lemma {:induction false} RecoverJustified<T(!new)>(server: Server<T>, n: nat, pending: seq<T>)
    ensures AllJustified(Recover(server, n, pending), n)
    decreases |pending|
  {
    if pending == [] {
      NoDrops<T>([], Done, n);
    } else {
      hide AllJustified;
      RecoverUnfold(server, n, pending);
      var response := server(n, pending);
      var send := Send(pending, response);
      var gone := InvalidIndices(response, |pending|);
      if !IsInvalid(response) {
        NoDrops([send], if response.Accepted? then Done else Raised(response), n);
      } else if gone == {} {
        SingletonsJustified(server, n + 1, pending);
        FirstJustified(send, [], Singletons(server, n + 1, pending), n);
      } else {
        RecoverJustified(server, n + 1, Rest(pending, gone));
        NamedDropsJustified(send, n);
        FirstJustified(send, Mark(Picked(pending, gone), n), Recover(server, n + 1, Rest(pending, gone)), n);
      }
    }
  }

  lemma NamedDropsJustified<T(!new)>(send: Send<T>, n: nat)
    requires IsInvalid(send.response)
    ensures var gone := InvalidIndices(send.response, |send.items|);
            forall x :: x in Mark(Picked(send.items, gone), n) ==> Justified(x, n, [send])
  {
    var gone := InvalidIndices(send.response, |send.items|);
    PickedAreNamed(send.items, gone);
    MarkItems(Picked(send.items, gone), n);
  }

  // ---------- what a 2xx answer confirms ----------

  // The records of accepted requests that the answers confirm, and those that they list as rejected.
  function ConfirmedItems<T>(sends: seq<Send<T>>): seq<T> {
    if sends == [] then [] else ConfirmedBy(sends[0]) + ConfirmedItems(sends[1..])
  }

  function RejectedItems<T>(sends: seq<Send<T>>): seq<T> {
    if sends == [] then [] else RejectedBy(sends[0]) + RejectedItems(sends[1..])
  }

  function ConfirmedBy<T>(send: Send<T>): seq<T> {
    if send.response.Accepted? then Rest(send.items, send.response.rejected) else []
  }

  function RejectedBy<T>(send: Send<T>): seq<T> {
    if send.response.Accepted? then Picked(send.items, send.response.rejected) else []
  }

  // No 2xx answer lists a position of its request as rejected.
  ghost predicate RejectsNothing<T(!new)>(sends: seq<Send<T>>) {
    forall send :: send in sends ==> ConfirmsAll(send)
  }

  predicate ConfirmsAll<T>(send: Send<T>) {
    send.response.Accepted? ==> forall k :: k in send.response.rejected ==> !(0 <= k < |send.items|)
  }

  lemma FirstParts<T>(sends: seq<Send<T>>)
    requires sends != []
    ensures var send := sends[0];
            && AcceptedItems(sends) == (if send.response.Accepted? then send.items else []) + AcceptedItems(sends[1..])
            && ConfirmedItems(sends) == ConfirmedBy(send) + ConfirmedItems(sends[1..])
            && RejectedItems(sends) == RejectedBy(send) + RejectedItems(sends[1..])
            && (send.response.Accepted? ==> ConfirmedBy(send) == Rest(send.items, send.response.rejected))
            && (send.response.Accepted? ==> RejectedBy(send) == Picked(send.items, send.response.rejected))
            && (!send.response.Accepted? ==> ConfirmedBy(send) == [] && RejectedBy(send) == [])
  {
    hide Rest, Picked;
  }

  // Every record of an accepted request is confirmed or listed as rejected, and not both.
  lemma {:induction false} AcceptedSplit<T>(sends: seq<Send<T>>)
    ensures multiset(ConfirmedItems(sends)) + multiset(RejectedItems(sends)) == multiset(AcceptedItems(sends))
  {
    if sends != [] {
      AcceptedSplit(sends[1..]);
      FirstParts(sends);
      hide *;
      var send := sends[0];
      if send.response.Accepted? {
        RestAndPicked(send.items, send.response.rejected);
      }
    }
  }

  // The confirmed records keep their order.
  lemma {:induction false} ConfirmedInOrder<T(!new)>(sends: seq<Send<T>>)
    ensures IsSubsequence(ConfirmedItems(sends), AcceptedItems(sends))
  {
    if sends == [] {
      EmptySubsequence<T>([]);
    } else {
      ConfirmedInOrder(sends[1..]);
      FirstParts(sends);
      hide *;
      var send := sends[0];
      EmptySubsequence<T>([]);
      if send.response.Accepted? {
        RestInOrder(send.items, send.response.rejected);
      }
      SubsequenceConcat(ConfirmedBy(send), if send.response.Accepted? then send.items else [],
                        ConfirmedItems(sends[1..]), AcceptedItems(sends[1..]));
    }
  }

  lemma {:induction false} SubsequenceConcat<T(!new)>(a: seq<T>, b: seq<T>, c: seq<T>, d: seq<T>)
    requires IsSubsequence(a, b) && IsSubsequence(c, d)
    ensures IsSubsequence(a + c, b + d)
    decreases |b|
  {
    if b == [] {
      assert a + c == c && b + d == d;
    } else {
      assert (b + d)[0] == b[0] && (b + d)[1..] == b[1..] + d;
      if a == [] {
        EmptySubsequence(b[1..]);
        SubsequenceConcat([], b[1..], c, d);
        assert [] + c == c == a + c;
      } else {
        assert (a + c)[0] == a[0] && (a + c)[1..] == a[1..] + c;
        if a[0] == b[0] && IsSubsequence(a[1..], b[1..]) {
          SubsequenceConcat(a[1..], b[1..], c, d);
        } else {
          SubsequenceConcat(a, b[1..], c, d);
        }
      }
    }
  }

  lemma {:induction false} PickedNothingIff<T>(items: seq<T>, gone: set<int>)
    ensures Picked(items, gone) == [] <==> forall k :: k in gone ==> !(0 <= k < |items|)
    ensures Picked(items, gone) == [] ==> Rest(items, gone) == items
  {
    if items != [] {
      var n := |items| - 1;
      PickedNothingIff(items[..n], gone);
      assert items == items[..n] + [items[n]];
      assert (forall k :: k in gone ==> !(0 <= k < |items|))
             <==> (forall k :: k in gone ==> !(0 <= k < n)) && n !in gone;
    }
  }

  lemma RejectedByIff<T>(send: Send<T>)
    ensures RejectedBy(send) == [] <==> ConfirmsAll(send)
    ensures RejectedBy(send) == [] && send.response.Accepted? ==> ConfirmedBy(send) == send.items
  {
    if send.response.Accepted? {
      PickedNothingIff(send.items, send.response.rejected);
    }
  }

  lemma {:induction false} RejectedNothingIff<T(!new)>(sends: seq<Send<T>>)
    ensures RejectedItems(sends) == [] <==> RejectsNothing(sends)
    ensures RejectedItems(sends) == [] ==> ConfirmedItems(sends) == AcceptedItems(sends)
  {
    if sends != [] {
      RejectedNothingIff(sends[1..]);
      RejectedByIff(sends[0]);
      FirstParts(sends);
      hide ConfirmsAll, ConfirmedItems, RejectedItems, AcceptedItems, ConfirmedBy, RejectedBy, Rest, Picked;
      assert RejectsNothing(sends) <==> ConfirmsAll(sends[0]) && RejectsNothing(sends[1..]) by {
        assert sends == [sends[0]] + sends[1..];
      }
      BothEmpty(RejectedBy(sends[0]), RejectedItems(sends[1..]));
    }
  }

  lemma BothEmpty<T>(a: seq<T>, b: seq<T>)
    ensures a + b == [] <==> a == [] && b == []
  {
    assert |a + b| == |a| + |b|;
  }

  // The accepted records are all confirmed if and only if no 2xx answer lists a rejected position.
  lemma AllConfirmedIff<T(!new)>(sends: seq<Send<T>>)
    ensures ConfirmedItems(sends) == AcceptedItems(sends) <==> RejectsNothing(sends)
    ensures multiset(ConfirmedItems(sends)) == multiset(AcceptedItems(sends)) <==> RejectsNothing(sends)
  {
    RejectedNothingIff(sends);
    AcceptedSplit(sends);
    hide *;
    SameSizes(ConfirmedItems(sends), RejectedItems(sends), AcceptedItems(sends));
    assert |multiset(ConfirmedItems(sends))| == |ConfirmedItems(sends)|;
    assert |multiset(AcceptedItems(sends))| == |AcceptedItems(sends)|;
  }

  lemma SameSizes<T>(a: seq<T>, b: seq<T>, c: seq<T>)
    requires multiset(a) + multiset(b) == multiset(c)
    ensures |a| + |b| == |c|
  {
    assert |multiset(a) + multiset(b)| == |a| + |b| && |multiset(c)| == |c|;
  }

  // Every request holds records of the batch, and what was in an accepted request is in no later one.
  ghost predicate NeverResent<T(!new)>(sends: seq<Send<T>>, items: seq<T>) {
    && (forall j :: 0 <= j < |sends| ==> multiset(sends[j].items) <= multiset(items))
    && (forall i, j :: 0 <= i < j < |sends| && sends[i].response.Accepted? ==>
          multiset(sends[i].items) + multiset(sends[j].items) <= multiset(items))
  }

  // Later requests work on `rest` only.
  lemma FirstNeverResent<T(!new)>(send: Send<T>, later: seq<Send<T>>, rest: seq<T>, items: seq<T>)
    requires NeverResent(later, rest) && multiset(rest) <= multiset(items) && multiset(send.items) <= multiset(items)
    requires send.response.Accepted? ==> multiset(send.items) + multiset(rest) <= multiset(items)
    ensures NeverResent([send] + later, items)
  {
    var sends := [send] + later;
    assert forall j :: 0 < j < |sends| ==> sends[j] == later[j - 1];
    forall i, j | 0 <= i < j < |sends| && sends[i].response.Accepted?
      ensures multiset(sends[i].items) + multiset(sends[j].items) <= multiset(items)
    {
      assert multiset(later[j - 1].items) <= multiset(rest);
      if i > 0 {
        assert multiset(later[i - 1].items) + multiset(later[j - 1].items) <= multiset(rest);
      }
    }
  }

  lemma {:induction false} SingletonsNeverResend<T(!new)>(server: Server<T>, n: nat, items: seq<T>)
    ensures NeverResent(Singletons(server, n, items).sends, items)
    decreases |items|
  {
    if items != [] {
      SingletonsUnfold(server, n, items);
      SingletonsNeverResend(server, n + 1, items[1..]);
      assert items == [items[0]] + items[1..];
      hide NeverResent, Singletons;
      var send := Send([items[0]], server(n, [items[0]]));
      FirstNeverResent(send, Singletons(server, n + 1, items[1..]).sends, items[1..], items);
      OnlyRequest(send, items);
    }
  }

  lemma OnlyRequest<T(!new)>(send: Send<T>, items: seq<T>)
    requires multiset(send.items) <= multiset(items)
    ensures NeverResent([send], items)
  {
  }

  // Within one delivery a record that a 2xx answer has taken or rejected is not sent again.
  lemma {:induction false} RecoverNeverResends<T(!new)>(server: Server<T>, n: nat, pending: seq<T>)
    ensures NeverResent(Recover(server, n, pending).sends, pending)
    decreases |pending|
  {
    if pending != [] {
      RecoverUnfold(server, n, pending);
      hide NeverResent, Recover, Singletons, InvalidIndices;
      var send := Send(pending, server(n, pending));
      var gone := InvalidIndices(send.response, |pending|);
      OnlyRequest(send, pending);
      SingletonsNeverResend(server, n + 1, pending);
      if IsInvalid(send.response) {
        if gone == {} {
          FirstNeverResent(send, Singletons(server, n + 1, pending).sends, pending, pending);
        } else {
          RestAndPicked(pending, gone);
          RecoverNeverResends(server, n + 1, Rest(pending, gone));
          FirstNeverResent(send, Recover(server, n + 1, Rest(pending, gone)).sends, Rest(pending, gone), pending);
        }
      }
    } else {
      NoRequest<T>([]);
    }
  }

  lemma NoRequest<T(!new)>(items: seq<T>)
    ensures NeverResent([], items)
  {
  }

  // ---------- order ----------

  lemma {:induction false} SubsequenceTransitive<T(!new)>(a: seq<T>, b: seq<T>, c: seq<T>)
    requires IsSubsequence(a, b) && IsSubsequence(b, c)
    ensures IsSubsequence(a, c)
    decreases |b| + |c|
  {
    if a != [] {
      if b[0] == c[0] && IsSubsequence(b[1..], c[1..]) {
        if a[0] == b[0] && IsSubsequence(a[1..], b[1..]) {
          SubsequenceTransitive(a[1..], b[1..], c[1..]);
        } else {
          SubsequenceTransitive(a, b[1..], c[1..]);
        }
      } else {
        SubsequenceTransitive(a, b, c[1..]);
      }
    }
  }

  lemma {:induction false} SubsequenceRefl<T(!new)>(s: seq<T>)
    ensures IsSubsequence(s, s)
  {
    if s != [] {
      SubsequenceRefl(s[1..]);
    }
  }

  lemma {:induction false} RestInOrder<T(!new)>(items: seq<T>, gone: set<int>)
    ensures IsSubsequence(Rest(items, gone), items)
  {
    if items != [] {
      var n := |items| - 1;
      RestInOrder(items[..n], gone);
      SubsequenceAppend(Rest(items[..n], gone), items[..n], items[n]);
      assert items == items[..n] + [items[n]];
      assert Rest(items[..n], gone) + [] == Rest(items[..n], gone);
    }
  }

  lemma {:induction false} SingletonsInOrder<T(!new)>(server: Server<T>, n: nat, items: seq<T>)
    ensures IsSubsequence(AcceptedItems(Singletons(server, n, items).sends), items)
    decreases |items|
  {
    if items != [] {
      SingletonsUnfold(server, n, items);
      var response := server(n, [items[0]]);
      var send := Send([items[0]], response);
      var later := Singletons(server, n + 1, items[1..]);
      hide Singletons;
      SingletonsInOrder(server, n + 1, items[1..]);
      var rest := AcceptedItems(later.sends);
      if response.Accepted? {
        FirstAccepted(send, [], later);
        assert ([items[0]] + rest)[1..] == rest;
      } else if IsInvalid(response) {
        FirstAccepted(send, [Drop(items[0], n)], later);
        assert [] + rest == rest;
      } else {
        assert AcceptedItems([send]) == [];
      }
    }
  }

  // Accepted records were sent in the order of the batch.
  lemma {:induction false} RecoverInOrder<T(!new)>(server: Server<T>, n: nat, pending: seq<T>)
    ensures IsSubsequence(AcceptedItems(Recover(server, n, pending).sends), pending)
    decreases |pending|
  {
    if pending != [] {
      RecoverUnfold(server, n, pending);
      hide Recover, Singletons, IsSubsequence;
      var response := server(n, pending);
      var send := Send(pending, response);
      var gone := InvalidIndices(response, |pending|);
      if response.Accepted? {
        SubsequenceRefl(pending);
        assert AcceptedItems([send]) == pending + AcceptedItems([]) == pending;
      } else if !IsInvalid(response) {
        EmptySubsequence(pending);
        assert AcceptedItems([send]) == [];
      } else if gone == {} {
        SingletonsInOrder(server, n + 1, pending);
        FirstAccepted(send, [], Singletons(server, n + 1, pending));
      } else {
        var rest := Rest(pending, gone);
        RecoverInOrder(server, n + 1, rest);
        RestInOrder(pending, gone);
        FirstAccepted(send, Mark(Picked(pending, gone), n), Recover(server, n + 1, rest));
        SubsequenceTransitive(AcceptedItems(Recover(server, n + 1, rest).sends), rest, pending);
      }
    }
  }

  // ---------- an honest server ----------

  // It accepts a request exactly when every record in it is valid, refuses any other as invalid, and
  // names no valid record. What it says to an empty request does not matter.
  ghost predicate Honest<T(!new)>(server: Server<T>, valid: T -> bool) {
    forall n, items :: items != [] ==> HonestResponse(server(n, items), items, valid)
  }

  ghost predicate NoneEmpty<T(!new)>(sends: seq<Send<T>>) {
    forall send :: send in sends ==> send.items != []
  }

  lemma {:induction false} SingletonsNotEmpty<T(!new)>(server: Server<T>, n: nat, items: seq<T>)
    ensures NoneEmpty(Singletons(server, n, items).sends)
    decreases |items|
  {
    if items != [] {
      SingletonsNotEmpty(server, n + 1, items[1..]);
    }
  }

  // No empty request is ever sent; the service would refuse one.
  lemma {:induction false} RecoverSendsNoEmptyBatch<T(!new)>(server: Server<T>, n: nat, pending: seq<T>)
    ensures NoneEmpty(Recover(server, n, pending).sends)
    decreases |pending|
  {
    if pending != [] {
      RecoverUnfold(server, n, pending);
      var gone := InvalidIndices(server(n, pending), |pending|);
      hide Recover, InvalidIndices;
      SingletonsNotEmpty(server, n + 1, pending);
      if gone != {} {
        RecoverSendsNoEmptyBatch(server, n + 1, Rest(pending, gone));
      }
    }
  }

  ghost predicate HonestResponse<T(!new)>(response: Response, items: seq<T>, valid: T -> bool) {
    && (response.Accepted? <==> forall k :: 0 <= k < |items| ==> valid(items[k]))
    && (!response.Accepted? ==> IsInvalid(response))
    && forall k :: 0 <= k < |items| && NamesIndex(response, k) ==> !valid(items[k])
  }

  lemma {:induction false} FilterAll<T>(items: seq<T>, valid: T -> bool)
    requires forall k :: 0 <= k < |items| ==> valid(items[k])
    ensures Filter(items, valid) == items
  {
    if items != [] {
      FilterAll(items[1..], valid);
    }
  }

  lemma {:induction false} RestKeepsValid<T>(items: seq<T>, gone: set<int>, valid: T -> bool)
    requires forall k :: k in gone && 0 <= k < |items| ==> !valid(items[k])
    ensures Filter(Rest(items, gone), valid) == Filter(items, valid)
  {
    if items != [] {
      var n := |items| - 1;
      RestKeepsValid(items[..n], gone, valid);
      assert items == items[..n] + [items[n]];
      FilterConcat(items[..n], [items[n]], valid);
      FilterConcat(Rest(items[..n], gone), if n in gone then [] else [items[n]], valid);
    }
  }

  lemma {:induction false} SingletonsExact<T(!new)>(server: Server<T>, n: nat, items: seq<T>, valid: T -> bool)
    requires Honest(server, valid)
    ensures var d := Singletons(server, n, items);
            d.outcome.Done? && AcceptedItems(d.sends) == Filter(items, valid)
    decreases |items|
  {
    if items != [] {
      var response := server(n, [items[0]]);
      var drop, later := Drop(items[0], n), Singletons(server, n + 1, items[1..]);
      HonestAlone(server, n, items[0], valid);
      SingletonsUnfold(server, n, items);
      hide Singletons, Honest, AcceptedItems, DroppedItems, First, IsInvalid;
      SingletonsExact(server, n + 1, items[1..], valid);
      FirstAccepted(Send([items[0]], response), [], later);
      FirstAccepted(Send([items[0]], response), [drop], later);
      FirstOutcome(Send([items[0]], response), if IsInvalid(response) then [drop] else [], later);
    }
  }

  lemma HonestAlone<T(!new)>(server: Server<T>, n: nat, item: T, valid: T -> bool)
    requires Honest(server, valid)
    ensures var response := server(n, [item]);
            (response.Accepted? <==> valid(item)) && (!response.Accepted? ==> IsInvalid(response))
  {
    assert HonestResponse(server(n, [item]), [item], valid);
    assert [item][0] == item;
    hide NamesIndex;
  }

  lemma FirstOutcome<T>(send: Send<T>, dropped: seq<Drop<T>>, later: Delivery<T>)
    ensures First(send, dropped, later).outcome == later.outcome
  {
  }

  // Against an honest server the call returns normally and exactly the valid records are accepted,
  // each once and in order.
  lemma {:induction false} RecoverExact<T(!new)>(server: Server<T>, n: nat, pending: seq<T>, valid: T -> bool)
    requires Honest(server, valid)
    ensures var d := Recover(server, n, pending);
            d.outcome.Done? && AcceptedItems(d.sends) == Filter(pending, valid)
    decreases |pending|
  {
    if pending != [] {
      var response := server(n, pending);
      var send := Send(pending, response);
      var gone := InvalidIndices(response, |pending|);
      HonestAnswer(server, n, pending, valid);
      RecoverUnfold(server, n, pending);
      FirstOutcome(send, [], Singletons(server, n + 1, pending));
      FirstOutcome(send, Mark(Picked(pending, gone), n), Recover(server, n + 1, Rest(pending, gone)));
      OnlyAccepted(send);
      hide *;
      if response.Accepted? {
        FilterAll(pending, valid);
      } else if gone == {} {
        SingletonsExact(server, n + 1, pending, valid);
        FirstAccepted(send, [], Singletons(server, n + 1, pending));
      } else {
        RestKeepsValid(pending, gone, valid);
        RecoverExact(server, n + 1, Rest(pending, gone), valid);
        FirstAccepted(send, Mark(Picked(pending, gone), n), Recover(server, n + 1, Rest(pending, gone)));
      }
    }
  }

  lemma HonestAnswer<T(!new)>(server: Server<T>, n: nat, pending: seq<T>, valid: T -> bool)
    requires Honest(server, valid) && pending != []
    ensures var response := server(n, pending);
            && (response.Accepted? <==> forall k :: 0 <= k < |pending| ==> valid(pending[k]))
            && (!response.Accepted? ==> IsInvalid(response))
            && (forall k :: k in InvalidIndices(response, |pending|) && 0 <= k < |pending| ==> !valid(pending[k]))
  {
    assert HonestResponse(server(n, pending), pending, valid);
    hide NamesIndex;
  }

  lemma OnlyAccepted<T>(send: Send<T>)
    ensures AcceptedItems([send]) == if send.response.Accepted? then send.items else []
  {
    assert [send][1..] == [];
  }

  // So exactly the valid records are confirmed if and only if no 2xx answer lists a rejected position.
  lemma RecoverConfirmsIff<T(!new)>(server: Server<T>, n: nat, pending: seq<T>, valid: T -> bool)
    requires Honest(server, valid)
    ensures var sends := Recover(server, n, pending).sends;
            ConfirmedItems(sends) == Filter(pending, valid) <==> RejectsNothing(sends)
  {
    RecoverExact(server, n, pending, valid);
    AllConfirmedIff(Recover(server, n, pending).sends);
  }
}
