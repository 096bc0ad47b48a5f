// Delivery of collected logs (panda_trace_collector/collector.py): reading validation errors, the
// 422 recovery, and its singleton fallback. The server is an arbitrary function of how many
// requests it has seen and what the request holds.
module Collector {
  import opened Base
  import opened Text

  // ---------- reading a validation error ----------

  type Detail = map<string, Json>

  function Member(fields: map<string, Json>, key: string): Json {
    if key in fields then fields[key] else JNull
  }

  function Objects(items: seq<Json>): seq<Detail> {
    if items == [] then []
    else (if items[0].JObj? then [items[0].fields] else []) + Objects(items[1..])
  }

  // The details of an error body; None is a body that is missing or is not JSON.
  function ValidationDetails(body: Option<Json>): seq<Detail> {
    if body.None? || !body.value.JObj? then []
    else
      var error := Member(body.value.fields, "error");
      var inner := if error.JObj? then Member(error.fields, "details") else JNull;
      var details := if inner.JNull? then Member(body.value.fields, "detail") else inner;
      match details
      case JArr(items) => Objects(items)
      case JObj(fields) => [fields]
      case _ => []
  }

  function NonEmptyParts(parts: seq<string>): seq<Json> {
    if parts == [] then []
    else (if parts[0] != "" then [JStr(parts[0])] else []) + NonEmptyParts(parts[1..])
  }

  function LocItems(loc: Json): seq<Json> {
    match loc
    case JArr(items) => items
    case JStr(text) => NonEmptyParts(SplitOn(ReplaceChar(ReplaceChar(text, '[', "."), ']', ""), '.'))
    case _ => [loc]
  }

  // An integer, a boolean (which Python counts as one), or a run of digits.
  function IntLike(value: Json): Option<int> {
    match value
    case JNum(n) => Some(n)
    case JBool(b) => Some(if b then 1 else 0)
    case JStr(text) => if text != "" && AllDigits(text) then Some(ParseDigits(text)) else None
    case _ => None
  }

  // The value at i + 1 is an index that follows a "logs" step.
  predicate NamesAt(loc: seq<Json>, i: nat, index: int) {
    i + 1 < |loc| && loc[i] == JStr("logs") && IntLike(loc[i + 1]) == Some(index)
  }

  predicate NamesBefore(loc: seq<Json>, n: nat, index: int) {
    exists i | 0 <= i < n :: NamesAt(loc, i, index)
  }

  // The value right after a "logs" step of a detail's location.
  predicate Names(detail: Detail, index: int) {
    var loc := LocItems(Member(detail, "loc"));
    NamesBefore(loc, |loc|, index)
  }

  predicate NamedByAny(details: seq<Detail>, n: nat, index: int)
    requires n <= |details|
  {
    exists d | 0 <= d < n :: Names(details[d], index)
  }

  lemma OneMoreDetail(details: seq<Detail>, n: nat)
    requires n < |details|
    ensures forall k :: NamedByAny(details, n + 1, k) <==> NamedByAny(details, n, k) || Names(details[n], k)
  {
    hide Names;
  }

  lemma OneMoreItem(loc: seq<Json>, n: nat)
    ensures forall k :: NamesBefore(loc, n + 1, k) <==> NamesBefore(loc, n, k) || NamesAt(loc, n, k)
  {
    hide NamesAt;
  }

  // The last item of a location has nothing after it.
  lemma LastNamesNothing(loc: seq<Json>)
    requires loc != []
    ensures forall k :: NamesBefore(loc, |loc|, k) <==> NamesBefore(loc, |loc| - 1, k)
  {
    OneMoreItem(loc, |loc| - 1);
    hide NamesBefore;
  }

  method ExtractBatchLogIndices(details: seq<Detail>) returns (indices: set<int>)
    ensures forall k :: k in indices <==> exists d :: d in details && Names(d, k)
  {
    indices := {};
    for n := 0 to |details|
      invariant forall k :: k in indices <==> NamedByAny(details, n, k)
    {
      hide NamedByAny;
      var loc := LocItems(Member(details[n], "loc"));
      ghost var before := indices;
      for i := 0 to if loc == [] then 0 else |loc| - 1
        invariant forall k :: k in indices <==> k in before || NamesBefore(loc, i, k)
      {
        hide NamesBefore;
        OneMoreItem(loc, i);
        if loc[i] == JStr("logs") {
          var index := IntLike(loc[i + 1]);
          if index.Some? {
            indices := indices + {index.value};
          }
        }
      }
      if loc != [] {
        LastNamesNothing(loc);
      }
      OneMoreDetail(details, n);
    }
    hide Names;
  }
}
