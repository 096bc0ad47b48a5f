// The error bodies by which a service names the invalid records of a batch, what the collector reads
// from them (_validation_details_from_http_error and _extract_batch_log_indices of
// panda_trace_collector/collector.py), and the recovery against a service that writes such bodies.
module ValidationReport {
  import opened Base
  import opened Text
  import opened Cursor
  import opened CursorForm
  import opened Ids
  import opened Collector
  import opened Delivery
  import L = SendLoop

  // ---------- bodies ----------

  // The location item for position k: the number, its digits, or for 0 and 1 the boolean equal to it.
  predicate IsPosition(item: Json, k: nat) {
    item == JNum(k) || item == JStr(Decimal(k)) || (k <= 1 && item == JBool(k == 1))
  }

  // ["body", "logs", k, ...] with any steps behind it that are no further "logs".
  predicate ListLocates(loc: Json, k: nat) {
    && loc.JArr? && |loc.items| >= 3
    && loc.items[0] == JStr("body") && loc.items[1] == JStr("logs") && IsPosition(loc.items[2], k)
    && JStr("logs") !in loc.items[2..]
  }

  // "body.logs[k]" or "body.logs.k", with any text behind it that names no further "logs".
  ghost predicate TextLocates(loc: Json, k: nat) {
    exists rest :: TextIs(loc, k, rest)
  }

  predicate TextIs(loc: Json, k: nat, rest: string) {
    && (loc == JStr("body.logs[" + Decimal(k) + "]" + rest) || loc == JStr("body.logs." + Decimal(k) + rest))
    && (rest == "" || (rest[0] == '.' && NoBracket(rest) && "logs" !in SplitOn(rest[1..], '.')))
  }

  predicate NoBracket(s: string) {
    '[' !in s && ']' !in s
  }

  // A detail about position k.
  ghost predicate IsAbout(detail: Json, k: nat) {
    && detail.JObj? && "loc" in detail.fields
    && (ListLocates(detail.fields["loc"], k) || TextLocates(detail.fields["loc"], k))
  }

  ghost predicate AreAbout(details: seq<Json>, positions: seq<nat>) {
    |details| == |positions| && forall i :: 0 <= i < |details| ==> IsAbout(details[i], positions[i])
  }

  // One detail for each of the positions; a single one may stand without a list.
  ghost predicate ListsAbout(details: Json, positions: seq<nat>) {
    || (details.JArr? && AreAbout(details.items, positions))
    || (|positions| == 1 && IsAbout(details, positions[0]))
  }

  // The details are at {"error": {"details": ...}}, or at {"detail": ...} where there are none.
  predicate HoldsDetails(body: Option<Json>, details: Json) {
    && body.Some? && body.value.JObj?
    && var fields := body.value.fields;
       if "error" in fields && fields["error"].JObj? && "details" in fields["error"].fields
          && fields["error"].fields["details"] != JNull
       then details == fields["error"].fields["details"]
       else "detail" in fields && details == fields["detail"]
  }

  ghost predicate Tells(body: Option<Json>, positions: seq<nat>) {
    exists details :: HoldsDetails(body, details) && ListsAbout(details, positions)
  }

  // ---------- what the collector reads from them ----------

  lemma PositionReads(item: Json, k: nat)
    requires IsPosition(item, k)
    ensures IntLike(item) == Some(k)
  {
    ParseDecimal(k);
  }

  lemma ListNames(detail: Detail, k: nat)
    requires "loc" in detail && ListLocates(detail["loc"], k)
    ensures forall j :: Names(detail, j) <==> j == k
  {
    var loc := detail["loc"].items;
    PositionReads(loc[2], k);
    assert LocItems(detail["loc"]) == loc;
    OnlyAfterLogs(loc, k);
    forall j
      ensures Names(detail, j) <==> j == k
    {
    }
    hide LocItems;
  }

  lemma OnlyAfterLogs(loc: seq<Json>, k: int)
    requires |loc| >= 3 && loc[0] == JStr("body") && loc[1] == JStr("logs") && IntLike(loc[2]) == Some(k)
    requires JStr("logs") !in loc[2..]
    ensures forall j :: NamesBefore(loc, |loc|, j) <==> j == k
  {
    assert JStr("body").text[0] != JStr("logs").text[0];
    forall i, j | 0 <= i < |loc|
      ensures NamesAt(loc, i, j) <==> i == 1 && j == k
    {
      if i >= 2 {
        assert loc[i] == loc[2..][i - 2];
      }
    }
    hide IntLike, NamesAt;
    assert NamesAt(loc, 1, k);
  }

  // The parts of a dotted text that begins with three names.
  function Tail(d: string, rest: string): seq<string> {
    if rest == "" then [d] else [d] + SplitOn(rest[1..], '.')
  }

  lemma ThreeParts(a: string, b: string, d: string, rest: string)
    requires '.' !in a && '.' !in b && '.' !in d && (rest != "" ==> rest[0] == '.')
    ensures SplitOn(a + ['.'] + (b + ['.'] + (d + rest)), '.') == [a] + ([b] + Tail(d, rest))
  {
    LastParts(d, rest);
    hide *;
    SplitAtFirst(a, b + ['.'] + (d + rest), '.');
    SplitAtFirst(b, d + rest, '.');
  }

  lemma LastParts(d: string, rest: string)
    requires '.' !in d && (rest != "" ==> rest[0] == '.')
    ensures SplitOn(d + rest, '.') == Tail(d, rest)
  {
    if rest == "" {
      assert d + rest == d;
    } else {
      SplitAtFirst(d, rest[1..], '.');
      DotFirst(d, rest);
      hide SplitOn;
    }
  }

  lemma DotFirst(d: string, rest: string)
    requires rest != "" && rest[0] == '.'
    ensures d + ['.'] + rest[1..] == d + rest
  {
  }

  lemma ThreeSteps(a: string, b: string, d: string, rest: string)
    requires a != "" && b != "" && d != ""
    ensures NonEmptyParts([a] + ([b] + Tail(d, rest))) == [JStr(a)] + ([JStr(b)] + NonEmptyParts(Tail(d, rest)))
    ensures |NonEmptyParts(Tail(d, rest))| >= 1 && NonEmptyParts(Tail(d, rest))[0] == JStr(d)
  {
    var tail := Tail(d, rest);
    NonEmptyCons(a, [b] + tail);
    NonEmptyCons(b, tail);
    NonEmptyCons(d, tail[1..]);
    assert tail == [d] + tail[1..];
    hide NonEmptyParts, Tail;
  }

  lemma TextStepsAre(k: nat, rest: string, text: string)
    requires TextIs(JStr(text), k, rest)
    ensures LocItems(JStr(text)) == [JStr("body")] + ([JStr("logs")] + NonEmptyParts(Tail(Decimal(k), rest)))
  {
    CleanedText(k, rest, text);
    NumeralHasNo(k, '.');
    LiteralDots(Decimal(k) + rest);
    ThreeParts("body", "logs", Decimal(k), rest);
    ThreeSteps("body", "logs", Decimal(k), rest);
    hide SplitOn, ReplaceChar, Tail, NonEmptyParts, Decimal;
  }

  lemma LiteralDots(rest: string)
    ensures "body.logs." + rest == "body" + ['.'] + ("logs" + ['.'] + rest)
  {
  }

  // The steps of a text location.
  lemma TextSteps(k: nat, rest: string, text: string)
    requires TextIs(JStr(text), k, rest)
    ensures var items := LocItems(JStr(text));
            |items| >= 3 && items[0] == JStr("body") && items[1] == JStr("logs") && items[2] == JStr(Decimal(k))
            && JStr("logs") !in items[2..]
  {
    TextStepsAre(k, rest, text);
    ThreeSteps("body", "logs", Decimal(k), rest);
    var later := NonEmptyParts(Tail(Decimal(k), rest));
    NumeralIsNoStep(k);
    NoLogsStep(Tail(Decimal(k), rest));
    hide LocItems, SplitOn, NonEmptyParts, Tail, Decimal;
    assert ([JStr("body")] + ([JStr("logs")] + later))[2..] == later;
  }

  lemma NumeralIsNoStep(k: nat)
    ensures Decimal(k) != "logs"
  {
    assert "logs"[0] == 'l';
    assert IsDigit(Decimal(k)[0]);
  }

  lemma NumeralHasNo(k: nat, c: char)
    requires !IsDigit(c)
    ensures c !in Decimal(k)
  {
  }

  lemma NonEmptyCons(part: string, parts: seq<string>)
    requires part != ""
    ensures NonEmptyParts([part] + parts) == [JStr(part)] + NonEmptyParts(parts)
  {
    assert ([part] + parts)[1..] == parts;
  }

  lemma {:induction false} NoLogsStep(parts: seq<string>)
    requires "logs" !in parts
    ensures JStr("logs") !in NonEmptyParts(parts)
  {
    if parts != [] {
      NoLogsStep(parts[1..]);
    }
  }

  lemma {:induction false} ReplaceAbsent(s: string, c: char, r: string)
    requires c !in s
    ensures ReplaceChar(s, c, r) == s
  {
    if s != "" {
      ReplaceAbsent(s[1..], c, r);
    }
  }

  lemma CleanedText(k: nat, rest: string, text: string)
    requires TextIs(JStr(text), k, rest)
    ensures ReplaceChar(ReplaceChar(text, '[', "."), ']', "") == "body.logs." + (Decimal(k) + rest)
  {
    NumeralHasNo(k, '[');
    NumeralHasNo(k, ']');
    LiteralBracket(Decimal(k), rest);
    if text == "body.logs." + Decimal(k) + rest {
      NothingToClean("body.logs.", Decimal(k), rest);
    } else {
      BracketsReplaced("body.logs", Decimal(k), rest);
    }
    hide ReplaceChar, Decimal, SplitOn;
  }

  lemma NothingToClean(head: string, d: string, rest: string)
    requires NoBracket(head) && NoBracket(d) && NoBracket(rest)
    ensures ReplaceChar(ReplaceChar(head + d + rest, '[', "."), ']', "") == head + (d + rest)
  {
    NoBracketConcat(d, rest);
    NoBracketConcat(head, d + rest);
    NothingToReplace(head + (d + rest));
    hide *;
    assert head + d + rest == head + (d + rest);
  }

  lemma NoBracketConcat(a: string, b: string)
    requires NoBracket(a) && NoBracket(b)
    ensures NoBracket(a + b)
  {
  }

  lemma NothingToReplace(s: string)
    requires NoBracket(s)
    ensures ReplaceChar(ReplaceChar(s, '[', "."), ']', "") == s
  {
    ReplaceAbsent(s, '[', ".");
    ReplaceAbsent(s, ']', "");
  }

  lemma LiteralBracket(d: string, rest: string)
    ensures "body.logs[" + d + "]" + rest == "body.logs" + ("[" + (d + ("]" + rest)))
    ensures "body.logs." + (d + rest) == "body.logs" + ("." + (d + rest))
    ensures NoBracket("body.logs") && NoBracket("body.logs.") && "body.logs["[9] == '['
  {
    assert "body.logs[" == "body.logs" + "[";
    assert "body.logs." == "body.logs" + ".";
  }

  lemma BracketsReplaced(head: string, d: string, rest: string)
    requires NoBracket(head) && NoBracket(d) && NoBracket(rest)
    ensures ReplaceChar(ReplaceChar(head + ("[" + (d + ("]" + rest))), '[', "."), ']', "") == head + ("." + (d + rest))
  {
    var open := "[" + (d + ("]" + rest));
    ReplaceCharConcat(head, open, '[', ".");
    ReplaceCharConcat("[", d + ("]" + rest), '[', ".");
    ReplaceCharOne('[', '[', ".");
    ReplaceAbsent(head, '[', ".");
    ReplaceAbsent(d + ("]" + rest), '[', ".");
    var half := "." + (d + ("]" + rest));
    ReplaceCharConcat(head, half, ']', "");
    ReplaceAbsent(head, ']', "");
    ReplaceCharConcat(".", d + ("]" + rest), ']', "");
    ReplaceCharOne('.', ']', "");
    ReplaceCharConcat(d, "]" + rest, ']', "");
    ReplaceAbsent(d, ']', "");
    ReplaceCharConcat("]", rest, ']', "");
    ReplaceCharOne(']', ']', "");
    ReplaceAbsent(rest, ']', "");
    assert "" + rest == rest;
  }

  lemma TextNames(detail: Detail, k: nat)
    requires "loc" in detail && TextLocates(detail["loc"], k)
    ensures forall j :: Names(detail, j) <==> j == k
  {
    var rest :| TextIs(detail["loc"], k, rest);
    TextSteps(k, rest, detail["loc"].text);
    PositionReads(JStr(Decimal(k)), k);
    OnlyAfterLogs(LocItems(detail["loc"]), k);
    forall j
      ensures Names(detail, j) <==> j == k
    {
    }
    hide LocItems;
  }

  // ---------- any text location ----------

  lemma {:induction false} SplitConcat(a: string, b: string, sep: char)
    ensures SplitOn(a + [sep] + b, sep) == SplitOn(a, sep) + SplitOn(b, sep)
    decreases |a|
  {
    if sep !in a {
      OnlyPiece(a, b, sep);
    } else {
      hide *;
      var head, tail := CutAt(a, sep);
      SplitConcat(tail, b, sep);
      FirstPiece(head, tail, b, sep);
    }
  }

  lemma OnlyPiece(a: string, b: string, sep: char)
    requires sep !in a
    ensures SplitOn(a + [sep] + b, sep) == SplitOn(a, sep) + SplitOn(b, sep)
  {
    SplitAtFirst(a, b, sep);
    assert SplitOn(a, sep) == [a];
  }

  lemma CutAt(a: string, sep: char) returns (head: string, tail: string)
    requires sep in a
    ensures a == head + [sep] + tail && sep !in head && |tail| < |a|
  {
    var i := IndexOf(a, sep);
    head, tail := a[..i], a[i + 1..];
  }

  lemma FirstPiece(head: string, tail: string, b: string, sep: char)
    requires sep !in head && SplitOn(tail + [sep] + b, sep) == SplitOn(tail, sep) + SplitOn(b, sep)
    ensures SplitOn(head + [sep] + tail + [sep] + b, sep) == SplitOn(head + [sep] + tail, sep) + SplitOn(b, sep)
  {
    hide *;
    SplitAtFirst(head, tail, sep);
    SplitAtFirst(head, tail + [sep] + b, sep);
    Regroup(head + [sep], tail, [sep], b);
    Regroup([head], SplitOn(tail, sep), SplitOn(b, sep), []);
    assert SplitOn(b, sep) + [] == SplitOn(b, sep);
  }

  lemma Regroup<T>(a: seq<T>, b: seq<T>, c: seq<T>, d: seq<T>)
    ensures a + b + c + d == a + (b + c + d) && a + (b + c) == a + b + c
  {
  }

  lemma {:induction false} NonEmptyConcat(p: seq<string>, q: seq<string>)
    ensures NonEmptyParts(p + q) == NonEmptyParts(p) + NonEmptyParts(q)
  {
    if p == [] {
      assert p + q == q;
    } else {
      assert (p + q)[0] == p[0] && (p + q)[1..] == p[1..] + q;
      NonEmptyConcat(p[1..], q);
    }
  }

  // The steps of a text are those of its dotted pieces, and a piece that is empty is no step.
  lemma StepsOfPieces(a: string, b: string)
    requires NoBracket(a) && NoBracket(b)
    ensures LocItems(JStr(a + "." + b)) == LocItems(JStr(a)) + LocItems(JStr(b))
    ensures LocItems(JStr("")) == []
    ensures '.' !in a && a != "" ==> LocItems(JStr(a)) == [JStr(a)]
  {
    NoBracketConcat(a, ".");
    NoBracketConcat(a + ".", b);
    PlainSteps(a);
    PlainSteps(b);
    PlainSteps("");
    PlainSteps(a + "." + b);
    NoParts();
    OnePart(a);
    hide *;
    SplitConcat(a, b, '.');
    NonEmptyConcat(SplitOn(a, '.'), SplitOn(b, '.'));
  }

  lemma PlainSteps(text: string)
    requires NoBracket(text)
    ensures LocItems(JStr(text)) == NonEmptyParts(SplitOn(text, '.'))
  {
    NothingToReplace(text);
    hide SplitOn, ReplaceChar, NonEmptyParts;
  }

  lemma OnePart(text: string)
    ensures '.' !in text && text != "" ==> NonEmptyParts(SplitOn(text, '.')) == [JStr(text)]
  {
    if '.' !in text {
      assert SplitOn(text, '.') == [text];
      NonEmptyOne(text);
    }
  }

  lemma NoParts()
    ensures NonEmptyParts(SplitOn("", '.')) == []
  {
    assert SplitOn("", '.') == [""];
    NonEmptyOne("");
  }

  lemma NonEmptyOne(part: string)
    ensures NonEmptyParts([part]) == if part == "" then [] else [JStr(part)]
  {
    assert [part][1..] == [];
  }

  // ---------- any list location ----------

  // The item stands for an index: the number, a run of digits with that value, or a boolean for 1 or 0.
  predicate IsIndex(item: Json, k: int) {
    || item == JNum(k)
    || (item.JStr? && k >= 0 && IsNumeral(item.text, k))
    || (item == JBool(true) && k == 1) || (item == JBool(false) && k == 0)
  }

  // The decimal form of k behind any number of zeros.
  predicate IsNumeral(text: string, k: nat) {
    && |text| >= |Decimal(k)| && text[|text| - |Decimal(k)|..] == Decimal(k)
    && forall i :: 0 <= i < |text| - |Decimal(k)| ==> text[i] == '0'
  }

  lemma {:induction false} NumeralValue(text: string, k: nat)
    requires IsNumeral(text, k)
    ensures AllDigits(text) && ParseDigits(text) == k
  {
    if |text| == |Decimal(k)| {
      assert text == Decimal(k);
      ParseDecimal(k);
    } else {
      assert text[1..][|text| - 1 - |Decimal(k)|..] == Decimal(k);
      NumeralValue(text[1..], k);
      LeadingZero(text[1..]);
      assert text == "0" + text[1..];
    }
  }

  lemma {:induction false} DigitsAreNumeral(text: string)
    requires text != "" && AllDigits(text)
    ensures IsNumeral(text, ParseDigits(text))
  {
    if IsPlainInt(text) {
      NumeralIsDecimal(text);
      assert text[0..] == text;
    } else {
      DigitsAreNumeral(text[1..]);
      LeadingZero(text[1..]);
      assert text == "0" + text[1..];
      var d := Decimal(ParseDigits(text));
      assert text[1..][|text| - 1 - |d|..] == text[|text| - |d|..];
    }
  }

  lemma IntLikeIff(item: Json, k: int)
    ensures IntLike(item) == Some(k) <==> IsIndex(item, k)
  {
    if item.JStr? {
      if k >= 0 && IsNumeral(item.text, k) {
        NumeralValue(item.text, k);
      }
      if item.text != "" && AllDigits(item.text) {
        DigitsAreNumeral(item.text);
      }
    }
    hide IsNumeral, ParseDigits;
  }

  // A list location names exactly the indices that stand right after a "logs" step.
  lemma ListNamesIff(detail: Detail, items: seq<Json>, k: int)
    requires "loc" in detail && detail["loc"] == JArr(items)
    ensures Names(detail, k)
            <==> exists i :: 0 <= i < |items| - 1 && items[i] == JStr("logs") && IsIndex(items[i + 1], k)
  {
    forall item
      ensures IntLike(item) == Some(k) <==> IsIndex(item, k)
    {
      IntLikeIff(item, k);
    }
    hide IntLike, IsIndex;
    if i :| 0 <= i < |items| - 1 && items[i] == JStr("logs") && IsIndex(items[i + 1], k) {
      assert NamesAt(items, i, k);
    }
  }

  // A detail about position k names k and nothing else.
  lemma DetailNames(detail: Json, k: nat)
    requires IsAbout(detail, k)
    ensures forall j :: Names(detail.fields, j) <==> j == k
  {
    hide ListLocates, TextLocates, Names;
    if ListLocates(detail.fields["loc"], k) {
      ListNames(detail.fields, k);
    } else {
      TextNames(detail.fields, k);
    }
  }

  lemma {:induction false} ObjectsAbout(details: seq<Json>, positions: seq<nat>)
    requires AreAbout(details, positions)
    ensures |Objects(details)| == |details|
    ensures forall i :: 0 <= i < |details| ==> Objects(details)[i] == details[i].fields
  {
    if details != [] {
      assert IsAbout(details[0], positions[0]);
      assert AreAbout(details[1..], positions[1..]) by {
        assert forall i :: 0 <= i < |details| - 1 ==> IsAbout(details[1..][i], positions[1..][i]);
      }
      ObjectsAbout(details[1..], positions[1..]);
    }
  }

  lemma DetailsOf(body: Option<Json>, positions: seq<nat>) returns (about: seq<Json>)
    requires Tells(body, positions)
    ensures AreAbout(about, positions) && ValidationDetails(body) == Objects(about)
  {
    var details :| HoldsDetails(body, details) && ListsAbout(details, positions);
    about := if details.JArr? then details.items else [details];
    assert details.JObj? ==> Objects([details]) == [details.fields] + Objects([]);
    hide IsAbout;
    assert ValidationDetails(body) == if details.JArr? then Objects(details.items) else [details.fields] by {
      AboutIsObject(details, positions);
      hide ListsAbout;
    }
  }

  lemma AboutIsObject(details: Json, positions: seq<nat>)
    requires ListsAbout(details, positions)
    ensures details.JArr? || details.JObj?
  {
  }

  // The positions that the collector reads from a 422 are exactly those the body tells.
  lemma TellsExactly(body: Option<Json>, positions: seq<nat>)
    requires Tells(body, positions)
    ensures forall k :: NamesIndex(HttpError(422, body), k) <==> k in positions
  {
    var details := DetailsOf(body, positions);
    ObjectsAbout(details, positions);
    hide Tells, ValidationDetails, Names, IsAbout;
    forall i | 0 <= i < |details|
      ensures forall j :: Names(details[i].fields, j) <==> j == positions[i]
    {
      DetailNames(details[i], positions[i]);
    }
    forall k
      ensures NamesIndex(HttpError(422, body), k) <==> k in positions
    {
      if k in positions {
        var i :| 0 <= i < |positions| && positions[i] == k;
        assert Objects(details)[i] in ValidationDetails(body);
      }
    }
  }

  // ---------- a service that reports in this way ----------

  // It accepts a request exactly when every record in it is valid, and answers any other with a 422 whose
  // body, if it has one, tells positions of invalid records.
  ghost predicate ReportingResponse<T(!new)>(response: Response, items: seq<T>, valid: T -> bool) {
    && (response.Accepted? <==> forall k :: 0 <= k < |items| ==> valid(items[k]))
    && (!response.Accepted? ==>
          && response.HttpError? && response.status == 422
          && (response.body.None? || exists told :: Tells(response.body, told) && AllInvalid(told, items, valid)))
  }

  ghost predicate AllInvalid<T(!new)>(told: seq<nat>, items: seq<T>, valid: T -> bool) {
    forall k :: k in told ==> k < |items| && !valid(items[k])
  }

  ghost predicate Reporting<T(!new)>(server: Server<T>, valid: T -> bool) {
    forall n, items :: items != [] ==> ReportingResponse(server(n, items), items, valid)
  }

  lemma ReportingIsHonest<T(!new)>(server: Server<T>, valid: T -> bool)
    requires Reporting(server, valid)
    ensures Honest(server, valid)
  {
    forall n, items | items != []
      ensures HonestResponse(server(n, items), items, valid)
    {
      assert ReportingResponse(server(n, items), items, valid);
      ReportedIsHonest(server(n, items), items, valid);
      hide ReportingResponse, HonestResponse;
    }
  }

  lemma ReportedIsHonest<T(!new)>(response: Response, items: seq<T>, valid: T -> bool)
    requires ReportingResponse(response, items, valid)
    ensures HonestResponse(response, items, valid)
  {
    if !response.Accepted? && response.body.Some? {
      var told :| Tells(response.body, told) && AllInvalid(told, items, valid);
      TellsExactly(response.body, told);
      assert response == HttpError(422, response.body);
      hide NamesIndex, Tells;
    }
  }

  // Against such a service the accepted records are exactly the valid ones, once each and in order, and
  // the dropped ones are exactly the others.
  lemma RecoverExactReported<T(!new)>(server: Server<T>, n: nat, pending: seq<T>, valid: T -> bool)
    requires Reporting(server, valid)
    ensures var d := Recover(server, n, pending);
            && d.outcome.Done? && AcceptedItems(d.sends) == Filter(pending, valid)
            && multiset(DroppedItems(d.dropped)) == multiset(Filter(pending, x => !valid(x)))
  {
    ReportingIsHonest(server, valid);
    RecoverExact(server, n, pending, valid);
    RecoverConserves(server, n, pending);
    FilterBoth(pending, valid);
    hide Recover, Filter, AcceptedItems, DroppedItems, Reporting, Honest;
    var d := Recover(server, n, pending);
    Remaining(multiset(AcceptedItems(d.sends)), multiset(DroppedItems(d.dropped)),
              multiset(Filter(pending, x => !valid(x))), multiset(pending));
  }

  lemma Remaining<T>(a: multiset<T>, b: multiset<T>, c: multiset<T>, whole: multiset<T>)
    requires a + b == whole && a + c == whole
    ensures b == c
  {
    assert b == whole - a && c == whole - a;
  }

  lemma {:induction false} FilterBoth<T>(items: seq<T>, keep: T -> bool)
    ensures multiset(Filter(items, keep)) + multiset(Filter(items, x => !keep(x))) == multiset(items)
  {
    if items != [] {
      FilterBoth(items[1..], keep);
      assert items == [items[0]] + items[1..];
    }
  }

  ghost predicate TellsAll<T(!new)>(body: Option<Json>, items: seq<T>, valid: T -> bool) {
    exists told :: Tells(body, told) && forall k: nat :: k in told <==> k < |items| && !valid(items[k])
  }

  lemma AllInvalidGone<T(!new)>(body: Option<Json>, items: seq<T>, valid: T -> bool)
    requires TellsAll(body, items, valid)
    ensures forall k :: k in InvalidIndices(HttpError(422, body), |items|) <==> 0 <= k < |items| && !valid(items[k])
  {
    var told :| Tells(body, told) && forall k: nat :: k in told <==> k < |items| && !valid(items[k]);
    TellsExactly(body, told);
    hide NamesIndex, Tells;
  }

  // A service that tells all invalid positions is asked at most twice, the second time for the valid
  // records.
  lemma TwoRequests<T(!new)>(server: Server<T>, n: nat, pending: seq<T>, valid: T -> bool)
    requires Reporting(server, valid) && pending != []
    requires !server(n, pending).Accepted? ==> TellsAll(server(n, pending).body, pending, valid)
    ensures var d := Recover(server, n, pending);
            && d.outcome.Done? && |d.sends| <= 2
            && (|d.sends| == 2 ==> d.sends[1].items == Filter(pending, valid))
  {
    var response := server(n, pending);
    RecoverUnfold(server, n, pending);
    assert ReportingResponse(response, pending, valid);
    if !response.Accepted? {
      var bad :| 0 <= bad < |pending| && !valid(pending[bad]);
      assert response == HttpError(422, response.body) && IsInvalid(response);
      hide *;
      AllInvalidGone(response.body, pending, valid);
      SecondRequest(server, n, pending, InvalidIndices(response, |pending|), valid, bad);
    }
  }

  lemma SecondRequest<T(!new)>(server: Server<T>, n: nat, pending: seq<T>, gone: set<int>, valid: T -> bool, bad: nat)
    requires Reporting(server, valid) && bad < |pending| && !valid(pending[bad])
    requires forall k :: k in gone <==> 0 <= k < |pending| && !valid(pending[k])
    ensures gone != {}
    ensures var d := First(Send(pending, server(n, pending)), Mark(Picked(pending, gone), n),
                           Recover(server, n + 1, Rest(pending, gone)));
            && d.outcome.Done? && |d.sends| <= 2
            && (|d.sends| == 2 ==> d.sends[1].items == Filter(pending, valid))
  {
    hide Recover, Reporting, Picked, Rest, Filter, Mark;
    assert bad in gone;
    RestIsValid(pending, gone, valid);
    ValidIsAccepted(server, n + 1, Rest(pending, gone), valid);
  }

  lemma ValidIsAccepted<T(!new)>(server: Server<T>, n: nat, items: seq<T>, valid: T -> bool)
    requires Reporting(server, valid) && forall x :: x in items ==> valid(x)
    ensures var d := Recover(server, n, items);
            d.outcome.Done? && |d.sends| <= 1 && (|d.sends| == 1 ==> d.sends[0].items == items)
  {
    if items != [] {
      assert ReportingResponse(server(n, items), items, valid);
      assert forall k :: 0 <= k < |items| ==> items[k] in items;
      RecoverUnfold(server, n, items);
      hide Recover;
    }
  }

  lemma {:induction false} RestIsValid<T>(items: seq<T>, gone: set<int>, valid: T -> bool)
    requires forall k :: k in gone <==> 0 <= k < |items| && !valid(items[k])
    ensures Rest(items, gone) == Filter(items, valid)
    ensures forall x :: x in Rest(items, gone) ==> valid(x)
  {
    RestKeepsValid(items, gone, valid);
    RestAllValid(items, gone, valid);
    FilterAll(Rest(items, gone), valid);
  }

  lemma {:induction false} RestAllValid<T>(items: seq<T>, gone: set<int>, valid: T -> bool)
    requires forall k :: 0 <= k < |items| && k !in gone ==> valid(items[k])
    ensures forall x :: x in Rest(items, gone) ==> valid(x)
  {
    if items != [] {
      RestAllValid(items[..|items| - 1], gone, valid);
    }
  }

  // The whole run against such a service.
  lemma ReportedRunExactlyOnce<T(!new)>(events: seq<L.Event<T>>, server: Server<T>, batchSize: int, valid: T -> bool)
    requires Reporting(server, valid)
    ensures var s := L.After(events, server, batchSize);
            AcceptedItems(s.sends) == Filter(L.Flat(s.flushed), valid)
  {
    ReportingIsHonest(server, valid);
    L.HonestRunExactlyOnce(events, server, batchSize, valid);
    L.ExactMeans(L.After(events, server, batchSize), valid);
    hide *;
  }

  // ---------- which answers end a delivery ----------

  predicate Fatal(response: Response) {
    response == NetworkError || (response.HttpError? && response.status != 422)
  }

  // A delivery fails exactly when its last request got neither a 2xx nor a 422 answer, and then with that
  // answer; every earlier answer was one of these.
  ghost predicate EndsWithLast<T(!new)>(d: Delivery<T>) {
    && (d.outcome.Raised? <==> d.sends != [] && Fatal(d.sends[|d.sends| - 1].response))
    && (d.outcome.Raised? ==> d.outcome.response == d.sends[|d.sends| - 1].response)
    && (forall i :: 0 <= i < |d.sends| - 1 ==> !Fatal(d.sends[i].response))
  }

  lemma FirstEnds<T(!new)>(send: Send<T>, dropped: seq<Drop<T>>, later: Delivery<T>)
    requires EndsWithLast(later) && !Fatal(send.response)
    ensures EndsWithLast(First(send, dropped, later))
  {
    var sends := [send] + later.sends;
    assert forall i :: 0 < i < |sends| ==> sends[i] == later.sends[i - 1];
  }

  lemma {:induction false} SingletonsEnd<T(!new)>(server: Server<T>, n: nat, items: seq<T>)
    ensures EndsWithLast(Singletons(server, n, items))
    decreases |items|
  {
    if items != [] {
      var send := Send([items[0]], server(n, [items[0]]));
      var later := Singletons(server, n + 1, items[1..]);
      SingletonsUnfold(server, n, items);
      SingletonsEnd(server, n + 1, items[1..]);
      hide Singletons;
      if !Fatal(send.response) {
        FirstEnds(send, if IsInvalid(send.response) then [Drop(items[0], n)] else [], later);
      }
    }
  }

  lemma {:induction false} RecoverEnds<T(!new)>(server: Server<T>, n: nat, pending: seq<T>)
    ensures EndsWithLast(Recover(server, n, pending))
    decreases |pending|
  {
    if pending != [] {
      RecoverUnfold(server, n, pending);
      var send := Send(pending, server(n, pending));
      var gone := InvalidIndices(send.response, |pending|);
      hide Recover, InvalidIndices;
      if IsInvalid(send.response) {
        if gone == {} {
          SingletonsEnd(server, n + 1, pending);
          FirstEnds(send, [], Singletons(server, n + 1, pending));
        } else {
          RecoverEnds(server, n + 1, Rest(pending, gone));
          FirstEnds(send, Mark(Picked(pending, gone), n), Recover(server, n + 1, Rest(pending, gone)));
        }
      }
    }
  }
}
