// A search of the persistent store, from the translated clauses to total, cursor and page
// (PostgresClickHouseStore.search_logs), against the same search in memory.
module PersistentSearch {
  import opened Base
  import opened Records
  import opened Severity
  import opened Ids
  import opened Cursor
  import opened Codec
  import opened StoreModel
  import Paging
  import SearchWhere
  import StoreRuns

  // The rows of a table that the translated query selects, as the database finds them, and their count.
  method SelectAndCount(key: ApiKey, request: SearchRequest, table: seq<LogRow>)
    returns (r: Result<(seq<LogRow>, nat)>)
    ensures r.Ok? <==> AllKnown(request.severity)
    ensures r.Err? ==> r.error == BadRequest("invalid_severity")
    ensures r.Ok? ==> r.value.0 == SearchWhere.SelectRows(key, request, table) && r.value.1 == |r.value.0|
  {
    hide *;
    var translated := SearchWhere.SearchWhere(key, request);
    if translated.Err? {
      return Err(translated.error);
    }
    var found := SelectHolding(translated.value.0, translated.value.1, key, request, table);
    r := Ok((found, |found|));
  }

  // SELECT ... WHERE over a table.
  method SelectHolding(where: seq<SearchWhere.Clause>, params: SearchWhere.Params,
                       ghost key: ApiKey, ghost request: SearchRequest, table: seq<LogRow>)
    returns (found: seq<LogRow>)
    requires AllKnown(request.severity)
    requires forall row :: SearchWhere.HoldsAll(where, params, row) <==> SearchWhere.RowSatisfies(key, request, row)
    ensures found == SearchWhere.SelectRows(key, request, table)
  {
    hide SearchWhere.HoldsAll, SearchWhere.RowSatisfies, AllKnown;
    found := [];
    assert SearchWhere.SelectRows(key, request, table[..0]) == [];
    for i := 0 to |table|
      invariant found == SearchWhere.SelectRows(key, request, table[..i])
    {
      hide SearchWhere.SelectRows;
      OneMoreRow(key, request, table[..i], table[i]);
      assert table[..i + 1] == table[..i] + [table[i]];
      if SearchWhere.HoldsAll(where, params, table[i]) {
        found := found + [table[i]];
      }
    }
    assert table[..|table|] == table;
  }

  lemma {:induction false} OneMoreRow(key: ApiKey, request: SearchRequest, rows: seq<LogRow>, row: LogRow)
    requires AllKnown(request.severity)
    ensures SearchWhere.SelectRows(key, request, rows + [row])
            == SearchWhere.SelectRows(key, request, rows)
               + if SearchWhere.RowSatisfies(key, request, row) then [row] else []
  {
    hide SearchWhere.RowSatisfies, AllKnown;
    if rows == [] {
      assert [row][1..] == [];
    } else {
      OneMoreRow(key, request, rows[1..], row);
      assert (rows + [row])[0] == rows[0] && (rows + [row])[1..] == rows[1..] + [row];
    }
  }

  // ---------- the order of the page ----------

  function RowKey(row: LogRow, sort: Sort): int {
    if sort == ReceivedAtDesc then row.receivedAt else row.timestamp
  }

  // ORDER BY: the time of receipt decides between equal timestamps; other ties are the database's choice.
  predicate RowInOrder(a: LogRow, b: LogRow, sort: Sort) {
    match sort
    case TimestampDesc => a.timestamp > b.timestamp || (a.timestamp == b.timestamp && a.receivedAt >= b.receivedAt)
    case TimestampAsc => a.timestamp < b.timestamp || (a.timestamp == b.timestamp && a.receivedAt <= b.receivedAt)
    case ReceivedAtDesc => a.receivedAt >= b.receivedAt
  }

  // The rows in some order that ORDER BY allows.
  predicate Arranges(ordered: seq<LogRow>, rows: seq<LogRow>, sort: Sort) {
    && multiset(ordered) == multiset(rows)
    && forall i, j :: 0 <= i < j < |ordered| ==> RowInOrder(ordered[i], ordered[j], sort)
  }

  function Keys<T>(xs: seq<T>, key: T -> int): (keys: seq<int>)
    ensures |keys| == |xs| && forall i :: 0 <= i < |xs| ==> keys[i] == key(xs[i])
  {
    seq(|xs|, i requires 0 <= i < |xs| => key(xs[i]))
  }

  function RowKeys(rows: seq<LogRow>, sort: Sort): seq<int> {
    Keys(rows, (row: LogRow) => RowKey(row, sort))
  }

  function RecordKeys(records: seq<LogRecord>, sort: Sort): seq<int> {
    Keys(records, (record: LogRecord) => SortKey(record, sort))
  }

  predicate KeysInOrder(keys: seq<int>, ascending: bool) {
    forall i, j :: 0 <= i < j < |keys| ==> if ascending then keys[i] <= keys[j] else keys[i] >= keys[j]
  }

  lemma TakeOut<T>(s: seq<T>, j: nat)
    requires j < |s|
    ensures multiset(s[..j] + s[j + 1..]) == multiset(s) - multiset{s[j]}
  {
    assert s == s[..j] + [s[j]] + s[j + 1..];
  }

  lemma TakeOutFirst<T>(s: seq<T>)
    requires s != []
    ensures multiset(s[1..]) == multiset(s) - multiset{s[0]} && s == [s[0]] + s[1..]
  {
    FrontMultiset(s[0], s[1..]);
    assert s == [s[0]] + s[1..];
  }

  lemma FrontMultiset<T>(x: T, rest: seq<T>)
    ensures multiset([x] + rest) == multiset(rest) + multiset{x}
  {
  }

  lemma TailInOrder(a: seq<int>, ascending: bool)
    requires KeysInOrder(a, ascending) && a != []
    ensures KeysInOrder(a[1..], ascending)
  {
  }

  lemma FirstInOrder(a: seq<int>, b: seq<int>, ascending: bool)
    requires KeysInOrder(a, ascending) && a != [] && b != [] && multiset(a) == multiset(b)
    ensures if ascending then a[0] <= b[0] else a[0] >= b[0]
  {
    assert b[0] in multiset(a);
    var i :| 0 <= i < |a| && a[i] == b[0];
  }

  lemma SameSize<T>(a: seq<T>, b: seq<T>)
    requires multiset(a) == multiset(b)
    ensures |a| == |b|
  {
    assert |multiset(a)| == |a| && |multiset(b)| == |b|;
  }

  // One order of keys leaves one sequence.
  lemma {:induction false} OrderedKeysUnique(a: seq<int>, b: seq<int>, ascending: bool)
    requires KeysInOrder(a, ascending) && KeysInOrder(b, ascending) && multiset(a) == multiset(b)
    ensures a == b
  {
    SameSize(a, b);
    if a != [] {
      FirstInOrder(a, b, ascending);
      FirstInOrder(b, a, ascending);
      TailInOrder(a, ascending);
      TailInOrder(b, ascending);
      TakeOutFirst(a);
      TakeOutFirst(b);
      hide KeysInOrder;
      OrderedKeysUnique(a[1..], b[1..], ascending);
    }
  }

  lemma KeysWithout<T>(xs: seq<T>, j: nat, key: T -> int)
    requires j < |xs|
    ensures multiset(Keys(xs[..j] + xs[j + 1..], key)) == multiset(Keys(xs, key)) - multiset{key(xs[j])}
    ensures key(xs[j]) in multiset(Keys(xs, key))
  {
    var keys := Keys(xs, key);
    assert Keys(xs[..j] + xs[j + 1..], key) == keys[..j] + keys[j + 1..];
    TakeOut(keys, j);
    assert keys[j] in keys;
  }

  // Rearranging does not change the keys, only their order.
  lemma {:induction false} SameKeys<T>(a: seq<T>, b: seq<T>, key: T -> int)
    requires multiset(a) == multiset(b)
    ensures multiset(Keys(a, key)) == multiset(Keys(b, key))
    decreases |a|
  {
    hide Keys;
    SameSize(a, b);
    if a == [] {
      assert a == b;
    } else {
      assert a[0] in multiset(b);
      var j :| 0 <= j < |b| && b[j] == a[0];
      TakeOutFirst(a);
      TakeOut(b, j);
      var rest := b[..j] + b[j + 1..];
      KeysWithout(a, 0, key);
      assert a[..0] + a[1..] == a[1..];
      KeysWithout(b, j, key);
      SameKeys(a[1..], rest, key);
      PutBack(multiset(Keys(a, key)), multiset(Keys(b, key)), key(a[0]));
    }
  }

  lemma PutBack(a: multiset<int>, b: multiset<int>, x: int)
    requires x in a && x in b && a - multiset{x} == b - multiset{x}
    ensures a == b
  {
    assert a == a - multiset{x} + multiset{x} && b == b - multiset{x} + multiset{x};
  }

  // ---------- the two back ends ----------

  lemma {:induction false} InsertedKeys(records: seq<LogRecord>, sort: Sort)
    ensures |SearchWhere.InsertAll(records)| == |records|
    ensures RowKeys(SearchWhere.InsertAll(records), sort) == RecordKeys(records, sort)
  {
    if records != [] {
      InsertedKeys(records[1..], sort);
      var rows, rest := SearchWhere.InsertAll(records), SearchWhere.InsertAll(records[1..]);
      assert rows == [LogInsertRow(records[0])] + rest;
      assert RowKey(rows[0], sort) == SortKey(records[0], sort);
      var ks, rs := RowKeys(rest, sort), RecordKeys(records[1..], sort);
      forall i | 0 < i < |rows|
        ensures RowKey(rows[i], sort) == SortKey(records[i], sort)
      {
        assert ks[i - 1] == RowKey(rest[i - 1], sort) && rs[i - 1] == SortKey(records[1..][i - 1], sort);
      }
    }
  }

  lemma ArrangedKeysInOrder(ordered: seq<LogRow>, rows: seq<LogRow>, sort: Sort)
    requires Arranges(ordered, rows, sort)
    ensures KeysInOrder(RowKeys(ordered, sort), sort == TimestampAsc)
  {
  }

  lemma SortedKeysInOrder(records: seq<LogRecord>, sort: Sort)
    requires Paging.Sorted(records, sort)
    ensures KeysInOrder(RecordKeys(records, sort), sort == TimestampAsc)
  {
  }

  // However the database breaks ties, at every position its answer has the same sort key as memory's.
  lemma ArrangementsAgree(found: seq<LogRecord>, ordered: seq<LogRow>, sort: Sort)
    requires Arranges(ordered, SearchWhere.InsertAll(found), sort)
    ensures RowKeys(ordered, sort) == RecordKeys(SortRecords(found, sort), sort)
  {
    Paging.SortIsStable(found, sort);
    SameKeys(ordered, SearchWhere.InsertAll(found), (row: LogRow) => RowKey(row, sort));
    SameKeys(SortRecords(found, sort), found, (record: LogRecord) => SortKey(record, sort));
    InsertedKeys(found, sort);
    ArrangedKeysInOrder(ordered, SearchWhere.InsertAll(found), sort);
    SortedKeysInOrder(SortRecords(found, sort), sort);
    hide SortRecords, Paging.Sorted, KeysInOrder, SearchWhere.InsertAll, RowKey, SortKey, Arranges;
    OrderedKeysUnique(RowKeys(ordered, sort), RecordKeys(SortRecords(found, sort), sort), sort == TimestampAsc);
  }

  // LIMIT and OFFSET, and the cursor computed from the count.
  function PersistentPage(ordered: seq<LogRow>, offset: nat, limit: nat): seq<LogRow> {
    Slice(ordered, offset, offset + limit)
  }

  function PersistentCursor(total: nat, offset: nat, limit: int): Option<string> {
    if offset + limit < total then Some(EncodeCursor(offset + limit)) else None
  }

  // On the logs of every run, for a validated request: the count and the next cursor are memory's, the
  // page has as many entries, and at every position of the page the sort keys are the same.
  lemma SearchesAgreeOnRuns(commands: seq<Command>, settings: Settings, auth: Auth, request: SearchRequest,
                            ordered: seq<LogRow>, offset: nat, limit: nat)
    requires AllKnown(request.severity)
    requires var s, days := Run(commands, settings), settings.maxSearchRangeDays;
             SearchWhere.ValidateSearchRequest(s.projects, s.sources.at, auth.key, request, days).Ok?
    requires SearchWhere.SafeAttributes(request) && SearchWhere.NoSpaceInQuery(request)
    requires var table := SearchWhere.InsertAll(Values(Run(commands, settings).logs));
             Arranges(ordered, SearchWhere.SelectRows(auth.key, request, table), request.sort)
    ensures var s := Run(commands, settings);
            var total := |SearchWhere.SelectRows(auth.key, request, SearchWhere.InsertAll(Values(s.logs)))|;
            var memory := PageOf(Matching(s, auth, request), offset, limit);
            && total == memory.total && PersistentCursor(total, offset, limit) == memory.nextCursor
            && RowKeys(PersistentPage(ordered, offset, limit), request.sort) == RecordKeys(memory.records, request.sort)
  {
    var s := Run(commands, settings);
    StoreRuns.BackEndsAgreeOnRuns(commands, settings, auth.key, request);
    var found := SearchWhere.MatchingRecords(auth.key, request, Values(s.logs));
    ArrangementsAgree(found, ordered, request.sort);
    InsertedKeys(found, request.sort);
    Paging.SortIsStable(found, request.sort);
    SameSize(SortRecords(found, request.sort), found);
    SameSize(ordered, SearchWhere.InsertAll(found));
    assert Matching(s, auth, request) == SortRecords(found, request.sort);
    hide Run, SearchWhere.MatchingRecords, SearchWhere.SelectRows, SearchWhere.InsertAll, SortRecords;
    hide Matching, Arranges;
    SlicedKeys(ordered, SortRecords(found, request.sort), offset, limit, request.sort);
  }

  lemma SlicedKeys(rows: seq<LogRow>, records: seq<LogRecord>, offset: nat, limit: nat, sort: Sort)
    requires RowKeys(rows, sort) == RecordKeys(records, sort)
    ensures RowKeys(PersistentPage(rows, offset, limit), sort)
            == RecordKeys(Slice(records, offset, offset + limit), sort)
  {
    assert |rows| == |RowKeys(rows, sort)| == |records|;
    var page, memory := PersistentPage(rows, offset, limit), Slice(records, offset, offset + limit);
    forall i | 0 <= i < |page|
      ensures RowKey(page[i], sort) == SortKey(memory[i], sort)
    {
      assert page[i] == rows[offset + i] && memory[i] == records[offset + i];
      assert RowKeys(rows, sort)[offset + i] == RecordKeys(records, sort)[offset + i];
    }
  }
}
