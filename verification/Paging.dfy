// The order of search results and the pages they are cut into (InMemoryStore.search_logs).
module Paging {
  import opened Base
  import opened Records
  import opened Severity
  import opened Ids
  import opened Quota
  import opened Cursor
  import opened StoreModel
  import SearchWhere

  // ---------- the sort ----------

  predicate Sorted(records: seq<LogRecord>, sort: Sort) {
    forall i, j :: 0 <= i < j < |records| ==> InOrder(records[i], records[j], sort)
  }

  // The records with a given sort key, in the order they stand.
  function WithKey(records: seq<LogRecord>, sort: Sort, k: int): (r: seq<LogRecord>)
    ensures forall x :: x in r <==> x in records && SortKey(x, sort) == k
  {
    if records == [] then []
    else OneWithKey(records[0], sort, k) + WithKey(records[1..], sort, k)
  }

  function OneWithKey(record: LogRecord, sort: Sort, k: int): seq<LogRecord> {
    if SortKey(record, sort) == k then [record] else []
  }

  lemma PrependSorted(x: LogRecord, rest: seq<LogRecord>, sort: Sort)
    requires Sorted(rest, sort) && forall y :: y in rest ==> InOrder(x, y, sort)
    ensures Sorted([x] + rest, sort)
  {
    hide InOrder;
  }

  lemma InOrderTransitive(x: LogRecord, y: LogRecord, z: LogRecord, sort: Sort)
    requires InOrder(x, y, sort) && InOrder(y, z, sort)
    ensures InOrder(x, z, sort)
  {
  }

  lemma InOrderTotal(x: LogRecord, y: LogRecord, sort: Sort)
    ensures InOrder(x, y, sort) || InOrder(y, x, sort)
  {
  }

  lemma InsertFirst(x: LogRecord, sorted: seq<LogRecord>, sort: Sort)
    requires Sorted(sorted, sort) && sorted != [] && InOrder(x, sorted[0], sort)
    ensures Sorted([x] + sorted, sort)
  {
    hide InOrder;
    forall y | y in sorted
      ensures InOrder(x, y, sort)
    {
      if y != sorted[0] {
        InOrderTransitive(x, sorted[0], y, sort);
      }
    }
    hide Sorted;
    PrependSorted(x, sorted, sort);
  }

  lemma FirstIsLeast(first: LogRecord, tail: seq<LogRecord>, sort: Sort)
    requires Sorted([first] + tail, sort)
    ensures forall y :: y in tail ==> InOrder(first, y, sort)
  {
    hide InOrder;
    var all := [first] + tail;
    forall i | 0 <= i < |tail|
      ensures InOrder(first, tail[i], sort)
    {
      assert InOrder(all[0], all[i + 1], sort);
    }
  }

  lemma InsertLater(x: LogRecord, first: LogRecord, tail: seq<LogRecord>, rest: seq<LogRecord>, sort: Sort)
    requires Sorted([first] + tail, sort) && !InOrder(x, first, sort)
    requires Sorted(rest, sort) && multiset(rest) == multiset([x]) + multiset(tail)
    ensures Sorted([first] + rest, sort)
  {
    InOrderTotal(x, first, sort);
    hide InOrder;
    SameMembers(x, tail, rest);
    FirstIsLeast(first, tail, sort);
    hide Sorted;
    PrependSorted(first, rest, sort);
  }

  lemma {:induction false} InsertKeeps(x: LogRecord, sorted: seq<LogRecord>, sort: Sort)
    requires Sorted(sorted, sort)
    ensures var r := InsertRecord(x, sorted, sort);
            Sorted(r, sort) && multiset(r) == multiset([x]) + multiset(sorted)
  {
    hide InOrder;
    if sorted != [] {
      assert sorted == [sorted[0]] + sorted[1..];
      assert Sorted(sorted[1..], sort);
      hide Sorted;
      if InOrder(x, sorted[0], sort) {
        InsertFirst(x, sorted, sort);
      } else {
        InsertKeeps(x, sorted[1..], sort);
        InsertLater(x, sorted[0], sorted[1..], InsertRecord(x, sorted[1..], sort), sort);
      }
    }
  }

  lemma SameMembers(x: LogRecord, before: seq<LogRecord>, after: seq<LogRecord>)
    requires multiset(after) == multiset([x]) + multiset(before)
    ensures forall y :: y in after <==> y == x || y in before
  {
    assert forall y :: y in multiset(after) <==> y in after;
    assert forall y :: y in multiset(before) <==> y in before;
  }

  // A record is only moved past records of another key.
  lemma SwapStable(x: LogRecord, y: LogRecord, sort: Sort, k: int, rest: seq<LogRecord>)
    requires !InOrder(x, y, sort)
    ensures OneWithKey(y, sort, k) + (OneWithKey(x, sort, k) + rest)
            == OneWithKey(x, sort, k) + (OneWithKey(y, sort, k) + rest)
  {
    if SortKey(x, sort) == k {
      assert [] + rest == rest && [] + ([x] + rest) == [x] + rest;
    } else {
      assert [] + rest == rest && [] + (OneWithKey(y, sort, k) + rest) == OneWithKey(y, sort, k) + rest;
    }
  }

  lemma WithKeyOfCons(x: LogRecord, rest: seq<LogRecord>, sort: Sort, k: int)
    ensures WithKey([x] + rest, sort, k) == OneWithKey(x, sort, k) + WithKey(rest, sort, k)
  {
    hide OneWithKey;
    assert ([x] + rest)[1..] == rest;
  }

  lemma {:induction false} InsertStable(x: LogRecord, sorted: seq<LogRecord>, sort: Sort, k: int)
    ensures WithKey(InsertRecord(x, sorted, sort), sort, k) == OneWithKey(x, sort, k) + WithKey(sorted, sort, k)
  {
    hide OneWithKey, InOrder;
    if sorted == [] || InOrder(x, sorted[0], sort) {
      WithKeyOfCons(x, sorted, sort, k);
    } else {
      InsertStable(x, sorted[1..], sort, k);
      WithKeyOfCons(sorted[0], InsertRecord(x, sorted[1..], sort), sort, k);
      SwapStable(x, sorted[0], sort, k, WithKey(sorted[1..], sort, k));
    }
  }

  // The same records of every key, in the same order among themselves.
  ghost predicate SameGroups(a: seq<LogRecord>, b: seq<LogRecord>, sort: Sort) {
    forall k :: WithKey(a, sort, k) == WithKey(b, sort, k)
  }

  // The sort rearranges, puts in order, and leaves records of equal key in insertion order.
  lemma {:induction false} SortIsStable(records: seq<LogRecord>, sort: Sort)
    ensures var r := SortRecords(records, sort);
            Sorted(r, sort) && multiset(r) == multiset(records)
    ensures SameGroups(SortRecords(records, sort), records, sort)
  {
    if records != [] {
      SortIsStable(records[1..], sort);
      InsertKeeps(records[0], SortRecords(records[1..], sort), sort);
      assert records == [records[0]] + records[1..];
      forall k
        ensures WithKey(SortRecords(records, sort), sort, k) == WithKey(records, sort, k)
      {
        InsertStable(records[0], SortRecords(records[1..], sort), sort, k);
      }
    }
  }

  lemma SameGroupsSameMembers(a: seq<LogRecord>, b: seq<LogRecord>, sort: Sort)
    requires SameGroups(a, b, sort)
    ensures forall x :: x in a ==> x in b
  {
    hide SortKey;
    forall x | x in a
      ensures x in b
    {
      assert x in WithKey(a, sort, SortKey(x, sort));
      assert x in WithKey(b, sort, SortKey(x, sort));
    }
  }

  lemma LeastKeyFirst(a: seq<LogRecord>, x: LogRecord, sort: Sort)
    requires Sorted(a, sort) && a != [] && x in a
    ensures InOrder(a[0], x, sort)
  {
    var i :| 0 <= i < |a| && a[i] == x;
    if i == 0 {
    } else {
      assert InOrder(a[0], a[i], sort);
    }
  }

  lemma HeadsAgree(a: seq<LogRecord>, b: seq<LogRecord>, sort: Sort)
    requires Sorted(a, sort) && Sorted(b, sort) && SameGroups(a, b, sort) && a != [] && b != []
    ensures a[0] == b[0]
  {
    SameGroupsSameMembers(a, b, sort);
    SameGroupsSameMembers(b, a, sort);
    assert a[0] in b && b[0] in a;
    LeastKeyFirst(a, b[0], sort);
    LeastKeyFirst(b, a[0], sort);
    var k := SortKey(a[0], sort);
    assert SortKey(b[0], sort) == k;
    assert WithKey(a, sort, k) == WithKey(b, sort, k);
    hide InOrder, Sorted, SameGroups;
    TailWithKey(a, sort, k);
    TailWithKey(b, sort, k);
  }

  // Order and stability leave only one possible result.
  lemma {:induction false} StableSortUnique(a: seq<LogRecord>, b: seq<LogRecord>, sort: Sort)
    requires Sorted(a, sort) && Sorted(b, sort) && SameGroups(a, b, sort)
    ensures a == b
  {
    SameGroupsSameMembers(a, b, sort);
    SameGroupsSameMembers(b, a, sort);
    if a != [] && b != [] {
      HeadsAgree(a, b, sort);
      forall k
        ensures WithKey(a[1..], sort, k) == WithKey(b[1..], sort, k)
      {
        assert WithKey(a, sort, k) == WithKey(b, sort, k);
        TailWithKey(a, sort, k);
        TailWithKey(b, sort, k);
      }
      hide InOrder, SortKey, WithKey;
      StableSortUnique(a[1..], b[1..], sort);
      assert a == [a[0]] + a[1..] && b == [b[0]] + b[1..];
    } else {
      NonEmptyHasMember(a);
      NonEmptyHasMember(b);
    }
  }

  lemma NonEmptyHasMember(a: seq<LogRecord>)
    ensures a == [] <==> forall x :: x !in a
  {
    if a != [] {
      assert a[0] in a;
    }
  }

  lemma TailWithKey(records: seq<LogRecord>, sort: Sort, k: int)
    requires records != []
    ensures var all := WithKey(records, sort, k);
            if SortKey(records[0], sort) == k then
              all != [] && all[0] == records[0] && WithKey(records[1..], sort, k) == all[1..]
            else WithKey(records[1..], sort, k) == all
  {
  }

  // ---------- one page ----------

  // The records from an offset on.
  function From<T>(xs: seq<T>, offset: nat): seq<T> {
    if offset >= |xs| then [] else xs[offset..]
  }

  // A page and what is left behind its cursor make up what was left before; a page without a cursor
  // is the last one.
  lemma PageSplits(records: seq<LogRecord>, offset: nat, limit: int)
    requires limit >= 1
    ensures var page := PageOf(records, offset, limit);
            && page.total == |records|
            && page.records + From(records, offset + limit) == From(records, offset)
            && (page.nextCursor.None? <==> From(records, offset + limit) == [])
            && (page.nextCursor.Some? ==>
                  |page.records| == limit && page.nextCursor == Some(EncodeCursor(offset + limit)))
  {
  }

  // A cursor moves on exactly when the page size is positive.
  lemma CursorAdvancesIff(records: seq<LogRecord>, offset: nat, limit: int)
    requires PageOf(records, offset, limit).nextCursor.Some?
    ensures DecodeCursor(PageOf(records, offset, limit).nextCursor).Ok?
    ensures DecodeCursor(PageOf(records, offset, limit).nextCursor).value > offset <==> limit >= 1
  {
    CursorRoundTrip(offset + limit);
    hide EncodeCursor, DecodeCursor;
  }

  // ---------- following the cursor ----------

  datatype Walk = Walk(state: State, pages: seq<Page>, done: bool)

  // At most `fuel` searches, each with the cursor of the page before; done when a page has no cursor.
  function Follow(s: State, auth: Auth, request: SearchRequest, limitOverride: Option<int>,
                  day: string, settings: Settings, fuel: nat): Walk
    decreases fuel
  {
    if fuel == 0 then Walk(s, [], false)
    else
      match SearchLogs(s, auth, request, limitOverride, day, settings)
      case (t, Err(_)) => Walk(t, [], false)
      case (t, Ok(page)) =>
        if page.nextCursor.None? then Walk(t, [page], true)
        else
          var rest := Follow(t, auth, request.(cursor := page.nextCursor), limitOverride, day, settings, fuel - 1);
          Walk(rest.state, [page] + rest.pages, rest.done)
  }

  function AllRecords(pages: seq<Page>): seq<LogRecord> {
    if pages == [] then [] else pages[0].records + AllRecords(pages[1..])
  }

  // The checks a search makes besides the quota and the cursor.
  predicate Permitted(s: State, auth: Auth, request: SearchRequest, settings: Settings) {
    && CheckSearch(s, auth, request, settings).Ok?
    && AllKnown(request.severity)
    && SearchWhere.SourcesOfProject(s.sources.at, auth.key, request.sources, request.projectId).Ok?
  }

  // The agent may still make n reads on this day.
  predicate CanRead(s: State, auth: Auth, day: string, settings: Settings, n: nat) {
    var limit := settings.maxAgentDailyReadQueries;
    limit <= 0 || Counter(s.quota, QuotaKey(AgentReads, auth.agent.id, day)) + n <= limit
  }

  function CurrentPage(s: State, auth: Auth, request: SearchRequest, limitOverride: Option<int>,
                       settings: Settings): Page
    requires AllKnown(request.severity) && DecodeCursor(request.cursor).Ok?
  {
    PageOf(Matching(s, auth, request), DecodeCursor(request.cursor).value, PageLimit(request, limitOverride, settings))
  }

  // A search that succeeds gives the page at its cursor's offset and leaves the tables alone.
  lemma SearchGivesPage(s: State, auth: Auth, request: SearchRequest, limitOverride: Option<int>,
                        day: string, settings: Settings)
    ensures var (t, r) := SearchLogs(s, auth, request, limitOverride, day, settings);
            t == s.(counters := t.counters, audit := t.audit, quota := t.quota)
    ensures SearchLogs(s, auth, request, limitOverride, day, settings).1.Ok? ==>
              && AllKnown(request.severity) && DecodeCursor(request.cursor).Ok?
              && SearchLogs(s, auth, request, limitOverride, day, settings).1.value
                 == CurrentPage(s, auth, request, limitOverride, settings)
  {
    hide CheckSearch, DecodeCursor, PageOf, PageLimit, QuotaKey, MakeId, CounterOf, SortRecords;
    hide SearchWhere.MatchingRecords, SearchWhere.SourcesOfProject;
  }

  // A permitted search with quota left succeeds and uses one read.
  lemma SearchSucceeds(s: State, auth: Auth, request: SearchRequest, limitOverride: Option<int>,
                       day: string, settings: Settings, n: nat)
    requires Permitted(s, auth, request, settings) && CanRead(s, auth, day, settings, n) && n >= 1
    requires DecodeCursor(request.cursor).Ok?
    ensures var (t, r) := SearchLogs(s, auth, request, limitOverride, day, settings);
            r.Ok? && CanRead(t, auth, day, settings, n - 1)
  {
    hide CheckSearch, DecodeCursor, PageOf, PageLimit, QuotaKey, MakeId, CounterOf, Matching;
    hide SearchWhere.MatchingRecords, SearchWhere.SourcesOfProject;
  }

  // What a search finds and whether it is permitted do not change while only searches run, nor with
  // the cursor.
  lemma SameMatching(s: State, t: State, auth: Auth, request: SearchRequest, cursor: Option<string>)
    requires t.logs == s.logs && AllKnown(request.severity)
    ensures Matching(t, auth, request.(cursor := cursor)) == Matching(s, auth, request)
  {
    SameMatches(auth.key, request, cursor, Values(s.logs));
    hide SortRecords, SearchWhere.MatchingRecords, Values;
  }

  lemma StillPermitted(s: State, t: State, auth: Auth, request: SearchRequest, cursor: Option<string>,
                       settings: Settings)
    requires t == s.(counters := t.counters, audit := t.audit, quota := t.quota)
    requires Permitted(s, auth, request, settings)
    ensures Permitted(t, auth, request.(cursor := cursor), settings)
  {
    hide SearchWhere.SourcesOfProject;
  }

  lemma {:induction false} SameMatches(key: ApiKey, request: SearchRequest, cursor: Option<string>,
                                       records: seq<LogRecord>)
    requires AllKnown(request.severity)
    ensures SearchWhere.MatchingRecords(key, request.(cursor := cursor), records)
            == SearchWhere.MatchingRecords(key, request, records)
  {
    if records != [] {
      SameMatches(key, request, cursor, records[1..]);
      assert SearchWhere.RequestedSources(request.(cursor := cursor)) == SearchWhere.RequestedSources(request);
      hide NormalizedSet, SearchWhere.RequestedSources, ProjectAllowed, SourceAllowed;
    }
  }

  function PageCount(left: nat, limit: int): (n: nat)
    requires limit >= 1
    ensures n >= 1
    decreases left
  {
    if left <= limit then 1 else 1 + PageCount(left - limit, limit)
  }

  // max(1, ceil(left / limit)): the pages hold everything, and one page less would not.
  lemma {:induction false} PageCountIsCeiling(left: nat, limit: int)
    requires limit >= 1
    ensures var n := PageCount(left, limit); left <= n * limit && (n > 1 ==> (n - 1) * limit < left)
    decreases left
  {
    if left > limit {
      PageCountIsCeiling(left - limit, limit);
      var m := PageCount(left - limit, limit);
      assert (m + 1) * limit == m * limit + limit;
      assert m > 1 ==> (m - 1) * limit + limit == m * limit;
    }
  }

  lemma FollowOnce(s: State, auth: Auth, request: SearchRequest, limitOverride: Option<int>,
                   day: string, settings: Settings, fuel: nat)
    requires fuel >= 1 && SearchLogs(s, auth, request, limitOverride, day, settings).1.Ok?
    ensures var w := Follow(s, auth, request, limitOverride, day, settings, fuel);
            var (t, r) := SearchLogs(s, auth, request, limitOverride, day, settings);
            var next := r.value.nextCursor;
            if next.None? then w == Walk(t, [r.value], true)
            else
              var rest := Follow(t, auth, request.(cursor := next), limitOverride, day, settings, fuel - 1);
              w == Walk(rest.state, [r.value] + rest.pages, rest.done)
  {
    hide SearchLogs;
  }

  lemma AllOfCons(page: Page, rest: seq<Page>)
    ensures AllRecords([page] + rest) == page.records + AllRecords(rest)
  {
    assert ([page] + rest)[1..] == rest;
  }

  // What is left to read from the request's cursor on.
  function Left(s: State, auth: Auth, request: SearchRequest): seq<LogRecord>
    requires AllKnown(request.severity) && DecodeCursor(request.cursor).Ok?
  {
    From(Matching(s, auth, request), DecodeCursor(request.cursor).value)
  }

  predicate AllTotal(pages: seq<Page>, total: nat) {
    forall p :: p in pages ==> p.total == total
  }

  lemma CurrentPageSplits(s: State, auth: Auth, request: SearchRequest, limitOverride: Option<int>, settings: Settings)
    requires AllKnown(request.severity) && DecodeCursor(request.cursor).Ok?
    requires PageLimit(request, limitOverride, settings) >= 1
    ensures var page := CurrentPage(s, auth, request, limitOverride, settings);
            var left, limit := Left(s, auth, request), PageLimit(request, limitOverride, settings);
            && page.total == |Matching(s, auth, request)|
            && (page.nextCursor.None? <==> |left| <= limit)
            && page.records == (if |left| <= limit then left else left[..limit])
            && (page.nextCursor.Some? ==>
                  page.nextCursor.value == EncodeCursor(DecodeCursor(request.cursor).value + limit))
  {
    PageSplits(Matching(s, auth, request), DecodeCursor(request.cursor).value,
               PageLimit(request, limitOverride, settings));
    hide Matching, DecodeCursor, EncodeCursor, PageLimit;
  }

  // After a page that is not the last, the search from its cursor has the rest to read.
  lemma NextSearch(s: State, t: State, auth: Auth, request: SearchRequest, limitOverride: Option<int>,
                   settings: Settings)
    requires Permitted(s, auth, request, settings) && DecodeCursor(request.cursor).Ok?
    requires PageLimit(request, limitOverride, settings) >= 1
    requires t == s.(counters := t.counters, audit := t.audit, quota := t.quota)
    requires CurrentPage(s, auth, request, limitOverride, settings).nextCursor.Some?
    ensures var next := request.(cursor := CurrentPage(s, auth, request, limitOverride, settings).nextCursor);
            var left, limit := Left(s, auth, request), PageLimit(request, limitOverride, settings);
            && |left| > limit
            && Permitted(t, auth, next, settings) && DecodeCursor(next.cursor).Ok?
            && Left(t, auth, next) == left[limit..]
            && Matching(t, auth, next) == Matching(s, auth, request)
            && PageLimit(next, limitOverride, settings) == limit
  {
    var cursor := CurrentPage(s, auth, request, limitOverride, settings).nextCursor;
    CurrentPageSplits(s, auth, request, limitOverride, settings);
    CursorRoundTrip(DecodeCursor(request.cursor).value + PageLimit(request, limitOverride, settings));
    StillPermitted(s, t, auth, request, cursor, settings);
    SameMatching(s, t, auth, request, cursor);
    hide CurrentPage, Matching, DecodeCursor, EncodeCursor, CheckSearch, SearchWhere.SourcesOfProject;
  }

  // Following the cursor visits every remaining record once, in order, in as many pages as it takes.
  lemma {:induction false} FollowVisitsAll(s: State, auth: Auth, request: SearchRequest, limitOverride: Option<int>,
                                           day: string, settings: Settings, fuel: nat)
    requires Permitted(s, auth, request, settings)
    requires DecodeCursor(request.cursor).Ok? && PageLimit(request, limitOverride, settings) >= 1
    requires var n := PageCount(|Left(s, auth, request)|, PageLimit(request, limitOverride, settings));
             CanRead(s, auth, day, settings, n) && fuel >= n
    ensures var w := Follow(s, auth, request, limitOverride, day, settings, fuel);
            && w.done && AllRecords(w.pages) == Left(s, auth, request)
            && |w.pages| == PageCount(|Left(s, auth, request)|, PageLimit(request, limitOverride, settings))
            && AllTotal(w.pages, |Matching(s, auth, request)|)
    decreases fuel
  {
    hide CurrentPage, Left, Permitted, CanRead, SearchLogs, Matching, DecodeCursor, AllRecords, Follow;
    hide PageLimit, AllKnown;
    PermittedKnown(s, auth, request, settings);
    var limit, left := PageLimit(request, limitOverride, settings), Left(s, auth, request);
    SearchGivesPage(s, auth, request, limitOverride, day, settings);
    SearchSucceeds(s, auth, request, limitOverride, day, settings, PageCount(|left|, limit));
    FollowOnce(s, auth, request, limitOverride, day, settings, fuel);
    CurrentPageSplits(s, auth, request, limitOverride, settings);
    var t := SearchLogs(s, auth, request, limitOverride, day, settings).0;
    var page := CurrentPage(s, auth, request, limitOverride, settings);
    if page.nextCursor.Some? {
      NextSearch(s, t, auth, request, limitOverride, settings);
      var next := request.(cursor := page.nextCursor);
      FollowVisitsAll(t, auth, next, limitOverride, day, settings, fuel - 1);
      AllOfCons(page, Follow(t, auth, next, limitOverride, day, settings, fuel - 1).pages);
      assert left == left[..limit] + left[limit..];
    } else {
      OnlyPage(page);
    }
  }

  lemma OnlyPage(page: Page)
    ensures AllRecords([page]) == page.records
  {
    assert page.records + AllRecords([]) == page.records;
  }

  lemma PermittedKnown(s: State, auth: Auth, request: SearchRequest, settings: Settings)
    requires Permitted(s, auth, request, settings)
    ensures AllKnown(request.severity)
  {
  }

  // From no cursor: the whole sorted match, in max(1, ceil(total / limit)) pages.
  lemma PagingIsComplete(s: State, auth: Auth, request: SearchRequest, limitOverride: Option<int>,
                         day: string, settings: Settings, fuel: nat)
    requires Permitted(s, auth, request, settings) && request.cursor.None?
    requires PageLimit(request, limitOverride, settings) >= 1
    requires var n := PageCount(|Matching(s, auth, request)|, PageLimit(request, limitOverride, settings));
             CanRead(s, auth, day, settings, n) && fuel >= n
    ensures var w := Follow(s, auth, request, limitOverride, day, settings, fuel);
            var found := SearchWhere.MatchingRecords(auth.key, request, Values(s.logs));
            && w.done
            && |w.pages| == PageCount(|found|, PageLimit(request, limitOverride, settings))
            && multiset(AllRecords(w.pages)) == multiset(found)
            && Sorted(AllRecords(w.pages), request.sort)
            && SameGroups(AllRecords(w.pages), found, request.sort)
  {
    var found := SearchWhere.MatchingRecords(auth.key, request, Values(s.logs));
    SortIsStable(found, request.sort);
    assert |multiset(SortRecords(found, request.sort))| == |multiset(found)|;
    assert Left(s, auth, request) == Matching(s, auth, request);
    hide Permitted, CanRead, Follow, AllRecords, Sorted, SameGroups, DecodeCursor, PageLimit;
    FollowVisitsAll(s, auth, request, limitOverride, day, settings, fuel);
  }

  // With a page size below one the cursor stays at zero: no number of pages is enough, unless the
  // first page already has no cursor.
  lemma {:induction false} NoProgress(s: State, auth: Auth, request: SearchRequest, limitOverride: Option<int>,
                                      day: string, settings: Settings, fuel: nat)
    requires DecodeCursor(request.cursor) == Ok(0) && AllKnown(request.severity)
    requires PageLimit(request, limitOverride, settings) <= 0
    requires PageLimit(request, limitOverride, settings) < |Matching(s, auth, request)|
    ensures !Follow(s, auth, request, limitOverride, day, settings, fuel).done
    decreases fuel
  {
    hide CurrentPage, SearchLogs, Matching, DecodeCursor, Follow, PageLimit, AllKnown;
    if fuel >= 1 && SearchLogs(s, auth, request, limitOverride, day, settings).1.Ok? {
      SearchGivesPage(s, auth, request, limitOverride, day, settings);
      FollowOnce(s, auth, request, limitOverride, day, settings, fuel);
      var t := SearchLogs(s, auth, request, limitOverride, day, settings).0;
      var cursor := Some(EncodeCursor(PageLimit(request, limitOverride, settings)));
      StuckPage(s, auth, request, limitOverride, settings);
      SameMatching(s, t, auth, request, cursor);
      SamePageLimit(request, cursor, limitOverride, settings);
      CursorRoundTrip(PageLimit(request, limitOverride, settings));
      NoProgress(t, auth, request.(cursor := cursor), limitOverride, day, settings, fuel - 1);
    } else {
      NotDone(s, auth, request, limitOverride, day, settings, fuel);
    }
  }

  lemma NotDone(s: State, auth: Auth, request: SearchRequest, limitOverride: Option<int>,
                day: string, settings: Settings, fuel: nat)
    requires fuel == 0 || SearchLogs(s, auth, request, limitOverride, day, settings).1.Err?
    ensures !Follow(s, auth, request, limitOverride, day, settings, fuel).done
  {
    hide SearchLogs;
  }

  lemma StuckPage(s: State, auth: Auth, request: SearchRequest, limitOverride: Option<int>, settings: Settings)
    requires DecodeCursor(request.cursor) == Ok(0) && AllKnown(request.severity)
    requires PageLimit(request, limitOverride, settings) < |Matching(s, auth, request)|
    ensures CurrentPage(s, auth, request, limitOverride, settings).nextCursor
            == Some(EncodeCursor(PageLimit(request, limitOverride, settings)))
  {
    hide DecodeCursor, EncodeCursor, Matching, PageLimit;
  }

  lemma SamePageLimit(request: SearchRequest, cursor: Option<string>, limitOverride: Option<int>, settings: Settings)
    ensures PageLimit(request.(cursor := cursor), limitOverride, settings)
            == PageLimit(request, limitOverride, settings)
  {
  }

  // With read quota for one page, or for all pages when the page size is positive: following the cursor
  // from the start comes to an end exactly when the page size is positive or there is nothing to page through.
  lemma PagingEndsIff(s: State, auth: Auth, request: SearchRequest, limitOverride: Option<int>,
                      day: string, settings: Settings)
    requires Permitted(s, auth, request, settings) && request.cursor.None?
    requires CanRead(s, auth, day, settings, 1)
    requires var limit := PageLimit(request, limitOverride, settings);
             limit >= 1 ==> CanRead(s, auth, day, settings, PageCount(|Matching(s, auth, request)|, limit))
    ensures var limit := PageLimit(request, limitOverride, settings);
            (exists fuel: nat :: Follow(s, auth, request, limitOverride, day, settings, fuel).done)
            <==> limit >= 1 || |Matching(s, auth, request)| <= limit
  {
    var limit := PageLimit(request, limitOverride, settings);
    assert Left(s, auth, request) == Matching(s, auth, request);
    hide CurrentPage, Left, Permitted, CanRead, SearchLogs, Matching, Follow, PageLimit;
    if limit >= 1 {
      var n := PageCount(|Left(s, auth, request)|, limit);
      FollowVisitsAll(s, auth, request, limitOverride, day, settings, n);
    } else if |Matching(s, auth, request)| <= limit {
      NothingToPage(s, auth, request, limitOverride, day, settings);
    } else {
      PermittedKnown(s, auth, request, settings);
      forall fuel: nat
        ensures !Follow(s, auth, request, limitOverride, day, settings, fuel).done
      {
        NoProgress(s, auth, request, limitOverride, day, settings, fuel);
      }
    }
  }

  lemma NothingToPage(s: State, auth: Auth, request: SearchRequest, limitOverride: Option<int>,
                      day: string, settings: Settings)
    requires Permitted(s, auth, request, settings) && request.cursor.None? && CanRead(s, auth, day, settings, 1)
    requires |Matching(s, auth, request)| <= PageLimit(request, limitOverride, settings)
    ensures Follow(s, auth, request, limitOverride, day, settings, 1).done
  {
    hide Permitted, CanRead, SearchLogs, Matching, Follow, PageLimit;
    PermittedKnown(s, auth, request, settings);
    SearchGivesPage(s, auth, request, limitOverride, day, settings);
    SearchSucceeds(s, auth, request, limitOverride, day, settings, 1);
    FollowOnce(s, auth, request, limitOverride, day, settings, 1);
  }
}
