// Reading a persistent search page by page: every page is a query of its own, and each time the database
// may order rows with equal sort columns in another way (PostgresClickHouseStore.search_logs).
module PersistentPaging {
  import opened Records
  import opened Codec
  import opened Severity
  import opened Ids
  import opened StoreModel
  import opened StoreInvariant
  import opened StoreSteps
  import opened PersistentSearch
  import SearchWhere

  ghost predicate Distinct<T(!new)>(s: seq<T>) {
    forall i, j :: 0 <= i < j < |s| ==> s[i] != s[j]
  }

  function Elements<T>(s: seq<T>): set<T> {
    set x | x in s
  }

  // ORDER BY says nothing about two such rows.
  predicate Tied(a: LogRow, b: LogRow, sort: Sort) {
    RowInOrder(a, b, sort) && RowInOrder(b, a, sort)
  }

  // The pages from an offset on; `pick` is the order that the query at each offset got.
  function Pages(pick: nat -> seq<LogRow>, offset: nat, limit: nat, total: nat): seq<LogRow>
    requires limit >= 1
    decreases total - offset
  {
    if offset >= total then []
    else PersistentPage(pick(offset), offset, limit) + Pages(pick, offset + limit, limit, total)
  }

  ghost predicate AllArrange(pick: nat -> seq<LogRow>, rows: seq<LogRow>, sort: Sort) {
    forall offset :: Arranges(pick(offset), rows, sort)
  }

  // No two rows on either side of a page boundary behind the offset tie.
  predicate NoTieAfter(ordered: seq<LogRow>, offset: nat, limit: nat, sort: Sort)
    requires limit >= 1
    decreases |ordered| - offset
  {
    offset + limit < |ordered| ==>
      && !Tied(ordered[offset + limit - 1], ordered[offset + limit], sort)
      && NoTieAfter(ordered, offset + limit, limit, sort)
  }

  // ---------- without a tie the boundary is fixed ----------

  lemma {:induction false} DistinctMultiset<T(!new)>(s: seq<T>)
    requires Distinct(s)
    ensures multiset(s) == multiset(Elements(s)) && |Elements(s)| == |s|
  {
    if s != [] {
      var n := |s| - 1;
      DistinctMultiset(s[..n]);
      assert s == s[..n] + [s[n]];
      assert Elements(s) == Elements(s[..n]) + {s[n]};
      assert s[n] !in s[..n];
    }
  }

  lemma {:induction false} MultisetDistinct<T(!new)>(s: seq<T>, t: seq<T>)
    requires Distinct(s) && multiset(s) == multiset(t)
    ensures Distinct(t)
  {
    DistinctMultiset(s);
    forall i, j | 0 <= i < j < |t|
      ensures t[i] != t[j]
    {
      TwiceIn(t, i, j);
    }
  }

  lemma TwiceIn<T>(t: seq<T>, i: nat, j: nat)
    requires i < j < |t|
    ensures t[i] == t[j] ==> multiset(t)[t[i]] >= 2
  {
    assert t == t[..j] + t[j..];
    assert t[i] in t[..j] && t[j] in t[j..];
  }

  // Where the neighbours do not tie, everything before stands strictly before everything behind.
  lemma StrictAcross(ordered: seq<LogRow>, rows: seq<LogRow>, sort: Sort, b: nat, i: nat, j: nat)
    requires Arranges(ordered, rows, sort) && 0 < b < |ordered| && !Tied(ordered[b - 1], ordered[b], sort)
    requires i < b <= j < |ordered|
    ensures !RowInOrder(ordered[j], ordered[i], sort)
  {
    hide RowInOrder;
    assert i < b - 1 ==> RowInOrder(ordered[i], ordered[b - 1], sort);
    assert b < j ==> RowInOrder(ordered[b], ordered[j], sort);
    assert RowInOrder(ordered[b - 1], ordered[b], sort);
    Chain(ordered[i], ordered[b - 1], ordered[b], ordered[j], sort);
  }

  lemma Chain(a: LogRow, b: LogRow, c: LogRow, d: LogRow, sort: Sort)
    requires (a == b || RowInOrder(a, b, sort)) && (c == d || RowInOrder(c, d, sort)) && !RowInOrder(c, b, sort)
    ensures !RowInOrder(d, a, sort)
  {
  }

  // So every arrangement has the same rows before such a boundary.
  lemma SameBefore(a: seq<LogRow>, b: seq<LogRow>, rows: seq<LogRow>, sort: Sort, n: nat)
    requires Arranges(a, rows, sort) && Arranges(b, rows, sort) && Distinct(rows)
    requires 0 < n < |a| && !Tied(a[n - 1], a[n], sort)
    ensures |a| == |b| && multiset(a[..n]) == multiset(b[..n])
  {
    SameSize(a, b);
    MultisetDistinct(rows, a);
    MultisetDistinct(rows, b);
    DistinctMultiset(a[..n]);
    DistinctMultiset(b[..n]);
    forall i | 0 <= i < n
      ensures b[i] in Elements(a[..n])
    {
      EarlyInBoth(a, b, rows, sort, n, i);
    }
    assert Elements(b[..n]) <= Elements(a[..n]);
    SubsetOfSize(Elements(b[..n]), Elements(a[..n]));
  }

  lemma SubsetOfSize<T>(a: set<T>, b: set<T>)
    requires a <= b && |a| == |b|
    ensures a == b
  {
    assert b == a + (b - a);
  }

  lemma EarlyInBoth(a: seq<LogRow>, b: seq<LogRow>, rows: seq<LogRow>, sort: Sort, n: nat, i: nat)
    requires Arranges(a, rows, sort) && Arranges(b, rows, sort) && Distinct(a) && Distinct(b)
    requires i < n < |a| == |b| && !Tied(a[n - 1], a[n], sort)
    ensures b[i] in Elements(a[..n])
  {
    assert b[i] in multiset(a);
    var j :| 0 <= j < |a| && a[j] == b[i];
    hide Arranges, Tied, Distinct;
    LateInBoth(a, b, rows, sort, n, i, j);
    assert a[j] == a[..n][j];
  }

  lemma LateInBoth(a: seq<LogRow>, b: seq<LogRow>, rows: seq<LogRow>, sort: Sort, n: nat, i: nat, j: nat)
    requires Arranges(a, rows, sort) && Arranges(b, rows, sort) && Distinct(a) && Distinct(b)
    requires 0 < n < |a| == |b| && !Tied(a[n - 1], a[n], sort)
    requires i < |b| && j < |a| && a[j] == b[i]
    ensures n <= j ==> n <= i
  {
    if n <= j {
      forall x | x in Elements(a[..n])
        ensures x in Elements(b[..i])
      {
        var k :| 0 <= k < n && a[k] == x;
        StrictAcross(a, rows, sort, n, k, j);
        assert x in multiset(b);
        var m :| 0 <= m < |b| && b[m] == x;
        StrictIsEarlier(b, rows, sort, m, i);
        assert a[k] != a[j];
        assert b[..i][m] == x;
      }
      DistinctMultiset(a[..n]);
      DistinctMultiset(b[..i]);
      Larger(Elements(a[..n]), Elements(b[..i]));
    }
  }

  lemma StrictIsEarlier(b: seq<LogRow>, rows: seq<LogRow>, sort: Sort, m: nat, i: nat)
    requires Arranges(b, rows, sort) && m < |b| && i < |b| && !RowInOrder(b[i], b[m], sort)
    ensures m <= i
  {
    hide RowInOrder;
  }

  lemma Larger<T>(a: set<T>, b: set<T>)
    requires a <= b
    ensures |a| <= |b|
  {
    assert b == a + (b - a);
  }

  // ---------- complete pages ----------

  function PageEnd(offset: nat, limit: nat, total: nat): nat {
    if offset + limit < total then offset + limit else total
  }

  // Every arrangement has the same rows before a position that splits no tie.
  lemma SamePrefix(a: seq<LogRow>, b: seq<LogRow>, rows: seq<LogRow>, sort: Sort, n: nat)
    requires Arranges(a, rows, sort) && Arranges(b, rows, sort) && Distinct(rows)
    requires n <= |a| && (0 < n < |a| ==> !Tied(a[n - 1], a[n], sort))
    ensures |a| == |b| == |rows| && multiset(a[..n]) == multiset(b[..n])
  {
    SameSize(a, rows);
    SameSize(b, rows);
    if 0 < n < |a| {
      SameBefore(a, b, rows, sort, n);
    }
    assert a[..|a|] == a && b[..|b|] == b && a[..0] == b[..0];
  }

  lemma PageOfSame(a: seq<LogRow>, b: seq<LogRow>, rows: seq<LogRow>, sort: Sort, offset: nat, limit: nat)
    requires Arranges(a, rows, sort) && Arranges(b, rows, sort) && Distinct(rows) && limit >= 1 && offset < |rows|
    requires |a| == |rows| && (0 < offset ==> !Tied(a[offset - 1], a[offset], sort))
    requires offset + limit < |rows| ==> !Tied(a[offset + limit - 1], a[offset + limit], sort)
    ensures multiset(a[..offset]) + multiset(PersistentPage(b, offset, limit))
            == multiset(a[..PageEnd(offset, limit, |rows|)])
  {
    var end := PageEnd(offset, limit, |rows|);
    assert offset <= end <= |rows| && (end < |rows| ==> end == offset + limit);
    hide *;
    SamePrefix(a, b, rows, sort, offset);
    SamePrefix(a, b, rows, sort, end);
    PageIsSlice(b, offset, limit);
    TwoParts(b, offset, end);
  }

  lemma TwoParts<T>(b: seq<T>, m: nat, n: nat)
    requires m <= n <= |b|
    ensures multiset(b[..n]) == multiset(b[..m]) + multiset(b[m..n])
  {
    assert b[..n] == b[..m] + b[m..n];
  }

  lemma {:induction false} PagesComplete(
    pick: nat -> seq<LogRow>, ordered: seq<LogRow>, rows: seq<LogRow>, sort: Sort, offset: nat, limit: nat)
    requires AllArrange(pick, rows, sort) && Arranges(ordered, rows, sort) && Distinct(rows) && limit >= 1
    requires |ordered| == |rows| && offset < |rows| && NoTieAfter(ordered, offset, limit, sort)
    requires 0 < offset ==> !Tied(ordered[offset - 1], ordered[offset], sort)
    ensures multiset(ordered[..offset]) + multiset(Pages(pick, offset, limit, |rows|)) == multiset(ordered)
    decreases |rows| - offset, 1
  {
    PickArranges(pick, rows, sort, offset);
    hide *;
    NoTieNext(ordered, offset, limit, sort);
    PageOfSame(ordered, pick(offset), rows, sort, offset, limit);
    NextPages(pick, offset, limit, |rows|);
    LaterComplete(pick, ordered, rows, sort, offset, limit);
    Assemble(ordered[..offset], PersistentPage(pick(offset), offset, limit),
             Pages(pick, offset + limit, limit, |rows|), ordered[..PageEnd(offset, limit, |rows|)], ordered);
  }

  lemma {:induction false} LaterComplete(
    pick: nat -> seq<LogRow>, ordered: seq<LogRow>, rows: seq<LogRow>, sort: Sort, offset: nat, limit: nat)
    requires AllArrange(pick, rows, sort) && Arranges(ordered, rows, sort) && Distinct(rows) && limit >= 1
    requires |ordered| == |rows| && offset < |rows| && NoTieAfter(ordered, offset, limit, sort)
    ensures PageEnd(offset, limit, |rows|) <= |rows|
    ensures multiset(ordered[..PageEnd(offset, limit, |rows|)])
            + multiset(Pages(pick, offset + limit, limit, |rows|)) == multiset(ordered)
    decreases |rows| - offset, 0
  {
    EndWithin(offset, limit, |rows|);
    hide *;
    NoTieNext(ordered, offset, limit, sort);
    if offset + limit < |rows| {
      PagesComplete(pick, ordered, rows, sort, offset + limit, limit);
    } else {
      NoPages(pick, offset + limit, limit, |rows|);
      assert ordered[..|rows|] == ordered;
    }
  }

  lemma Assemble<T>(before: seq<T>, page: seq<T>, later: seq<T>, upTo: seq<T>, whole: seq<T>)
    requires multiset(before) + multiset(page) == multiset(upTo)
    requires multiset(upTo) + multiset(later) == multiset(whole)
    ensures multiset(before) + multiset(page + later) == multiset(whole)
  {
  }

  lemma EndWithin(offset: nat, limit: nat, total: nat)
    requires offset < total
    ensures PageEnd(offset, limit, total) == if offset + limit < total then offset + limit else total
  {
  }

  lemma PickArranges(pick: nat -> seq<LogRow>, rows: seq<LogRow>, sort: Sort, offset: nat)
    requires AllArrange(pick, rows, sort)
    ensures Arranges(pick(offset), rows, sort)
  {
  }

  lemma NoTieNext(ordered: seq<LogRow>, offset: nat, limit: nat, sort: Sort)
    requires limit >= 1
    ensures NoTieAfter(ordered, offset, limit, sort) <==>
            (offset + limit < |ordered| ==>
               && !Tied(ordered[offset + limit - 1], ordered[offset + limit], sort)
               && NoTieAfter(ordered, offset + limit, limit, sort))
  {
    hide Tied;
  }

  lemma NextPages(pick: nat -> seq<LogRow>, offset: nat, limit: nat, total: nat)
    requires limit >= 1 && offset < total
    ensures Pages(pick, offset, limit, total)
            == PersistentPage(pick(offset), offset, limit) + Pages(pick, offset + limit, limit, total)
  {
    hide PersistentPage;
  }

  lemma NoPages(pick: nat -> seq<LogRow>, offset: nat, limit: nat, total: nat)
    requires limit >= 1 && offset >= total
    ensures Pages(pick, offset, limit, total) == []
  {
  }

  lemma PageIsSlice(b: seq<LogRow>, offset: nat, limit: nat)
    requires limit >= 1 && offset < |b|
    ensures PersistentPage(b, offset, limit) == b[offset..PageEnd(offset, limit, |b|)]
  {
  }

  // ---------- a tie across a boundary ----------

  function Swapped(ordered: seq<LogRow>, b: nat): seq<LogRow>
    requires 0 < b < |ordered|
  {
    ordered[b - 1 := ordered[b]][b := ordered[b - 1]]
  }

  // The order changes for the page that starts at b.
  function SwapAt(ordered: seq<LogRow>, b: nat): nat -> seq<LogRow>
    requires 0 < b < |ordered|
  {
    (offset: nat) => if offset == b then Swapped(ordered, b) else ordered
  }

  lemma SwappedArranges(ordered: seq<LogRow>, rows: seq<LogRow>, sort: Sort, b: nat)
    requires Arranges(ordered, rows, sort) && 0 < b < |ordered| && Tied(ordered[b - 1], ordered[b], sort)
    ensures Arranges(Swapped(ordered, b), rows, sort)
  {
    var t := Swapped(ordered, b);
    assert multiset(t) == multiset(ordered);
    forall i, j | 0 <= i < j < |t|
      ensures RowInOrder(t[i], t[j], sort)
    {
      hide RowInOrder;
      if i == b - 1 && j == b {
        assert RowInOrder(ordered[b], ordered[b - 1], sort);
      } else {
        var k := if i == b - 1 then b else if i == b then b - 1 else i;
        var m := if j == b - 1 then b else if j == b then b - 1 else j;
        assert t[i] == ordered[k] && t[j] == ordered[m] && k < m;
      }
    }
  }

  // A row at the end of one page comes again at the start of the next.
  lemma {:induction false} TiedRowTwice(ordered: seq<LogRow>, offset: nat, limit: nat, sort: Sort) returns (b: nat)
    requires limit >= 1 && !NoTieAfter(ordered, offset, limit, sort)
    ensures offset < b < |ordered| && Tied(ordered[b - 1], ordered[b], sort)
    ensures multiset(Pages(SwapAt(ordered, b), offset, limit, |ordered|))[ordered[b - 1]] >= 2
    decreases |ordered| - offset
  {
    hide *;
    var next := offset + limit;
    NoTieNext(ordered, offset, limit, sort);
    if Tied(ordered[next - 1], ordered[next], sort) {
      b := next;
      TwiceAcross(ordered, offset, limit);
    } else {
      b := TiedRowTwice(ordered, next, limit, sort);
      NextPages(SwapAt(ordered, b), offset, limit, |ordered|);
    }
  }

  lemma TwiceAcross(ordered: seq<LogRow>, offset: nat, limit: nat)
    requires limit >= 1 && offset + limit < |ordered|
    ensures var b := offset + limit;
            multiset(Pages(SwapAt(ordered, b), offset, limit, |ordered|))[ordered[b - 1]] >= 2
  {
    var b := offset + limit;
    var pick, x := SwapAt(ordered, b), ordered[b - 1];
    NextPages(pick, offset, limit, |ordered|);
    NextPages(pick, b, limit, |ordered|);
    PageIsSlice(ordered, offset, limit);
    PageIsSlice(Swapped(ordered, b), b, limit);
    assert ordered[offset..b][limit - 1] == x;
    assert PersistentPage(pick(b), b, limit)[0] == x;
    assert x in PersistentPage(pick(offset), offset, limit) && x in PersistentPage(pick(b), b, limit);
  }

  // For every way of ordering each page's query the pages together are the selected rows, each once, if
  // and only if no two rows on either side of a page boundary tie.
  lemma PagesCompleteIff(ordered: seq<LogRow>, rows: seq<LogRow>, sort: Sort, limit: nat)
    requires Distinct(rows) && Arranges(ordered, rows, sort) && limit >= 1
    ensures (forall pick: nat -> seq<LogRow> :: AllArrange(pick, rows, sort) ==>
               multiset(Pages(pick, 0, limit, |rows|)) == multiset(rows))
            <==> NoTieAfter(ordered, 0, limit, sort)
  {
    SameSize(ordered, rows);
    if NoTieAfter(ordered, 0, limit, sort) {
      forall pick: nat -> seq<LogRow> | AllArrange(pick, rows, sort)
        ensures multiset(Pages(pick, 0, limit, |rows|)) == multiset(rows)
      {
        if rows != [] {
          PagesComplete(pick, ordered, rows, sort, 0, limit);
          assert ordered[..0] == [];
        }
      }
    } else {
      var b := TiedRowTwice(ordered, 0, limit, sort);
      SwapAtArranges(ordered, rows, sort, b);
      DistinctMultiset(rows);
      hide *;
      assert multiset(rows)[ordered[b - 1]] <= 1;
    }
  }

  lemma SwapAtArranges(ordered: seq<LogRow>, rows: seq<LogRow>, sort: Sort, b: nat)
    requires Arranges(ordered, rows, sort) && 0 < b < |ordered| && Tied(ordered[b - 1], ordered[b], sort)
    ensures AllArrange(SwapAt(ordered, b), rows, sort)
  {
    SwappedArranges(ordered, rows, sort, b);
    hide Arranges;
  }

  // ---------- the boundaries, and the rows of a run ----------

  // The boundaries are the multiples of the page size.
  lemma {:induction false} NoTieIff(ordered: seq<LogRow>, offset: nat, limit: nat, sort: Sort)
    requires limit >= 1 && offset % limit == 0
    ensures NoTieAfter(ordered, offset, limit, sort) <==>
            forall b :: offset < b < |ordered| && b % limit == 0 ==> !Tied(ordered[b - 1], ordered[b], sort)
    decreases |ordered| - offset
  {
    hide Tied;
    NextMultiple(offset, limit);
    if offset + limit < |ordered| {
      NoTieIff(ordered, offset + limit, limit, sort);
    }
  }

  lemma NextMultiple(offset: nat, limit: nat)
    requires limit >= 1 && offset % limit == 0
    ensures (offset + limit) % limit == 0
    ensures forall b :: offset < b < offset + limit ==> b % limit != 0
  {
    var k := offset / limit;
    assert offset == k * limit;
    forall b | offset < b < offset + limit
      ensures b % limit != 0
    {
      Remainder(b, k, limit, b - offset);
    }
    assert (k + 1) * limit == offset + limit;
    Remainder(offset + limit, k + 1, limit, 0);
  }

  lemma Remainder(b: nat, k: nat, limit: nat, r: nat)
    requires r < limit && b == k * limit + r
    ensures b % limit == r
  {
    var q := b / limit;
    Distribute(q, k, limit);
    OneMultiple(q - k, limit, r - b % limit);
  }

  lemma Distribute(q: int, k: int, limit: int)
    ensures (q - k) * limit == q * limit - k * limit
  {
  }

  lemma AtLeastOnce(d: int, limit: nat)
    ensures d >= 1 ==> d * limit >= limit
  {
    if d >= 1 {
      Distribute(d, 1, limit);
      assert (d - 1) * limit >= 0;
    }
  }

  lemma OneMultiple(d: int, limit: nat, e: int)
    requires d * limit == e && e < limit && -e < limit
    ensures d == 0
  {
    AtLeastOnce(d, limit);
    AtLeastOnce(-d, limit);
    Distribute(0, d, limit);
  }

  lemma {:induction false} ValueIds(order: seq<string>, at: map<string, LogRecord>)
    requires forall id :: id in order ==> id in at && at[id].id == id
    ensures var records := ValuesAt(order, at);
            |records| == |order| && forall i :: 0 <= i < |order| ==> records[i].id == order[i]
  {
    if order != [] {
      ValueIds(order[..|order| - 1], at);
    }
  }

  lemma {:induction false} InsertedIds(records: seq<LogRecord>)
    ensures var rows := SearchWhere.InsertAll(records);
            |rows| == |records| && forall i :: 0 <= i < |records| ==> rows[i].id == records[i].id
  {
    if records != [] {
      InsertedIds(records[1..]);
    }
  }

  lemma TableDistinct(s: State)
    requires Inv(s)
    ensures Distinct(SearchWhere.InsertAll(Values(s.logs)))
  {
    assert s.logs.Ok() && forall id :: id in s.logs.order ==> s.logs.at[id].id == id;
    ValueIds(s.logs.order, s.logs.at);
    InsertedIds(Values(s.logs));
  }

  lemma {:induction false} SelectedDistinct(key: ApiKey, request: SearchRequest, rows: seq<LogRow>)
    requires AllKnown(request.severity) && Distinct(rows)
    ensures Distinct(SearchWhere.SelectRows(key, request, rows))
    ensures forall row :: row in SearchWhere.SelectRows(key, request, rows) ==> row in rows
  {
    hide SearchWhere.RowSatisfies, AllKnown;
    if rows != [] {
      assert forall i :: 0 < i < |rows| ==> rows[i] != rows[0];
      assert Distinct(rows[1..]);
      SelectedDistinct(key, request, rows[1..]);
      var rest := SearchWhere.SelectRows(key, request, rows[1..]);
      assert [] + rest == rest;
      assert rows[0] !in rest;
    }
  }

  // On the logs of every run: the pages of a persistent search, each in whatever order its query got,
  // together are the selected rows, each once, if and only if no two rows on either side of a multiple of
  // the page size tie.
  lemma PagesCompleteOnRunsIff(commands: seq<Command>, settings: Settings, key: ApiKey, request: SearchRequest,
                               ordered: seq<LogRow>, limit: nat)
    requires AllKnown(request.severity) && limit >= 1
    requires var table := SearchWhere.InsertAll(Values(Run(commands, settings).logs));
             Arranges(ordered, SearchWhere.SelectRows(key, request, table), request.sort)
    ensures var table := SearchWhere.InsertAll(Values(Run(commands, settings).logs));
            var rows := SearchWhere.SelectRows(key, request, table);
            (forall pick: nat -> seq<LogRow> :: AllArrange(pick, rows, request.sort) ==>
               multiset(Pages(pick, 0, limit, |rows|)) == multiset(rows))
            <==> forall b :: 0 < b < |ordered| && b % limit == 0 ==> !Tied(ordered[b - 1], ordered[b], request.sort)
  {
    hide *;
    var table := SearchWhere.InsertAll(Values(Run(commands, settings).logs));
    RunKeepsInv(commands, settings);
    TableDistinct(Run(commands, settings));
    SelectedDistinct(key, request, table);
    PagesCompleteIff(ordered, SearchWhere.SelectRows(key, request, table), request.sort, limit);
    NoTieIff(ordered, 0, limit, request.sort);
  }
}
