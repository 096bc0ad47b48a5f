// Text search does not depend on case, in memory and in the database (record_matches_search and
// clickhouse_like_pattern of panda_trace/log_query.py).
module SearchCase {
  import opened Base
  import opened Text
  import opened IgnoreCase
  import opened Records
  import opened Severity
  import opened Codec
  import opened Query
  import opened SearchWhere

  // ---------- what the text condition of a search is ----------

  // The texts that memory searches, joined by spaces, as they were stored.
  function JoinedText(record: LogRecord): string {
    var e := record.exception;
    JoinWith(TextParts(record.message,
                       if e.Some? then e.value.message else None,
                       if e.Some? then e.value.stacktrace else None), ' ')
  }

  // One of the three columns that the database searches shows the part.
  ghost predicate ColumnReads(record: LogRecord, part: string) {
    var e := record.exception;
    || Reads(record.message, part)
    || Reads(if e.Some? then OrEmpty(e.value.message) else "", part)
    || Reads(if e.Some? then OrEmpty(e.value.stacktrace) else "", part)
  }

  function AnyText(request: SearchRequest): SearchRequest {
    request.(query := None)
  }

  // Memory finds a record if and only if it passes the other tests and its joined text shows the query,
  // in whatever case.
  lemma MatchesTextIff(key: ApiKey, record: LogRecord, request: SearchRequest)
    requires AllKnown(request.severity)
    ensures Matches(key, record, request) <==>
              Matches(key, record, AnyText(request))
              && (Given(request.query) ==> Reads(JoinedText(record), request.query.value))
  {
    if Given(request.query) {
      IncludesIgnoringCaseIff(JoinedText(record), request.query.value);
    }
    assert SearchableText(record) == Lower(JoinedText(record));
    hide Includes, Lower, JoinedText, SearchableText, PyEqual, Reads;
    assert RequestedSources(AnyText(request)) == RequestedSources(request);
  }

  // The database selects its row if and only if it passes the other tests and one column shows the query.
  lemma SelectsTextIff(key: ApiKey, record: LogRecord, request: SearchRequest)
    requires AllKnown(request.severity)
    ensures RowSatisfies(key, request, LogInsertRow(record)) <==>
              RowSatisfies(key, AnyText(request), LogInsertRow(record))
              && (Given(request.query) ==> ColumnReads(record, request.query.value))
  {
    var row := LogInsertRow(record);
    ColumnsRead(record, request);
    SameFields(request, row);
    hide HasQuery, InScope, HasFields, HasAttributes, LogInsertRow, ColumnReads;
    OtherTestsSame(key, request, row);
  }

  lemma ColumnsRead(record: LogRecord, request: SearchRequest)
    ensures HasQuery(request, LogInsertRow(record)) <==>
              (Given(request.query) ==> ColumnReads(record, request.query.value))
  {
    if Given(request.query) {
      var row, q := LogInsertRow(record), request.query.value;
      IncludesIgnoringCaseIff(row.message, q);
      IncludesIgnoringCaseIff(OrEmpty(row.exceptionMessage), q);
      IncludesIgnoringCaseIff(OrEmpty(row.exceptionStacktrace), q);
    }
    hide Contains, Reads, Lower;
  }

  lemma SameFields(request: SearchRequest, row: LogRow)
    ensures HasFields(AnyText(request), OPTIONAL_FIELDS, row) <==> HasFields(request, OPTIONAL_FIELDS, row)
  {
    assert forall f :: RequestField(AnyText(request), f) == RequestField(request, f);
    hide TextColumn;
  }

  lemma OtherTestsSame(key: ApiKey, request: SearchRequest, row: LogRow)
    requires AllKnown(request.severity)
    ensures InScope(key, AnyText(request), row) <==> InScope(key, request, row)
    ensures HasSeverity(AnyText(request), row) <==> HasSeverity(request, row)
    ensures HasQuery(AnyText(request), row)
  {
  }

  // ---------- the case of texts and queries ----------

  predicate SameOptional(a: Option<string>, b: Option<string>) {
    (a.None? && b.None?) || (a.Some? && b.Some? && SameText(a.value, b.value))
  }

  predicate SameException(a: Option<ExceptionInfo>, b: Option<ExceptionInfo>) {
    || (a.None? && b.None?)
    || (&& a.Some? && b.Some? && a.value.kind == b.value.kind
        && SameOptional(a.value.message, b.value.message) && SameOptional(a.value.stacktrace, b.value.stacktrace))
  }

  // The two records differ at most in the case of their searched texts.
  predicate SameRecord(a: LogRecord, b: LogRecord) {
    && b == a.(message := b.message, exception := b.exception)
    && SameText(a.message, b.message) && SameException(a.exception, b.exception)
  }

  // The two requests differ at most in the case of the query.
  predicate SameRequest(a: SearchRequest, b: SearchRequest) {
    b == a.(query := b.query) && SameOptional(a.query, b.query)
  }

  lemma JoinedSame(a: LogRecord, b: LogRecord)
    requires SameRecord(a, b)
    ensures SameText(JoinedText(a), JoinedText(b))
  {
    var x, y := JoinedText(a), JoinedText(b);
    var p := TextParts(a.message, if a.exception.Some? then a.exception.value.message else None,
                       if a.exception.Some? then a.exception.value.stacktrace else None);
    var q := TextParts(b.message, if b.exception.Some? then b.exception.value.message else None,
                       if b.exception.Some? then b.exception.value.stacktrace else None);
    assert |p| == |q| && forall i :: 0 <= i < |p| ==> SameText(p[i], q[i]);
    JoinSame(p, q, ' ');
  }

  lemma {:induction false} JoinSame(p: seq<string>, q: seq<string>, sep: char)
    requires |p| == |q| && forall i :: 0 <= i < |p| ==> SameText(p[i], q[i])
    ensures SameText(JoinWith(p, sep), JoinWith(q, sep))
  {
    if |p| > 1 {
      JoinSame(p[1..], q[1..], sep);
      SameTextConcat(p[0] + [sep], q[0] + [sep], JoinWith(p[1..], sep), JoinWith(q[1..], sep));
    }
  }

  // Changing the case of the query and of the searched texts changes the result of neither back end.
  lemma CaseDoesNotMatter(key: ApiKey, record: LogRecord, other: LogRecord, request: SearchRequest,
                          asked: SearchRequest)
    requires AllKnown(request.severity) && SameRecord(record, other) && SameRequest(request, asked)
    ensures AllKnown(asked.severity)
    ensures Matches(key, record, request) <==> Matches(key, other, asked)
    ensures RowSatisfies(key, request, LogInsertRow(record)) <==> RowSatisfies(key, asked, LogInsertRow(other))
  {
    MatchesTextIff(key, record, request);
    MatchesTextIff(key, other, asked);
    SelectsTextIff(key, record, request);
    SelectsTextIff(key, other, asked);
    assert AnyText(request) == AnyText(asked);
    TextlessMatches(key, record, other, AnyText(request));
    TextlessSelects(key, record, other, AnyText(request));
    GivenSame(request, asked);
    hide Matches, RowSatisfies, LogInsertRow, JoinedText, ColumnReads, SameText, Reads;
    if Given(request.query) {
      JoinedSame(record, other);
      ReadsSame(JoinedText(record), JoinedText(other), request.query.value, asked.query.value);
      ColumnsSame(record, other, request.query.value, asked.query.value);
    }
  }

  lemma GivenSame(request: SearchRequest, asked: SearchRequest)
    requires SameRequest(request, asked)
    ensures Given(request.query) <==> Given(asked.query)
    ensures Given(request.query) ==> SameText(request.query.value, asked.query.value)
  {
  }

  lemma ColumnsSame(record: LogRecord, other: LogRecord, part: string, asked: string)
    requires SameRecord(record, other) && SameText(part, asked)
    ensures ColumnReads(record, part) <==> ColumnReads(other, asked)
  {
    var e, f := record.exception, other.exception;
    ReadsSame(record.message, other.message, part, asked);
    ReadsSame(if e.Some? then OrEmpty(e.value.message) else "", if f.Some? then OrEmpty(f.value.message) else "",
              part, asked);
    ReadsSame(if e.Some? then OrEmpty(e.value.stacktrace) else "",
              if f.Some? then OrEmpty(f.value.stacktrace) else "", part, asked);
    hide Reads, SameText;
  }

  lemma TextlessMatches(key: ApiKey, record: LogRecord, other: LogRecord, request: SearchRequest)
    requires AllKnown(request.severity) && request.query == None && SameRecord(record, other)
    ensures Matches(key, record, request) <==> Matches(key, other, request)
  {
    hide Includes, SearchableText, PyEqual, SameText;
  }

  lemma TextlessSelects(key: ApiKey, record: LogRecord, other: LogRecord, request: SearchRequest)
    requires AllKnown(request.severity) && request.query == None && SameRecord(record, other)
    ensures RowSatisfies(key, request, LogInsertRow(record)) <==> RowSatisfies(key, request, LogInsertRow(other))
  {
    var row, next := LogInsertRow(record), LogInsertRow(other);
    assert next == row.(message := next.message, exceptionMessage := next.exceptionMessage,
                        exceptionStacktrace := next.exceptionStacktrace);
    assert forall f :: f in OPTIONAL_FIELDS ==> TextColumn(row, f) == TextColumn(next, f);
    hide SameText, LogInsertRow, RequestField, JsonValue;
  }

  // A record whose message holds the query, in any case and between any other texts, is found by both.
  lemma FoundInAnyCase(key: ApiKey, record: LogRecord, request: SearchRequest, before: string, shown: string,
                       after: string)
    requires AllKnown(request.severity) && Given(request.query) && SameText(shown, request.query.value)
    requires record.message == before + shown + after
    ensures Matches(key, record, AnyText(request)) ==> Matches(key, record, request)
    ensures RowSatisfies(key, AnyText(request), LogInsertRow(record)) ==>
              RowSatisfies(key, request, LogInsertRow(record))
  {
    var q := request.query.value;
    ReadsWithin(before, shown, after, q);
    SelectsTextIff(key, record, request);
    MatchesTextIff(key, record, request);
    var e := if record.exception.Some? then record.exception.value.message else None;
    var t := if record.exception.Some? then record.exception.value.stacktrace else None;
    IncludesIgnoringCaseIff(record.message, q);
    ColumnImpliesJoined(record.message, e, t, Lower(q));
    IncludesIgnoringCaseIff(JoinedText(record), q);
  }
}
