// The translation of a search request into SQL clauses and bound parameters
// (PostgresClickHouseStore._search_where and _validate_search_request).
module SearchWhere {
  import opened Base
  import opened Text
  import opened Records
  import opened Severity
  import opened Codec
  import opened Query
  import Like

  datatype Param = PText(text: string) | PTime(time: int) | PTexts(texts: seq<string>)

  // The shapes of clause the translation emits. Names in `param` positions are looked up in the
  // parameter map when the clause is evaluated.
  datatype Clause =
    | TextEquals(column: string, param: string)
    | TimestampFrom(param: string)
    | TimestampTo(param: string)
    | TextIn(column: string, param: string)
    | AnyTextLike(param: string)
    | JsonEquals(pathParam: string, param: string)

  type Params = map<string, Param>

  // A text column of a row; None is SQL NULL.
  function TextColumn(row: LogRow, column: string): Option<string> {
    if column == "org_id" then Some(row.orgId)
    else if column == "project_id" then Some(row.projectId)
    else if column == "source_id" then Some(row.sourceId)
    else if column == "severity" then Some(row.severity)
    else if column == "trace_id" then row.traceId
    else if column == "span_id" then row.spanId
    else if column == "request_id" then row.requestId
    else if column == "logger" then row.logger
    else None
  }

  predicate IsText(params: Params, name: string) {
    name in params && params[name].PText?
  }

  // Whether a clause selects a row. A comparison with NULL does not select.
  predicate Holds(clause: Clause, params: Params, row: LogRow) {
    match clause
    case TextEquals(column, p) => IsText(params, p) && TextColumn(row, column) == Some(params[p].text)
    case TimestampFrom(p) => p in params && params[p].PTime? && row.timestamp >= params[p].time
    case TimestampTo(p) => p in params && params[p].PTime? && row.timestamp <= params[p].time
    case TextIn(column, p) =>
      && p in params && params[p].PTexts? && TextColumn(row, column).Some?
      && TextColumn(row, column).value in params[p].texts
    case AnyTextLike(p) =>
      IsText(params, p) &&
      (|| Like.Matches(params[p].text, Lower(row.message))
       || Like.Matches(params[p].text, Lower(OrEmpty(row.exceptionMessage)))
       || Like.Matches(params[p].text, Lower(OrEmpty(row.exceptionStacktrace))))
    case JsonEquals(q, p) =>
      IsText(params, q) && IsText(params, p) && JsonValue(row.attributes, params[q].text) == Some(params[p].text)
  }

  predicate HoldsAll(where: seq<Clause>, params: Params, row: LogRow) {
    forall c :: c in where ==> Holds(c, params, row)
  }

  function ParamsOf(clause: Clause): set<string> {
    match clause
    case TextEquals(_, p) => {p}
    case TimestampFrom(p) => {p}
    case TimestampTo(p) => {p}
    case TextIn(_, p) => {p}
    case AnyTextLike(p) => {p}
    case JsonEquals(q, p) => {q, p}
  }

  // Every parameter a clause names is bound.
  predicate Bound(where: seq<Clause>, params: Params) {
    forall c :: c in where ==> ParamsOf(c) <= params.Keys
  }

  // A new clause with its own new bindings narrows the selection by exactly that clause.
  lemma AddClause(where: seq<Clause>, params: Params, clause: Clause, extra: Params)
    requires Bound(where, params) && params.Keys !! extra.Keys
    requires ParamsOf(clause) <= extra.Keys
    ensures Bound(where + [clause], params + extra)
    ensures |params + extra| == |params| + |extra|
    ensures forall row :: HoldsAll(where + [clause], params + extra, row)
                          <==> HoldsAll(where, params, row) && Holds(clause, extra, row)
  {
    assert (params + extra).Keys == params.Keys + extra.Keys;
    assert |params.Keys + extra.Keys| == |params.Keys| + |extra.Keys|;
    forall row
      ensures HoldsAll(where + [clause], params + extra, row)
              <==> HoldsAll(where, params, row) && Holds(clause, extra, row)
    {
      OneMoreHolds(where, params, clause, extra, row);
    }
  }

  lemma OneMoreHolds(where: seq<Clause>, params: Params, clause: Clause, extra: Params, row: LogRow)
    requires Bound(where, params) && params.Keys !! extra.Keys
    requires ParamsOf(clause) <= extra.Keys
    ensures HoldsAll(where + [clause], params + extra, row)
            <==> HoldsAll(where, params, row) && Holds(clause, extra, row)
  {
    forall c | c in where
      ensures Holds(c, params + extra, row) <==> Holds(c, params, row)
    {
      KeepsMeaning(c, params, extra, row);
    }
    OwnMeaning(clause, params, extra, row);
    hide Holds, ParamsOf;
    assert clause in where + [clause];
  }

  lemma OwnMeaning(clause: Clause, params: Params, extra: Params, row: LogRow)
    requires ParamsOf(clause) <= extra.Keys
    ensures Holds(clause, params + extra, row) <==> Holds(clause, extra, row)
  {
    assert forall p :: p in ParamsOf(clause) ==> (params + extra)[p] == extra[p];
  }

  lemma KeepsMeaning(clause: Clause, params: Params, extra: Params, row: LogRow)
    requires ParamsOf(clause) <= params.Keys && params.Keys !! extra.Keys
    ensures Holds(clause, params + extra, row) <==> Holds(clause, params, row)
  {
    assert forall p :: p in ParamsOf(clause) ==> (params + extra)[p] == params[p];
  }

  // The clauses select exactly the given rows and `size` parameters are bound.
  ghost predicate Selects(where: seq<Clause>, params: Params, size: nat, rows: iset<LogRow>) {
    Bound(where, params) && |params| == size && forall row :: HoldsAll(where, params, row) <==> row in rows
  }

  lemma SelectsExactly(where: seq<Clause>, params: Params, size: nat, rows: iset<LogRow>)
    requires Selects(where, params, size, rows)
    ensures Bound(where, params) && |params| == size
    ensures forall row :: HoldsAll(where, params, row) <==> row in rows
  {
  }

  lemma NarrowByOne(where: seq<Clause>, params: Params, size: nat, rows: iset<LogRow>,
                    clause: Clause, name: string, value: Param, more: iset<LogRow>)
    requires Selects(where, params, size, rows)
    requires name !in params && ParamsOf(clause) == {name}
    requires forall row :: Holds(clause, map[name := value], row) <==> row in more
    ensures Selects(where + [clause], params[name := value], size + 1, rows * more)
  {
    hide Selects, Holds;
    var extra := map[name := value];
    assert extra.Keys == {name} && |extra| == 1;
    NarrowSelection(where, params, size, rows, clause, extra, more);
    assert params + extra == params[name := value];
  }

  lemma NarrowSelection(where: seq<Clause>, params: Params, size: nat, rows: iset<LogRow>,
                        clause: Clause, extra: Params, more: iset<LogRow>)
    requires Selects(where, params, size, rows)
    requires params.Keys !! extra.Keys && ParamsOf(clause) <= extra.Keys
    requires forall row :: Holds(clause, extra, row) <==> row in more
    ensures Selects(where + [clause], params + extra, size + |extra|, rows * more)
  {
    AddClause(where, params, clause, extra);
  }

  // ---------- what the selection means ----------

  function SourceFilter(key: ApiKey, request: SearchRequest): seq<string> {
    if request.sources != [] then request.sources else key.sourceIds
  }

  const OPTIONAL_FIELDS := ["trace_id", "span_id", "request_id", "logger"]

  function RequestField(request: SearchRequest, field: string): Option<string> {
    if field == "trace_id" then request.traceId
    else if field == "span_id" then request.spanId
    else if field == "request_id" then request.requestId
    else if field == "logger" then request.logger
    else None
  }

  predicate InScope(key: ApiKey, request: SearchRequest, row: LogRow) {
    && row.orgId == key.orgId && row.projectId == request.projectId
    && request.from <= row.timestamp <= request.to
    && (SourceFilter(key, request) != [] ==> row.sourceId in SourceFilter(key, request))
  }

  predicate HasSeverity(request: SearchRequest, row: LogRow)
    requires AllKnown(request.severity)
  {
    request.severity != [] ==> row.severity in NormalizedSet(request.severity)
  }

  predicate HasFields(request: SearchRequest, fields: seq<string>, row: LogRow) {
    forall f :: f in fields ==> MatchesOptional(RequestField(request, f), TextColumn(row, f))
  }

  ghost predicate HasQuery(request: SearchRequest, row: LogRow) {
    Given(request.query) ==>
      InSomeColumn(row.message, row.exceptionMessage, row.exceptionStacktrace, Lower(request.query.value))
  }

  predicate HasAttributes(attributes: seq<Field>, row: LogRow) {
    forall f :: f in attributes ==> JsonValue(row.attributes, JsonPath(f.key)) == Some(PyStr(f.value))
  }

  // The selection in terms of the row's columns.
  ghost predicate RowSatisfies(key: ApiKey, request: SearchRequest, row: LogRow)
    requires AllKnown(request.severity)
  {
    && InScope(key, request, row)
    && HasSeverity(request, row)
    && HasFields(request, OPTIONAL_FIELDS, row)
    && HasQuery(request, row)
    && HasAttributes(request.attributes, row)
  }

  function GivenFields(request: SearchRequest, fields: seq<string>): nat {
    if fields == [] then 0
    else GivenFields(request, fields[..|fields| - 1])
         + if Given(RequestField(request, fields[|fields| - 1])) then 1 else 0
  }

  // ---------- parameter names ----------

  function ValueName(index: nat): string {
    "attr_" + Decimal(index)
  }

  function PathName(index: nat): string {
    "attr_path_" + Decimal(index)
  }

  predicate NamedBefore(name: string, n: nat) {
    || (name != "" && name[0] != 'a')
    || (exists i | 0 <= i < n :: name == ValueName(i) || name == PathName(i))
  }

  lemma AttributeNamesFresh(n: nat)
    ensures !NamedBefore(ValueName(n), n) && !NamedBefore(PathName(n), n)
    ensures ValueName(n) != PathName(n)
  {
    ValueIsNotPath(n, n);
    forall i | 0 <= i < n
      ensures ValueName(i) != ValueName(n) && PathName(i) != PathName(n)
      ensures ValueName(i) != PathName(n) && PathName(i) != ValueName(n)
    {
      ValueIsNotPath(i, n);
      ValueIsNotPath(n, i);
      assert ValueName(i)[5..] == Decimal(i) && ValueName(n)[5..] == Decimal(n);
      assert PathName(i)[10..] == Decimal(i) && PathName(n)[10..] == Decimal(n);
      if Decimal(i) == Decimal(n) {
        DecimalInjective(i, n);
      }
    }
  }

  lemma ValueIsNotPath(i: nat, j: nat)
    ensures ValueName(i) != PathName(j)
  {
    assert ValueName(i)[5] == Decimal(i)[0] && PathName(j)[5] == 'p';
    assert IsDigit(Decimal(i)[0]);
  }

  // ---------- the translation ----------

  ghost function RowsInScope(key: ApiKey, request: SearchRequest): iset<LogRow> {
    iset row | InScope(key, request, row)
  }

  ghost function RowsWithSeverity(request: SearchRequest): iset<LogRow>
    requires AllKnown(request.severity)
  {
    iset row | HasSeverity(request, row)
  }

  ghost function RowsWithQuery(request: SearchRequest): iset<LogRow> {
    iset row | HasQuery(request, row)
  }

  const SCOPE_NAMES := {"org_id", "project_id", "from", "to", "source_ids"}

  // The four fixed clauses and the optional source filter.
  method ScopeClauses(key: ApiKey, request: SearchRequest) returns (where: seq<Clause>, params: Params)
    ensures params.Keys <= SCOPE_NAMES
    ensures Selects(where, params, 4 + (if SourceFilter(key, request) != [] then 1 else 0), RowsInScope(key, request))
  {
    hide *;
    where := [TextEquals("org_id", "org_id"), TextEquals("project_id", "project_id"),
              TimestampFrom("from"), TimestampTo("to")];
    params := map["org_id" := PText(key.orgId), "project_id" := PText(request.projectId),
                  "from" := PTime(request.from), "to" := PTime(request.to)];
    FourClauses(key, request, where, params);
    var sourceFilter := if request.sources != [] then request.sources else key.sourceIds;
    ScopeRows(key, request, sourceFilter);
    if sourceFilter != [] {
      SourceClause(sourceFilter);
      NarrowByOne(where, params, 4, RowsOfProject(key, request), TextIn("source_id", "source_ids"), "source_ids",
                  PTexts(sourceFilter), RowsOfSources(sourceFilter));
      where := where + [TextIn("source_id", "source_ids")];
      params := params["source_ids" := PTexts(sourceFilter)];
    }
  }

  ghost function RowsOfProject(key: ApiKey, request: SearchRequest): iset<LogRow> {
    iset row: LogRow | row.orgId == key.orgId && row.projectId == request.projectId
                       && request.from <= row.timestamp <= request.to
  }

  ghost function RowsOfSources(sources: seq<string>): iset<LogRow> {
    iset row: LogRow | row.sourceId in sources
  }

  lemma ScopeRows(key: ApiKey, request: SearchRequest, sources: seq<string>)
    requires sources == if request.sources != [] then request.sources else key.sourceIds
    ensures sources == SourceFilter(key, request)
    ensures RowsInScope(key, request) ==
            if sources == [] then RowsOfProject(key, request) else RowsOfProject(key, request) * RowsOfSources(sources)
  {
  }

  lemma SourceClause(sources: seq<string>)
    ensures ParamsOf(TextIn("source_id", "source_ids")) == {"source_ids"} <= SCOPE_NAMES
    ensures forall row :: Holds(TextIn("source_id", "source_ids"), map["source_ids" := PTexts(sources)], row)
                          <==> row in RowsOfSources(sources)
  {
  }

  lemma FourClauses(key: ApiKey, request: SearchRequest, where: seq<Clause>, params: Params)
    requires where == [TextEquals("org_id", "org_id"), TextEquals("project_id", "project_id"),
                       TimestampFrom("from"), TimestampTo("to")]
    requires params == map["org_id" := PText(key.orgId), "project_id" := PText(request.projectId),
                           "from" := PTime(request.from), "to" := PTime(request.to)]
    ensures params.Keys <= SCOPE_NAMES - {"source_ids"}
    ensures Selects(where, params, 4, RowsOfProject(key, request))
  {
    assert params.Keys == {"org_id", "project_id", "from", "to"};
    forall row
      ensures HoldsAll(where, params, row) <==> row in RowsOfProject(key, request)
    {
      assert HoldsAll(where, params, row) <==>
             Holds(where[0], params, row) && Holds(where[1], params, row)
             && Holds(where[2], params, row) && Holds(where[3], params, row);
    }
  }

  method NormalizeAll(values: seq<string>) returns (r: Result<seq<string>>)
    ensures r.Ok? <==> AllKnown(values)
    ensures r.Err? ==> r.error == BadRequest("invalid_severity")
    ensures r.Ok? ==>
              && |r.value| == |values|
              && forall i :: 0 <= i < |values| ==> NormalizeSeverity(values[i]) == Ok(r.value[i])
    ensures r.Ok? ==> forall s :: s in r.value <==> s in NormalizedSet(values)
  {
    var names: seq<string> := [];
    for n := 0 to |values|
      invariant AllKnown(values[..n])
      invariant |names| == n && forall i :: 0 <= i < n ==> NormalizeSeverity(values[i]) == Ok(names[i])
      invariant forall s :: s in names <==> s in NormalizedSet(values[..n])
    {
      assert values[..n + 1] == values[..n] + [values[n]];
      assert values[n] in values;
      var name :- NormalizeSeverity(values[n]);
      names := names + [name];
    }
    assert values[..|values|] == values;
    r := Ok(names);
  }

  ghost function RowsWithFields(request: SearchRequest, fields: seq<string>): iset<LogRow> {
    iset row | HasFields(request, fields, row)
  }

  // One equality per optional field that the request gives.
  method FieldClauses(request: SearchRequest, fields: seq<string>, where0: seq<Clause>, params0: Params,
                      ghost size: nat, ghost rows: iset<LogRow>)
    returns (where: seq<Clause>, params: Params)
    requires Selects(where0, params0, size, rows) && (forall f :: f in fields ==> f !in params0)
    requires forall i, j :: 0 <= i < j < |fields| ==> fields[i] != fields[j]
    ensures forall p :: p in params ==> p in params0 || p in fields
    ensures Selects(where, params, size + GivenFields(request, fields), rows * RowsWithFields(request, fields))
  {
    hide *;
    where, params := where0, params0;
    NoFields(request, rows);
    assert fields[..0] == [];
    for n := 0 to |fields|
      invariant forall p :: p in params ==> p in params0 || p in fields[..n]
      invariant Selects(where, params, size + GivenFields(request, fields[..n]),
                        rows * RowsWithFields(request, fields[..n]))
    {
      var field := fields[n];
      var value := RequestField(request, field);
      GivenMeans(value);
      if value.Some? && value.value != "" {
        FieldStep(request, fields, n, where, params, size, rows);
        where := where + [TextEquals(field, field)];
        params := params[field := PText(value.value)];
      } else {
        OneMoreField(request, fields, n, rows);
      }
      assert fields[..n + 1] == fields[..n] + [field];
    }
    assert fields[..|fields|] == fields;
  }

  lemma FieldStep(request: SearchRequest, fields: seq<string>, n: nat, where: seq<Clause>, params: Params,
                  size: nat, rows: iset<LogRow>)
    requires n < |fields| && fields[n] !in params && Given(RequestField(request, fields[n]))
    requires Selects(where, params, size + GivenFields(request, fields[..n]),
                     rows * RowsWithFields(request, fields[..n]))
    ensures var f := fields[n];
            Selects(where + [TextEquals(f, f)], params[f := PText(RequestField(request, f).value)],
                    size + GivenFields(request, fields[..n + 1]), rows * RowsWithFields(request, fields[..n + 1]))
  {
    hide Selects, Holds, GivenFields, RowsWithFields, RequestField;
    var f := fields[n];
    OneMoreField(request, fields, n, rows);
    FieldClause(request, f);
    NarrowByOne(where, params, size + GivenFields(request, fields[..n]), rows * RowsWithFields(request, fields[..n]),
                TextEquals(f, f), f, PText(RequestField(request, f).value), RowsWithFields(request, [f]));
  }

  lemma GivenMeans(s: Option<string>)
    ensures Given(s) <==> s.Some? && s.value != ""
  {
  }

  lemma NoFields(request: SearchRequest, rows: iset<LogRow>)
    ensures GivenFields(request, []) == 0 && rows * RowsWithFields(request, []) == rows
  {
  }

  lemma FieldClause(request: SearchRequest, field: string)
    requires Given(RequestField(request, field))
    ensures var extra := map[field := PText(RequestField(request, field).value)];
            forall row :: Holds(TextEquals(field, field), extra, row) <==> row in RowsWithFields(request, [field])
  {
  }

  lemma OneMoreField(request: SearchRequest, fields: seq<string>, n: nat, rows: iset<LogRow>)
    requires n < |fields|
    ensures var given := Given(RequestField(request, fields[n]));
            && GivenFields(request, fields[..n + 1]) == GivenFields(request, fields[..n]) + (if given then 1 else 0)
            && rows * RowsWithFields(request, fields[..n + 1])
               == if given then rows * RowsWithFields(request, fields[..n]) * RowsWithFields(request, [fields[n]])
                  else rows * RowsWithFields(request, fields[..n])
  {
    var before, after := fields[..n], fields[..n + 1];
    assert after == before + [fields[n]] && after[..n] == before;
    forall row
      ensures HasFields(request, after, row)
              <==> HasFields(request, before, row) && HasFields(request, [fields[n]], row)
    {
      assert fields[n] in after;
    }
  }

  ghost function RowsWithAttributes(attributes: seq<Field>): iset<LogRow> {
    iset row | HasAttributes(attributes, row)
  }

  function AttributeParams(field: Field, n: nat): (extra: Params)
    ensures extra.Keys == {PathName(n), ValueName(n)} && |extra| == 2
  {
    ValueIsNotPath(n, n);
    var extra := map[PathName(n) := PText(JsonPath(field.key)), ValueName(n) := PText(PyStr(field.value))];
    assert extra.Keys == {PathName(n), ValueName(n)};
    assert |extra.Keys| == 2;
    extra
  }

  // Two parameters per attribute filter: its path and its printed value.
  method AttributeClauses(attributes: seq<Field>, where0: seq<Clause>, params0: Params,
                          ghost size: nat, ghost rows: iset<LogRow>)
    returns (where: seq<Clause>, params: Params)
    requires Selects(where0, params0, size, rows) && AllNamedBefore(params0, 0)
    ensures Selects(where, params, size + 2 * |attributes|, rows * RowsWithAttributes(attributes))
  {
    hide *;
    where, params := where0, params0;
    NoAttributes(rows);
    assert attributes[..0] == [];
    for n := 0 to |attributes|
      invariant AllNamedBefore(params, n)
      invariant Selects(where, params, size + 2 * n, rows * RowsWithAttributes(attributes[..n]))
    {
      AttributeStep(attributes, n, where, params, size, rows);
      where := where + [JsonEquals(PathName(n), ValueName(n))];
      params := params[PathName(n) := PText(JsonPath(attributes[n].key))];
      params := params[ValueName(n) := PText(PyStr(attributes[n].value))];
    }
    assert attributes[..|attributes|] == attributes;
  }

  predicate AllNamedBefore(params: Params, n: nat) {
    forall p :: p in params ==> NamedBefore(p, n)
  }

  lemma AttributeStep(attributes: seq<Field>, n: nat, where: seq<Clause>, params: Params, size: nat, rows: iset<LogRow>)
    requires n < |attributes| && AllNamedBefore(params, n)
    requires Selects(where, params, size + 2 * n, rows * RowsWithAttributes(attributes[..n]))
    ensures var f := attributes[n];
            var bound := params[PathName(n) := PText(JsonPath(f.key))][ValueName(n) := PText(PyStr(f.value))];
            && AllNamedBefore(bound, n + 1)
            && Selects(where + [JsonEquals(PathName(n), ValueName(n))], bound,
                       size + 2 * (n + 1), rows * RowsWithAttributes(attributes[..n + 1]))
  {
    hide *;
    var f := attributes[n];
    AttributeBindings(params, f, n);
    AttributeClause(attributes, n, rows);
    NarrowSelection(where, params, size + 2 * n, rows * RowsWithAttributes(attributes[..n]),
                    JsonEquals(PathName(n), ValueName(n)), AttributeParams(f, n), RowsWithAttributes([f]));
  }

  lemma AttributeBindings(params: Params, f: Field, n: nat)
    requires AllNamedBefore(params, n)
    ensures params.Keys !! AttributeParams(f, n).Keys
    ensures ParamsOf(JsonEquals(PathName(n), ValueName(n))) <= AttributeParams(f, n).Keys
    ensures params + AttributeParams(f, n)
            == params[PathName(n) := PText(JsonPath(f.key))][ValueName(n) := PText(PyStr(f.value))]
    ensures AllNamedBefore(params + AttributeParams(f, n), n + 1)
  {
    hide *;
    NewNamesNotBound(params, f, n);
    AttributeParamNames(f, n);
    TwoBindings(params, f, n);
    StillNamedBefore(params, f, n);
  }

  lemma NewNamesNotBound(params: Params, f: Field, n: nat)
    requires AllNamedBefore(params, n)
    ensures params.Keys !! AttributeParams(f, n).Keys
  {
    hide NamedBefore, PathName, ValueName, AttributeParams;
    AttributeNamesFresh(n);
  }

  lemma AttributeParamNames(f: Field, n: nat)
    ensures ParamsOf(JsonEquals(PathName(n), ValueName(n))) <= AttributeParams(f, n).Keys
  {
    hide PathName, ValueName, AttributeParams;
  }

  lemma TwoBindings(params: Params, f: Field, n: nat)
    ensures params + AttributeParams(f, n)
            == params[PathName(n) := PText(JsonPath(f.key))][ValueName(n) := PText(PyStr(f.value))]
  {
    ValueIsNotPath(n, n);
    hide PathName, ValueName, JsonPath, PyStr;
  }

  lemma StillNamedBefore(params: Params, f: Field, n: nat)
    requires AllNamedBefore(params, n)
    ensures AllNamedBefore(params + AttributeParams(f, n), n + 1)
  {
    hide NamedBefore, PathName, ValueName, AttributeParams;
    NamesGrow(n);
  }

  lemma NoAttributes(rows: iset<LogRow>)
    ensures rows * RowsWithAttributes([]) == rows
  {
  }

  lemma AttributeClause(attributes: seq<Field>, n: nat, rows: iset<LogRow>)
    requires n < |attributes|
    ensures forall row :: Holds(JsonEquals(PathName(n), ValueName(n)), AttributeParams(attributes[n], n), row)
                          <==> row in RowsWithAttributes([attributes[n]])
    ensures rows * RowsWithAttributes(attributes[..n + 1])
            == rows * RowsWithAttributes(attributes[..n]) * RowsWithAttributes([attributes[n]])
  {
    hide *;
    OneAttribute(attributes[n], n);
    OneMoreAttribute(attributes, n, rows);
  }

  lemma OneAttribute(f: Field, n: nat)
    ensures forall row :: Holds(JsonEquals(PathName(n), ValueName(n)), AttributeParams(f, n), row)
                          <==> row in RowsWithAttributes([f])
  {
    ValueIsNotPath(n, n);
    hide JsonValue, JsonPath, PyStr, PathName, ValueName;
    forall row
      ensures HasAttributes([f], row) <==> JsonValue(row.attributes, JsonPath(f.key)) == Some(PyStr(f.value))
    {
      assert f in [f];
    }
    hide HasAttributes;
  }

  lemma OneMoreAttribute(attributes: seq<Field>, n: nat, rows: iset<LogRow>)
    requires n < |attributes|
    ensures rows * RowsWithAttributes(attributes[..n + 1])
            == rows * RowsWithAttributes(attributes[..n]) * RowsWithAttributes([attributes[n]])
  {
    hide JsonValue, JsonPath, PyStr;
    var before, after := attributes[..n], attributes[..n + 1];
    assert after == before + [attributes[n]];
    forall row
      ensures HasAttributes(after, row) <==> HasAttributes(before, row) && HasAttributes([attributes[n]], row)
    {
      assert attributes[n] in after;
    }
    hide HasAttributes;
  }

  lemma NamesGrow(n: nat)
    ensures forall p :: NamedBefore(p, n) ==> NamedBefore(p, n + 1)
    ensures NamedBefore(ValueName(n), n + 1) && NamedBefore(PathName(n), n + 1)
  {
  }

  lemma LikeIsQuery(request: SearchRequest)
    requires Given(request.query)
    ensures ParamsOf(AnyTextLike("query_like")) == {"query_like"}
    ensures var params := map["query_like" := PText(Like.QueryPattern(request.query.value))];
            forall row :: Holds(AnyTextLike("query_like"), params, row) <==> row in RowsWithQuery(request)
  {
    hide Like.QueryPattern, Like.Matches;
    var q := request.query.value;
    var params := map["query_like" := PText(Like.QueryPattern(q))];
    forall row
      ensures Holds(AnyTextLike("query_like"), params, row) <==> HasQuery(request, row)
    {
      Like.QueryPatternExact(q, Lower(row.message));
      Like.QueryPatternExact(q, Lower(OrEmpty(row.exceptionMessage)));
      Like.QueryPatternExact(q, Lower(OrEmpty(row.exceptionStacktrace)));
    }
  }

  method SeverityClauses(request: SearchRequest, where: seq<Clause>, params: Params, ghost size: nat,
                         ghost rows: iset<LogRow>)
    returns (r: Result<(seq<Clause>, Params)>)
    requires Selects(where, params, size, rows) && "severity" !in params
    ensures r.Ok? <==> AllKnown(request.severity)
    ensures r.Err? ==> r.error == BadRequest("invalid_severity")
    ensures r.Ok? ==>
              && (forall p :: p in r.value.1 ==> p in params || p == "severity")
              && Selects(r.value.0, r.value.1, size + (if request.severity != [] then 1 else 0),
                         rows * RowsWithSeverity(request))
  {
    hide *;
    if request.severity == [] {
      NoSeverity(request, rows);
      return Ok((where, params));
    }
    var names := NormalizeAll(request.severity);
    if names.Err? {
      return Err(names.error);
    }
    SeverityClause(request, names.value);
    NarrowByOne(where, params, size, rows, TextIn("severity", "severity"), "severity", PTexts(names.value),
                RowsWithSeverity(request));
    r := Ok((where + [TextIn("severity", "severity")], params["severity" := PTexts(names.value)]));
  }

  method QueryClauses(request: SearchRequest, where0: seq<Clause>, params0: Params, ghost size: nat,
                      ghost rows: iset<LogRow>)
    returns (where: seq<Clause>, params: Params)
    requires Selects(where0, params0, size, rows) && "query_like" !in params0
    ensures forall p :: p in params ==> p in params0 || p == "query_like"
    ensures Selects(where, params, size + (if Given(request.query) then 1 else 0), rows * RowsWithQuery(request))
  {
    hide *;
    where, params := where0, params0;
    GivenMeans(request.query);
    if request.query.Some? && request.query.value != "" {
      var pattern := Like.QueryPattern(request.query.value);
      LikeIsQuery(request);
      NarrowByOne(where, params, size, rows, AnyTextLike("query_like"), "query_like", PText(pattern),
                  RowsWithQuery(request));
      where := where + [AnyTextLike("query_like")];
      params := params["query_like" := PText(pattern)];
    } else {
      NoQuery(request, rows);
    }
  }

  method SearchWhere(key: ApiKey, request: SearchRequest) returns (r: Result<(seq<Clause>, Params)>)
    ensures r.Ok? <==> AllKnown(request.severity)
    ensures r.Err? ==> r.error == BadRequest("invalid_severity")
    ensures r.Ok? ==> Bound(r.value.0, r.value.1)
    ensures r.Ok? ==> forall row :: HoldsAll(r.value.0, r.value.1, row) <==> RowSatisfies(key, request, row)
    // As many parameters as bindings: no binding replaced an earlier one.
    ensures r.Ok? ==> |r.value.1| == 4 + (if SourceFilter(key, request) != [] then 1 else 0)
                                       + (if request.severity != [] then 1 else 0)
                                       + GivenFields(request, OPTIONAL_FIELDS)
                                       + (if Given(request.query) then 1 else 0)
                                       + 2 * |request.attributes|
  {
    hide *;
    FixedNames();
    var where, params := ScopeClauses(key, request);
    ghost var size := 4 + if SourceFilter(key, request) != [] then 1 else 0;
    var withSeverity := SeverityClauses(request, where, params, size, RowsInScope(key, request));
    if withSeverity.Err? {
      return Err(withSeverity.error);
    }
    where, params := withSeverity.value.0, withSeverity.value.1;
    size := size + if request.severity != [] then 1 else 0;
    ghost var rows := RowsInScope(key, request) * RowsWithSeverity(request);
    where, params := FieldClauses(request, OPTIONAL_FIELDS, where, params, size, rows);
    size, rows := size + GivenFields(request, OPTIONAL_FIELDS), rows * RowsWithFields(request, OPTIONAL_FIELDS);
    where, params := QueryClauses(request, where, params, size, rows);
    size, rows := size + (if Given(request.query) then 1 else 0), rows * RowsWithQuery(request);
    where, params := AttributeClauses(request.attributes, where, params, size, rows);
    AllParts(key, request);
    SelectsExactly(where, params, size + 2 * |request.attributes|, rows * RowsWithAttributes(request.attributes));
    r := Ok((where, params));
  }

  // The fixed parameter names are distinct and none of them looks like an attribute's.
  lemma FixedNames()
    ensures "severity" !in SCOPE_NAMES && "query_like" !in SCOPE_NAMES && "query_like" != "severity"
    ensures forall f :: f in OPTIONAL_FIELDS ==> f !in SCOPE_NAMES && f != "severity" && f != "query_like"
    ensures forall i, j :: 0 <= i < j < |OPTIONAL_FIELDS| ==> OPTIONAL_FIELDS[i] != OPTIONAL_FIELDS[j]
    ensures forall params: Params ::
              (forall p :: p in params ==>
                 p in SCOPE_NAMES || p in OPTIONAL_FIELDS || p == "severity" || p == "query_like")
              ==> AllNamedBefore(params, 0)
  {
  }

  lemma SeverityClause(request: SearchRequest, names: seq<string>)
    requires request.severity != [] && AllKnown(request.severity)
    requires forall s :: s in names <==> s in NormalizedSet(request.severity)
    ensures ParamsOf(TextIn("severity", "severity")) == {"severity"}
    ensures forall row :: Holds(TextIn("severity", "severity"), map["severity" := PTexts(names)], row)
                          <==> row in RowsWithSeverity(request)
  {
  }

  // A request that does not filter by severity or text leaves the selection as it is.
  lemma NoSeverity(request: SearchRequest, rows: iset<LogRow>)
    requires request.severity == []
    ensures AllKnown(request.severity)
    ensures rows * RowsWithSeverity(request) == rows
  {
  }

  lemma NoQuery(request: SearchRequest, rows: iset<LogRow>)
    requires !Given(request.query)
    ensures rows * RowsWithQuery(request) == rows
  {
  }

  lemma AllParts(key: ApiKey, request: SearchRequest)
    requires AllKnown(request.severity)
    ensures forall row :: RowSatisfies(key, request, row) <==>
              row in RowsInScope(key, request) * RowsWithSeverity(request) * RowsWithFields(request, OPTIONAL_FIELDS)
                     * RowsWithQuery(request) * RowsWithAttributes(request.attributes)
  {
  }

  // ---------- the request as validated, and the two views ----------

  const SECONDS_PER_DAY := 86400

  function ValidateTimeRange(request: SearchRequest, maxRangeDays: int): Result<()> {
    if request.to <= request.from then Err(BadRequest("invalid_time_range"))
    else if request.to - request.from > maxRangeDays * SECONDS_PER_DAY then Err(BadRequest("time_range_too_large"))
    else Ok(())
  }

  function ProjectForKey(projects: map<string, Project>, key: ApiKey, projectId: string): Result<Project> {
    if projectId !in projects || projects[projectId].orgId != key.orgId then Err(NotFound("Project"))
    else if !ProjectAllowed(key, projectId) then Err(PermissionDenied)
    else Ok(projects[projectId])
  }

  function SourceForKey(sources: map<string, Source>, key: ApiKey, sourceId: string): Result<Source> {
    if sourceId !in sources || sources[sourceId].orgId != key.orgId then Err(NotFound("Source"))
    else if !ProjectAllowed(key, sources[sourceId].projectId) then Err(PermissionDenied)
    else if !SourceAllowed(key, sourceId) then Err(PermissionDenied)
    else Ok(sources[sourceId])
  }

  function SourcesOfProject(sources: map<string, Source>, key: ApiKey, ids: seq<string>,
                            projectId: string): Result<()> {
    if ids == [] then Ok(())
    else
      var source :- SourceForKey(sources, key, ids[0]);
      if source.projectId != projectId then Err(PermissionDenied)
      else SourcesOfProject(sources, key, ids[1..], projectId)
  }

  function ValidateSearchRequest(
    projects: map<string, Project>, sources: map<string, Source>,
    key: ApiKey, request: SearchRequest, maxRangeDays: int): Result<()>
  {
    var _ :- ValidateTimeRange(request, maxRangeDays);
    var _ :- ProjectForKey(projects, key, request.projectId);
    SourcesOfProject(sources, key, request.sources, request.projectId)
  }

  lemma {:induction false} ValidSources(sources: map<string, Source>, key: ApiKey, ids: seq<string>, projectId: string)
    requires SourcesOfProject(sources, key, ids, projectId).Ok?
    ensures forall id :: id in ids ==> SourceAllowed(key, id)
  {
    if ids != [] {
      ValidSources(sources, key, ids[1..], projectId);
    }
  }

  // A record belongs to the org of its project.
  predicate InProjectOrg(projects: map<string, Project>, record: LogRecord) {
    record.projectId in projects && projects[record.projectId].orgId == record.orgId
  }

  predicate NoSpaceInQuery(request: SearchRequest) {
    Given(request.query) ==> ' ' !in request.query.value
  }

  predicate SafeAttributes(request: SearchRequest) {
    forall f :: f in request.attributes ==> SafeAttribute(f.key, f.value)
  }

  predicate Matches(key: ApiKey, record: LogRecord, request: SearchRequest)
    requires AllKnown(request.severity)
  {
    RecordMatchesSearch(key, record, request, NormalizedSet(request.severity), RequestedSources(request))
  }

  function RequestedSources(request: SearchRequest): set<string> {
    set s | s in request.sources
  }

  // Scope: the org test of the query and the key tests of memory come to the same thing.
  lemma ScopeAgrees(projects: map<string, Project>, sources: map<string, Source>, key: ApiKey,
                    request: SearchRequest, record: LogRecord)
    requires ProjectForKey(projects, key, request.projectId).Ok?
    requires SourcesOfProject(sources, key, request.sources, request.projectId).Ok?
    requires InProjectOrg(projects, record)
    ensures InScope(key, request, LogInsertRow(record)) <==>
            && record.projectId == request.projectId
            && request.from <= record.timestamp <= request.to
            && ProjectAllowed(key, record.projectId) && SourceAllowed(key, record.sourceId)
            && (request.sources != [] ==> record.sourceId in request.sources)
  {
    ValidSources(sources, key, request.sources, request.projectId);
  }

  lemma FieldsAgree(request: SearchRequest, record: LogRecord)
    ensures HasFields(request, OPTIONAL_FIELDS, LogInsertRow(record)) <==>
            && MatchesOptional(request.traceId, record.traceId)
            && MatchesOptional(request.spanId, record.spanId)
            && MatchesOptional(request.requestId, record.requestId)
            && MatchesOptional(request.logger, record.logger)
  {
    var row := LogInsertRow(record);
    assert HasFields(request, OPTIONAL_FIELDS, row) <==>
           && MatchesOptional(RequestField(request, "trace_id"), TextColumn(row, "trace_id"))
           && MatchesOptional(RequestField(request, "span_id"), TextColumn(row, "span_id"))
           && MatchesOptional(RequestField(request, "request_id"), TextColumn(row, "request_id"))
           && MatchesOptional(RequestField(request, "logger"), TextColumn(row, "logger"));
  }

  lemma QueryAgrees(request: SearchRequest, record: LogRecord)
    ensures var inMemory := Given(request.query) ==> Includes(SearchableText(record), Lower(request.query.value));
            && (HasQuery(request, LogInsertRow(record)) ==> inMemory)
            && (NoSpaceInQuery(request) ==> inMemory ==> HasQuery(request, LogInsertRow(record)))
  {
    var row := LogInsertRow(record);
    if Given(request.query) {
      var q := Lower(request.query.value);
      var m, e, s := row.message, row.exceptionMessage, row.exceptionStacktrace;
      assert Includes(SearchableText(record), q) <==> InJoinedText(m, e, s, q);
      if InSomeColumn(m, e, s, q) {
        ColumnImpliesJoined(m, e, s, q);
      }
      if InJoinedText(m, e, s, q) && NoSpaceInQuery(request) {
        JoinedImpliesColumn(m, e, s, q);
      }
    }
  }

  lemma AttributesAgree(request: SearchRequest, record: LogRecord)
    requires SafeAttributes(request)
    ensures HasAttributes(request.attributes, LogInsertRow(record)) <==>
            forall f :: f in request.attributes ==> PyEqual(Attribute(record.attributes, f.key), f.value)
  {
    forall f | f in request.attributes
      ensures JsonValue(record.attributes, JsonPath(f.key)) == Some(PyStr(f.value))
              <==> PyEqual(Attribute(record.attributes, f.key), f.value)
    {
      SafeAttributeAgrees(record.attributes, f.key, f.value);
    }
  }

  // The translated query selects a stored record only if memory accepts it, and selects exactly the
  // accepted ones unless the query text contains a space.
  lemma TranslationPreservesMeaning(
    projects: map<string, Project>, sources: map<string, Source>, maxRangeDays: int,
    key: ApiKey, request: SearchRequest, record: LogRecord)
    requires AllKnown(request.severity)
    requires ValidateSearchRequest(projects, sources, key, request, maxRangeDays).Ok?
    requires InProjectOrg(projects, record) && SafeAttributes(request)
    ensures RowSatisfies(key, request, LogInsertRow(record)) ==> Matches(key, record, request)
    ensures NoSpaceInQuery(request) ==>
              (RowSatisfies(key, request, LogInsertRow(record)) <==> Matches(key, record, request))
  {
    hide InScope, HasFields, HasQuery, HasAttributes, Includes, SearchableText, PyEqual, LogInsertRow;
    ScopeAgrees(projects, sources, key, request, record);
    FieldsAgree(request, record);
    QueryAgrees(request, record);
    AttributesAgree(request, record);
    SetsAgree(request, record);
  }

  lemma SetsAgree(request: SearchRequest, record: LogRecord)
    requires AllKnown(request.severity)
    ensures HasSeverity(request, LogInsertRow(record)) <==>
            (NormalizedSet(request.severity) != {} ==> record.severity in NormalizedSet(request.severity))
    ensures (RequestedSources(request) != {} ==> record.sourceId in RequestedSources(request))
            <==> (request.sources != [] ==> record.sourceId in request.sources)
  {
    if request.severity != [] {
      assert KnownSeverity(request.severity[0]);
      assert NormalizeSeverity(request.severity[0]).value in NormalizedSet(request.severity);
    }
    if request.sources != [] {
      assert request.sources[0] in RequestedSources(request);
    }
  }

  // ---------- whole tables ----------

  function InsertAll(records: seq<LogRecord>): seq<LogRow> {
    if records == [] then [] else [LogInsertRow(records[0])] + InsertAll(records[1..])
  }

  function ReadAll(rows: seq<LogRow>): seq<LogRecord> {
    if rows == [] then [] else [LogFromRow(rows[0])] + ReadAll(rows[1..])
  }

  ghost function SelectRows(key: ApiKey, request: SearchRequest, rows: seq<LogRow>): seq<LogRow>
    requires AllKnown(request.severity)
  {
    if rows == [] then []
    else (if RowSatisfies(key, request, rows[0]) then [rows[0]] else []) + SelectRows(key, request, rows[1..])
  }

  function MatchingRecords(key: ApiKey, request: SearchRequest, records: seq<LogRecord>): seq<LogRecord>
    requires AllKnown(request.severity)
  {
    if records == [] then []
    else (if Matches(key, records[0], request) then [records[0]] else []) + MatchingRecords(key, request, records[1..])
  }

  // Over a whole log the rows the query selects are the rows of the records that memory finds, in the
  // same order, so also as many.
  lemma {:induction false} BackEndsAgree(
    projects: map<string, Project>, sources: map<string, Source>, maxRangeDays: int,
    key: ApiKey, request: SearchRequest, records: seq<LogRecord>)
    requires AllKnown(request.severity)
    requires ValidateSearchRequest(projects, sources, key, request, maxRangeDays).Ok?
    requires SafeAttributes(request) && NoSpaceInQuery(request)
    requires forall r :: r in records ==> InProjectOrg(projects, r)
    ensures SelectRows(key, request, InsertAll(records)) == InsertAll(MatchingRecords(key, request, records))
  {
    if records != [] {
      var head, tail := records[0], records[1..];
      BackEndsAgree(projects, sources, maxRangeDays, key, request, tail);
      TranslationPreservesMeaning(projects, sources, maxRangeDays, key, request, head);
      assert InsertAll(records)[1..] == InsertAll(tail);
      hide RowSatisfies, Matches, LogInsertRow;
      var rest := MatchingRecords(key, request, tail);
      if Matches(key, head, request) {
        assert ([head] + rest)[1..] == rest;
      } else {
        assert [] + rest == rest && [] + InsertAll(rest) == InsertAll(rest);
      }
    }
  }

  // What is read back from the rows of such records is the records themselves.
  lemma {:induction false} ReadBack(records: seq<LogRecord>)
    requires forall r :: r in records ==> r.exception != Some(NO_EXCEPTION)
    ensures ReadAll(InsertAll(records)) == records
  {
    if records != [] {
      RowRoundTrip(records[0]);
      ReadBack(records[1..]);
      assert InsertAll(records)[1..] == InsertAll(records[1..]);
      hide LogInsertRow, LogFromRow;
    }
  }
}
