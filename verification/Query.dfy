// The in-memory meaning of a search request (panda_trace/log_query.py) and the part of it that is
// about texts and attribute values.
module Query {
  import opened Base
  import opened Text
  import opened Records
  import opened Numbers

  // ---------- free-text search ----------

  // The non-empty texts of an entry, in the order they are joined.
  function TextParts(message: string, exceptionMessage: Option<string>, stacktrace: Option<string>): seq<string> {
    (if message != "" then [message] else [])
    + (if Given(exceptionMessage) then [exceptionMessage.value] else [])
    + (if Given(stacktrace) then [stacktrace.value] else [])
  }

  function SearchableText(record: LogRecord): string {
    var e := record.exception;
    Lower(JoinWith(TextParts(record.message,
                             if e.Some? then e.value.message else None,
                             if e.Some? then e.value.stacktrace else None), ' '))
  }

  lemma ContainsShift(text: string, part: string, before: string, after: string)
    requires Contains(text, part)
    ensures Contains(before + text + after, part)
  {
    var i :| OccursAt(text, part, i);
    var whole := before + text + after;
    assert whole[|before| + i..|before| + i + |part|] == text[i..i + |part|];
    assert OccursAt(whole, part, |before| + i);
  }

  // An occurrence that contains no separator lies on one side of any separator.
  lemma OccurrenceOnOneSide(a: string, sep: char, b: string, part: string)
    requires part != "" && sep !in part
    requires Contains(a + [sep] + b, part)
    ensures Contains(a, part) || Contains(b, part)
  {
    var whole := a + [sep] + b;
    var i :| OccursAt(whole, part, i);
    assert whole[|a|] == sep;
    forall x | i <= x < i + |part|
      ensures whole[x] != sep
    {
      assert whole[i..i + |part|][x - i] == part[x - i];
    }
    if i + |part| <= |a| {
      assert whole[i..i + |part|] == a[i..i + |part|];
      assert OccursAt(a, part, i);
    } else {
      var k := i - |a| - 1;
      assert whole[i..i + |part|] == b[k..k + |part|];
      assert OccursAt(b, part, k);
    }
  }

  lemma {:induction false} PartInJoin(parts: seq<string>, sep: char, q: string, i: nat)
    requires i < |parts| && Contains(Lower(parts[i]), q)
    ensures Contains(Lower(JoinWith(parts, sep)), q)
  {
    if |parts| > 1 {
      var rest := JoinWith(parts[1..], sep);
      LowerConcat(parts[0] + [sep], rest);
      LowerConcat(parts[0], [sep]);
      var head, middle, tail := Lower(parts[0]), Lower([sep]), Lower(rest);
      if i == 0 {
        ContainsShift(head, q, "", middle + tail);
        assert "" + head + (middle + tail) == head + middle + tail;
      } else {
        PartInJoin(parts[1..], sep, q, i - 1);
        ContainsShift(tail, q, head + middle, "");
        assert head + middle + tail + "" == head + middle + tail;
      }
    }
  }

  lemma {:induction false} JoinHasPart(parts: seq<string>, q: string)
    requires q != "" && ' ' !in q
    requires Contains(Lower(JoinWith(parts, ' ')), q)
    ensures exists i :: 0 <= i < |parts| && Contains(Lower(parts[i]), q)
  {
    if |parts| > 1 {
      var rest := JoinWith(parts[1..], ' ');
      LowerConcat(parts[0] + " ", rest);
      LowerConcat(parts[0], " ");
      assert Lower(" ") == " ";
      OccurrenceOnOneSide(Lower(parts[0]), ' ', Lower(rest), q);
      if !Contains(Lower(parts[0]), q) {
        JoinHasPart(parts[1..], q);
        var i :| 0 <= i < |parts| - 1 && Contains(Lower(parts[1..][i]), q);
        assert parts[i + 1] == parts[1..][i];
      }
    } else if |parts| == 1 {
      assert Contains(Lower(parts[0]), q);
    }
  }

  function OrEmpty(s: Option<string>): string {
    if s.Some? then s.value else ""
  }

  // What the database can see: the query inside one of the three columns.
  ghost predicate InSomeColumn(message: string, exceptionMessage: Option<string>, stacktrace: Option<string>,
                               q: string) {
    || Contains(Lower(message), q)
    || Contains(Lower(OrEmpty(exceptionMessage)), q)
    || Contains(Lower(OrEmpty(stacktrace)), q)
  }

  // What memory sees: the query anywhere in the joined text.
  ghost predicate InJoinedText(message: string, exceptionMessage: Option<string>, stacktrace: Option<string>,
                               q: string) {
    Contains(Lower(JoinWith(TextParts(message, exceptionMessage, stacktrace), ' ')), q)
  }

  lemma PartsAreColumns(m: string, e: Option<string>, s: Option<string>, q: string)
    requires q != ""
    ensures InSomeColumn(m, e, s, q) <==>
            exists i :: 0 <= i < |TextParts(m, e, s)| && Contains(Lower(TextParts(m, e, s)[i]), q)
  {
    var parts := TextParts(m, e, s);
    assert !Contains(Lower(""), q);
    var n := if m != "" then 1 else 0;
    var k := n + if Given(e) then 1 else 0;
    assert m != "" ==> parts[0] == m;
    assert Given(e) ==> parts[n] == e.value;
    assert Given(s) ==> parts[k] == s.value;
  }

  lemma ColumnImpliesJoined(m: string, e: Option<string>, s: Option<string>, q: string)
    requires q != ""
    requires InSomeColumn(m, e, s, q)
    ensures InJoinedText(m, e, s, q)
  {
    PartsAreColumns(m, e, s, q);
    var parts := TextParts(m, e, s);
    var i :| 0 <= i < |parts| && Contains(Lower(parts[i]), q);
    PartInJoin(parts, ' ', q, i);
  }

  lemma JoinedImpliesColumn(m: string, e: Option<string>, s: Option<string>, q: string)
    requires q != "" && ' ' !in q
    requires InJoinedText(m, e, s, q)
    ensures InSomeColumn(m, e, s, q)
  {
    PartsAreColumns(m, e, s, q);
    JoinHasPart(TextParts(m, e, s), q);
  }

  // A query with a space can match across the join of two columns, and then the two views differ.
  lemma SpaceSplitsViews(q: string) returns (m: string, e: string)
    requires ' ' in q
    ensures m != "" && InJoinedText(m, Some(e), None, Lower(q))
    ensures !InSomeColumn(m, Some(e), None, Lower(q))
  {
    var j := IndexOf(q, ' ');
    var u, v := q[..j], q[j + 1..];
    m, e := if u == "" then "z" else u, if v == "" then "z" else v;
    var p := Lower(q);
    assert q == u + " " + v;
    assert TextParts(m, Some(e), None) == [m, e];
    assert JoinWith([m, e], ' ') == m + " " + e;
    var before, after := if u == "" then "z" else "", if v == "" then "z" else "";
    assert m == before + u && e == v + after;
    OccursAcross(u, v, before, after);
    assert p[j] == ' ';
    TooShort(m, p, j);
    TooShort(e, p, j);
    assert !Contains(Lower(""), p);
  }

  lemma OccursAcross(u: string, v: string, before: string, after: string)
    ensures Contains(Lower(before + u + " " + (v + after)), Lower(u + " " + v))
  {
    var text, q := before + u + " " + (v + after), u + " " + v;
    assert text == before + q + after;
    LowerConcat(before + q, after);
    LowerConcat(before, q);
    assert OccursAt(Lower(q), Lower(q), 0);
    ContainsShift(Lower(q), Lower(q), Lower(before), Lower(after));
  }

  // A text shorter than the part, or a text without the part's space, does not contain it.
  lemma TooShort(text: string, part: string, j: nat)
    requires j < |part| && part[j] == ' '
    requires |text| < |part| || text == "z"
    ensures !Contains(Lower(text), part)
  {
    forall i
      ensures !OccursAt(Lower(text), part, i)
    {
      if |text| >= |part| && i == 0 {
        assert Lower(text)[0..|part|][j] != ' ';
      }
    }
  }

  // The two views agree on every entry exactly for the queries without a space.
  lemma TextViewsAgreeIff(query: string)
    requires query != ""
    ensures (forall m, e, s :: m != "" ==>
               (InSomeColumn(m, e, s, Lower(query)) <==> InJoinedText(m, e, s, Lower(query))))
            <==> ' ' !in query
  {
    var q := Lower(query);
    if ' ' in query {
      var m, e := SpaceSplitsViews(query);
    } else {
      forall m, e, s
        ensures InSomeColumn(m, e, s, q) <==> InJoinedText(m, e, s, q)
      {
        if InSomeColumn(m, e, s, q) {
          ColumnImpliesJoined(m, e, s, q);
        }
        if InJoinedText(m, e, s, q) {
          JoinedImpliesColumn(m, e, s, q);
        }
      }
    }
  }

  // ---------- attribute values ----------

  // The value of a number or a boolean, which Python compares with each other.
  function NumericValue(value: Json): Option<real> {
    match value
    case JBool(b) => Some(if b then 1.0 else 0.0)
    case JNum(n) => Some(n as real)
    case JFloat(text) => Some(FloatValue(text))
    case _ => None
  }

  // Python's == on JSON values.
  predicate PyEqual(a: Json, b: Json) {
    match (a, b)
    case (JArr(x), JArr(y)) => |x| == |y| && forall i | 0 <= i < |x| :: PyEqual(x[i], y[i])
    case (JObj(x), JObj(y)) => x.Keys == y.Keys && forall k | k in x :: PyEqual(x[k], y[k])
    case _ => if NumericValue(a).Some? then NumericValue(b) == NumericValue(a) else a == b
  }

  lemma {:induction false} PyEqualReflexive(a: Json)
    ensures PyEqual(a, a)
  {
    match a
    case JArr(x) =>
      forall i | 0 <= i < |x|
        ensures PyEqual(x[i], x[i])
      {
        PyEqualReflexive(x[i]);
      }
    case JObj(x) =>
      forall k | k in x
        ensures PyEqual(x[k], x[k])
      {
        PyEqualReflexive(x[k]);
      }
    case _ =>
  }

  // dict.get(key): a missing key reads as None.
  function Attribute(attributes: map<string, Json>, key: string): Json {
    if key in attributes then attributes[key] else JNull
  }

  // str(value). Of a list or an object only the opening bracket is represented.
  function PyStr(value: Json): string {
    match value
    case JStr(s) => s
    case JNum(n) => DecimalInt(n)
    case JFloat(text) => text
    case JBool(b) => if b then "True" else "False"
    case JNull => "None"
    case JArr(_) => "["
    case JObj(_) => "{"
  }

  // ---------- JSON paths ----------

  predicate IsNameChar(c: char) {
    'a' <= c <= 'z' || 'A' <= c <= 'Z' || IsDigit(c) || c == '_'
  }

  // A bare member name of a JSON path.
  predicate IsName(s: string) {
    s != "" && !IsDigit(s[0]) && forall i :: 0 <= i < |s| ==> IsNameChar(s[i])
  }

  // The member names of a path $.a.b.c; None if the path does not have this form.
  function PathNames(path: string): Option<seq<string>> {
    if |path| < 2 || path[..2] != "$." then None
    else
      var names := SplitOn(path[2..], '.');
      if forall n :: n in names ==> IsName(n) then Some(names) else None
  }

  // Where a path leads, name by name.
  function JsonAt(value: Json, names: seq<string>): Option<Json> {
    if names == [] then Some(value)
    else if value.JObj? && names[0] in value.fields then JsonAt(value.fields[names[0]], names[1..])
    else None
  }

  function ScalarText(value: Json): string {
    match value
    case JStr(s) => s
    case JNum(n) => DecimalInt(n)
    case JFloat(text) => text
    case JBool(b) => if b then "true" else "false"
    case JNull => "null"
    case _ => ""
  }

  // JSON_VALUE(attributes, path): the text of the scalar the path leads to, or '' if there is none.
  // None stands for a path that is not understood; such a test selects nothing.
  function JsonValue(attributes: map<string, Json>, path: string): Option<string> {
    match PathNames(path)
    case None => None
    case Some(names) =>
      match JsonAt(JObj(attributes), names)
      case None => Some("")
      case Some(value) => Some(ScalarText(value))
  }

  function JsonPath(key: string): string {
    "$." + key
  }

  // A key that the path reads as one member name.
  predicate PlainKey(key: string) {
    IsName(key)
  }

  lemma PathOfKey(key: string)
    ensures PathNames(JsonPath(key))
            == if forall n :: n in SplitOn(key, '.') ==> IsName(n) then Some(SplitOn(key, '.')) else None
  {
    assert JsonPath(key)[..2] == "$." && JsonPath(key)[2..] == key;
  }

  // A plain key reads the attribute of that name.
  lemma PlainKeyValue(attributes: map<string, Json>, key: string)
    requires PlainKey(key)
    ensures JsonValue(attributes, JsonPath(key))
            == Some(if key in attributes then ScalarText(attributes[key]) else "")
  {
    PathOfKey(key);
    assert '.' !in key;
    assert SplitOn(key, '.') == [key];
    if key in attributes {
      assert JsonAt(JObj(attributes), [key]) == JsonAt(attributes[key], [key][1..]);
      assert [key][1..] == [];
    }
  }

  // Any other key never reads the attribute of that name.
  lemma OtherKeyValue(key: string, value: Json)
    requires !PlainKey(key)
    ensures var r := JsonValue(map[key := value], JsonPath(key)); r == None || r == Some("")
    ensures JsonValue(map[], JsonPath(key)) == JsonValue(map[key := value], JsonPath(key))
  {
    PathOfKey(key);
    var names := SplitOn(key, '.');
    if PathNames(JsonPath(key)).Some? {
      assert names[0] in names && '.' !in names[0];
      if names[0] == key {
        assert false;
      }
      assert JsonAt(JObj(map[key := value]), names) == None;
      assert JsonAt(JObj(map[]), names) == None;
    }
  }

  // A dotted key reads a nested attribute that memory does not find, and misses the one memory finds.
  lemma DottedKeyReadsNested(a: string, b: string, text: string)
    requires IsName(a) && IsName(b) && text != ""
    ensures var key := a + "." + b;
            var nested, flat := map[a := JObj(map[b := JStr(text)])], map[key := JStr(text)];
            && JsonValue(nested, JsonPath(key)) == Some(text) && !PyEqual(Attribute(nested, key), JStr(text))
            && JsonValue(flat, JsonPath(key)) == Some("") && PyEqual(Attribute(flat, key), JStr(text))
  {
    var key := a + "." + b;
    assert a + ['.'] + b == key;
    SplitAtFirst(a, b, '.');
    assert SplitOn(b, '.') == [b];
    assert SplitOn(key, '.') == [a, b];
    PathOfKey(key);
    assert |key| > |a|;
    var inner := JObj(map[b := JStr(text)]);
    var nested := map[a := inner];
    assert JsonAt(JObj(nested), [a, b]) == JsonAt(inner, [a, b][1..]);
    assert [a, b][1..] == [b] && [b][1..] == [];
    assert JsonAt(inner, [b]) == JsonAt(JStr(text), [b][1..]);
  }

  // ---------- attribute filters ----------

  // The texts that a JSON scalar other than a string can print as.
  predicate IsScalarText(s: string) {
    s == "true" || s == "false" || s == "null" || IsIntText(s) || IsFloatText(s)
  }

  predicate IsIntText(s: string) {
    if s != "" && s[0] == '-' then AllDigits(s[1..]) && s == DecimalInt(-(ParseDigits(s[1..]) as int))
    else AllDigits(s) && s == DecimalInt(ParseDigits(s))
  }

  lemma IntTextIsDecimal(n: int)
    ensures IsIntText(DecimalInt(n))
  {
    var s := DecimalInt(n);
    if n < 0 {
      assert s[0] == '-' && s[1..] == Decimal(-n);
      ParseDecimal(-n);
    } else {
      ParseDecimal(n);
      assert IsDigit(s[0]);
    }
  }

  lemma IntTextValue(s: string) returns (n: int)
    requires IsIntText(s)
    ensures s == DecimalInt(n)
  {
    n := if s != "" && s[0] == '-' then -(ParseDigits(s[1..]) as int) else ParseDigits(s);
  }

  // A non-empty string that no number, boolean or null prints as.
  predicate SafeAttributeValue(value: Json) {
    value.JStr? && value.text != "" && !IsScalarText(value.text)
  }

  predicate SafeAttribute(key: string, value: Json) {
    PlainKey(key) && SafeAttributeValue(value)
  }

  ghost predicate AttributeViewsAgree(attributes: map<string, Json>, key: string, expected: Json) {
    JsonValue(attributes, JsonPath(key)) == Some(PyStr(expected)) <==> PyEqual(Attribute(attributes, key), expected)
  }

  lemma SafeAttributeAgrees(attributes: map<string, Json>, key: string, expected: Json)
    requires SafeAttribute(key, expected)
    ensures AttributeViewsAgree(attributes, key, expected)
  {
    PlainKeyValue(attributes, key);
    if key in attributes && attributes[key].JNum? {
      IntTextIsDecimal(attributes[key].number);
    }
    hide JsonValue, IsFloatText, IsIntText, IsName;
  }

  // A value that is not safe, under a plain key.
  lemma UnsafeValueDiffers(key: string, expected: Json) returns (attributes: map<string, Json>)
    requires PlainKey(key) && !SafeAttributeValue(expected)
    ensures !AttributeViewsAgree(attributes, key, expected)
  {
    match expected {
      case JStr(s) =>
        if s == "" {
          attributes := map[];
        } else if IsIntText(s) {
          var n := IntTextValue(s);
          attributes := map[key := JNum(n)];
        } else if IsFloatText(s) {
          attributes := map[key := JFloat(s)];
        } else {
          attributes := map[key := if s == "null" then JNull else JBool(s == "true")];
        }
      case JNum(n) =>
        attributes := map[key := JStr(DecimalInt(n))];
      case JFloat(text) =>
        attributes := map[key := JStr(text)];
      case JNull =>
        attributes := map[];
      case _ =>
        attributes := map[key := expected];
        PyEqualReflexive(expected);
    }
    PlainKeyValue(attributes, key);
    hide JsonValue, IsFloatText, IsIntText, IsName;
  }

  lemma UnsafeAttributeDiffers(key: string, expected: Json) returns (attributes: map<string, Json>)
    requires !SafeAttribute(key, expected)
    ensures !AttributeViewsAgree(attributes, key, expected)
  {
    if PlainKey(key) {
      attributes := UnsafeValueDiffers(key, expected);
    } else {
      OtherKeyValue(key, expected);
      PyEqualReflexive(expected);
      PrintsSomething(expected);
      hide JsonValue, PlainKey, PyStr, JsonPath;
      if JsonValue(map[], JsonPath(key)) == Some(PyStr(expected)) {
        attributes := map[];
        assert expected == JStr("") && Attribute(attributes, key) == JNull;
      } else {
        attributes := map[key := expected];
        assert Attribute(attributes, key) == expected;
      }
    }
  }

  lemma PrintsSomething(value: Json)
    ensures PyStr(value) == "" <==> value == JStr("")
  {
  }

  // The two views of an attribute filter agree on every entry exactly for a plain key with a safe value.
  lemma AttributeViewsAgreeIff(key: string, expected: Json)
    ensures (forall attributes :: AttributeViewsAgree(attributes, key, expected)) <==> SafeAttribute(key, expected)
  {
    if SafeAttribute(key, expected) {
      forall attributes
        ensures AttributeViewsAgree(attributes, key, expected)
      {
        SafeAttributeAgrees(attributes, key, expected);
      }
    } else {
      var attributes := UnsafeAttributeDiffers(key, expected);
    }
  }

  // ---------- the whole predicate ----------

  predicate MatchesOptional(requested: Option<string>, actual: Option<string>) {
    Given(requested) ==> actual == requested
  }

  predicate RecordMatchesSearch(
    key: ApiKey, record: LogRecord, request: SearchRequest,
    severities: set<string>, requestedSources: set<string>)
  {
    && record.projectId == request.projectId
    && request.from <= record.timestamp <= request.to
    && ProjectAllowed(key, record.projectId) && SourceAllowed(key, record.sourceId)
    && (requestedSources != {} ==> record.sourceId in requestedSources)
    && (severities != {} ==> record.severity in severities)
    && MatchesOptional(request.traceId, record.traceId)
    && MatchesOptional(request.spanId, record.spanId)
    && MatchesOptional(request.requestId, record.requestId)
    && MatchesOptional(request.logger, record.logger)
    && (Given(request.query) ==> Includes(SearchableText(record), Lower(request.query.value)))
    && (forall f :: f in request.attributes ==> PyEqual(Attribute(record.attributes, f.key), f.value))
  }
}
