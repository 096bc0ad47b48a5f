// Shared value types: optional values, the service's error responses, and JSON trees.
module Base {
  import opened Numbers

  datatype Option<+T> = None | Some(value: T)

  // The error responses of panda_trace/errors.py that the modelled code raises.
  datatype ApiError =
    | BadRequest(code: string)
    | Unauthorized
    | PermissionDenied
    | NotFound(resource: string)
    | RateLimited(reason: string)
    | PayloadTooLarge

  datatype Result<+T> = Ok(value: T) | Err(error: ApiError) {
    predicate IsFailure() {
      Err?
    }

    function PropagateFailure<U>(): Result<U>
      requires Err?
    {
      Err(error)
    }

    function Extract(): T
      requires Ok?
    {
      value
    }
  }

  // A JSON tree. A number that is not an integer is kept as the text it is printed as; objects are maps,
  // so key order is not represented.
  datatype Json =
    | JNull
    | JBool(flag: bool)
    | JNum(number: int)
    | JFloat(printed: FloatText)
    | JStr(text: string)
    | JArr(items: seq<Json>)
    | JObj(fields: map<string, Json>)

  // One (key, value) pair of an ordered dictionary.
  datatype Field = Field(key: string, value: Json)

  // `s` picks elements of `t` from left to right, skipping some.
  ghost predicate IsSubsequence<T(!new)>(s: seq<T>, t: seq<T>) {
    if s == [] then true
    else if t == [] then false
    else (s[0] == t[0] && IsSubsequence(s[1..], t[1..])) || IsSubsequence(s, t[1..])
  }

  lemma {:induction false} EmptySubsequence<T(!new)>(t: seq<T>)
    ensures IsSubsequence([], t)
  {
  }

  lemma {:induction false} SubsequenceAppend<T(!new)>(s: seq<T>, t: seq<T>, x: T)
    requires IsSubsequence(s, t)
    ensures IsSubsequence(s, t + [x]) && IsSubsequence(s + [x], t + [x])
    decreases |t|
  {
    var tx, sx := t + [x], s + [x];
    if t != [] {
      assert tx[0] == t[0] && tx[1..] == t[1..] + [x];
      if s == [] {
        SubsequenceAppend([], t[1..], x);
        assert [] + [x] == [x] == sx;
        assert IsSubsequence(sx, tx[1..]);
      } else {
        assert sx[0] == s[0] && sx[1..] == s[1..] + [x];
        if s[0] == t[0] && IsSubsequence(s[1..], t[1..]) {
          SubsequenceAppend(s[1..], t[1..], x);
        } else {
          SubsequenceAppend(s, t[1..], x);
        }
      }
    } else {
      assert tx == [x];
      assert s == [] ==> sx == [x];
    }
  }

  function Filter<T>(s: seq<T>, keep: T -> bool): (r: seq<T>)
    ensures |r| <= |s|
    ensures forall x :: x in r ==> x in s && keep(x)
    ensures forall x :: x in s && keep(x) ==> x in r
  {
    if s == [] then []
    else if keep(s[0]) then [s[0]] + Filter(s[1..], keep)
    else Filter(s[1..], keep)
  }

  lemma {:induction false} FilterConcat<T>(a: seq<T>, b: seq<T>, keep: T -> bool)
    ensures Filter(a + b, keep) == Filter(a, keep) + Filter(b, keep)
  {
    if a == [] {
      assert a + b == b;
    } else {
      assert (a + b)[0] == a[0] && (a + b)[1..] == a[1..] + b;
      FilterConcat(a[1..], b, keep);
    }
  }

  lemma FilterOneMore<T>(s: seq<T>, x: T, keep: T -> bool)
    ensures Filter(s + [x], keep) == Filter(s, keep) + if keep(x) then [x] else []
  {
    FilterConcat(s, [x], keep);
    assert Filter([x], keep) == (if keep(x) then [x] else []) + Filter([], keep);
  }

  lemma {:induction false} FilterSame<T>(s: seq<T>, p: T -> bool, q: T -> bool)
    requires forall x :: x in s ==> p(x) == q(x)
    ensures Filter(s, p) == Filter(s, q)
  {
    if s != [] {
      FilterSame(s[1..], p, q);
    }
  }
}
