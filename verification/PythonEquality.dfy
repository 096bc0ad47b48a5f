// Python's == on attribute values, as record_matches_search of panda_trace/log_query.py compares them.
module PythonEquality {
  import opened Base
  import opened Text
  import opened Numbers
  import opened Query

  // ---------- numbers ----------

  // Numbers and booleans are equal exactly if they have the same value; true is one and false is zero.
  lemma NumbersEqualIff(m: int, n: int, b: bool, text: FloatText)
    ensures PyEqual(JNum(m), JNum(n)) <==> m == n
    ensures PyEqual(JBool(b), JNum(n)) <==> n == (if b then 1 else 0)
    ensures PyEqual(JNum(n), JBool(b)) <==> n == (if b then 1 else 0)
    ensures PyEqual(JNum(n), JFloat(text)) <==> FloatValue(text) == n as real
    ensures PyEqual(JBool(b), JFloat(text)) <==> FloatValue(text) == (if b then 1.0 else 0.0)
  {
    hide FloatValue;
  }

  lemma RunOfDigits(digits: string, rest: string)
    requires AllDigits(digits) && (rest == "" || !IsDigit(rest[0]))
    ensures DigitRun(digits + rest) == |digits|
  {
    var s := digits + rest;
    var n := DigitRun(s);
    forall i | 0 <= i < n
      ensures IsDigit(s[i])
    {
      assert s[..n][i] == s[i];
    }
    assert forall i :: 0 <= i < |digits| ==> s[i] == digits[i];
    assert rest != "" ==> s[|digits|] == rest[0];
  }

  lemma ParseTimesTen(digits: string)
    requires AllDigits(digits)
    ensures ParseDigits(digits + "0") == 10 * ParseDigits(digits)
  {
    assert (digits + "0")[..|digits|] == digits;
  }

  // A whole number written with a zero fraction has its value.
  lemma UnsignedValue(digits: string)
    requires digits != "" && AllDigits(digits)
    ensures FloatValue(digits + ".0") == ParseDigits(digits) as real
    ensures FloatValue("-" + digits + ".0") == -(ParseDigits(digits) as real)
  {
    var plain, minus := digits + ".0", "-" + digits + ".0";
    assert plain[0] == digits[0] && minus[0] == '-' && minus[1..] == plain;
    SizeOf(plain, digits);
    SizeOf(minus, digits);
    hide FloatValue, ParseDigits, Unsigned, Size;
    SignDecides(plain);
    SignDecides(minus);
  }

  // The value without its sign.
  function Size(s: string): real {
    ParseDigits(Whole(s) + FractionDigits(s)) as real * PowerOfTen(ExponentValue(ExponentPart(s)) - |FractionDigits(s)|)
  }

  lemma SignDecides(s: string)
    ensures FloatValue(s) == if s != "" && s[0] == '-' then -Size(s) else Size(s)
  {
    hide Whole, FractionDigits, ExponentPart, ParseDigits, PowerOfTen;
  }

  lemma SizeOf(s: string, digits: string)
    requires digits != "" && AllDigits(digits) && Unsigned(s) == digits + ".0"
    ensures Size(s) == ParseDigits(digits) as real
  {
    WholeAndFraction(s, digits);
    ParseTimesTen(digits);
    OneTenth();
    Tenth(ParseDigits(digits));
    hide Whole, FractionDigits, ExponentPart, ParseDigits, PowerOfTen;
  }

  lemma Tenth(n: nat)
    ensures (10 * n) as real * 0.1 == n as real
  {
    assert (10 * n) as real == 10.0 * n as real;
  }

  lemma OneTenth()
    ensures PowerOfTen(-1) == 0.1
  {
    assert PowerOfTen(0) == 1.0;
  }

  lemma WholeAndFraction(s: string, digits: string)
    requires digits != "" && AllDigits(digits) && Unsigned(s) == digits + ".0"
    ensures Whole(s) == digits && FractionDigits(s) == "0" && ExponentPart(s) == ""
  {
    RunOfDigits(digits, ".0");
    assert (digits + ".0")[..|digits|] == digits && (digits + ".0")[|digits|..] == ".0";
    assert ".0"[1..] == "0";
    RunOfDigits("0", "");
    assert "0" + "" == "0";
    assert "0"[..1] == "0" && "0"[1..] == "";
  }

  lemma WholeFloatValue(n: int)
    ensures FloatValue(DecimalInt(n) + ".0") == n as real
  {
    ParseDecimal(if n < 0 then -n else n);
    UnsignedValue(Decimal(if n < 0 then -n else n));
  }

  // ---------- all values ----------

  predicate IsNumber(value: Json) {
    value.JNum? || value.JBool? || value.JFloat?
  }

  // Values of other kinds are equal to their own kind only; lists position by position, objects key by key.
  lemma OthersEqualIff(a: Json, b: Json)
    requires !IsNumber(a)
    ensures PyEqual(a, b) <==>
              match a
              case JArr(x) => b.JArr? && |b.items| == |x| && forall i :: 0 <= i < |x| ==> PyEqual(x[i], b.items[i])
              case JObj(x) => b.JObj? && b.fields.Keys == x.Keys && forall k :: k in x ==> PyEqual(x[k], b.fields[k])
              case _ => b == a
  {
    hide FloatValue;
  }

  lemma {:induction false} PyEqualSymmetric(a: Json, b: Json)
    requires PyEqual(a, b)
    ensures PyEqual(b, a)
  {
    match (a, b) {
      case (JArr(x), JArr(y)) =>
        forall i | 0 <= i < |x|
          ensures PyEqual(y[i], x[i])
        {
          PyEqualSymmetric(x[i], y[i]);
        }
      case (JObj(x), JObj(y)) =>
        forall k | k in x
          ensures PyEqual(y[k], x[k])
        {
          PyEqualSymmetric(x[k], y[k]);
        }
      case _ =>
        hide FloatValue;
    }
  }

  lemma {:induction false} PyEqualTransitive(a: Json, b: Json, c: Json)
    requires PyEqual(a, b) && PyEqual(b, c)
    ensures PyEqual(a, c)
  {
    match a {
      case JArr(x) =>
        forall i | 0 <= i < |x|
          ensures PyEqual(x[i], c.items[i])
        {
          PyEqualTransitive(x[i], b.items[i], c.items[i]);
        }
      case JObj(x) =>
        forall k | k in x
          ensures PyEqual(x[k], c.fields[k])
        {
          PyEqualTransitive(x[k], b.fields[k], c.fields[k]);
        }
      case _ =>
        hide FloatValue;
    }
  }
}
