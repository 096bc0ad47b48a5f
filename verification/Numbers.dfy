// JSON number texts that are not plain integers: a fraction, an exponent or both (section 6 of RFC 8259).
module Numbers {
  import opened Text

  // The length of the digits a text begins with.
  function DigitRun(s: string): (n: nat)
    ensures n <= |s| && AllDigits(s[..n]) && (n < |s| ==> !IsDigit(s[n]))
  {
    if s == "" || !IsDigit(s[0]) then 0
    else
      var n := DigitRun(s[1..]) + 1;
      assert s[..n] == [s[0]] + s[1..][..n - 1];
      n
  }

  function Unsigned(s: string): string {
    if s != "" && s[0] == '-' then s[1..] else s
  }

  function Whole(s: string): (digits: string)
    ensures AllDigits(digits)
  {
    Unsigned(s)[..DigitRun(Unsigned(s))]
  }

  function AfterWhole(s: string): string {
    Unsigned(s)[DigitRun(Unsigned(s))..]
  }

  // The digits after the point; none without a point.
  function FractionDigits(s: string): (digits: string)
    ensures AllDigits(digits)
  {
    var rest := AfterWhole(s);
    if rest != "" && rest[0] == '.' then rest[1..][..DigitRun(rest[1..])] else ""
  }

  function ExponentPart(s: string): string {
    var rest := AfterWhole(s);
    if rest != "" && rest[0] == '.' then rest[1..][DigitRun(rest[1..])..] else rest
  }

  predicate IsExponent(s: string) {
    && |s| >= 2 && (s[0] == 'e' || s[0] == 'E')
    && var digits := if s[1] == '+' || s[1] == '-' then s[2..] else s[1..];
       digits != "" && AllDigits(digits)
  }

  function ExponentValue(s: string): int {
    if !IsExponent(s) then 0
    else if s[1] == '-' then -(ParseDigits(s[2..]) as int)
    else if s[1] == '+' then ParseDigits(s[2..])
    else ParseDigits(s[1..])
  }

  predicate IsFloatText(s: string) {
    && Whole(s) != "" && (Whole(s)[0] == '0' ==> |Whole(s)| == 1)
    && AfterWhole(s) != ""
    && (AfterWhole(s)[0] == '.' ==> FractionDigits(s) != "")
    && (ExponentPart(s) == "" || IsExponent(ExponentPart(s)))
  }

  function PowerOfTen(n: int): real
    decreases if n < 0 then -n else n
  {
    if n == 0 then 1.0 else if n > 0 then 10.0 * PowerOfTen(n - 1) else PowerOfTen(n + 1) / 10.0
  }

  // The number that a text stands for.
  function FloatValue(s: string): real {
    var digits := ParseDigits(Whole(s) + FractionDigits(s)) as real;
    var size := digits * PowerOfTen(ExponentValue(ExponentPart(s)) - |FractionDigits(s)|);
    if s != "" && s[0] == '-' then -size else size
  }

  type FloatText = s: string | IsFloatText(s) witness "0.5"
}
