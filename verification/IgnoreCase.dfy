// Comparing and searching texts without regard to the case of ASCII letters: what lower-casing both
// sides comes to.
module IgnoreCase {
  import opened Text

  predicate IsUpper(c: char) {
    'A' <= c <= 'Z'
  }

  predicate IsLower(c: char) {
    'a' <= c <= 'z'
  }

  // The same character, or the capital and the small form of one letter.
  predicate SameLetter(c: char, d: char) {
    || c == d
    || (IsUpper(c) && IsLower(d) && d as int - c as int == 'a' as int - 'A' as int)
    || (IsLower(c) && IsUpper(d) && c as int - d as int == 'a' as int - 'A' as int)
  }

  predicate SameText(s: string, t: string) {
    |s| == |t| && forall i :: 0 <= i < |s| ==> SameLetter(s[i], t[i])
  }

  // The text shows the part at position i, in whatever case.
  predicate ReadsAt(text: string, part: string, i: int) {
    0 <= i && i + |part| <= |text| && SameText(text[i..i + |part|], part)
  }

  ghost predicate Reads(text: string, part: string) {
    exists i :: ReadsAt(text, part, i)
  }

  lemma LowerCharSameIff(c: char, d: char)
    ensures LowerChar(c) == LowerChar(d) <==> SameLetter(c, d)
  {
  }

  // Lower-casing makes exactly those texts equal that differ in case only.
  lemma LowerSameIff(s: string, t: string)
    ensures Lower(s) == Lower(t) <==> SameText(s, t)
  {
    if |s| == |t| {
      forall i | 0 <= i < |s|
        ensures Lower(s)[i] == Lower(t)[i] <==> SameLetter(s[i], t[i])
      {
        LowerCharSameIff(s[i], t[i]);
      }
    }
  }

  lemma OccursIgnoringCaseIff(text: string, part: string, i: int)
    ensures OccursAt(Lower(text), Lower(part), i) <==> ReadsAt(text, part, i)
  {
    if 0 <= i && i + |part| <= |text| {
      var piece := text[i..i + |part|];
      assert Lower(text)[i..i + |part|] == Lower(piece);
      LowerSameIff(piece, part);
    }
  }

  // A lowered part occurs in a lowered text if and only if the text shows it in some case.
  lemma IncludesIgnoringCaseIff(text: string, part: string)
    ensures Includes(Lower(text), Lower(part)) <==> Reads(text, part)
    ensures Contains(Lower(text), Lower(part)) <==> Reads(text, part)
  {
    forall i
      ensures OccursAt(Lower(text), Lower(part), i) <==> ReadsAt(text, part, i)
    {
      OccursIgnoringCaseIff(text, part, i);
    }
  }

  // What surrounds the part, and its case, do not matter.
  lemma ReadsWithin(before: string, shown: string, after: string, part: string)
    requires SameText(shown, part)
    ensures Reads(before + shown + after, part)
  {
    var text := before + shown + after;
    assert text[|before|..|before| + |part|] == shown;
    assert ReadsAt(text, part, |before|);
  }

  lemma ReadsSame(text: string, other: string, part: string, asked: string)
    requires SameText(text, other) && SameText(part, asked)
    ensures Reads(text, part) <==> Reads(other, asked)
  {
    LowerSameIff(text, other);
    LowerSameIff(part, asked);
    IncludesIgnoringCaseIff(text, part);
    IncludesIgnoringCaseIff(other, asked);
  }

  lemma SameTextConcat(a: string, b: string, c: string, d: string)
    requires SameText(a, b) && SameText(c, d)
    ensures SameText(a + c, b + d)
  {
  }
}
