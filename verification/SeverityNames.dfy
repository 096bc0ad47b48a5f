// Which spellings of a severity the service accepts (normalize_severity of panda_trace/log_query.py).
module SeverityNames {
  import opened Base
  import opened Text
  import opened IgnoreCase
  import opened Severity

  // The severities that are stored.
  const CANONICAL: set<string> := {"trace", "debug", "info", "warning", "error", "critical"}

  // Space, tab, line feed, vertical tab, form feed, carriage return and the four separators.
  const BLANKS: set<char> :=
    {' ', '\t', '\n', '\U{0B}', '\U{0C}', '\r', '\U{1C}', '\U{1D}', '\U{1E}', '\U{1F}'}

  predicate AllBlank(s: string) {
    forall i :: 0 <= i < |s| ==> s[i] in BLANKS
  }

  lemma BlankIff(c: char)
    ensures IsBlank(c) <==> c in BLANKS
  {
  }

  // The value is the name in some case, with blanks around it.
  ghost predicate Spells(value: string, name: string) {
    exists left, word, right :: SpelledAs(value, name, left, word, right)
  }

  predicate SpelledAs(value: string, name: string, left: string, word: string, right: string) {
    value == left + word + right && AllBlank(left) && AllBlank(right) && SameText(word, name)
  }

  lemma AliasesAre()
    ensures SEVERITY_ALIASES.Keys == {"trace", "debug", "info", "information", "notice", "warn", "warning", "error",
                                      "err", "critical", "fatal", "panic"}
    ensures forall name :: name in CANONICAL ==> name in SEVERITY_ALIASES && SEVERITY_ALIASES[name] == name
    ensures SEVERITY_ALIASES["information"] == SEVERITY_ALIASES["notice"] == "info"
    ensures SEVERITY_ALIASES["warn"] == "warning" && SEVERITY_ALIASES["err"] == "error"
    ensures SEVERITY_ALIASES["fatal"] == SEVERITY_ALIASES["panic"] == "critical"
    ensures SEVERITY_ALIASES.Values == CANONICAL
  {
    var m := SEVERITY_ALIASES;
    assert m["trace"] == "trace" && m["debug"] == "debug" && m["info"] == "info" && m["warning"] == "warning"
           && m["error"] == "error" && m["critical"] == "critical";
  }

  predicate SmallLetters(name: string) {
    name != "" && forall i :: 0 <= i < |name| ==> IsLower(name[i])
  }

  lemma AliasesAreSmall()
    ensures forall name :: name in SEVERITY_ALIASES ==> SmallLetters(name)
  {
  }

  lemma {:induction false} StripLeftIs(left: string, rest: string)
    requires AllBlank(left) && rest != "" && !IsBlank(rest[0])
    ensures StripLeft(left + rest) == rest
  {
    if left == "" {
      assert left + rest == rest;
    } else {
      BlankIff(left[0]);
      assert (left + rest)[1..] == left[1..] + rest;
      StripLeftIs(left[1..], rest);
    }
  }

  lemma {:induction false} StripRightIs(rest: string, right: string)
    requires AllBlank(right) && rest != "" && !IsBlank(rest[|rest| - 1])
    ensures StripRight(rest + right) == rest
  {
    if right == "" {
      assert rest + right == rest;
    } else {
      var n := |right| - 1;
      BlankIff(right[n]);
      assert (rest + right)[..|rest| + n] == rest + right[..n];
      StripRightIs(rest, right[..n]);
    }
  }

  lemma {:induction false} StripLeftCuts(s: string) returns (left: string)
    ensures s == left + StripLeft(s) && AllBlank(left)
  {
    if s != "" && IsBlank(s[0]) {
      BlankIff(s[0]);
      var l := StripLeftCuts(s[1..]);
      left := [s[0]] + l;
    } else {
      left := "";
    }
  }

  lemma {:induction false} StripRightCuts(s: string) returns (right: string)
    ensures s == StripRight(s) + right && AllBlank(right)
  {
    if s != "" && IsBlank(s[|s| - 1]) {
      BlankIff(s[|s| - 1]);
      var r := StripRightCuts(s[..|s| - 1]);
      right := r + [s[|s| - 1]];
    } else {
      right := "";
    }
  }

  lemma {:induction false} LowerOfSmall(name: string)
    requires SmallLetters(name)
    ensures Lower(name) == name
  {
  }

  lemma SpelledIsStripped(value: string, name: string, left: string, word: string, right: string)
    requires SmallLetters(name) && SpelledAs(value, name, left, word, right)
    ensures StripRight(StripLeft(value)) == word
  {
    assert SameLetter(word[0], name[0]) && SameLetter(word[|word| - 1], name[|name| - 1]);
    assert word[0] !in BLANKS && word[|word| - 1] !in BLANKS;
    BlankIff(word[0]);
    BlankIff(word[|word| - 1]);
    hide *;
    assert value == left + (word + right) && (word + right)[0] == word[0];
    StripLeftIs(left, word + right);
    StripRightIs(word, right);
  }

  lemma StrippedIsSpelled(value: string, name: string)
    requires SameText(StripRight(StripLeft(value)), name)
    ensures Spells(value, name)
  {
    var left := StripLeftCuts(value);
    var right := StripRightCuts(StripLeft(value));
    var word := StripRight(StripLeft(value));
    assert left + word + right == left + (word + right);
    assert SpelledAs(value, name, left, word, right);
  }

  // Stripping and lowering a value gives a name of small letters exactly if the value spells it.
  lemma StrippedIff(value: string, name: string)
    requires SmallLetters(name)
    ensures Lower(StripRight(StripLeft(value))) == name <==> Spells(value, name)
  {
    LowerOfSmall(name);
    LowerSameIff(StripRight(StripLeft(value)), name);
    hide StripLeft, StripRight, Lower, SameText, SmallLetters, AllBlank;
    if SameText(StripRight(StripLeft(value)), name) {
      StrippedIsSpelled(value, name);
    }
    if Spells(value, name) {
      var left, word, right :| SpelledAs(value, name, left, word, right);
      SpelledIsStripped(value, name, left, word, right);
    }
  }

  // A value is accepted as a severity if and only if it spells an alias of it.
  lemma NormalizeIff(value: string, severity: string)
    ensures NormalizeSeverity(value) == Ok(severity) <==>
              exists name :: name in SEVERITY_ALIASES && SEVERITY_ALIASES[name] == severity && Spells(value, name)
    ensures NormalizeSeverity(value).Ok? <==> exists name :: name in SEVERITY_ALIASES && Spells(value, name)
    ensures NormalizeSeverity(value).Err? ==> NormalizeSeverity(value).error == BadRequest("invalid_severity")
  {
    AliasesAreSmall();
    forall name | name in SEVERITY_ALIASES
      ensures Lower(StripRight(StripLeft(value))) == name <==> Spells(value, name)
    {
      StrippedIff(value, name);
    }
    hide Spells, StripLeft, StripRight, Lower, SmallLetters, SEVERITY_ALIASES;
  }

  // What is stored is one of six names, each of which names itself.
  lemma NormalizedIsCanonical(value: string)
    ensures NormalizeSeverity(value).Ok? ==> NormalizeSeverity(value).value in CANONICAL
  {
    AliasesAre();
    hide StripLeft, StripRight, Lower, SEVERITY_ALIASES, CANONICAL;
  }

  // Two values name the same severity.
  predicate SameSeverity(value: string, other: string) {
    NormalizeSeverity(value).Ok? && NormalizeSeverity(other) == NormalizeSeverity(value)
  }

  // A stored severity passes a list of requested values if and only if one of them names it.
  lemma ListedIff(listed: seq<string>, sent: string)
    requires AllKnown(listed) && NormalizeSeverity(sent).Ok?
    ensures NormalizeSeverity(sent).value in NormalizedSet(listed) <==>
              exists v :: v in listed && SameSeverity(sent, v)
  {
    hide StripLeft, StripRight, Lower, SEVERITY_ALIASES;
  }
}
