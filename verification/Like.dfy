// The SQL LIKE operator and the pattern the service builds for a literal query.
module Like {
  import opened Text

  predicate IsMeta(c: char) {
    c == '%' || c == '_' || c == '\\'
  }

  // `text LIKE pattern`: % is any run, _ is any one character, and a backslash makes the
  // following %, _ or backslash literal. Before any other character it stands for itself.
  predicate Matches(pattern: string, text: string)
    decreases |pattern| + |text|
  {
    if pattern == "" then text == ""
    else if pattern[0] == '%' then
      Matches(pattern[1..], text) || (text != "" && Matches(pattern, text[1..]))
    else if pattern[0] == '_' then
      text != "" && Matches(pattern[1..], text[1..])
    else if pattern[0] == '\\' && |pattern| > 1 && IsMeta(pattern[1]) then
      text != "" && text[0] == pattern[1] && Matches(pattern[2..], text[1..])
    else
      text != "" && text[0] == pattern[0] && Matches(pattern[1..], text[1..])
  }

  // The escape as the code computes it: three replacements, one after the other.
  function SequentialEscape(s: string): string {
    ReplaceChar(ReplaceChar(ReplaceChar(s, '\\', "\\\\"), '%', "\\%"), '_', "\\_")
  }

  function QueryPattern(query: string): string {
    "%" + SequentialEscape(Lower(query)) + "%"
  }

  // The escape one character at a time.
  function Escape(s: string): string {
    if s == "" then "" else EscapeChar(s[0]) + Escape(s[1..])
  }

  function EscapeChar(c: char): string {
    if IsMeta(c) then ['\\', c] else [c]
  }

  lemma {:induction false} SequentialEscapeIsEscape(s: string)
    ensures SequentialEscape(s) == Escape(s)
  {
    if s != "" {
      SequentialEscapeIsEscape(s[1..]);
      var head, tail := [s[0]], s[1..];
      assert s == head + tail;
      EscapeHead(s[0]);
      ReplaceCharConcat(head, tail, '\\', "\\\\");
      var h1, t1 := ReplaceChar(head, '\\', "\\\\"), ReplaceChar(tail, '\\', "\\\\");
      ReplaceCharConcat(h1, t1, '%', "\\%");
      var h2, t2 := ReplaceChar(h1, '%', "\\%"), ReplaceChar(t1, '%', "\\%");
      ReplaceCharConcat(h2, t2, '_', "\\_");
    }
  }

  lemma EscapeHead(c: char)
    ensures SequentialEscape([c]) == EscapeChar(c)
  {
    ReplaceCharOne(c, '\\', "\\\\");
    ReplaceCharOne(c, '%', "\\%");
    ReplaceCharOne(c, '_', "\\_");
    if c == '\\' {
      assert "\\\\" == [c] + [c];
      ReplaceCharConcat([c], [c], '%', "\\%");
      ReplaceCharConcat([c], [c], '_', "\\_");
    } else if c == '%' {
      assert "\\%" == "\\" + [c];
      ReplaceCharConcat("\\", [c], '_', "\\_");
      ReplaceCharOne('\\', '_', "\\_");
    }
  }

  lemma EscapedHead(c: char, rest: string, text: string)
    ensures Matches(EscapeChar(c) + rest, text) <==>
            text != "" && text[0] == c && Matches(rest, text[1..])
  {
    var p := EscapeChar(c) + rest;
    if IsMeta(c) {
      assert p[0] == '\\' && p[1] == c && p[2..] == rest;
    } else {
      assert p[0] == c && p[1..] == rest;
    }
  }

  // An escaped literal consumes exactly itself.
  lemma {:induction false} EscapedPrefix(s: string, rest: string, text: string)
    ensures Matches(Escape(s) + rest, text) <==>
            |s| <= |text| && text[..|s|] == s && Matches(rest, text[|s|..])
  {
    if s == "" {
      assert Escape(s) + rest == rest && text[0..] == text;
    } else {
      var tail := Escape(s[1..]) + rest;
      assert Escape(s) + rest == EscapeChar(s[0]) + tail;
      EscapedHead(s[0], tail, text);
      if |s| <= |text| {
        EscapedPrefix(s[1..], rest, text[1..]);
        assert text[1..][|s| - 1..] == text[|s|..];
        assert text[..|s|] == [text[0]] + text[1..][..|s| - 1];
        assert s == [s[0]] + s[1..];
      } else if text != "" {
        EscapedPrefix(s[1..], rest, text[1..]);
      }
    }
  }

  lemma {:induction false} LeadingPercent(pattern: string, text: string)
    ensures Matches("%" + pattern, text) <==> exists i :: 0 <= i <= |text| && Matches(pattern, text[i..])
    decreases |text|
  {
    assert ("%" + pattern)[1..] == pattern;
    assert text[0..] == text;
    if text != "" {
      LeadingPercent(pattern, text[1..]);
      forall i | 0 <= i <= |text| - 1
        ensures text[1..][i..] == text[i + 1..]
      {
      }
      if Matches("%" + pattern, text[1..]) {
        var i :| 0 <= i <= |text[1..]| && Matches(pattern, text[1..][i..]);
        assert Matches(pattern, text[i + 1..]);
      }
      if j :| 0 < j <= |text| && Matches(pattern, text[j..]) {
        assert text[1..][j - 1..] == text[j..];
      }
    }
  }

  lemma {:induction false} PercentMatchesAll(text: string)
    ensures Matches("%", text)
  {
    if text != "" {
      PercentMatchesAll(text[1..]);
    }
  }

  // The two wildcards: any run, and any one character.
  lemma WildcardsMatch(text: string)
    ensures Matches("%", text) && (Matches("_", text) <==> |text| == 1)
  {
    PercentMatchesAll(text);
    assert "_"[1..] == "";
  }

  // The pattern built for a query matches a text exactly when the lowered query occurs in it.
  lemma QueryPatternExact(query: string, text: string)
    ensures Matches(QueryPattern(query), text) <==> Contains(text, Lower(query))
  {
    var q := Lower(query);
    SequentialEscapeIsEscape(q);
    var tail := Escape(q) + "%";
    assert QueryPattern(query) == "%" + tail;
    LeadingPercent(tail, text);
    forall i | 0 <= i <= |text|
      ensures Matches(tail, text[i..]) <==> OccursAt(text, q, i)
    {
      EscapedPrefix(q, "%", text[i..]);
      if |q| <= |text[i..]| {
        PercentMatchesAll(text[i..][|q|..]);
        assert text[i..][..|q|] == text[i..i + |q|];
      }
    }
  }
}
