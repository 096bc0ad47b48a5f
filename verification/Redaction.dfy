// Secret redaction of log texts and attribute trees (panda_trace/redaction.py).
module Redaction {
  import opened Base
  import opened Text
  import opened Records

  const MARKERS: seq<string> := ["password", "secret", "token", "api_key", "apikey", "authorization"]
  const REDACTED := "[redacted]"

  // ---------- the word-by-word meaning ----------

  // Position e of w holds the '=' of a case-insensitive `marker=`.
  predicate EndsMarker(w: string, marker: string, e: int) {
    MatchAt(w, marker + "=", e - |marker|)
  }

  // Position i of s starts an occurrence of p, ignoring the case of s.
  predicate MatchAt(s: string, p: string, i: int) {
    0 <= i && i + |p| <= |s| && forall k :: 0 <= k < |p| ==> LowerChar(s[i + k]) == p[k]
  }

  predicate EndsAny(markers: seq<string>, w: string, e: int) {
    exists m | m in markers :: EndsMarker(w, m, e)
  }

  // The earliest '=' that ends a marker, at or after e; -1 if there is none.
  function FirstCut(markers: seq<string>, w: string, e: nat): (r: int)
    ensures r == -1 ==> forall k :: e <= k ==> !EndsAny(markers, w, k)
    ensures r != -1 ==> e <= r < |w| && EndsAny(markers, w, r)
    ensures r != -1 ==> forall k :: e <= k < r ==> !EndsAny(markers, w, k)
    decreases |w| - e
  {
    if e >= |w| then -1
    else if EndsAny(markers, w, e) then e
    else FirstCut(markers, w, e + 1)
  }

  // Everything after the earliest `marker=` of a word is replaced.
  function CutWord(markers: seq<string>, w: string): string {
    var e := FirstCut(markers, w, 0);
    if e == -1 then w else w[..e + 1] + REDACTED
  }

  // f applied to every maximal run of non-space characters, spaces kept.
  function MapWords(s: string, f: string -> string): string
    decreases |s|
  {
    if ' ' !in s then f(s)
    else
      var j := IndexOf(s, ' ');
      f(s[..j]) + " " + MapWords(s[j + 1..], f)
  }

  function Cutter(markers: seq<string>): string -> string {
    w => CutWord(markers, w)
  }

  function RedactWords(markers: seq<string>, s: string): string {
    MapWords(s, Cutter(markers))
  }

  // ---------- words ----------

  lemma CutUnique(markers: seq<string>, w: string, e: int)
    requires 0 <= e < |w| && EndsAny(markers, w, e)
    requires forall k :: 0 <= k < e ==> !EndsAny(markers, w, k)
    ensures CutWord(markers, w) == w[..e + 1] + REDACTED
  {
    var r := FirstCut(markers, w, 0);
    assert r == e;
  }

  lemma NoSpaceAfterCut(markers: seq<string>, w: string)
    requires ' ' !in w
    ensures ' ' !in CutWord(markers, w)
  {
  }

  lemma SameCuts(a: seq<string>, b: seq<string>, w: string)
    requires forall k: nat :: EndsAny(a, w, k) <==> EndsAny(b, w, k)
    ensures CutWord(a, w) == CutWord(b, w)
  {
    var e := FirstCut(a, w, 0);
    if e != -1 {
      CutUnique(b, w, e);
    }
  }

  // Below the cut the word is unchanged, and the replacement contains no '='.
  lemma MarkersAfterCut(w: string, cut: nat, marker: string, e: int)
    requires cut < |w|
    ensures EndsMarker(w[..cut + 1] + REDACTED, marker, e) <==> e <= cut && EndsMarker(w, marker, e)
  {
    var v := w[..cut + 1] + REDACTED;
    var p := marker + "=";
    var i := e - |marker|;
    if e > cut && e < |v| && 0 <= i {
      assert v[e] == REDACTED[e - cut - 1];
      assert p[|marker|] == '=' && LowerChar(v[i + |marker|]) != '=';
    }
  }

  lemma AnyAfterCut(markers: seq<string>, w: string, cut: nat, e: int)
    requires cut < |w|
    ensures EndsAny(markers, w[..cut + 1] + REDACTED, e) <==> e <= cut && EndsAny(markers, w, e)
  {
    forall m | m in markers
      ensures EndsMarker(w[..cut + 1] + REDACTED, m, e) <==> e <= cut && EndsMarker(w, m, e)
    {
      MarkersAfterCut(w, cut, m, e);
    }
  }

  lemma CutAgain(markers: seq<string>, w: string, cut: nat, e: nat)
    requires e <= cut < |w|
    requires e < cut ==> EndsAny(markers, w, e)
    requires forall k :: 0 <= k < e ==> !EndsAny(markers, w, k)
    ensures CutWord(markers, w[..cut + 1] + REDACTED) == w[..e + 1] + REDACTED
  {
    var v := w[..cut + 1] + REDACTED;
    forall k
      ensures EndsAny(markers, v, k) <==> k <= cut && EndsAny(markers, w, k)
    {
      AnyAfterCut(markers, w, cut, k);
    }
    if EndsAny(markers, w, e) {
      CutUnique(markers, v, e);
      assert v[..e + 1] == w[..e + 1];
    }
  }

  lemma AnyOfTwo(m: string, markers: seq<string>, w: string, e: int)
    ensures EndsAny([m] + markers, w, e) <==> EndsAny([m], w, e) || EndsAny(markers, w, e)
  {
    assert m in [m] + markers && m in [m];
  }

  lemma CutUnion(a: seq<string>, b: seq<string>, all: seq<string>, w: string)
    requires forall k: nat :: EndsAny(all, w, k) <==> EndsAny(a, w, k) || EndsAny(b, w, k)
    ensures CutWord(b, CutWord(a, w)) == CutWord(all, w)
  {
    var cut := FirstCut(a, w, 0);
    if cut == -1 {
      SameCuts(all, b, w);
    } else {
      CutAgain(b, w, cut, FirstCut(all, w, 0));
    }
  }

  // Cutting for one marker and then for others is cutting for all of them at once.
  lemma CutCompose(m: string, markers: seq<string>, w: string)
    ensures CutWord(markers, CutWord([m], w)) == CutWord([m] + markers, w)
  {
    forall k: nat
      ensures EndsAny([m] + markers, w, k) <==> EndsAny([m], w, k) || EndsAny(markers, w, k)
    {
      AnyOfTwo(m, markers, w, k);
    }
    CutUnion([m], markers, [m] + markers, w);
  }

  // After redaction, whatever follows a `marker=` in a word is exactly the placeholder.
  lemma NothingAfterMarker(markers: seq<string>, w: string, e: int)
    requires EndsAny(markers, CutWord(markers, w), e)
    ensures 0 <= e < |CutWord(markers, w)| && CutWord(markers, w)[e + 1..] == REDACTED
  {
    var c := FirstCut(markers, w, 0);
    var m :| m in markers && EndsMarker(CutWord(markers, w), m, e);
    assert 0 <= e;
    if c != -1 {
      MarkersAfterCut(w, c, m, e);
      assert EndsAny(markers, w, e);
    }
  }

  lemma CutIdempotent(markers: seq<string>, w: string)
    ensures CutWord(markers, CutWord(markers, w)) == CutWord(markers, w)
  {
    var v := CutWord(markers, w);
    var e := FirstCut(markers, v, 0);
    if e != -1 {
      NothingAfterMarker(markers, w, e);
      assert v == v[..e + 1] + v[e + 1..];
    }
  }

  // ---------- word-wise maps ----------

  ghost predicate KeepsWords(f: string -> string) {
    forall w :: ' ' !in w ==> ' ' !in f(w)
  }

  function MapSeq(words: seq<string>, f: string -> string): (r: seq<string>)
    ensures |r| == |words|
    ensures forall i :: 0 <= i < |r| ==> r[i] == f(words[i])
  {
    seq(|words|, i requires 0 <= i < |words| => f(words[i]))
  }

  lemma HeadWord(head: string, tail: string, f: string -> string)
    requires ' ' !in head
    ensures MapWords(head + " " + tail, f) == f(head) + " " + MapWords(tail, f)
  {
    var s := head + " " + tail;
    assert s[|head|] == ' ' && s[..|head|] == head && s[|head| + 1..] == tail;
    FirstIndexIs(s, ' ', |head|);
  }

  lemma Assoc(a: string, b: string, c: string)
    ensures a + (b + c) == a + b + c
  {
  }

  lemma Assoc4(a: string, b: string, c: string, d: string)
    ensures a + (b + c + d) == a + b + c + d
  {
  }

  // A map of words can be computed on both sides of any space.
  lemma {:induction false} MapWordsAtSpace(x: string, y: string, f: string -> string)
    ensures MapWords(x + " " + y, f) == MapWords(x, f) + " " + MapWords(y, f)
    decreases |x|
  {
    if ' ' in x {
      var j := IndexOf(x, ' ');
      var head, rest := x[..j], x[j + 1..];
      assert x == head + " " + rest;
      Assoc4(head + " ", rest, " ", y);
      HeadWord(head, rest + " " + y, f);
      MapWordsAtSpace(rest, y, f);
      Assoc4(f(head) + " ", MapWords(rest, f), " ", MapWords(y, f));
    } else {
      HeadWord(x, y, f);
    }
  }

  lemma {:induction false} MapWordsSplits(s: string, f: string -> string)
    requires KeepsWords(f)
    ensures SplitOn(MapWords(s, f), ' ') == MapSeq(SplitOn(s, ' '), f)
    decreases |s|
  {
    if ' ' in s {
      var j := IndexOf(s, ' ');
      MapWordsSplits(s[j + 1..], f);
      SplitAtFirst(f(s[..j]), MapWords(s[j + 1..], f), ' ');
    }
  }

  lemma {:induction false} MapWordsCompose(s: string, f: string -> string, g: string -> string, h: string -> string)
    requires KeepsWords(f)
    requires forall w :: ' ' !in w ==> h(w) == g(f(w))
    ensures MapWords(MapWords(s, f), g) == MapWords(s, h)
    decreases |s|
  {
    if ' ' in s {
      var j := IndexOf(s, ' ');
      MapWordsCompose(s[j + 1..], f, g, h);
      HeadWord(f(s[..j]), MapWords(s[j + 1..], f), g);
    }
  }

  lemma {:induction false} MapWordsSame(s: string, f: string -> string, g: string -> string)
    requires forall w :: ' ' !in w ==> f(w) == g(w)
    ensures MapWords(s, f) == MapWords(s, g)
    decreases |s|
  {
    if ' ' in s {
      MapWordsSame(s[IndexOf(s, ' ') + 1..], f, g);
    }
  }

  // ---------- whole texts ----------

  lemma CutterKeepsWords(markers: seq<string>)
    ensures KeepsWords(Cutter(markers))
  {
    forall w: string | ' ' !in w
      ensures ' ' !in Cutter(markers)(w)
    {
      NoSpaceAfterCut(markers, w);
    }
  }

  // Redaction keeps the words of the text apart and cuts each one on its own.
  lemma WordByWord(markers: seq<string>, s: string)
    ensures SplitOn(RedactWords(markers, s), ' ') == MapSeq(SplitOn(s, ' '), Cutter(markers))
  {
    CutterKeepsWords(markers);
    MapWordsSplits(s, Cutter(markers));
  }

  lemma RedactCompose(m: string, markers: seq<string>, s: string)
    ensures RedactWords(markers, RedactWords([m], s)) == RedactWords([m] + markers, s)
  {
    CutterKeepsWords([m]);
    forall w
      ensures Cutter([m] + markers)(w) == Cutter(markers)(Cutter([m])(w))
    {
      CutCompose(m, markers, w);
    }
    MapWordsCompose(s, Cutter([m]), Cutter(markers), Cutter([m] + markers));
  }

  lemma RedactIdempotent(markers: seq<string>, s: string)
    ensures RedactWords(markers, RedactWords(markers, s)) == RedactWords(markers, s)
  {
    CutterKeepsWords(markers);
    forall w
      ensures Cutter(markers)(w) == Cutter(markers)(Cutter(markers)(w))
    {
      CutIdempotent(markers, w);
    }
    MapWordsCompose(s, Cutter(markers), Cutter(markers), Cutter(markers));
  }

  // The result of running one pass per marker, in the given order.
  function RunPasses(markers: seq<string>, s: string): string {
    if markers == [] then s else RunPasses(markers[1..], RedactWords([markers[0]], s))
  }

  lemma {:induction false} NoMarkersNoChange(s: string)
    ensures RedactWords([], s) == s
    decreases |s|
  {
    if ' ' in s {
      NoMarkersNoChange(s[IndexOf(s, ' ') + 1..]);
    }
  }

  lemma {:induction false} PassesAreOneCut(markers: seq<string>, s: string)
    ensures RunPasses(markers, s) == RedactWords(markers, s)
  {
    if markers == [] {
      NoMarkersNoChange(s);
    } else {
      PassesAreOneCut(markers[1..], RedactWords([markers[0]], s));
      RedactCompose(markers[0], markers[1..], s);
      assert [markers[0]] + markers[1..] == markers;
    }
  }

  // Passes over the same markers in any order, with any repetition, give the same text.
  lemma OrderIndependent(a: seq<string>, b: seq<string>, s: string)
    requires forall m :: m in a <==> m in b
    ensures RunPasses(a, s) == RunPasses(b, s)
  {
    PassesAreOneCut(a, s);
    PassesAreOneCut(b, s);
    forall w
      ensures Cutter(a)(w) == Cutter(b)(w)
    {
      assert forall k: nat :: EndsAny(a, w, k) <==> EndsAny(b, w, k);
      SameCuts(a, b, w);
    }
    MapWordsSame(s, Cutter(a), Cutter(b));
  }

  // ---------- the in-place passes ----------

  lemma MatchIsOccurrence(s: string, p: string, i: int)
    ensures MatchAt(s, p, i) <==> OccursAt(Lower(s), p, i)
  {
    if 0 <= i && i + |p| <= |s| {
      var part := Lower(s)[i..i + |p|];
      assert forall k :: 0 <= k < |part| ==> part[k] == LowerChar(s[i + k]);
    }
  }

  ghost predicate FirstMatch(s: string, p: string, i: nat) {
    MatchAt(s, p, i) && forall k :: 0 <= k < i ==> !MatchAt(s, p, k)
  }

  ghost predicate NoMatch(s: string, p: string) {
    forall k :: 0 <= k ==> !MatchAt(s, p, k)
  }

  lemma MatchInSuffix(s: string, p: string, from: nat, i: nat)
    requires from <= |s|
    ensures MatchAt(s[from..], p, i) <==> MatchAt(s, p, from + i)
  {
    if from + i + |p| <= |s| {
      assert forall x :: i <= x < i + |p| ==> s[from..][x] == s[from + x];
    }
  }

  lemma MatchInPrefix(s: string, p: string, to: nat, i: nat)
    requires to <= |s|
    ensures MatchAt(s[..to], p, i) <==> i + |p| <= to && MatchAt(s, p, i)
  {
    if i + |p| <= to {
      assert forall x :: i <= x < i + |p| ==> s[..to][x] == s[x];
    }
  }

  lemma NoMatchInPrefix(s: string, p: string, to: nat)
    requires to <= |s|
    requires forall k :: 0 <= k && k + |p| <= to ==> !MatchAt(s, p, k)
    ensures NoMatch(s[..to], p)
  {
    forall k | 0 <= k
      ensures !MatchAt(s[..to], p, k)
    {
      MatchInPrefix(s, p, to, k);
    }
  }

  lemma NoMatchInSuffix(s: string, p: string, from: nat)
    requires from <= |s|
    requires forall k :: from <= k ==> !MatchAt(s, p, k)
    ensures NoMatch(s[from..], p)
  {
    forall k | 0 <= k
      ensures !MatchAt(s[from..], p, k)
    {
      MatchInSuffix(s, p, from, k);
    }
  }

  lemma UncutWord(marker: string, w: string)
    requires NoMatch(w, marker + "=")
    ensures CutWord([marker], w) == w
  {
    SameCuts([marker], [], w);
  }

  lemma CutAtMatch(marker: string, w: string, i: nat)
    requires FirstMatch(w, marker + "=", i)
    ensures CutWord([marker], w) == w[..i + |marker| + 1] + REDACTED
  {
    var e := i + |marker|;
    forall k
      ensures EndsAny([marker], w, k) <==> EndsMarker(w, marker, k)
    {
      assert marker in [marker];
    }
    CutUnique([marker], w, e);
  }

  lemma {:induction false} PassWithoutMatch(marker: string, s: string)
    requires NoMatch(s, marker + "=")
    ensures RedactWords([marker], s) == s
    decreases |s|
  {
    if ' ' in s {
      var j := IndexOf(s, ' ');
      NoMatchInPrefix(s, marker + "=", j);
      NoMatchInSuffix(s, marker + "=", j + 1);
      UncutWord(marker, s[..j]);
      PassWithoutMatch(marker, s[j + 1..]);
    } else {
      UncutWord(marker, s);
    }
  }

  // `end` is the first space at or after i, or the end of the text.
  ghost predicate EndsWord(t: string, i: nat, end: nat) {
    i <= end <= |t| && (end < |t| ==> t[end] == ' ') && forall k :: i <= k < end ==> t[k] != ' '
  }

  lemma MatchIsInWord(marker: string, t: string, i: nat, end: nat)
    requires ' ' !in marker
    requires MatchAt(t, marker + "=", i) && EndsWord(t, i, end)
    ensures i + |marker| < end
  {
    var p := marker + "=";
    forall x | i <= x < i + |p|
      ensures t[x] != ' '
    {
      assert LowerChar(t[i + (x - i)]) == p[x - i];
      assert p[x - i] != ' ';
    }
  }

  // What is left to map from position `end` on, which is a space or the end of the text.
  function MapRest(t: string, end: nat, f: string -> string): string
    requires end <= |t|
  {
    if end == |t| then "" else " " + MapWords(t[end + 1..], f)
  }

  lemma MapFirstWord(u: string, end: nat, f: string -> string)
    requires EndsWord(u, 0, end)
    ensures MapWords(u, f) == f(u[..end]) + MapRest(u, end, f)
  {
    var w := u[..end];
    if end < |u| {
      FirstIndexIs(u, ' ', end);
      Assoc(f(w), " ", MapWords(u[end + 1..], f));
    } else {
      assert u == w;
    }
  }

  lemma FirstMatchInPrefix(p: string, u: string, i: nat, end: nat)
    requires FirstMatch(u, p, i) && i + |p| <= end <= |u|
    ensures FirstMatch(u[..end], p, i)
  {
    forall k: nat
      ensures MatchAt(u[..end], p, k) <==> k + |p| <= end && MatchAt(u, p, k)
    {
      MatchInPrefix(u, p, end, k);
    }
  }

  // The start of the word that position i of t lies in.
  function WordStart(t: string, i: nat): (p: nat)
    requires i <= |t|
    ensures p <= i && (p > 0 ==> t[p - 1] == ' ')
    ensures forall k :: p <= k < i ==> t[k] != ' '
  {
    if i == 0 || t[i - 1] == ' ' then i else WordStart(t, i - 1)
  }

  lemma MapFromSpace(t: string, end: nat, f: string -> string)
    requires f("") == ""
    requires end <= |t| && (end < |t| ==> t[end] == ' ')
    ensures MapRest(t, end, f) == MapWords(t[end..], f)
  {
    if end < |t| {
      FirstIndexIs(t[end..], ' ', 0);
      assert t[end..][..0] == "" && t[end..][1..] == t[end + 1..];
    }
  }

  // The word of t between p and end is the first one that f changes: it is cut at `cut`.
  ghost predicate FirstChange(t: string, p: nat, cut: nat, end: nat, f: string -> string) {
    && p <= cut <= end <= |t|
    && EndsWord(t, p, end)
    && f(t[p..end]) == t[p..cut] + REDACTED
    && (p > 0 ==> t[p - 1] == ' ' && MapWords(t[..p - 1], f) == t[..p - 1])
  }

  lemma MapToFirstChange(t: string, p: nat, cut: nat, end: nat, f: string -> string)
    requires FirstChange(t, p, cut, end, f)
    ensures MapWords(t, f) == t[..cut] + REDACTED + MapRest(t, end, f)
  {
    hide MapWords;
    var u := t[p..];
    assert u[..end - p] == t[p..end];
    MapFirstWord(u, end - p, f);
    MapRestOfSuffix(t, p, end, f);
    if p == 0 {
      assert u == t;
    } else {
      var a := t[..p - 1];
      SplitAround(t, p - 1);
      MapWordsAtSpace(a, u, f);
      Assoc4(a + " ", t[p..cut], REDACTED, MapRest(t, end, f));
      PrefixAround(t, p - 1, cut);
      assert t[p..][..cut - p] == t[p..cut];
    }
  }

  lemma MatchedWordIsCut(marker: string, t: string, p: nat, i: nat, end: nat)
    requires FirstMatch(t, marker + "=", i)
    requires p <= i && i + |marker| < end <= |t|
    ensures CutWord([marker], t[p..end]) == t[p..i + |marker| + 1] + REDACTED
  {
    MatchInWord(marker, t, p, i);
    var u := t[p..];
    FirstMatchInPrefix(marker + "=", u, i - p, end - p);
    assert u[..end - p] == t[p..end];
    CutAtMatch(marker, t[p..end], i - p);
    assert t[p..end][..i - p + |marker| + 1] == t[p..i + |marker| + 1];
  }

  lemma MatchIsFirstChange(marker: string, t: string, i: nat, end: nat)
    requires ' ' !in marker
    requires FirstMatch(t, marker + "=", i) && EndsWord(t, i, end)
    ensures i + |marker| < end
    ensures FirstChange(t, WordStart(t, i), i + |marker| + 1, end, Cutter([marker]))
  {
    MatchIsInWord(marker, t, i, end);
    var p := WordStart(t, i);
    MatchedWordIsCut(marker, t, p, i, end);
    if p > 0 {
      NoMatchInPrefix(t, marker + "=", p - 1);
      PassWithoutMatch(marker, t[..p - 1]);
    }
  }

  lemma SplitAround(t: string, j: nat)
    requires j < |t| && t[j] == ' '
    ensures t == t[..j] + " " + t[j + 1..]
  {
  }

  lemma PrefixAround(t: string, j: nat, cut: nat)
    requires j < cut <= |t| && t[j] == ' '
    ensures t[..cut] == t[..j] + " " + t[j + 1..][..cut - j - 1]
  {
  }

  lemma MapRestOfSuffix(t: string, p: nat, end: nat, f: string -> string)
    requires p <= end <= |t|
    ensures MapRest(t[p..], end - p, f) == MapRest(t, end, f)
  {
    if end < |t| {
      assert t[p..][end - p + 1..] == t[end + 1..];
    }
  }

  lemma MatchInWord(marker: string, t: string, p: nat, i: nat)
    requires p <= i && FirstMatch(t, marker + "=", i)
    ensures FirstMatch(t[p..], marker + "=", i - p)
  {
    forall k: nat
      ensures MatchAt(t[p..], marker + "=", k) <==> MatchAt(t, marker + "=", p + k)
    {
      MatchInSuffix(t, marker + "=", p, k);
    }
  }

  lemma FindIsFirstMatch(s: string, p: string, from: nat)
    requires from <= |s|
    ensures var r := Find(Lower(s), p, from);
            if r == -1 then NoMatch(s[from..], p) else FirstMatch(s[from..], p, r - from)
  {
    forall k: nat
      ensures MatchAt(s[from..], p, k) <==> OccursAt(Lower(s), p, from + k)
    {
      MatchInSuffix(s, p, from, k);
      MatchIsOccurrence(s, p, from + k);
    }
  }

  // One pass per marker, each cutting every word at the marker's first occurrence in it.
  method RedactText(value: Option<string>) returns (redacted: Option<string>)
    ensures value.None? ==> redacted == None
    ensures value.Some? ==> redacted == Some(RedactWords(MARKERS, value.value))
  {
    if value.None? {
      return None;
    }
    MarkersHaveNoSpace();
    var result := RedactMarkers(value.value, MARKERS);
    redacted := Some(result);
  }

  lemma MarkersHaveNoSpace()
    ensures forall m :: m in MARKERS ==> ' ' !in m
  {
  }

  // The outer loop.
  method RedactMarkers(text: string, markers: seq<string>) returns (result: string)
    requires forall m :: m in markers ==> ' ' !in m
    ensures result == RedactWords(markers, text)
  {
    result := text;
    for n := 0 to |markers|
      invariant RunPasses(markers[n..], result) == RunPasses(markers, text)
    {
      var marker := markers[n];
      result := RedactMarker(result, marker);
      assert markers[n..][0] == marker && markers[n..][1..] == markers[n + 1..];
    }
    PassesAreOneCut(markers, text);
  }

  // The inner loop, for one marker.
  method RedactMarker(text: string, marker: string) returns (result: string)
    requires ' ' !in marker
    ensures result == RedactWords([marker], text)
  {
    hide RedactWords, Find;
    result := text;
    ghost var from := 0;
    assert result[0..] == result;
    var lowered := Lower(result);
    var index := Find(lowered, marker + "=", 0);
    while index != -1
      invariant 0 <= from <= |result|
      invariant index == Find(Lower(result), marker + "=", from)
      invariant RedactWords([marker], text) == result[..from] + RedactWords([marker], result[from..])
      decreases |result| - from
    {
      var end := Find(result, " ", index);
      if end == -1 {
        end := |result|;
      }
      FindIsFirstMatch(result, marker + "=", from);
      FindEndsWord(result, from, index);
      OneCut(marker, result, from, index, end);
      result := result[..index + |marker| + 1] + REDACTED + result[end..];
      from := index + |marker| + |REDACTED| + 1;
      lowered := Lower(result);
      index := Find(lowered, marker + "=", index + |marker| + |REDACTED| + 1);
    }
    NothingLeft(marker, result, from);
  }

  lemma NothingLeft(marker: string, t: string, from: nat)
    requires from <= |t| && Find(Lower(t), marker + "=", from) == -1
    ensures t[..from] + RedactWords([marker], t[from..]) == t
  {
    FindIsFirstMatch(t, marker + "=", from);
    PassWithoutMatch(marker, t[from..]);
  }

  // The word of t[from..] that holds the first match is cut.
  lemma OneCut(marker: string, t: string, from: nat, index: nat, end: nat)
    requires ' ' !in marker && from <= index && from <= end && from <= |t|
    requires FirstMatch(t[from..], marker + "=", index - from) && EndsWord(t[from..], index - from, end - from)
    ensures index + |marker| < end <= |t|
    ensures var r := t[..index + |marker| + 1] + REDACTED + t[end..];
            var next := index + |marker| + |REDACTED| + 1;
            t[..from] + RedactWords([marker], t[from..]) == r[..next] + RedactWords([marker], r[next..])
  {
    hide CutWord, FirstMatch, EndsWord, MapWords;
    var u, f := t[from..], Cutter([marker]);
    MatchIsFirstChange(marker, u, index - from, end - from);
    assert f("") == "" by {
      UncutWord(marker, "");
    }
    StepOver(t, from, WordStart(u, index - from), index + |marker| + 1, end, f);
  }

  lemma StepOver(t: string, from: nat, p: nat, cut: nat, end: nat, f: string -> string)
    requires f("") == ""
    requires from <= cut <= end <= |t|
    requires FirstChange(t[from..], p, cut - from, end - from, f)
    ensures var r := t[..cut] + REDACTED + t[end..];
            var next := cut + |REDACTED|;
            t[..from] + MapWords(t[from..], f) == r[..next] + MapWords(r[next..], f)
  {
    hide MapWords;
    var u := t[from..];
    MapToFirstChange(u, p, cut - from, end - from, f);
    MapFromSpace(u, end - from, f);
    assert u[end - from..] == t[end..];
    Advance(t, from, cut, end, f);
  }

  lemma FindEndsWord(s: string, from: nat, i: nat)
    requires from <= i <= |s|
    ensures var r := Find(s, " ", i);
            EndsWord(s[from..], i - from, (if r == -1 then |s| else r) - from)
  {
    assert forall k :: i <= k < |s| ==> (OccursAt(s, " ", k) <==> s[k] == ' ');
  }

  lemma Advance(t: string, from: nat, cut: nat, end: nat, f: string -> string)
    requires from <= cut <= end <= |t|
    requires MapWords(t[from..], f) == t[from..][..cut - from] + REDACTED + MapWords(t[from..][end - from..], f)
    ensures var r := t[..cut] + REDACTED + t[end..];
            var next := cut + |REDACTED|;
            t[..from] + MapWords(t[from..], f) == r[..next] + MapWords(r[next..], f)
  {
    var r := t[..cut] + REDACTED + t[end..];
    var next := cut + |REDACTED|;
    assert r[next..] == t[end..] == t[from..][end - from..];
    assert r[..next] == t[..cut] + REDACTED;
    assert t[..cut] == t[..from] + t[from..][..cut - from];
    Assoc4(t[..from], t[from..][..cut - from], REDACTED, MapWords(t[end..], f));
  }

  // A text without any marker is left as it is.
  lemma {:induction false} CleanTextKept(markers: seq<string>, s: string)
    requires forall m :: m in markers ==> NoMatch(s, m + "=")
    ensures RedactWords(markers, s) == s
  {
    if markers == [] {
      NoMarkersNoChange(s);
    } else {
      PassWithoutMatch(markers[0], s);
      CleanTextKept(markers[1..], s);
      RedactCompose(markers[0], markers[1..], s);
      assert [markers[0]] + markers[1..] == markers;
    }
  }

  // ---------- attribute trees ----------

  predicate IsSecretKey(key: string) {
    var normalized := ReplaceChar(Lower(key), '-', "_");
    exists m | m in MARKERS :: Includes(normalized, m)
  }

  predicate HidesValue(key: Option<string>) {
    Given(key) && IsSecretKey(key.value)
  }

  function RedactValue(value: Json, key: Option<string>): Json {
    if HidesValue(key) then JStr(REDACTED)
    else
      match value
      case JObj(fields) => JObj(map k | k in fields :: RedactValue(fields[k], Some(k)))
      case JArr(items) => JArr(seq(|items|, i requires 0 <= i < |items| => RedactValue(items[i], None)))
      case JStr(text) => JStr(RedactWords(MARKERS, text))
      case _ => value
  }

  // One step down a JSON tree.
  datatype Step = Key(key: string) | Item(index: nat)

  function Child(value: Json, step: Step): Option<Json> {
    match (value, step)
    case (JObj(fields), Key(k)) => if k in fields then Some(fields[k]) else None
    case (JArr(items), Item(i)) => if i < |items| then Some(items[i]) else None
    case _ => None
  }

  // The subtree a path leads to, if there is one.
  function Lookup(value: Json, path: seq<Step>): Option<Json> {
    if path == [] then Some(value)
    else
      match Child(value, path[0])
      case None => None
      case Some(child) => Lookup(child, path[1..])
  }

  predicate SecretStep(step: Step) {
    step.Key? && HidesValue(Some(step.key))
  }

  // The number of steps before the first secret key of a path.
  function StepsToSecret(path: seq<Step>): (n: nat)
    ensures n <= |path|
  {
    if path == [] || SecretStep(path[0]) then 0 else 1 + StepsToSecret(path[1..])
  }

  lemma PlainKeyRedaction(value: Json, key: Option<string>)
    requires !HidesValue(key)
    ensures RedactValue(value, key) == RedactValue(value, None)
  {
  }

  lemma RedactedChild(value: Json, step: Step)
    ensures Child(RedactValue(value, None), step) ==
            match Child(value, step)
            case None => None
            case Some(x) => Some(if SecretStep(step) then JStr(REDACTED) else RedactValue(x, None))
  {
    var child := Child(value, step);
    if child.Some? && step.Key? && !SecretStep(step) {
      PlainKeyRedaction(child.value, Some(step.key));
    }
  }

  // Where every path leads after redaction: below a secret key nothing is left, at a secret key
  // stands the placeholder, and any other position holds the redaction of what it held before.
  lemma {:induction false} RedactedLookup(value: Json, path: seq<Step>)
    ensures Lookup(RedactValue(value, None), path) ==
            match Lookup(value, path)
            case None => None
            case Some(x) =>
              if StepsToSecret(path) == |path| then Some(RedactValue(x, None))
              else if StepsToSecret(path) == |path| - 1 then Some(JStr(REDACTED))
              else None
  {
    if path != [] {
      RedactedChild(value, path[0]);
      var child := Child(value, path[0]);
      if child.Some? && !SecretStep(path[0]) {
        RedactedLookup(child.value, path[1..]);
      } else {
        NothingBelowText(path[1..]);
      }
      hide Child, RedactValue;
    }
  }

  lemma NothingBelowText(path: seq<Step>)
    ensures Lookup(JStr(REDACTED), path) == if path == [] then Some(JStr(REDACTED)) else None
  {
  }

  lemma {:induction false} RedactValueIdempotent(value: Json, key: Option<string>)
    ensures RedactValue(RedactValue(value, key), key) == RedactValue(value, key)
  {
    if !HidesValue(key) {
      match value
      case JObj(fields) =>
        forall k | k in fields
          ensures RedactValue(RedactValue(fields[k], Some(k)), Some(k)) == RedactValue(fields[k], Some(k))
        {
          RedactValueIdempotent(fields[k], Some(k));
        }
      case JArr(items) =>
        forall i | 0 <= i < |items|
          ensures RedactValue(RedactValue(items[i], None), None) == RedactValue(items[i], None)
        {
          RedactValueIdempotent(items[i], None);
        }
      case JStr(text) =>
        RedactIdempotent(MARKERS, text);
      case _ =>
    }
  }

  // ---------- whole log entries ----------

  function RedactAttributes(attributes: map<string, Json>): map<string, Json> {
    RedactValue(JObj(attributes), None).fields
  }

  function RedactOptional(text: Option<string>): Option<string> {
    match text
    case None => None
    case Some(s) => Some(RedactWords(MARKERS, s))
  }

  // The exception's message is passed through; only its stack trace is redacted.
  function ApplyRedaction(log: LogCreate, mode: string): Result<LogCreate> {
    if mode == "disabled" then Ok(log)
    else if mode != "basic" then Err(BadRequest("invalid_redaction_mode"))
    else
      var exception := match log.exception
        case None => None
        case Some(e) => Some(e.(stacktrace := RedactOptional(e.stacktrace)));
      var text := RedactWords(MARKERS, log.message);
      Ok(log.(attributes := RedactAttributes(log.attributes),
              exception := exception,
              message := if text != "" then text else log.message))
  }

  lemma ApplyRedactionIdempotent(log: LogCreate, mode: string)
    ensures var once := ApplyRedaction(log, mode);
            once.Ok? ==> ApplyRedaction(once.value, mode) == once
  {
    if mode == "basic" {
      RedactIdempotent(MARKERS, log.message);
      RedactValueIdempotent(JObj(log.attributes), None);
      if log.exception.Some? && log.exception.value.stacktrace.Some? {
        RedactIdempotent(MARKERS, log.exception.value.stacktrace.value);
      }
    }
  }

  // ---------- what is left of a secret ----------

  // In every word, nothing but the placeholder follows a marker and its '='.
  ghost predicate IsClean(s: string) {
    forall w :: w in SplitOn(s, ' ') ==> CleanWord(w)
  }

  ghost predicate CleanWord(w: string) {
    forall e :: EndsAny(MARKERS, w, e) ==> 0 <= e < |w| && w[e + 1..] == REDACTED
  }

  lemma EndsInside(w: string, e: int)
    requires EndsAny(MARKERS, w, e)
    ensures 0 <= e < |w|
  {
  }

  lemma CleanWordIff(w: string)
    ensures CleanWord(w) <==> CutWord(MARKERS, w) == w
  {
    if CleanWord(w) {
      var e := FirstCut(MARKERS, w, 0);
      if e != -1 {
        assert w == w[..e + 1] + w[e + 1..];
      }
    }
    if CutWord(MARKERS, w) == w {
      forall e | EndsAny(MARKERS, w, e)
        ensures 0 <= e < |w| && w[e + 1..] == REDACTED
      {
        EndsInside(w, e);
        NothingAfterMarker(MARKERS, w, e);
      }
    }
  }

  // A text is clean exactly when redaction leaves it as it is; so a redacted text is clean.
  lemma CleanIff(s: string)
    ensures IsClean(s) <==> RedactWords(MARKERS, s) == s
  {
    WordByWord(MARKERS, s);
    var words := SplitOn(s, ' ');
    var cut := MapSeq(words, Cutter(MARKERS));
    hide CutWord, RedactWords, CleanWord;
    forall w
      ensures CleanWord(w) <==> Cutter(MARKERS)(w) == w
    {
      CleanWordIff(w);
    }
    if IsClean(s) {
      forall i | 0 <= i < |words|
        ensures cut[i] == words[i]
      {
        assert words[i] in words;
      }
      assert cut == words;
      JoinSplit(s, ' ');
      JoinSplit(RedactWords(MARKERS, s), ' ');
    }
    if RedactWords(MARKERS, s) == s {
      forall w | w in words
        ensures CleanWord(w)
      {
        var i :| 0 <= i < |words| && words[i] == w;
        assert cut[i] == words[i];
      }
    }
  }

  lemma RedactedIsClean(s: string)
    ensures IsClean(RedactWords(MARKERS, s))
  {
    RedactIdempotent(MARKERS, s);
    CleanIff(RedactWords(MARKERS, s));
  }

  lemma MarkerHasEquals(w: string, marker: string, e: int)
    ensures EndsMarker(w, marker, e) ==> '=' in w
  {
    if EndsMarker(w, marker, e) {
      var p := marker + "=";
      assert p[|marker|] == '=' && LowerChar(w[e]) == '=';
      assert w[e] in w;
    }
  }

  lemma PlaceholderIsClean()
    ensures IsClean(REDACTED)
  {
    assert ' ' !in REDACTED && '=' !in REDACTED;
    forall m, e
      ensures EndsMarker(REDACTED, m, e) ==> '=' in REDACTED
    {
      MarkerHasEquals(REDACTED, m, e);
    }
  }

  // Only the word that holds the marker is cut: what follows a space is kept.
  lemma AfterSpaceKept(a: string, b: string)
    requires forall m :: m in MARKERS ==> NoMatch(b, m + "=")
    ensures RedactWords(MARKERS, a + " " + b) == RedactWords(MARKERS, a) + " " + b
  {
    MapWordsAtSpace(a, b, Cutter(MARKERS));
    CleanTextKept(MARKERS, b);
  }

  // Every string in the tree is clean.
  ghost predicate CleanTree(value: Json) {
    forall path, text :: Lookup(value, path) == Some(JStr(text)) ==> IsClean(text)
  }

  lemma RedactedTreeIsClean(value: Json)
    ensures CleanTree(RedactValue(value, None))
  {
    hide IsClean, RedactWords, StepsToSecret, Lookup;
    forall path, text | Lookup(RedactValue(value, None), path) == Some(JStr(text))
      ensures IsClean(text)
    {
      RedactedLookup(value, path);
      PlaceholderIsClean();
      var x := Lookup(value, path).value;
      if x.JStr? {
        RedactedIsClean(x.text);
      }
    }
  }

  ghost predicate CleanOptional(text: Option<string>) {
    text.Some? ==> IsClean(text.value)
  }

  // The texts that redaction works on.
  ghost predicate TreatedTextsClean(log: LogCreate) {
    && IsClean(log.message) && CleanTree(JObj(log.attributes))
    && (log.exception.Some? ==> CleanOptional(log.exception.value.stacktrace))
  }

  // The texts that it passes through.
  ghost predicate OtherTextsClean(log: LogCreate) {
    && IsClean(log.severity)
    && CleanOptional(log.service) && CleanOptional(log.environment)
    && CleanOptional(log.traceId) && CleanOptional(log.spanId) && CleanOptional(log.requestId)
    && CleanOptional(log.logger) && CleanOptional(log.event)
    && CleanOptional(log.projectId) && CleanOptional(log.sourceId) && CleanOptional(log.idempotencyKey)
    && (log.exception.Some? ==>
          CleanOptional(log.exception.value.kind) && CleanOptional(log.exception.value.message))
  }

  // Message, attribute values and stack trace come out clean; everything else comes out as it went in.
  lemma RedactionCoverage(log: LogCreate)
    ensures var r := ApplyRedaction(log, "basic");
            && r.Ok? && TreatedTextsClean(r.value)
            && r.value.(message := log.message, attributes := log.attributes, exception := log.exception) == log
            && (r.value.exception.Some? <==> log.exception.Some?)
            && (log.exception.Some? ==>
                  r.value.exception.value.(stacktrace := log.exception.value.stacktrace) == log.exception.value)
  {
    hide IsClean, RedactWords, CleanTree;
    RedactedIsClean(log.message);
    EmptyIsClean();
    RedactedToEmpty(log.message);
    RedactedTreeIsClean(JObj(log.attributes));
    if log.exception.Some? && log.exception.value.stacktrace.Some? {
      RedactedIsClean(log.exception.value.stacktrace.value);
    }
  }

  lemma EmptyIsClean()
    ensures IsClean("")
  {
    NoMarkersInEmpty();
    CleanTextKept(MARKERS, "");
    CleanIff("");
  }

  lemma NoMarkersInEmpty()
    ensures forall m :: m in MARKERS ==> NoMatch("", m + "=")
  {
  }

  lemma RedactedToEmpty(s: string)
    ensures RedactWords(MARKERS, s) == "" ==> s == ""
  {
  }

  // No text of a redacted log shows anything after a marker if and only if none of the texts that are
  // passed through did.
  lemma NothingLeaksIff(log: LogCreate)
    ensures var r := ApplyRedaction(log, "basic").value;
            TreatedTextsClean(r) && OtherTextsClean(r) <==> OtherTextsClean(log)
  {
    RedactionCoverage(log);
    hide ApplyRedaction, IsClean, CleanTree;
  }

  // An exception message is such a text: whatever follows the marker in it is kept.
  lemma ExceptionMessageLeaks(log: LogCreate, secret: string)
    requires ' ' !in secret && secret != REDACTED
    requires log.exception.Some? && log.exception.value.message == Some("password=" + secret)
    ensures var r := ApplyRedaction(log, "basic").value;
            && r.exception.Some? && r.exception.value.message == Some("password=" + secret)
            && !IsClean("password=" + secret) && !OtherTextsClean(r)
  {
    var w := "password=" + secret;
    assert SplitOn(w, ' ') == [w];
    MarkerAtStart(secret);
    assert w[9..] == secret;
    assert !CleanWord(w);
    assert w in SplitOn(w, ' ');
    hide CleanWord, IsClean, RedactWords;
  }

  lemma MarkerAtStart(secret: string)
    ensures EndsAny(MARKERS, "password=" + secret, 8)
  {
    var w := "password=" + secret;
    assert "password" in MARKERS by {
      assert MARKERS[0] == "password";
    }
    assert forall k :: 0 <= k < 9 ==> w[k] == "password="[k];
    assert MatchAt(w, "password" + "=", 0);
  }
}
