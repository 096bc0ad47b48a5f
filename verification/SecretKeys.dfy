// Which attributes are hidden because of their name, and what redaction makes of a whole JSON tree
// (_is_secret_key and _redact_value of panda_trace/redaction.py).
module SecretKeys {
  import opened Base
  import opened Text
  import opened IgnoreCase
  import opened Records
  import opened Redaction

  const SECRET_WORDS: set<string> := {"password", "secret", "token", "api_key", "apikey", "authorization"}

  lemma MarkersAre(m: string)
    ensures m in MARKERS <==> m in SECRET_WORDS
    ensures REDACTED == "[redacted]"
  {
  }

  // ---------- keys ----------

  // A character of a key stands for one of a word: the same letter in any case, or '-' for '_'.
  predicate StandsFor(c: char, d: char) {
    SameLetter(c, d) || (c == '-' && d == '_')
  }

  // The key shows the word at position i.
  predicate ShowsAt(key: string, word: string, i: int) {
    && 0 <= i && i + |word| <= |key|
    && forall j :: 0 <= j < |word| ==> StandsFor(key[i + j], word[j])
  }

  ghost predicate LooksSecret(key: string) {
    exists word, i :: word in SECRET_WORDS && ShowsAt(key, word, i)
  }

  function Normalized(key: string): string {
    ReplaceChar(Lower(key), '-', "_")
  }

  lemma {:induction false} ReplaceByOne(s: string, c: char, d: char)
    ensures |ReplaceChar(s, c, [d])| == |s|
    ensures forall i :: 0 <= i < |s| ==> ReplaceChar(s, c, [d])[i] == if s[i] == c then d else s[i]
  {
    if s != "" {
      ReplaceByOne(s[1..], c, d);
    }
  }

  // No capital letter and no hyphen, as in the secret words.
  predicate Plain(word: string) {
    forall i :: 0 <= i < |word| ==> !IsUpper(word[i]) && word[i] != '-'
  }

  lemma WordsArePlain(word: string)
    requires word in SECRET_WORDS
    ensures Plain(word) && word != ""
  {
  }

  lemma ShowsAtIff(key: string, word: string, i: int)
    requires Plain(word)
    ensures OccursAt(Normalized(key), word, i) <==> ShowsAt(key, word, i)
  {
    ReplaceByOne(Lower(key), '-', '_');
    var n := Normalized(key);
    if 0 <= i && i + |word| <= |key| {
      assert n[i..i + |word|] == word <==> forall j :: 0 <= j < |word| ==> n[i + j] == word[j];
      forall j | 0 <= j < |word|
        ensures n[i + j] == word[j] <==> StandsFor(key[i + j], word[j])
      {
        CharStandsFor(key[i + j], word[j]);
      }
    }
  }

  lemma CharStandsFor(c: char, d: char)
    requires !IsUpper(d) && d != '-'
    ensures (if LowerChar(c) == '-' then '_' else LowerChar(c)) == d <==> StandsFor(c, d)
  {
  }

  // A key is treated as secret exactly if it shows one of the words, in any case and with '-' for '_'.
  lemma SecretKeyIff(key: string)
    ensures IsSecretKey(key) <==> LooksSecret(key)
    ensures HidesValue(Some(key)) <==> LooksSecret(key)
  {
    if LooksSecret(key) {
      var word, i :| word in SECRET_WORDS && ShowsAt(key, word, i);
      MarkersAre(word);
      WordsArePlain(word);
      ShowsAtIff(key, word, i);
      assert OccursAt(Normalized(key), word, i);
    }
    if IsSecretKey(key) {
      var m :| m in MARKERS && Includes(Normalized(key), m);
      var i :| OccursAt(Normalized(key), m, i);
      MarkersAre(m);
      WordsArePlain(m);
      ShowsAtIff(key, m, i);
    }
    NoKeyNoWord(key);
    hide Lower, ReplaceChar, SECRET_WORDS, MARKERS, ShowsAt;
  }

  lemma NoKeyNoWord(key: string)
    ensures key == "" ==> !LooksSecret(key)
  {
    forall word | word in SECRET_WORDS
      ensures word != ""
    {
      WordsArePlain(word);
    }
    hide SECRET_WORDS;
  }

  // Any texts may stand around the word.
  lemma KeyAround(before: string, shown: string, after: string, word: string)
    requires word in SECRET_WORDS && ShowsAt(shown, word, 0)
    ensures LooksSecret(before + shown + after)
  {
    var key := before + shown + after;
    assert forall j :: 0 <= j < |word| ==> key[|before| + j] == shown[j];
    assert ShowsAt(key, word, |before|);
    hide SECRET_WORDS;
  }

  // ---------- whole trees ----------

  ghost predicate SecretName(step: Step) {
    step.Key? && LooksSecret(step.key)
  }

  // No step of the path is a secret key.
  ghost predicate OpenPath(path: seq<Step>) {
    forall i :: 0 <= i < |path| ==> !SecretName(path[i])
  }

  // At a secret key stands the placeholder, whatever was there, and nothing below it; this holds at every
  // depth below keys that are not secret.
  lemma HiddenAtSecretKey(value: Json, path: seq<Step>, key: string, below: seq<Step>)
    requires OpenPath(path) && LooksSecret(key) && Lookup(value, path + [Key(key)]).Some?
    ensures Lookup(RedactValue(value, None), path + [Key(key)] + below)
            == if below == [] then Some(JStr(REDACTED)) else None
  {
    var steps := path + [Key(key)];
    RedactedLookup(value, steps);
    OpenSteps(path);
    hide LooksSecret, RedactValue, Lookup;
    SecretKeyIff(key);
    StepsBefore(path, [Key(key)]);
    LookupFurther(RedactValue(value, None), steps, below);
    NothingBelowText(below);
    assert steps + [] == steps;
  }

  lemma {:induction false} LookupFurther(value: Json, path: seq<Step>, below: seq<Step>)
    ensures Lookup(value, path + below)
            == match Lookup(value, path) case None => None case Some(x) => Lookup(x, below)
  {
    if path == [] {
      assert path + below == below;
    } else {
      assert (path + below)[0] == path[0] && (path + below)[1..] == path[1..] + below;
      var child := Child(value, path[0]);
      if child.Some? {
        LookupFurther(child.value, path[1..], below);
      }
    }
  }

  lemma StepSecretIff(step: Step)
    ensures SecretStep(step) <==> SecretName(step)
  {
    if step.Key? {
      SecretKeyIff(step.key);
    }
    hide LooksSecret, HidesValue;
  }

  lemma {:induction false} OpenSteps(path: seq<Step>)
    requires OpenPath(path)
    ensures StepsToSecret(path) == |path|
  {
    hide SecretName;
    if path != [] {
      StepSecretIff(path[0]);
      OpenSteps(path[1..]);
    }
  }

  lemma {:induction false} StepsBefore(path: seq<Step>, more: seq<Step>)
    requires StepsToSecret(path) == |path|
    ensures StepsToSecret(path + more) == |path| + StepsToSecret(more)
  {
    hide SecretStep;
    if path == [] {
      assert path + more == more;
    } else {
      assert (path + more)[0] == path[0] && (path + more)[1..] == path[1..] + more;
      StepsBefore(path[1..], more);
    }
  }

  // What redaction leaves at a place that no secret key leads to: a text redacted word by word, numbers,
  // booleans and null as they were, lists of the same length and objects with the same keys.
  predicate LeftAs(before: Json, after: Json) {
    match before
    case JStr(text) => after == JStr(RedactWords(MARKERS, text))
    case JArr(items) => after.JArr? && |after.items| == |items|
    case JObj(fields) => after.JObj? && after.fields.Keys == fields.Keys
    case _ => after == before
  }

  lemma OpenPlaceKept(value: Json, path: seq<Step>)
    requires OpenPath(path)
    ensures var before, after := Lookup(value, path), Lookup(RedactValue(value, None), path);
            if before.None? then after.None? else after.Some? && LeftAs(before.value, after.value)
  {
    RedactedLookup(value, path);
    OpenSteps(path);
    var before := Lookup(value, path);
    if before.Some? {
      RootLeftAs(before.value);
    }
    hide Lookup, RedactValue, LeftAs, OpenPath;
  }

  lemma RootLeftAs(value: Json)
    ensures LeftAs(value, RedactValue(value, None))
  {
    hide RedactWords;
  }

  // ---------- log entries ----------

  // Redaction is off, basic, or refused.
  lemma ModeIff(log: LogCreate, mode: string)
    ensures ApplyRedaction(log, mode).Ok? <==> mode == "disabled" || mode == "basic"
    ensures ApplyRedaction(log, mode).Err? ==> ApplyRedaction(log, mode).error == BadRequest("invalid_redaction_mode")
    ensures mode == "disabled" ==> ApplyRedaction(log, mode) == Ok(log)
  {
    hide RedactWords, RedactAttributes;
  }

  // In a log that went through basic redaction the value of an attribute with a secret name is the
  // placeholder, however deep it lies.
  lemma SecretAttributeHidden(log: LogCreate, path: seq<Step>, key: string, below: seq<Step>)
    requires OpenPath(path) && LooksSecret(key) && Lookup(JObj(log.attributes), path + [Key(key)]).Some?
    ensures var clean := ApplyRedaction(log, "basic");
            clean.Ok? && Lookup(JObj(clean.value.attributes), path + [Key(key)] + below)
                         == if below == [] then Some(JStr(REDACTED)) else None
  {
    HiddenAtSecretKey(JObj(log.attributes), path, key, below);
    assert RedactValue(JObj(log.attributes), None).JObj?;
    hide RedactWords, Lookup, LooksSecret, OpenPath;
  }

  // Every other place of its attributes holds what redaction leaves there.
  lemma OtherAttributesKept(log: LogCreate, path: seq<Step>)
    requires OpenPath(path)
    ensures var clean := ApplyRedaction(log, "basic");
            && clean.Ok?
            && var before, after := Lookup(JObj(log.attributes), path), Lookup(JObj(clean.value.attributes), path);
               if before.None? then after.None? else after.Some? && LeftAs(before.value, after.value)
  {
    OpenPlaceKept(JObj(log.attributes), path);
    assert RedactValue(JObj(log.attributes), None).JObj?;
    hide RedactWords, Lookup, OpenPath, LeftAs;
  }

  // Message and stack trace are redacted word by word, and an absent stack trace stays absent.
  lemma TextsRedacted(log: LogCreate)
    ensures var r := ApplyRedaction(log, "basic").value;
            && r.message == RedactWords(MARKERS, log.message)
            && (log.exception.Some? ==>
                  && r.exception.Some?
                  && r.exception.value.stacktrace
                     == match log.exception.value.stacktrace
                        case None => None
                        case Some(text) => Some(RedactWords(MARKERS, text)))
  {
    RedactedToEmpty(log.message);
    hide RedactWords, RedactAttributes;
  }
}
