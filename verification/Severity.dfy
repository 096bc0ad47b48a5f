// Severity aliases (panda_trace/log_query.py).
module Severity {
  import opened Base
  import opened Text

  const SEVERITY_ALIASES: map<string, string> := map[
    "trace" := "trace", "debug" := "debug",
    "info" := "info", "information" := "info", "notice" := "info",
    "warn" := "warning", "warning" := "warning",
    "error" := "error", "err" := "error",
    "critical" := "critical", "fatal" := "critical", "panic" := "critical"]

  // The ASCII characters that str.strip removes.
  predicate IsBlank(c: char) {
    c == ' ' || '\t' <= c <= '\r' || '\U{1C}' <= c <= '\U{1F}'
  }

  function StripLeft(s: string): string {
    if s != "" && IsBlank(s[0]) then StripLeft(s[1..]) else s
  }

  function StripRight(s: string): string {
    if s != "" && IsBlank(s[|s| - 1]) then StripRight(s[..|s| - 1]) else s
  }

  predicate KnownSeverity(value: string) {
    Lower(StripRight(StripLeft(value))) in SEVERITY_ALIASES
  }

  function NormalizeSeverity(value: string): Result<string> {
    var name := Lower(StripRight(StripLeft(value)));
    if name in SEVERITY_ALIASES then Ok(SEVERITY_ALIASES[name]) else Err(BadRequest("invalid_severity"))
  }

  predicate AllKnown(values: seq<string>) {
    forall v :: v in values ==> KnownSeverity(v)
  }

  function NormalizedSet(values: seq<string>): set<string>
    requires AllKnown(values)
  {
    set v | v in values :: NormalizeSeverity(v).value
  }
}
