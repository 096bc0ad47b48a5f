// Daily quota counters of the in-memory store (panda_trace/store.py).
module Quota {
  import opened Base
  import opened Text

  datatype Kind = ProjectIngest | KeyIngest | AgentReads

  function KindName(kind: Kind): string {
    match kind
    case ProjectIngest => "project_ingest"
    case KeyIngest => "key_ingest"
    case AgentReads => "agent_reads"
  }

  // f"quota:{kind}:{id}:{day}", the day as an ISO date.
  function QuotaKey(kind: Kind, id: string, day: string): string {
    "quota:" + KindName(kind) + ":" + id + ":" + day
  }

  predicate IsDay(day: string) {
    ':' !in day
  }

  // Counters of different kinds, identifiers or days never share a key.
  lemma QuotaKeysDiffer(a: Kind, i: string, d: string, b: Kind, j: string, e: string)
    requires IsDay(d) && IsDay(e)
    requires QuotaKey(a, i, d) == QuotaKey(b, j, e)
    ensures a == b && i == j && d == e
  {
    SuffixAfterSeparator("quota:" + KindName(a) + ":" + i, "quota:" + KindName(b) + ":" + j, d, e, ':');
    var s, t := "quota:" + KindName(a) + ":" + i, "quota:" + KindName(b) + ":" + j;
    assert s[6] == KindName(a)[0] && t[6] == KindName(b)[0];
    assert a == b;
    var n := |"quota:" + KindName(a) + ":"|;
    assert s[n..] == i && t[n..] == j;
  }

  function Counter(quota: map<string, int>, key: string): int {
    if key in quota then quota[key] else 0
  }

  // One reservation: the counters afterwards, or None when the limit would be exceeded. A limit of
  // zero or less switches the quota off.
  function Reserve(quota: map<string, int>, key: string, amount: int, limit: int): Option<map<string, int>> {
    if limit <= 0 then Some(quota)
    else if Counter(quota, key) + amount > limit then None
    else Some(quota[key := Counter(quota, key) + amount])
  }
}
