// Search isolation, the audit trail and the agreement of the two back ends, over every run of the
// in-memory store.
module StoreRuns {
  import opened Base
  import opened Records
  import opened Severity
  import opened Ids
  import opened Cursor
  import opened StoreModel
  import opened StoreInvariant
  import opened StoreSteps
  import opened Codec
  import Paging
  import SearchWhere

  // ---------- tenancy and search ----------

  lemma {:induction false} FoundMatches(key: ApiKey, request: SearchRequest, records: seq<LogRecord>)
    requires AllKnown(request.severity)
    ensures forall r :: r in SearchWhere.MatchingRecords(key, request, records) <==>
                        r in records && SearchWhere.Matches(key, r, request)
  {
    hide SearchWhere.Matches;
    if records != [] {
      FoundMatches(key, request, records[1..]);
      assert records == [records[0]] + records[1..];
    }
  }

  lemma SortedMembers(records: seq<LogRecord>, sort: Sort)
    ensures forall r :: r in SortRecords(records, sort) <==> r in records
  {
    Paging.SortIsStable(records, sort);
    hide SortRecords;
    assert forall r :: r in multiset(SortRecords(records, sort)) <==> r in SortRecords(records, sort);
    assert forall r :: r in multiset(records) <==> r in records;
  }

  lemma PageMembers(records: seq<LogRecord>, offset: nat, limit: int)
    ensures forall r :: r in PageOf(records, offset, limit).records ==> r in records
  {
    hide EncodeCursor;
  }

  lemma IsStored(s: State, r: LogRecord)
    requires Inv(s) && r in Values(s.logs)
    ensures LogOk(s, r)
  {
    ValueMembers(s.logs.order, s.logs.at);
    hide LogOk, KeyOk;
  }

  // The predicate of a search never looks at the organisation; the project it asks for decides it.
  lemma FoundInOrg(s: State, key: ApiKey, request: SearchRequest, r: LogRecord)
    requires Inv(s) && AllKnown(request.severity)
    requires SearchWhere.ProjectForKey(s.projects, key, request.projectId).Ok?
    requires r in Values(s.logs) && SearchWhere.Matches(key, r, request)
    ensures r.orgId == key.orgId
    ensures r.projectId == request.projectId && ProjectAllowed(key, r.projectId) && SourceAllowed(key, r.sourceId)
  {
    IsStored(s, r);
    hide Inv, ProjectAllowed, SourceAllowed;
  }

  lemma SearchChecksProject(s: State, auth: Auth, request: SearchRequest, limitOverride: Option<int>,
                            day: string, settings: Settings)
    requires SearchLogs(s, auth, request, limitOverride, day, settings).1.Ok?
    ensures SearchWhere.ProjectForKey(s.projects, auth.key, request.projectId).Ok?
  {
    hide SearchWhere.ProjectForKey, CheckFilters, Matching, PageOf;
  }

  // Every record a search returns is a stored log of the caller's own organisation, of a project and
  // a source its key may use.
  lemma SearchStaysInOrg(commands: seq<Command>, auth: Auth, request: SearchRequest, limitOverride: Option<int>,
                         day: string, settings: Settings)
    requires SearchLogs(Run(commands, settings), auth, request, limitOverride, day, settings).1.Ok?
    ensures var s := Run(commands, settings);
            forall r :: r in SearchLogs(s, auth, request, limitOverride, day, settings).1.value.records ==>
              && r in Values(s.logs) && r.orgId == auth.key.orgId && r.projectId == request.projectId
              && ProjectAllowed(auth.key, r.projectId) && SourceAllowed(auth.key, r.sourceId)
  {
    var s := Run(commands, settings);
    RunKeepsInv(commands, settings);
    SearchChecksProject(s, auth, request, limitOverride, day, settings);
    Paging.SearchGivesPage(s, auth, request, limitOverride, day, settings);
    var found := SearchWhere.MatchingRecords(auth.key, request, Values(s.logs));
    var sorted := SortRecords(found, request.sort);
    assert Matching(s, auth, request) == sorted;
    PageMembers(sorted, DecodeCursor(request.cursor).value, PageLimit(request, limitOverride, settings));
    SortedMembers(found, request.sort);
    FoundMatches(auth.key, request, Values(s.logs));
    hide *;
    forall r | r in SearchLogs(s, auth, request, limitOverride, day, settings).1.value.records
      ensures r in Values(s.logs) && r.orgId == auth.key.orgId && r.projectId == request.projectId
      ensures ProjectAllowed(auth.key, r.projectId) && SourceAllowed(auth.key, r.sourceId)
    {
      FoundInOrg(s, auth.key, request, r);
    }
  }

  // ---------- the audit trail ----------

  // The log table and the `logs.write` entries of the audit trail correspond one to one, in order.
  lemma AuditNamesEveryLog(commands: seq<Command>, settings: Settings)
    ensures var s := Run(commands, settings);
            && WrittenLogs(s.audit) == s.logs.order
            && (forall i, j :: 0 <= i < j < |WrittenLogs(s.audit)| ==>
                  WrittenLogs(s.audit)[i] != WrittenLogs(s.audit)[j])
            && (forall id :: id in WrittenLogs(s.audit) <==> id in s.logs.at)
  {
    RunKeepsInv(commands, settings);
    hide NewIssued, WrittenLogs, Run;
  }

  // Entries are only ever added, and a log that is stored stays stored as it is.
  lemma NothingIsForgotten(commands: seq<Command>, more: seq<Command>, settings: Settings)
    ensures var s, t := Run(commands, settings), Run(commands + more, settings);
            && s.audit <= t.audit && s.logs.order <= t.logs.order
            && (forall id :: id in s.logs.at ==> id in t.logs.at && t.logs.at[id] == s.logs.at[id])
            && (forall k :: k in s.idempotency ==> k in t.idempotency && t.idempotency[k] == s.idempotency[k])
  {
    RunGrows(commands, more, settings);
    hide Run;
  }

  // ---------- revoked keys ----------

  lemma RevokedLater(s: State, t: State, keyId: string)
    requires Grows(s, t) && keyId in s.apiKeys && s.apiKeys[keyId].revoked
    ensures Authenticate(t, keyId) == None
  {
  }

  lemma RevokeRevokes(s: State, auth: Auth, target: string)
    requires RevokeApiKey(s, auth, target).1.Ok?
    ensures var t := RevokeApiKey(s, auth, target).0; target in t.apiKeys && t.apiKeys[target].revoked
  {
    hide MakeId, CounterOf;
  }

  lemma RevokeRuns(commands: seq<Command>, auth: Auth, target: string, settings: Settings)
    requires Authenticate(Run(commands, settings), auth.key.id) == Some(auth)
    ensures Run(commands + [Revoke(auth.key.id, target)], settings)
            == RevokeApiKey(Run(commands, settings), auth, target).0
  {
    RunOneMore(commands, Revoke(auth.key.id, target), settings);
    hide Run, RevokeApiKey, Authenticate;
  }

  lemma StrangerChangesNothing(s: State, c: Command, settings: Settings)
    requires !c.Bootstrap? && Authenticate(s, c.keyId) == None
    ensures Execute(s, c, settings) == s
  {
    hide Authenticate;
  }

  // A revoked key is never accepted again, and a request that names it changes nothing.
  lemma RevokedKeyIsDead(commands: seq<Command>, more: seq<Command>, settings: Settings, auth: Auth, target: string,
                         c: Command)
    requires Authenticate(Run(commands, settings), auth.key.id) == Some(auth)
    requires RevokeApiKey(Run(commands, settings), auth, target).1.Ok?
    requires !c.Bootstrap? && c.keyId == target
    ensures var u := Run(commands + [Revoke(auth.key.id, target)] + more, settings);
            Authenticate(u, target) == None && Execute(u, c, settings) == u
  {
    var revoke := Revoke(auth.key.id, target);
    var s, t := Run(commands, settings), Run(commands + [revoke], settings);
    var u := Run(commands + [revoke] + more, settings);
    hide Run, RevokeApiKey, Grows, Authenticate, Execute;
    RevokeRuns(commands, auth, target, settings);
    RevokeRevokes(s, auth, target);
    RunGrows(commands + [revoke], more, settings);
    RevokedLater(t, u, target);
    StrangerChangesNothing(u, c, settings);
  }

  // ---------- the two back ends ----------

  // On the logs of any run, the rows that the translated query selects are the rows of exactly the
  // records that memory finds. Tenancy is what makes the query's test of the organisation redundant.
  lemma BackEndsAgreeOnRuns(commands: seq<Command>, settings: Settings, key: ApiKey, request: SearchRequest)
    requires AllKnown(request.severity)
    requires var s := Run(commands, settings);
             SearchWhere.ValidateSearchRequest(s.projects, s.sources.at, key, request, settings.maxSearchRangeDays).Ok?
    requires SearchWhere.SafeAttributes(request) && SearchWhere.NoSpaceInQuery(request)
    ensures var logs := Values(Run(commands, settings).logs);
            var found := SearchWhere.MatchingRecords(key, request, logs);
            var rows := SearchWhere.SelectRows(key, request, SearchWhere.InsertAll(logs));
            && rows == SearchWhere.InsertAll(found)
            && ((forall r :: r in found ==> r.exception != Some(NO_EXCEPTION)) ==> SearchWhere.ReadAll(rows) == found)
  {
    var s := Run(commands, settings);
    RunKeepsInv(commands, settings);
    forall r | r in Values(s.logs)
      ensures SearchWhere.InProjectOrg(s.projects, r)
    {
      IsStored(s, r);
    }
    var found := SearchWhere.MatchingRecords(key, request, Values(s.logs));
    if forall r :: r in found ==> r.exception != Some(NO_EXCEPTION) {
      SearchWhere.ReadBack(found);
    }
    hide Run, Inv, LogOk, SearchWhere.InProjectOrg, Values, SearchWhere.MatchingRecords, SearchWhere.SelectRows;
    SearchWhere.BackEndsAgree(s.projects, s.sources.at, settings.maxSearchRangeDays, key, request, Values(s.logs));
  }
}
