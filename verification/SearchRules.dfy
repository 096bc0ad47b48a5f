// When a search is refused, and how large its pages are (search_logs of panda_trace/store.py,
// validate_search_time_range and decode_cursor of panda_trace/log_query.py).
module SearchRules {
  import opened Base
  import opened Records
  import opened Severity
  import opened Quota
  import opened Cursor
  import opened StoreModel
  import CursorForm
  import SearchWhere

  // ---------- what a search may ask for ----------

  // The range is not empty and spans at most so many days.
  predicate RangeAllowed(from: int, to: int, days: int) {
    from < to && to - from <= days * 24 * 60 * 60
  }

  // The project exists, is of the key's org and within its scope.
  predicate ProjectReadable(s: State, key: ApiKey, id: string) {
    id in s.projects && s.projects[id].orgId == key.orgId && (key.projectIds == [] || id in key.projectIds)
  }

  predicate SourceReadable(s: State, key: ApiKey, projectId: string, id: string) {
    && id in s.sources.at && s.sources.at[id].orgId == key.orgId && s.sources.at[id].projectId == projectId
    && (key.projectIds == [] || projectId in key.projectIds) && (key.sourceIds == [] || id in key.sourceIds)
  }

  predicate ReadsLeft(s: State, auth: Auth, day: string, limit: int) {
    limit > 0 ==> Counter(s.quota, QuotaKey(AgentReads, auth.agent.id, day)) < limit
  }

  lemma RangeIff(request: SearchRequest, days: int)
    ensures SearchWhere.ValidateTimeRange(request, days).Ok? <==> RangeAllowed(request.from, request.to, days)
    ensures SearchWhere.ValidateTimeRange(request, days) == Err(BadRequest("invalid_time_range"))
            <==> request.to <= request.from
  {
    assert "invalid_time_range"[0] != "time_range_too_large"[0];
  }

  lemma ProjectIff(s: State, key: ApiKey, id: string)
    ensures SearchWhere.ProjectForKey(s.projects, key, id).Ok? <==> ProjectReadable(s, key, id)
  {
  }

  lemma {:induction false} SourcesIff(s: State, key: ApiKey, ids: seq<string>, projectId: string)
    ensures SearchWhere.SourcesOfProject(s.sources.at, key, ids, projectId).Ok?
            <==> forall id :: id in ids ==> SourceReadable(s, key, projectId, id)
  {
    if ids != [] {
      SourcesIff(s, key, ids[1..], projectId);
      SourceIff(s, key, ids[0], projectId);
      hide SourceReadable, SearchWhere.SourceForKey;
      assert forall id :: id in ids <==> id == ids[0] || id in ids[1..];
    }
  }

  lemma SourceIff(s: State, key: ApiKey, id: string, projectId: string)
    ensures var r := SearchWhere.SourceForKey(s.sources.at, key, id);
            r.Ok? && r.value.projectId == projectId <==> SourceReadable(s, key, projectId, id)
  {
  }

  // A search succeeds if and only if its range is allowed, its project may be read, the agent has reads
  // left, its cursor can be read, all its severities are known, and each of its sources is one of the
  // project that the key may read.
  lemma SearchSucceedsIff(s: State, auth: Auth, request: SearchRequest, limitOverride: Option<int>, day: string,
                          settings: Settings)
    ensures SearchLogs(s, auth, request, limitOverride, day, settings).1.Ok? <==>
              && RangeAllowed(request.from, request.to, settings.maxSearchRangeDays)
              && ProjectReadable(s, auth.key, request.projectId)
              && ReadsLeft(s, auth, day, settings.maxAgentDailyReadQueries)
              && DecodeCursor(request.cursor).Ok?
              && (forall v :: v in request.severity ==> NormalizeSeverity(v).Ok?)
              && forall id :: id in request.sources ==> SourceReadable(s, auth.key, request.projectId, id)
  {
    RangeIff(request, settings.maxSearchRangeDays);
    ProjectIff(s, auth.key, request.projectId);
    SourcesIff(s, auth.key, request.sources, request.projectId);
    assert AllKnown(request.severity) <==> forall v :: v in request.severity ==> NormalizeSeverity(v).Ok?;
    hide AllKnown, NormalizeSeverity, DecodeCursor, Matching, PageOf, PageLimit, QuotaKey, AppendAudit;
    hide SearchWhere.SourcesOfProject, SearchWhere.ValidateTimeRange, SearchWhere.ProjectForKey;
    hide SourceReadable, ProjectReadable, RangeAllowed;
  }

  // A refused search reports the first of its faults: range, project, quota, cursor, severities, sources.
  lemma SearchErrorIs(s: State, auth: Auth, request: SearchRequest, limitOverride: Option<int>, day: string,
                      settings: Settings)
    requires SearchLogs(s, auth, request, limitOverride, day, settings).1.Err?
    ensures var error := SearchLogs(s, auth, request, limitOverride, day, settings).1.error;
            var id := request.projectId;
            if request.to <= request.from then error == BadRequest("invalid_time_range")
            else if !RangeAllowed(request.from, request.to, settings.maxSearchRangeDays)
            then error == BadRequest("time_range_too_large")
            else if id !in s.projects || s.projects[id].orgId != auth.key.orgId then error == NotFound("Project")
            else if !ProjectReadable(s, auth.key, id) then error == PermissionDenied
            else if !ReadsLeft(s, auth, day, settings.maxAgentDailyReadQueries)
            then error == RateLimited("Agent daily read query quota exceeded.")
            else if DecodeCursor(request.cursor).Err? then error == BadRequest("invalid_cursor")
            else if exists v :: v in request.severity && NormalizeSeverity(v).Err?
            then error == BadRequest("invalid_severity")
            else error == NotFound("Source") || error == PermissionDenied
  {
    CursorForm.CursorReadIff(request.cursor, 0);
    SourceErrors(s, auth.key, request.sources, request.projectId);
    FirstChecks(s, auth, request, settings);
    assert AllKnown(request.severity) <==> forall v :: v in request.severity ==> NormalizeSeverity(v).Ok?;
    hide AllKnown, NormalizeSeverity, DecodeCursor, Matching, PageOf, PageLimit, QuotaKey, AppendAudit;
    hide SearchWhere.SourcesOfProject, CheckSearch, RangeAllowed, ProjectReadable;
  }

  lemma FirstChecks(s: State, auth: Auth, request: SearchRequest, settings: Settings)
    ensures var id := request.projectId;
            CheckSearch(s, auth, request, settings)
            == if request.to <= request.from then Err(BadRequest("invalid_time_range"))
               else if !RangeAllowed(request.from, request.to, settings.maxSearchRangeDays)
               then Err(BadRequest("time_range_too_large"))
               else if id !in s.projects || s.projects[id].orgId != auth.key.orgId then Err(NotFound("Project"))
               else if !ProjectReadable(s, auth.key, id) then Err(PermissionDenied)
               else Ok(())
  {
  }

  lemma {:induction false} SourceErrors(s: State, key: ApiKey, ids: seq<string>, projectId: string)
    ensures var r := SearchWhere.SourcesOfProject(s.sources.at, key, ids, projectId);
            r.Err? ==> r.error == NotFound("Source") || r.error == PermissionDenied
  {
    if ids != [] {
      SourceErrors(s, key, ids[1..], projectId);
    }
  }

  // The agent's read is charged, and nothing else, when only the filters are at fault.
  lemma FailedFiltersAreCharged(s: State, auth: Auth, request: SearchRequest, limitOverride: Option<int>, day: string,
                                settings: Settings)
    requires RangeAllowed(request.from, request.to, settings.maxSearchRangeDays)
    requires ProjectReadable(s, auth.key, request.projectId)
    requires ReadsLeft(s, auth, day, settings.maxAgentDailyReadQueries) && settings.maxAgentDailyReadQueries > 0
    requires SearchLogs(s, auth, request, limitOverride, day, settings).1.Err?
    ensures var t := SearchLogs(s, auth, request, limitOverride, day, settings).0;
            var key := QuotaKey(AgentReads, auth.agent.id, day);
            t == s.(quota := s.quota[key := Counter(s.quota, key) + 1])
  {
    RangeIff(request, settings.maxSearchRangeDays);
    ProjectIff(s, auth.key, request.projectId);
    hide DecodeCursor, Matching, PageOf, PageLimit, QuotaKey, AppendAudit, CheckFilters;
    hide SearchWhere.ValidateTimeRange, SearchWhere.ProjectForKey, ProjectReadable, RangeAllowed;
  }

  // ---------- page sizes ----------

  // A page holds at most as many records as the request and the configuration allow; it is shorter than
  // both only if nothing is left behind it.
  lemma PageFilled(s: State, auth: Auth, request: SearchRequest, day: string, settings: Settings)
    requires request.limit >= 1 && settings.maxPageSize >= 1
    requires SearchLogs(s, auth, request, None, day, settings).1.Ok?
    ensures var page := SearchLogs(s, auth, request, None, day, settings).1.value;
            && |page.records| <= request.limit && |page.records| <= settings.maxPageSize
            && (|page.records| < request.limit && |page.records| < settings.maxPageSize ==> page.nextCursor.None?)
            && (page.nextCursor.Some? ==> |page.records| == request.limit || |page.records| == settings.maxPageSize)
  {
    hide CheckSearch, DecodeCursor, Matching, EncodeCursor, QuotaKey, AppendAudit, Reserve;
    hide SearchWhere.SourcesOfProject;
  }

  // An export is bounded by its own limit and the configured number of rows.
  lemma ExportFilled(s: State, auth: Auth, request: SearchRequest, rows: int, day: string, settings: Settings)
    requires rows >= 1 && settings.maxExportRows >= 1
    requires SearchLogs(s, auth, request, Some(rows), day, settings).1.Ok?
    ensures var page := SearchLogs(s, auth, request, Some(rows), day, settings).1.value;
            && |page.records| <= rows && |page.records| <= settings.maxExportRows
            && (page.nextCursor.Some? ==> |page.records| == rows || |page.records| == settings.maxExportRows)
  {
    hide CheckSearch, DecodeCursor, Matching, EncodeCursor, QuotaKey, AppendAudit, Reserve;
    hide SearchWhere.SourcesOfProject;
  }

  // A slice holds the elements one behind the other from its start, none behind its end, which a negative
  // number counts from the back, and stops only at that end or at the end of the sequence.
  lemma SliceIs<T>(xs: seq<T>, lo: nat, hi: int)
    ensures var r := Slice(xs, lo, hi);
            && (forall k :: 0 <= k < |r| ==> lo + k < |xs| && r[k] == xs[lo + k])
            && var end := if hi >= 0 then hi else |xs| + hi;
               && (r != [] ==> lo + |r| <= end)
               && (lo + |r| < |xs| ==> end <= lo + |r|)
  {
  }
}
