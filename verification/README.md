# Panda Trace: a verified model

Panda Trace stores application logs. A service accepts logs over HTTP and keeps them either in memory
or in Postgres and ClickHouse, and a collector ships container logs to it. This project models the
parts of both programs where a mistake is easy to make and hard to see, and proves what they promise.

- **Search as a translation** (`Text`, `IgnoreCase`, `Numbers`, `Like`, `Query`, `PythonEquality`, `Codec`,
  `SearchWhere`, `SearchCase`, `PersistentSearch`, `PersistentPaging`). The persistent back end turns a
  search request into SQL clauses and bound parameters; the in-memory back end tests records directly. The
  clauses get a small evaluator (conjunction, `IN`, nullable equality, `LIKE`, JSON paths) over the row that
  a record is written as, and the two are proved to agree, with the exact conditions on query texts,
  attribute keys and attribute values under which they do. What both sides share, the comparison of letters
  and of attribute values, is proved against relations of its own.
- **The in-memory store** (`Records`, `Ids`, `Quota`, `Cursor`, `CursorForm`, `Severity`, `SeverityNames`,
  `StoreModel`, `StoreInvariant`, `StoreSteps`, `StoreRuns`, `StoredLog`, `OwnOrg`, `Resolution`,
  `SearchRules`, `KeyLists`, `ExactlyOnce`, `SentKeys`, `IngestQuota`, `QuotaRefusal`, `Paging`,
  `Publication`, `Store`, `Batch`, `BatchReport`, `BatchKeys`). `StoreModel` gives each operation as a
  function on the store's state; `Store.InMemoryStore` is the object whose methods update its fields, each
  proved equal to that function. Tenancy, fresh identifiers, the audit trail, exactly-once ingestion, quota
  conservation and complete paging are proved over every run of commands.
- **The shared protocols** (`QuotaReserve`, `PersistentIdempotency`). The Redis quota counter and the
  persistent ingestion are run by many callers at once, so they are state machines over interleaved steps.
- **Collector delivery** (`Collector`, `Delivery`, `ValidationReport`, `SendLoop`, `Progress`, `Shutdown`,
  `CollectorLoss`). The server is an arbitrary function from the number of requests so far and the request
  to a response. The recovery methods keep a ghost history of their requests; the send loop runs for ever,
  so it is a state machine whose events are its own turns, arriving records and the stop signal. A 2xx
  answer may list rejected positions, as the batch endpoint does; a record of an accepted request is
  confirmed when its position is not listed.
- **Redaction** (`Redaction`, `SecretKeys`). The in-place passes over a text are loops proved equal to a
  word-by-word specification.
- **Tail and rate limits** (`Tail`, `TailMatch`, `TailHistory`, `RateLimit`). The tail hub is an object that
  carries the history of all its subscriptions; every method is a step of a state machine over
  subscriptions, publications, reads and departures, and the theorems are about all of its runs. The
  fixed-window limiters are proved to bound every interval.

What the proofs found about the code:

- Searches can differ between the back ends. A query text with a space can match across two joined fields in
  memory only (`Query.TextViewsAgreeIff`). An attribute key that is not one bare name, such as
  `http.method`, is read as a path into nested objects, so the flat attribute that memory finds is missed
  (`Query.DottedKeyReadsNested`). Filter values that are empty, print like a number, boolean or null, or are
  not strings are compared differently (`Query.AttributeViewsAgreeIff` has the exact condition).
- A page size of zero or less gives a cursor that never moves (`Paging.PagingEndsIff`).
- The pages of a persistent search can repeat and miss records: ties are ordered anew by each page's query.
  They are complete for every such order exactly when no two rows on either side of a page boundary tie
  (`PersistentPaging.PagesCompleteOnRunsIff`).
- The collector clears its batch on every 2xx answer and does not read the positions that the answer
  rejects. All flushed records that were not dropped are confirmed exactly when no such answer rejects one
  (`SendLoop.AllConfirmedRunIff`). While a project's daily quota is used up every record is lost in this way
  (`CollectorLoss.UsedUpLosesEverything`, `CollectorLoss.LostToQuota`); so is a record with an unknown
  severity (`CollectorLoss.UnknownSeverityRejected`).
- With a server that always fails the collector never ends once it holds a record, stop or no stop
  (`Shutdown.NeverEnds`).
- A caller of the Redis quota can be refused although nothing was ever granted
  (`QuotaReserve.SpuriousRefusal`).
- Two concurrent persistent ingestions with one idempotency key can store two logs, and the loser returns
  its own (`PersistentIdempotency.RaceStoresTwoLogs`). That happens exactly when two calls looked the key up
  before it was bound and both inserted (`PersistentIdempotency.OneLogIffNoRace`).
- The in-memory limiter lets one call through in every window even when its limit is zero
  (`RateLimit.WindowsWithinLimitIff`); the shared one accepts none (`RateLimit.SharedIntervalBound`).
- A tail subscription with an unknown severity makes every publication for its project and source raise.
  Later subscribers then miss the record and stay subscribed, full queues lose it without being evicted, and
  their streams go on with a gap (`TailHistory.LosesIff`, `TailHistory.GapRun`). The log is already stored,
  but its caller gets the error, and a batch lists the item as rejected
  (`BatchReport.StoredItemReportedIff`); sending it again under its idempotency key finds it
  (`Publication.RetryReturnsStoredLog`, `BatchReport.ResubmissionReportsStored`).
- Redaction treats the message, the attribute values and the stack trace. All other texts, among them the
  exception's message, pass through (`Redaction.NothingLeaksIff`, `Redaction.ExceptionMessageLeaks`), and
  what follows a space after `marker=` is kept (`Redaction.AfterSpaceKept`).
- An empty exception dictionary comes back from a row as no exception (`Codec.RowRoundTrip`).
- A single log sent with the idempotency key `k:0` takes the place of item 0 of a later batch with key `k`,
  which is then not stored (`BatchKeys.BatchItemStoredIff`, `BatchKeys.CollidingRun`).
- A call that the project's quota refuses stays charged to its key (`IngestQuota.QuotaConserved`).

## Model

| member | source | states |
|---|---|---|
| Like.SequentialEscapeIsEscape | panda_trace/log_query.py:127-129 | the three replacements done one after the other escape each character of the query exactly once |
| Like.QueryPatternExact | panda_trace/log_query.py:127-129 | for every text and query, the built pattern matches the text under LIKE if and only if the lowered query occurs in it |
| Like.WildcardsMatch | panda_trace/log_query.py:127-129 | the two wildcards around and in a pattern stand for any run and for any one character |
| IgnoreCase.LowerSameIff | panda_trace/log_query.py:94-124 | lower-casing makes two texts equal if and only if they differ at most in the case of ASCII letters |
| IgnoreCase.IncludesIgnoringCaseIff | panda_trace/log_query.py:94-95 | the lowered query is in the lowered text if and only if the text shows the query in some case |
| Query.ColumnImpliesJoined | panda_trace/log_query.py:114-124 | a query found in one of the three text columns is found in the joined text |
| Query.JoinedImpliesColumn | panda_trace/log_query.py:114-124 | a query without a space found in the joined text is found in one column |
| Query.SpaceSplitsViews | panda_trace/log_query.py:94-95 | for every query with a space there is a record that only the joined text finds |
| Query.TextViewsAgreeIff | panda_trace/log_query.py:94-95 | column search and joined search agree on every record if and only if the query has no space |
| Query.SafeAttributeAgrees | panda_trace/persistent_store.py:942-947 | for a key that is one bare name and a non-empty string that does not print like a number, boolean or null, the JSON path test and Python equality agree on every record |
| Query.UnsafeAttributeDiffers | panda_trace/persistent_store.py:942-947 | for every other key or filter value there is a record on which the two tests differ |
| Query.AttributeViewsAgreeIff | panda_trace/log_query.py:96-98 | the two attribute tests agree on every record if and only if the key is one bare name and the value is safe |
| Query.DottedKeyReadsNested | panda_trace/persistent_store.py:946 | a dotted key reads a nested attribute that memory does not find, and misses the flat one that memory finds |
| PythonEquality.NumbersEqualIff | panda_trace/log_query.py:96-98 | numbers and booleans are equal if and only if they have the same value, true being one and false zero |
| PythonEquality.WholeFloatValue | panda_trace/log_query.py:96-98 | a whole number written with a zero fraction has that number as its value |
| PythonEquality.OthersEqualIff | panda_trace/log_query.py:96-98 | texts and null equal only themselves, lists are compared position by position and objects key by key |
| PythonEquality.PyEqualTransitive | panda_trace/log_query.py:96-98 | the comparison is transitive |
| PythonEquality.PyEqualSymmetric | panda_trace/log_query.py:96-98 | the comparison is symmetric |
| Codec.RowRoundTrip | panda_trace/log_codecs.py:34-92 | reading back a written row gives the record itself if and only if its exception is not the empty dictionary, and otherwise the record without an exception |
| Codec.RowReadBack | panda_trace/log_codecs.py:34-92 | writing what was read from a row gives the row |
| SearchWhere.AddClause | panda_trace/persistent_store.py:919-948 | a clause added with new parameter names narrows the selection by exactly that clause and leaves the meaning of the earlier clauses alone |
| SearchWhere.AttributeNamesFresh | panda_trace/persistent_store.py:942-947 | the two parameter names of an attribute filter differ from each other and from every name bound before |
| SearchWhere.ScopeClauses | panda_trace/persistent_store.py:907-922 | the fixed clauses and the source clause select exactly the rows of the key's org, the requested project, time range and sources |
| SearchWhere.NormalizeAll | panda_trace/persistent_store.py:923-925 | the bound severities are the canonical names in request order, and an unknown one is an error |
| SearchWhere.SeverityClauses | panda_trace/persistent_store.py:923-925 | adds exactly the severity condition, or raises on an unknown severity |
| SearchWhere.FieldClauses | panda_trace/persistent_store.py:926-930 | adds exactly one equality for each given optional field |
| SearchWhere.QueryClauses | panda_trace/persistent_store.py:931-941 | adds exactly the text condition on the three columns |
| SearchWhere.AttributeClauses | panda_trace/persistent_store.py:942-947 | adds exactly one JSON path equality for each attribute filter |
| SearchWhere.SearchWhere | panda_trace/persistent_store.py:904-948 | the finished clause list selects exactly the rows that satisfy the request, every name a clause uses is bound, and there are as many parameters as bindings, so none overwrote another |
| SearchWhere.ScopeAgrees | panda_trace/persistent_store.py:894-922 | for a validated request and a record in its project's org, the query's org, project and source tests and memory's key tests come to the same |
| SearchWhere.TranslationPreservesMeaning | panda_trace/log_query.py:66-99 | for a validated request whose attribute filters have bare-name keys and safe values, a record whose row the query selects is accepted by memory, and the converse holds when the query text has no space |
| SearchWhere.BackEndsAgree | panda_trace/persistent_store.py:904-948 | over a whole table, the rows the query selects are the rows of the records memory finds, in the same order |
| SearchCase.MatchesTextIff | panda_trace/log_query.py:64-124 | memory finds a record if and only if it passes the other tests and its joined text shows the query in some case |
| SearchCase.SelectsTextIff | panda_trace/persistent_store.py:931-941 | the database selects its row if and only if it passes the other tests and one of the three columns shows the query in some case |
| SearchCase.CaseDoesNotMatter | panda_trace/log_query.py:94-129 | changing the case of the query and of the searched texts changes the result of neither back end |
| SearchCase.FoundInAnyCase | panda_trace/log_query.py:94-129 | a record whose message holds the query in any case, between any texts, is found by both if it passes the other tests |
| SearchWhere.ReadBack | panda_trace/log_codecs.py:60-92 | the records read from the rows of a table are the records written, unless one has an empty exception |
| StoreRuns.BackEndsAgreeOnRuns | panda_trace/store.py:456-460 | on the logs of every run the two back ends find the same records: the store's tenancy makes the org test of the query redundant |
| PersistentSearch.SelectAndCount | panda_trace/persistent_store.py:598-604 | running the translated clauses over a table gives exactly the rows that satisfy the request, in table order, and their count, or the severity error |
| PersistentSearch.ArrangementsAgree | panda_trace/persistent_store.py:605-619 | however the database breaks ties, at every position its ordered answer has the same sort key as memory's |
| PersistentSearch.SearchesAgreeOnRuns | panda_trace/persistent_store.py:577-638 | on the logs of every run the count and the next cursor are memory's, and every page has as many entries with the same sort keys position by position |
| PersistentPaging.SameBefore | panda_trace/persistent_store.py:605-619 | at a position where the neighbours do not tie, every order the database may choose has the same rows before it |
| PersistentPaging.PagesCompleteIff | panda_trace/persistent_store.py:605-623 | for distinct rows: whatever order each page's query gets, the pages together are the selected rows, each once, if and only if no two rows on either side of a page boundary tie |
| PersistentPaging.PagesCompleteOnRunsIff | panda_trace/persistent_store.py:577-623 | the same for the selected rows of every run, the boundaries being the multiples of the page size |
| Cursor.Base64RoundTrip | panda_trace/log_query.py:37-44 | padded URL-safe base64 (section 5 of RFC 4648) decodes to the bytes that were encoded |
| Cursor.CursorRoundTrip | panda_trace/log_query.py:35-48 | every cursor is non-empty and decodes to the offset it was made from, clamped at zero |
| Cursor.CursorInjective | panda_trace/log_query.py:35-37 | different offsets give different cursors |
| CursorForm.LongVectors | panda_trace/log_query.py:35-37 | the encoding gives the whole-group test vectors of section 10 of RFC 4648 |
| CursorForm.FirstCursor | panda_trace/log_query.py:35-37 | the cursor of offset zero, character by character |
| CursorForm.CursorReadIff | panda_trace/log_query.py:40-48 | a cursor is read as an offset if and only if it is missing or empty, or the base64 form of a compact JSON object with that offset; any other is an error |
| SeverityNames.NormalizeIff | panda_trace/log_query.py:12-32 | a value is accepted as a severity if and only if it spells one of its aliases in some case with blanks around it |
| SeverityNames.AliasesAre | panda_trace/log_query.py:12-25 | the twelve aliases lead to six severities, each of which names itself |
| SeverityNames.ListedIff | panda_trace/log_query.py:60-61 | a stored severity passes a list of requested values if and only if one of them names the same severity |
| Ids.IdsDiffer | panda_trace/store.py:47-48 | identifiers of different counter values differ, also beyond eight digits |
| SentKeys.IdentifierForm | panda_trace/store.py:71-73 | an identifier is its prefix, an underscore and the counter in at least eight digits |
| Ids.BatchItemKeysDiffer | panda_trace/routes_logs.py:63 | no two pairs of batch key and index derive the same idempotency key |
| Ids.PutFresh | panda_trace/store.py:306-307 | a value put under a new key comes last, and nothing else moves or is replaced |
| Quota.QuotaKeysDiffer | panda_trace/store.py:638-663 | counters of different kinds, identifiers or days never share a key |
| StoreSteps.CreateOrgKeepsInv | panda_trace/store.py:75-107 | bootstrapping an org keeps the invariant and only adds to the state |
| StoreSteps.CreateProjectKeepsInv | panda_trace/store.py:126-141 | so does creating a project, also when it is refused |
| StoreSteps.CreateSourceKeepsInv | panda_trace/store.py:143-165 | so does creating a source; it takes its project's org |
| StoreSteps.CreateAgentKeepsInv | panda_trace/store.py:176-191 | so does creating an agent |
| StoreSteps.CreateApiKeyKeepsInv | panda_trace/store.py:193-239 | so does creating a key: every project and source it lists exists in its own org |
| StoreSteps.RevokeKeepsInv | panda_trace/store.py:241-257 | so does revoking a key, which changes nothing else about it |
| StoreSteps.ResolvedFits | panda_trace/store.py:587-612 | the resolved source belongs to the resolved project, both to the key's org, and the key may use both |
| StoreSteps.StoreKeepsInv | panda_trace/store.py:281-319 | storing a record under the next identifier with its idempotency entry and audit entry keeps the invariant |
| StoreSteps.IngestCases | panda_trace/store.py:259-319 | the store's part of an ingestion changes nothing, or only quota counters, or stores one log; which of them is decided by replay, the checks and the quotas |
| StoreSteps.IngestKeepsInv | panda_trace/store.py:259-319 | every ingestion keeps the invariant and only adds to the logs, audit trail and idempotency table |
| StoredLog.StoredAsSent | panda_trace/store.py:285-308 | a successful call that is no replay stores and returns a log made of what was sent, with the canonical severity, the time of receipt in place of a missing timestamp, and the org and scope of the key |
| StoredLog.IngestErrorIs | panda_trace/store.py:272-273 | a call with a wrong source or an unknown severity changes nothing and reports the source first |
| StoredLog.StoredSeverityCanonical | panda_trace/store.py:273-308 | in every run the severity of every stored log is one of the six canonical names |
| StoredLog.SearchesBySeverityIff | panda_trace/log_query.py:82-83 | a search finds a log sent with some severity if and only if the log passes its other tests and the search lists no severity or one that names the same |
| StoredLog.TailBySeverityIff | panda_trace/log_query.py:107-108 | the same for a tail filter with known severities |
| Resolution.ResolvesIff | panda_trace/store.py:587-618 | a call resolves to a source if and only if the key may write to it and it is the one named or, when none is named, the only one that the key may write to |
| QuotaRefusal.IngestRefusedIff | panda_trace/store.py:275-284 | in every run an ingestion is refused for its key, or else its project, if and only if the total of that day and its own size are more than the limit |
| QuotaRefusal.ReadRefusedIff | panda_trace/store.py:439-442 | in every run a search is refused for the quota if and only if the reads of its agent on that day have used it up |
| SentKeys.SameKeySameLog | panda_trace/store.py:267-271 | after a successful call under a key, sent in the header or else in the body, every later call under it gets the same log and changes nothing |
| SentKeys.NewKeyNewLog | panda_trace/store.py:267-309 | a successful call under a key that was not used gets a log of its own and binds the key to it |
| OwnOrg.ActsInOwnOrg | panda_trace/store.py:126-258 | whatever an authenticated request changes belongs to the org of its key, new sources, keys and logs are within the scope of the key, and one audit entry in its name says what was done |
| KeyLists.SortedUniqueIs | panda_trace/store.py:222-223 | the lists of a new key hold what was asked for, each once and in code point order |
| StoreSteps.SearchChanges | panda_trace/store.py:427-481 | a search changes quota counters, and when it succeeds it adds one audit entry; nothing else changes |
| StoreSteps.SearchKeepsInv | panda_trace/store.py:427-481 | every search keeps the invariant and only adds to the state |
| StoreSteps.RunKeepsInv | panda_trace/store.py:71-321 | in every reachable state identifiers are fresh, every project, source, agent, key and log agrees in org with what it belongs to, the audit trail matches the logs, and idempotency entries name stored logs |
| StoreSteps.RunGrows | panda_trace/store.py:71-321 | whatever a run has built is still there, unchanged, at the end of every longer run; a key can only become revoked |
| StoreRuns.FoundInOrg | panda_trace/store.py:620-636 | a record that passes the search predicate for a project of the key's org is in that org, although the predicate does not look at it |
| StoreRuns.SearchStaysInOrg | panda_trace/store.py:427-481 | in every run, every record a search returns is a stored log of the caller's org, of the requested project, and of a source the key may use |
| StoreRuns.AuditNamesEveryLog | panda_trace/store.py:306-319 | in every run the log-write entries of the audit trail name the stored logs one to one and in order |
| StoreRuns.NothingIsForgotten | panda_trace/store.py:534-558 | the audit trail only grows, and logs and idempotency entries stay as they are |
| StoreRuns.RevokedKeyIsDead | panda_trace/auth.py:20-31 | in every run a revoked key is never accepted again, and a request that names it changes nothing |
| SearchRules.SearchSucceedsIff | panda_trace/store.py:437-455 | a search succeeds if and only if its range, project, quota, cursor, severities and sources are all in order, each said on its own |
| SearchRules.SearchErrorIs | panda_trace/store.py:437-455 | a refused search reports the first of its faults in that order |
| SearchRules.PageFilled | panda_trace/store.py:443-466 | a page holds at most as many records as request and configuration allow, and is shorter than both only if nothing is left |
| SearchRules.ExportFilled | panda_trace/store.py:445-466 | an export holds at most as many records as asked for and configured, and is full if something is left |
| SearchRules.SliceIs | panda_trace/store.py:465 | a slice holds the elements one behind the other from its start up to its end, which a negative number counts from the back |
| ExactlyOnce.IngestTables | panda_trace/store.py:267-309 | an accepted ingestion adds one log under an unused identifier and at most its own idempotency entry; any other leaves both tables alone |
| ExactlyOnce.ReplayForever | panda_trace/store.py:267-271 | after an ingestion returned a log under an idempotency key, every later call with that key, whatever its body and whatever happened in between, returns the same log and changes nothing |
| ExactlyOnce.StoredAtMostOnce | panda_trace/store.py:267-309 | in every run the number of logs stored under an API key and idempotency key is one if the pair is bound and zero otherwise |
| Publication.ReportedIff | panda_trace/store.py:306-321 | a call that stores a log reports success if and only if no current subscriber's filter raises on it; every other call reports what the store decided |
| Publication.RetryReturnsStoredLog | panda_trace/store.py:267-271 | a log that was stored although its call failed is returned by every later call with its idempotency key, which changes and publishes nothing |
| IngestQuota.IngestCharges | panda_trace/store.py:274-284 | the two reservations of an ingestion charge their own counters and no other; the key keeps the charge when the project refuses |
| IngestQuota.StepCharges | panda_trace/store.py:638-663 | every command changes every counter by exactly its cost |
| IngestQuota.QuotaConserved | panda_trace/store.py:638-663 | in every run each project counter is the size of the logs stored in that project that day, each key counter that of its stored logs and of those its project refused, each agent counter the number of its searches, and all stay within their limits; a quota that is off counts nothing |
| Paging.SortIsStable | panda_trace/store.py:461-463 | the sorted list is a rearrangement in the requested order in which records of equal key keep insertion order, also when descending |
| Paging.StableSortUnique | panda_trace/store.py:461-463 | order and stability leave only one possible result |
| Paging.PageSplits | panda_trace/store.py:464-466 | a page and what lies behind its cursor make up what was left before; there is no cursor exactly when nothing is left |
| Paging.CursorAdvancesIff | panda_trace/store.py:466 | the cursor moves on if and only if the page size is positive |
| Paging.PageCountIsCeiling | panda_trace/store.py:464-466 | the page count holds all records, and one page less would not |
| Paging.FollowVisitsAll | panda_trace/store.py:427-481 | with read quota left, following the cursor from any valid cursor visits every remaining record once, in order, in the expected number of pages, each reporting the same total |
| Paging.PagingIsComplete | panda_trace/store.py:427-481 | from no cursor the pages together are the sorted, stable rearrangement of all matching records, in max(1, ceil(total / limit)) pages |
| Paging.PagingEndsIff | panda_trace/store.py:442-466 | with read quota for one page, or for all pages when the page size is positive, following the cursor ends if and only if the page size is positive or there is nothing to page through |
| Store.InMemoryStore.constructor | panda_trace/store.py:51-66 | a new store is empty and valid |
| Store.InMemoryStore.NextId | panda_trace/store.py:71-73 | counts the prefix up and returns its next identifier |
| Store.InMemoryStore.Audit | panda_trace/store.py:534-558 | appends one audit entry under the next audit identifier |
| Store.InMemoryStore.ReserveQuota | panda_trace/store.py:638-663 | charges the counter or refuses and changes nothing |
| Store.InMemoryStore.CreateOrgBootstrap | panda_trace/store.py:75-107 | the new state and the identifiers are those of the specification, and the store stays valid |
| Store.InMemoryStore.CreateProject | panda_trace/store.py:126-141 | the same for creating a project, with its errors |
| Store.InMemoryStore.CreateSource | panda_trace/store.py:143-165 | the same for creating a source |
| Store.InMemoryStore.CreateAgent | panda_trace/store.py:176-191 | the same for creating an agent |
| Store.InMemoryStore.CheckNewKey | panda_trace/store.py:205-212 | the first failing check of a key request is reported |
| Store.InMemoryStore.CreateApiKey | panda_trace/store.py:193-239 | the same for creating a key |
| Store.InMemoryStore.RevokeApiKey | panda_trace/store.py:241-257 | the same for revoking a key |
| Store.InMemoryStore.CandidateSources | panda_trace/store.py:597-604 | the collected candidates are exactly the sources the key may write to, in insertion order |
| Store.InMemoryStore.ResolveProjectSource | panda_trace/store.py:587-612 | the resolved pair or the first error |
| Store.InMemoryStore.ReserveIngestQuotas | panda_trace/store.py:274-284 | charges key and project in that order, keeping the key's charge when the project refuses |
| Store.InMemoryStore.Ingest | panda_trace/store.py:267-319 | the store's part of an ingestion: state and outcome are those of the specification, and whether a log was stored |
| Store.InMemoryStore.IngestLog | panda_trace/store.py:259-321 | the new state of the store and of the tail hub and the outcome, publication included, are those of the specification, and the store stays valid |
| Store.InMemoryStore.MatchingRecords | panda_trace/store.py:456-460 | the loop collects exactly the matching records in insertion order |
| Store.InMemoryStore.SearchLogs | panda_trace/store.py:427-481 | the whole new state, page, cursor and total are those of the specification, and the store stays valid |
| Batch.IngestBatch | panda_trace/routes_logs.py:42-68 | an oversized batch changes nothing; otherwise the items are ingested in order and the response lists what the endpoint heard of each, errors of publications included |
| Batch.EveryIndexOnce | panda_trace/routes_logs.py:53-68 | every index is listed in exactly one of accepted and rejected, in increasing order, with its own id or error |
| SentKeys.PreparedIff | panda_trace/routes_logs.py:57-58 | an item reaches the store redacted, and if and only if the mode is known and its redacted size is allowed |
| Batch.NewBatchStoresEachItem | panda_trace/routes_logs.py:55-65 | under a batch key not used before, the store takes exactly the items it decided to accept, one log each in index order, each with its own item's content, canonical severity, times, project and source |
| Batch.ResubmittedItem | panda_trace/routes_logs.py:59-64 | an item stored before comes back as the same log in any later batch with the same key |
| Batch.ResubmissionSameIds | panda_trace/routes_logs.py:53-68 | sending the same batch again, after any other commands, gives the same log for every item that the store took before |
| Batch.ReplayedBatchChangesNothing | panda_trace/routes_logs.py:53-68 | as far as the store took all items before, sending them again changes nothing |
| BatchReport.StoredItemReportedIff | panda_trace/routes_logs.py:55-67 | an item that was stored is listed as accepted if and only if no subscriber's filter raises on its log at that moment; every other item is listed as the store decided |
| BatchReport.NewBatchReports | panda_trace/routes_logs.py:55-67 | under a batch key not used before, the accepted list names exactly the stored logs whose publication raised nothing |
| BatchReport.ResubmissionReportsStored | panda_trace/routes_logs.py:55-67 | sending the batch again lists as accepted, with its id, every item the store took, also those listed as rejected before |
| BatchKeys.BatchItemStoredIff | panda_trace/routes_logs.py:59-64 | an item that passes its checks and quotas is stored as a log of its own if and only if its derived key was free before the batch; otherwise the log that took the key is returned and nothing changes |
| BatchKeys.SingleLogTakesItem | panda_trace/routes_logs.py:63 | a single log sent under the key derived for item i takes that item's place in every later batch |
| BatchKeys.CollidingRun | panda_trace/routes_logs.py:63 | a run from the empty store in which this happens |
| QuotaReserve.CounterConserved | panda_trace/persistent_store.py:1004-1018 | for every interleaving the counter is what was granted plus what refused callers have not yet taken back, and grants never exceed the limit |
| QuotaReserve.QuiescentCounter | panda_trace/persistent_store.py:1004-1018 | with nobody in the middle of the exchange the counter is what was granted |
| QuotaReserve.RefusedIff | panda_trace/persistent_store.py:1004-1018 | whatever the others do between a caller's addition and its check, it is refused if and only if grants, pending refusals and its own amount exceeded the limit at the addition |
| QuotaReserve.SpuriousRefusal | panda_trace/persistent_store.py:1015-1018 | an input on which a caller within the limit is refused although nothing is ever granted |
| QuotaReserve.DecisionsStand | panda_trace/persistent_store.py:1015-1018 | a decision once taken is never changed by later steps |
| PersistentIdempotency.RunKeepsInv | panda_trace/persistent_store.py:384-446 | for every interleaving, bindings name logs inserted for their own key, and a call's log exists once it was inserted |
| PersistentIdempotency.BindingsStand | panda_trace/persistent_store.py:435-442 | a binding never changes once made, and inserted logs stay |
| PersistentIdempotency.BindingNamesInsertedLog | panda_trace/persistent_store.py:432-442 | a bound key names a log already inserted for that key |
| PersistentIdempotency.LookupAfterBinding | panda_trace/persistent_store.py:384-388 | every lookup after the binding returns the bound log and stores nothing |
| PersistentIdempotency.DuplicatesLookedUpEarly | panda_trace/persistent_store.py:384-442 | every log of a bound key comes from a call that looked the key up before the first binding |
| PersistentIdempotency.ReturnsBoundLogIff | panda_trace/persistent_store.py:384-451 | a finished call returned the bound log if and only if its lookup came after the binding or it inserted the bound log |
| PersistentIdempotency.FinishedStoredIff | panda_trace/persistent_store.py:384-442 | a finished call stored a log of its own if and only if it looked its key up before the key was bound |
| PersistentIdempotency.OneLogIffNoRace | panda_trace/persistent_store.py:384-442 | a key has at most one log, and once bound exactly the bound one, if and only if no two calls looked it up before the first binding and both inserted |
| PersistentIdempotency.StoresNothingIffBound | panda_trace/persistent_store.py:384-388 | a call about to look up stores no log in any continuation if and only if its key is bound at that moment |
| PersistentIdempotency.RaceStoresTwoLogs | panda_trace/persistent_store.py:384-451 | a schedule in which two calls with one key store two logs and return different ones |
| Redaction.RedactMarker | panda_trace/redaction.py:51-60 | the inner loop ends and cuts every word at the marker's first occurrence in it, ignoring case |
| Redaction.RedactMarkers | panda_trace/redaction.py:51-61 | all passes together cut every word at its earliest marker |
| Redaction.RedactText | panda_trace/redaction.py:47-61 | no text stays none; any other text becomes its word-by-word redaction |
| Redaction.PassesAreOneCut | panda_trace/redaction.py:51-61 | one pass per marker in sequence equals a single cut at the earliest of them |
| Redaction.WordByWord | panda_trace/redaction.py:47-61 | the words of the result are the words of the text, each cut on its own |
| Redaction.NothingAfterMarker | panda_trace/redaction.py:54-60 | whatever follows a marker and its equals sign in a redacted word is exactly the placeholder |
| Redaction.RedactIdempotent | panda_trace/redaction.py:47-61 | redacting twice is redacting once |
| Redaction.OrderIndependent | panda_trace/redaction.py:8-61 | the order and repetition of the markers do not matter |
| Redaction.CleanTextKept | panda_trace/redaction.py:47-61 | a text without any marker is left as it is |
| Redaction.RedactedLookup | panda_trace/redaction.py:35-44 | for every path into a JSON tree: at a secret key stands the placeholder, below it nothing, and anywhere else the redaction of what stood there, so keys and lengths are kept |
| SecretKeys.SecretKeyIff | panda_trace/redaction.py:64-66 | a key is secret if and only if it shows one of the six words somewhere, in any case and with a hyphen for an underscore |
| SecretKeys.KeyAround | panda_trace/redaction.py:64-66 | any texts may stand around the word |
| SecretKeys.HiddenAtSecretKey | panda_trace/redaction.py:35-44 | at every depth the value of such a key is the placeholder, and nothing is below it |
| SecretKeys.OpenPlaceKept | panda_trace/redaction.py:35-44 | at any other place a text is redacted word by word, numbers, booleans and null are as they were, and lists and objects keep their length and keys |
| SecretKeys.SecretAttributeHidden | panda_trace/redaction.py:14-32 | in a redacted log the value of an attribute with such a name is the placeholder, however deep it lies |
| SecretKeys.TextsRedacted | panda_trace/redaction.py:22-31 | message and stack trace are the word-by-word redaction of what was sent |
| Redaction.RedactValueIdempotent | panda_trace/redaction.py:35-44 | redacting a tree twice is redacting it once |
| Redaction.ApplyRedactionIdempotent | panda_trace/redaction.py:14-32 | redacting an already redacted log changes nothing, in every mode |
| Redaction.CleanIff | panda_trace/redaction.py:47-61 | redaction leaves a text as it is if and only if in every word nothing but the placeholder follows a marker |
| Redaction.AfterSpaceKept | panda_trace/redaction.py:54-60 | what follows a space and holds no marker is kept |
| Redaction.RedactionCoverage | panda_trace/redaction.py:14-32 | message, attribute values and stack trace come out clean, and every other field comes out as it went in |
| Redaction.NothingLeaksIff | panda_trace/redaction.py:14-32 | no text value of a redacted log shows anything after a marker if and only if none of the texts passed through did |
| Redaction.ExceptionMessageLeaks | panda_trace/redaction.py:22-27 | a secret in the exception's message is still there after redaction |
| RateLimit.InMemoryRateLimiter.Check | panda_trace/rate_limit.py:19-29 | the decision and the new buckets; only the caller's bucket changes and a refusal changes nothing |
| RateLimit.IntervalBound | panda_trace/rate_limit.py:19-29 | any closed interval as long as k windows holds at most (k + 1) * max(1, limit) accepted calls of a key and action |
| RateLimit.CountIsAccepted | panda_trace/rate_limit.py:22-29 | a bucket's count is the number of calls accepted since its window started |
| RateLimit.RefusedIff | panda_trace/rate_limit.py:26-27 | a call is refused if and only if the window open at that time already holds `limit` accepted calls |
| RateLimit.WindowsWithinLimitIff | panda_trace/rate_limit.py:19-29 | in every run every window holds at most `limit` accepted calls if and only if the limit is at least one |
| RateLimit.OneWindowBound | panda_trace/rate_limit.py:41-47 | of the calls in one shared window as many are accepted as there are, up to `limit` |
| RateLimit.SharedIntervalBound | panda_trace/rate_limit.py:41-47 | the interval bound for the shared limiter while no window's count has expired; with a limit of zero it accepts nothing |
| Tail.RaisesIff | panda_trace/log_query.py:102-111 | matching a record raises if and only if the filter has an unknown severity and the record is of its project and source |
| TailMatch.WantedIff | panda_trace/log_query.py:102-111 | a filter wants a record if and only if project and source agree, it lists no severity or one that names the record's and none that is unknown, and the message shows the query in some case |
| TailMatch.QueueTakesWanted | panda_trace/tail.py:46-52 | a wanted record is queued while the queue holds fewer than 100, and otherwise the queue is full |
| Tail.TailQueue.Put | panda_trace/tail.py:49-52 | stores at the end unless the queue holds 100 records |
| Tail.TailHub.Subscribe | panda_trace/tail.py:56-59 | adds a subscription with an empty queue at the end, and the hub takes that step |
| Tail.TailHub.Take | panda_trace/tail.py:25 | gives the consumer the first queued record, and the hub takes that step |
| Tail.TailHub.Leave | panda_trace/tail.py:26-27 | ends the consumer's subscription, and the hub takes that step |
| Tail.TailHub.Unsubscribe | panda_trace/tail.py:61-62 | removes exactly the entries of that queue |
| Tail.TailHub.Serve | panda_trace/tail.py:44-52 | the loop puts the record into every matching queue with room up to the first filter that raises, and finds exactly the full ones |
| Tail.TailHub.Publish | panda_trace/tail.py:44-54 | the hub takes the publication step: queues, evictions and the outcome are those of the state machine; it raises exactly when a current subscriber's filter does |
| Tail.TailHub.Acquire | panda_trace/tail.py:29-35 | counts a stream up or refuses at the limit |
| Tail.TailHub.Release | panda_trace/tail.py:37-42 | counts a stream down and drops the entry at zero |
| TailHistory.LosesIff | panda_trace/tail.py:44-54 | a subscriber loses a wanted record and stays subscribed if and only if the publication raises before reaching it, or raises after finding its queue full |
| TailHistory.HistoryCounts | panda_trace/tail.py:21-62 | in every run, for every subscription: at most 100 records are queued, what was received are wanted records in order and none twice, and while it lasts the number it is missing is the number of its losses |
| TailHistory.HistoryExactIff | panda_trace/tail.py:21-62 | while it lasts, a subscription has received exactly the records it wants if and only if it lost none |
| TailHistory.HistoryKept | panda_trace/tail.py:21-62 | in every run in which no publication raises, every subscriber has received a prefix of the records it wants, and all of them while subscribed |
| TailHistory.CanRaiseIff | panda_trace/log_query.py:102-111 | some record makes a publication raise if and only if a current subscriber's filter names an unknown severity |
| TailHistory.KnownFiltersNeverRaise | panda_trace/log_query.py:102-111 | if all filters that subscribe name known severities only, no publication of the run raises |
| TailHistory.GapAfterLoss | panda_trace/tail.py:44-54 | after a loss the next wanted record is received all the same, so the stream has a gap |
| TailHistory.GapRun | panda_trace/tail.py:44-54 | a run in which one subscriber's filter makes another, whose filter is fine, miss a record and stay subscribed, with a stream that is no prefix |
| TailHistory.EndedNeverGrows | panda_trace/tail.py:51-62 | once ended, a subscription never receives anything again |
| TailHistory.EndsOnlyWhenFull | panda_trace/tail.py:46-54 | a subscription ends if and only if its consumer leaves or a matching record finds its queue full in a publication that completes |
| Tail.CountsAreHeld | panda_trace/tail.py:29-42 | with matched acquires and releases the count is the number of held streams, never above the limit, and absent exactly when it is zero |
| Tail.GrantedIff | panda_trace/tail.py:29-35 | a stream is granted if and only if the key holds fewer than the limit; without a positive limit every stream is granted and none counted |
| Collector.ExtractBatchLogIndices | panda_trace_collector/collector.py:417-444 | the collected indices are exactly the integer-like items that follow a `logs` item in some detail's location |
| ValidationReport.ListNamesIff | panda_trace_collector/collector.py:417-444 | a list location names an index if and only if the number, a run of digits with that value, or the boolean equal to it stands right after a "logs" step |
| ValidationReport.StepsOfPieces | panda_trace_collector/collector.py:430-436 | the steps of a text location are those of its dotted pieces, and an empty piece is no step |
| ValidationReport.TellsExactly | panda_trace_collector/collector.py:376-444 | from a body with a detail for each of some positions, located by list or by text and under either key, exactly these positions are read |
| Delivery.Client.SendBatch | panda_trace_collector/collector.py:322-329 | one request is sent and recorded |
| Delivery.SendSingletonsDroppingValidationErrors | panda_trace_collector/collector.py:349-363 | sends one record at a time and stops only at an error other than 422 |
| Delivery.SendBatchWith422Recovery | panda_trace_collector/collector.py:319-346 | the requests sent and the outcome are those of the recursive specification, indices being read against the current pending list |
| Delivery.RecoverConserves | panda_trace_collector/collector.py:319-363 | for any server: records in requests answered with 2xx, dropped and unsettled records make up the batch, nothing is unsettled on a normal return, and a batch of n takes at most n + 1 requests |
| Delivery.RecoverJustified | panda_trace_collector/collector.py:330-363 | a record is dropped only because a 422 named its index in the request that held it or answered it alone |
| Delivery.RecoverInOrder | panda_trace_collector/collector.py:319-363 | records in requests answered with 2xx were sent in the order of the batch |
| Delivery.RecoverExact | panda_trace_collector/collector.py:319-363 | against any server that is honest about non-empty requests the records in requests answered with 2xx are exactly the valid ones, once each and in order |
| Delivery.RecoverConfirmsIff | panda_trace_collector/collector.py:100-102 | against such a server the confirmed records are exactly the valid ones if and only if no 2xx answer lists a rejected position |
| ValidationReport.RecoverExactReported | panda_trace_collector/collector.py:319-363 | against a service whose 422 bodies tell positions of invalid records, exactly the valid records are in requests answered with 2xx and exactly the others are dropped |
| ValidationReport.TwoRequests | panda_trace_collector/collector.py:319-346 | if such a body tells all invalid positions, one more request with exactly the valid records is enough |
| ValidationReport.RecoverEnds | panda_trace_collector/collector.py:319-363 | a delivery fails if and only if its last request got neither a 2xx nor a 422 answer |
| Delivery.AcceptedSplit | panda_trace/routes_logs.py:52-68 | every record of a request answered with 2xx is either confirmed or listed as rejected |
| Delivery.AllConfirmedIff | panda_trace_collector/collector.py:100-102 | all of them are confirmed if and only if no answer lists a position of its request |
| Delivery.RecoverNeverResends | panda_trace_collector/collector.py:319-363 | within one delivery a record of a request answered with 2xx, listed as rejected or not, is in no later request |
| Delivery.RecoverSendsNoEmptyBatch | panda_trace_collector/collector.py:319-363 | no empty request is ever sent |
| SendLoop.AlwaysInv | panda_trace_collector/collector.py:284-316 | the loop invariant holds after every sequence of turns, arrivals and stop |
| Progress.ArrivalsAccountedFor | panda_trace_collector/collector.py:284-316 | flushed batches, current batch and queue together are everything that arrived, each record once and in order |
| Progress.FlushedWhenDue | panda_trace_collector/collector.py:292-316 | before stop, without arrivals, with every request answered by 2xx or 422 and the interval passed at every turn: queue and batch are empty if and only if the turns that were left have been taken, at most 4 a queued record and 4 more, and then everything that arrived is in a flushed batch |
| Progress.NotSentEarly | panda_trace_collector/collector.py:299-305 | a batch that stays incomplete with all that arrives makes no request before the interval has passed |
| Progress.FullBatchIsSent | panda_trace_collector/collector.py:299-310 | a thread that decides on a full batch, or on any batch when the interval has passed, sends just that batch |
| SendLoop.NothingLost | panda_trace_collector/collector.py:284-316 | for any server the records taken are the flushed batches in order and the current batch, and every flushed record is confirmed by a 2xx answer, listed as rejected in one and not sent again by that flush, or justifiably dropped for a 422 |
| SendLoop.AllConfirmedRunIff | panda_trace_collector/collector.py:307-311 | for any server and run: confirmed, rejected and dropped records make up the flushed ones, and all that were not dropped are confirmed if and only if no 2xx answer of a flush lists a rejected position |
| SendLoop.BatchBounded | panda_trace_collector/collector.py:292-305 | until stop is set the batch stays within its size; a finished loop has an empty batch and everything taken is flushed |
| SendLoop.ExitSawEmptyQueue | panda_trace_collector/collector.py:292 | the loop ends only after a test that saw stop set and then the queue empty |
| SendLoop.HonestRunExactlyOnce | panda_trace_collector/collector.py:307-311 | with an honest server exactly the valid records of the flushed batches are in requests answered with 2xx, once each and in the order taken |
| ValidationReport.ReportedRunExactlyOnce | panda_trace_collector/collector.py:307-311 | the same for a service whose 422 bodies tell positions of invalid records |
| SendLoop.HonestRunConfirmsIff | panda_trace_collector/collector.py:307-311 | with an honest server exactly the valid records of the flushed batches are confirmed if and only if no 2xx answer of the run lists a rejected position |
| Shutdown.TurnNearer | panda_trace_collector/collector.py:292-316 | once stop is set and every request is answered with 2xx or 422, each turn leaves exactly one turn less to the end |
| Shutdown.EndsWithin | panda_trace_collector/collector.py:292-316 | after stop, without arrivals and with such a server, the loop has ended if and only if it has had the turns that were left, at most 5 a queued record and 11 more |
| Shutdown.NeverEnds | panda_trace_collector/collector.py:307-316 | with a server that always fails and a record in the batch, whatever happens next, no flush completes, no record leaves the batch and the loop does not end |
| CollectorLoss.ConfirmedIsStored | panda_trace/routes_logs.py:52-68 | for records without keys, a position not listed as rejected was stored as a new log; a listed one was stored only if a tail filter raised on its log |
| CollectorLoss.UnknownSeverityRejected | panda_trace/routes_logs.py:55-67 | an item with an unknown severity is rejected and changes nothing |
| CollectorLoss.UsedUpRejectsAll | panda_trace/routes_logs.py:52-68 | with the projects' quota used up every item of a batch is rejected, nothing is stored or published, and the quota stays used up |
| CollectorLoss.EverythingLost | panda_trace_collector/collector.py:307-311 | against a service that rejects every record inside its 2xx answers no run confirms a record, none is dropped, and every flushed record was listed as rejected |
| CollectorLoss.UsedUpLosesEverything | panda_trace_collector/collector.py:307-311 | that is what happens in every run while the projects' quota is used up, however the service's state changes |
| CollectorLoss.LostToQuota | panda_trace_collector/collector.py:100-102 | a run from the empty store in which the quota is used up and the collector sends a record, gets a 2xx answer and clears its batch, with the record confirmed, dropped and stored nowhere |

## Left out

Assumptions of the model:

- Text: lower-casing is one character to one character and maps ASCII letters only; Unicode digits, blanks and folding, where `_redact_text` would use positions of the lowered text on the original, are not represented.
- Like: ClickHouse's `lowerUTF8` and Python's `lower` are the same function.
- Query.SafeAttributeAgrees: attributes hold no NaN. Python reads and prints `NaN`, the attributes column is then not JSON, and JSON_VALUE finds no key of that record, while memory still finds its other attributes.
- Query.AttributeViewsAgreeIff: the same assumption; and a negative zero is taken to print alike in Python and in the database.
- Codec: printing attributes as JSON and parsing them again gives them back; a number with a fraction or exponent keeps its printed text, whose decimal value stands for it, and `str` of a list or an object is represented by its opening bracket.
- Query: a JSON path is a sequence of bare ASCII member names; a path that is not of this form selects nothing here, where ClickHouse may refuse the query instead. Timestamps are whole seconds.
- Cursor.CursorRoundTrip: the decoder reads only what the service itself writes (compact JSON, the exact base64 alphabet); Python also accepts other spellings, which the service never hands out.
- Store.InMemoryStore: its methods contain no point where another coroutine could run, so each is one step; `AuthContext` objects that hold a key are values here, so a revocation is seen at the next authentication and not through an alias.
- Store.InMemoryStore.SearchLogs: requested sources are checked in request order; the source iterates over a set, so which of several errors is reported may differ. The list sort is the specified stable sort.
- StoreModel: names, slugs, scopes, expiry, address lists and audit metadata other than the log id are left out of the entities; payload size, dates and times of receipt are inputs of a call.
- IngestQuota.QuotaConserved: dates are ISO dates, that is, without a colon; settings do not change during a run.
- PersistentSearch.SearchesAgreeOnRuns: a negative page size, which the database refuses as a LIMIT, is not represented.
- Redaction.NothingLeaksIff: speaks of values; attribute keys are never changed.
- Batch.IngestBatch: the rate check before it is the one of `RateLimit`; the printed size of a log is a function of the log.
- Delivery: the response is a function of the number of requests so far and the request; exceptions that the loop does not catch do not occur.
- CollectorLoss.UsedUpLosesEverything: all items of a request are ingested at one moment, and the printed sizes of logs and requests are functions of them, never zero for a log.
- SendLoop: times are not represented: whether a flush is due by time is decided by the events.
- RateLimit.SharedIntervalBound: the expiry of a window's count after the window and five more seconds is not represented; a caller whose clock lags further behind than that restarts the count of an old window.
- RateLimit.IntervalBound: one limit and window for all calls of a run and a clock that does not go back; the shared limiter's bound needs no clock order.
- QuotaReserve: key expiry after 48 hours is not represented, and one day's key is modelled.
- Tail.CountsAreHeld: only acquires that succeeded are released, as the endpoint does.

Not modelled:

- Tie order across the back ends: SQL breaks ties by time of receipt, memory by insertion; page entries are compared by sort key.
- Publication through Redis, which does not evaluate the subscribers' filters when a record is published.
- The Redis stream counter, whose decrement and delete are two commands.
- Postgres, ClickHouse, Redis, MinIO and HTTP clients, Docker subprocesses, threads and signals beyond their steps and outcomes.
- FastAPI routing, request validation by Pydantic, exports, attachments, reading single logs, listing sources and audit logs, and access checks used only there: they would add easy members.
- Key hashing, token generation and address matching: behaviour of libraries.
- The SSE loop with its heartbeats and idle timeout, and the codecs of the control-plane tables.
