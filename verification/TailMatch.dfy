// Which records a tail filter wants (record_matches_tail of panda_trace/log_query.py).
module TailMatch {
  import opened Base
  import opened IgnoreCase
  import opened Records
  import opened Severity
  import opened Tail

  // A record is wanted if and only if it is of the filter's project and source, the filter lists no
  // severity or one that names the record's and none that is unknown, and the message shows the query in
  // whatever case.
  lemma WantedIff(record: LogRecord, filter: TailFilter)
    ensures Wanted(record, filter) <==>
              && record.projectId == filter.projectId
              && (filter.sourceId.None? || filter.sourceId.value == "" || filter.sourceId.value == record.sourceId)
              && (filter.severity == [] ||
                    exists v :: v in filter.severity && NormalizeSeverity(v) == Ok(record.severity))
              && (forall v :: v in filter.severity ==> NormalizeSeverity(v).Ok?)
              && (filter.query.None? || filter.query.value == "" || Reads(record.message, filter.query.value))
  {
    if filter.query.Some? {
      IncludesIgnoringCaseIff(record.message, filter.query.value);
    }
    forall v
      ensures KnownSeverity(v) <==> NormalizeSeverity(v).Ok?
    {
    }
    if AllKnown(filter.severity) {
      ListedSeverity(filter.severity, record.severity);
    }
    hide Reads, KnownSeverity, NormalizeSeverity, NormalizedSet;
  }

  lemma ListedSeverity(listed: seq<string>, severity: string)
    requires AllKnown(listed)
    ensures severity in NormalizedSet(listed) <==> exists v :: v in listed && NormalizeSeverity(v) == Ok(severity)
  {
  }

  // Changing the case of the message and of the query changes nothing.
  lemma TailIgnoresCase(record: LogRecord, message: string, filter: TailFilter, asked: string)
    requires SameText(record.message, message) && filter.query.Some? && SameText(filter.query.value, asked)
    ensures Wanted(record, filter) <==> Wanted(record.(message := message), filter.(query := Some(asked)))
  {
    WantedIff(record, filter);
    WantedIff(record.(message := message), filter.(query := Some(asked)));
    ReadsSame(record.message, message, filter.query.value, asked);
    hide Reads, NormalizeSeverity, Wanted;
  }

  // A subscriber's queue takes a wanted record while it holds fewer than 100, and is full at 100.
  lemma QueueTakesWanted(queue: seq<LogRecord>, record: LogRecord, filter: TailFilter)
    ensures Wanted(record, filter) && |queue| < 100 ==> Offer(queue, record, filter) == (queue + [record], true)
    ensures Wanted(record, filter) && |queue| >= 100 ==> Offer(queue, record, filter) == (queue, false)
    ensures !Wanted(record, filter) ==> Offer(queue, record, filter) == (queue, true)
  {
    hide Wanted;
  }
}
