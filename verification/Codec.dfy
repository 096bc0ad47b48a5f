// The stored row of a log record (panda_trace/log_codecs.py, migrations/clickhouse/001_init.sql).
// The attributes column holds a printed JSON tree; printing and parsing are taken as faithful.
module Codec {
  import opened Base
  import opened Records

  datatype LogRow = LogRow(
    id: string, orgId: string, projectId: string, sourceId: string,
    timestamp: int, receivedAt: int, severity: string,
    service: Option<string>, environment: Option<string>,
    traceId: Option<string>, spanId: Option<string>, requestId: Option<string>,
    logger: Option<string>, event: Option<string>, message: string,
    exceptionType: Option<string>, exceptionMessage: Option<string>, exceptionStacktrace: Option<string>,
    attributes: map<string, Json>, schemaVersion: int)

  const NO_EXCEPTION := ExceptionInfo(None, None, None)

  function LogInsertRow(record: LogRecord): LogRow {
    var e := if record.exception.Some? then record.exception.value else NO_EXCEPTION;
    LogRow(record.id, record.orgId, record.projectId, record.sourceId,
           record.timestamp, record.receivedAt, record.severity,
           record.service, record.environment, record.traceId, record.spanId, record.requestId,
           record.logger, record.event, record.message,
           e.kind, e.message, e.stacktrace, record.attributes, record.schemaVersion)
  }

  function LogFromRow(row: LogRow): LogRecord {
    var e := ExceptionInfo(row.exceptionType, row.exceptionMessage, row.exceptionStacktrace);
    LogRecord(row.id, row.orgId, row.projectId, row.sourceId,
              row.timestamp, row.receivedAt, row.severity, row.message,
              row.service, row.environment, row.traceId, row.spanId, row.requestId,
              row.logger, row.event, row.attributes,
              if e == NO_EXCEPTION then None else Some(e), row.schemaVersion)
  }

  // A record survives the trip to the table and back unless its exception is the empty dictionary,
  // which comes back as no exception at all.
  lemma RowRoundTrip(record: LogRecord)
    ensures LogFromRow(LogInsertRow(record)) == record <==> record.exception != Some(NO_EXCEPTION)
    ensures LogFromRow(LogInsertRow(record)) ==
            if record.exception == Some(NO_EXCEPTION) then record.(exception := None) else record
  {
  }

  lemma RowReadBack(row: LogRow)
    ensures LogInsertRow(LogFromRow(row)) == row
  {
  }
}
