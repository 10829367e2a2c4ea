/**
 The vocabulary of the telemetry store: scopes, batches, privacy requests and
 the physical rows the store writes for them.
 */
module Telemetry {
  import opened Tables

  // ---------- Scopes ----------

  datatype Scope = Scope(
    product: string, productKey: string, subject: string, person: Option<string>, org: Option<string>)

  function StringValue(key: Option<string>): string
  {
    if key.None? then "" else key.value
  }

  /** Parsing accepts only non-empty opaque keys. */
  predicate ValidScope(scope: Scope)
  {
    scope.person != Some("") && scope.org != Some("")
  }

  /** The scopes a request is about: those of its product with its subject, its person or its organisation. */
  predicate Concerns(request: Scope, other: Scope)
  {
    && other.product == request.product && other.productKey == request.productKey
    && (|| other.subject == request.subject
        || (request.person.Some? && other.person == request.person)
        || (request.org.Some? && other.org == request.org))
  }

  /** The ingest gate's SQL condition on a suppression row, for an incoming scope. */
  predicate GateMatches(suppressed: Scope, incoming: Scope)
  {
    && suppressed.product == incoming.product
    && suppressed.productKey == incoming.productKey
    && (|| suppressed.subject == incoming.subject
        || (StringValue(incoming.person) != "" && StringValue(suppressed.person) == StringValue(incoming.person))
        || (StringValue(incoming.org) != "" && StringValue(suppressed.org) == StringValue(incoming.org)))
  }

  /** The SQL condition of the deletion mutation on a stored row, for a request's scope. */
  predicate DeleteMatches(request: Scope, stored: Scope)
  {
    && stored.product == request.product
    && stored.productKey == request.productKey
    && (|| stored.subject == request.subject
        || (StringValue(request.person) != "" && StringValue(stored.person) == StringValue(request.person))
        || (StringValue(request.org) != "" && StringValue(stored.org) == StringValue(request.org)))
  }

  // ---------- Batches ----------

  datatype Stream = Common | Technical | Plays | Product | Outcomes

  datatype Record = Record(id: string, payload: string)

  datatype Batch = Batch(id: string, scope: Scope, stream: Stream, records: seq<Record>)

  const MAX_BATCH_RECORDS := 500

  /** What every caller of the store guarantees about a batch. */
  ghost predicate ValidBatch(batch: Batch)
  {
    1 <= |batch.records| <= MAX_BATCH_RECORDS && ValidScope(batch.scope)
  }

  /** What parsing guarantees beside, and the importer does not check: no record ID twice. */
  ghost predicate DistinctIds(batch: Batch)
  {
    forall i, j | 0 <= i < j < |batch.records| :: batch.records[i].id != batch.records[j].id
  }

  ghost predicate HasRecord(batch: Batch, id: string)
  {
    exists r :: r in batch.records && r.id == id
  }

  /**
   The SHA-256 of a request body.  Equal digests are taken to mean equal bodies:
   a digest determines the batch that parsing makes of the body, and `spelling`
   tells bodies apart that parse alike.
   */
  datatype Digest = Digest(batch: Batch, spelling: nat)

  // ---------- Rows of the ingest tables ----------

  datatype BatchKey = BatchKey(product: string, batch: string)
  datatype RecordKey = RecordKey(product: string, record: string)
  datatype StreamKey = StreamKey(stream: Stream, product: string, subject: string, record: string)

  datatype LedgerStatus = StatusReserved | StatusCompleted | StatusOther

  datatype LedgerData = LedgerData(scope: Scope, stream: Stream, sha: Digest, count: nat, status: LedgerStatus)
  datatype RegistryData = RegistryData(batch: string, stream: Stream, sha: Digest, scope: Scope)
  datatype StreamData = StreamData(scope: Scope, batch: string, payload: string)

  type LedgerRow = Row<BatchKey, LedgerData>
  type RegistryRow = Row<RecordKey, RegistryData>
  type StreamRow = Row<StreamKey, StreamData>

  function KeyOf(batch: Batch): BatchKey
  {
    BatchKey(batch.scope.product, batch.id)
  }

  function LedgerRowFor(sha: Digest, status: LedgerStatus, at: int): LedgerRow
  {
    Row(KeyOf(sha.batch), at,
        LedgerData(sha.batch.scope, sha.batch.stream, sha, |sha.batch.records|, status))
  }

  function RegistryRowFor(sha: Digest, record: string, at: int): RegistryRow
  {
    Row(RecordKey(sha.batch.scope.product, record), at,
        RegistryData(sha.batch.id, sha.batch.stream, sha, sha.batch.scope))
  }

  function StreamKeyOf(batch: Batch, record: string): StreamKey
  {
    StreamKey(batch.stream, batch.scope.product, batch.scope.subject, record)
  }

  function StreamRowFor(batch: Batch, record: Record, at: int): StreamRow
  {
    Row(StreamKeyOf(batch, record.id), at, StreamData(batch.scope, batch.id, record.payload))
  }

  function RegistryRows(sha: Digest, at: int): (rows: seq<RegistryRow>)
    ensures |rows| == |sha.batch.records|
  {
    seq(|sha.batch.records|, i requires 0 <= i < |sha.batch.records| => RegistryRowFor(sha, sha.batch.records[i].id, at))
  }

  function StreamRows(batch: Batch, at: int): (rows: seq<StreamRow>)
    ensures |rows| == |batch.records|
  {
    seq(|batch.records|, i requires 0 <= i < |batch.records| => StreamRowFor(batch, batch.records[i], at))
  }

  // ---------- Privacy requests ----------

  datatype RequestKey = RequestKey(product: string, id: string)
  datatype PrivacyAction = OptOut | Delete | Unsupported
  datatype PrivacyStatus = Pending | Retry | Processing | Completed | Failed

  datatype SuppressionData = SuppressionData(
    scope: Scope, action: PrivacyAction, status: PrivacyStatus, sha: string, requestedAt: int, ingestedAt: int, active: bool,
    attempts: nat, availableAt: int, leaseUntil: Option<int>, legacyInstallation: Option<string>)

  type SuppressionRow = Row<RequestKey, SuppressionData>

  /** A parsed request that the store is asked to persist. */
  datatype NewRequest = NewRequest(
    key: RequestKey, scope: Scope, action: PrivacyAction, sha: string, requestedAt: int, legacyInstallation: Option<string>)

  predicate ValidRequest(request: NewRequest)
  {
    && request.key.product == request.scope.product
    && ValidScope(request.scope)
    && (request.legacyInstallation.Some? ==> request.action == Delete)
  }

  /** The worker's copy of a request. */
  datatype Request = Request(
    key: RequestKey, scope: Scope, action: PrivacyAction, sha: string, requestedAt: int, ingestedAt: int, attempts: nat,
    legacyInstallation: Option<string>)

  function PendingRowFor(request: NewRequest, now: int): SuppressionRow
  {
    Row(request.key, now,
        SuppressionData(request.scope, request.action, Pending, request.sha, request.requestedAt, now, true, 0, now, None,
                        request.legacyInstallation))
  }

  function StatusRowFor(
    request: Request, status: PrivacyStatus, attempts: nat, availableAt: int, leaseUntil: Option<int>): SuppressionRow
  {
    Row(request.key, StatusVersion(request.ingestedAt, status, attempts),
        SuppressionData(request.scope, request.action, status, request.sha, request.requestedAt, request.ingestedAt, true, attempts,
                        availableAt, leaseUntil, request.legacyInstallation))
  }

  function Snapshot(row: SuppressionRow): Request
  {
    Request(row.key, row.data.scope, row.data.action, row.data.sha, row.data.requestedAt, row.data.ingestedAt, row.data.attempts,
            row.data.legacyInstallation)
  }

  /** Version timestamp of a status row, in milliseconds. */
  function StatusVersion(ingestedAt: int, status: PrivacyStatus, attempts: nat): int
  {
    ingestedAt + attempts * 4 +
    match status
    case Retry => 2
    case Failed => 2
    case Completed => 3
    case _ => 1
  }

  /** The attempt counter is a UInt16. */
  function NextAttempt(attempts: nat): nat
  {
    (attempts + 1) % 0x1_0000
  }

  const LEASE := 300_000

  /** Exponential backoff in milliseconds, attempts clamped to 1..8. */
  function RetryDelay(attempts: nat): nat
  {
    PowerOfTwo(if attempts < 1 then 0 else if attempts > 8 then 7 else attempts - 1) * 1000
  }

  function PowerOfTwo(n: nat): nat
  {
    if n == 0 then 1 else 2 * PowerOfTwo(n - 1)
  }

  /** A request the worker may take: due, or abandoned after its lease. */
  predicate Due(row: SuppressionRow, now: int)
  {
    || (row.data.status in {Pending, Retry} && row.data.availableAt <= now)
    || (row.data.status == Processing && row.data.leaseUntil.Some? && row.data.leaseUntil.value < now)
  }

  // ---------- Deletion progress ----------

  datatype Table = StreamTable(stream: Stream) | RegistryTable | LedgerTable | EventsTable | SummariesTable

  datatype ProgressKey = ProgressKey(request: RequestKey, table: Table)
  datatype ProgressData = ProgressData(status: PrivacyStatus, attempts: nat)
  type ProgressRow = Row<ProgressKey, ProgressData>

  /** The tables a request is deleted from, in order. */
  function TablesOf(legacyInstallation: Option<string>): (tables: seq<Table>)
  {
    if legacyInstallation.Some? then
      [EventsTable, SummariesTable]
    else
      [StreamTable(Common), StreamTable(Technical), StreamTable(Plays), StreamTable(Product), StreamTable(Outcomes),
       RegistryTable, LedgerTable]
  }

  function ProgressRowFor(request: Request, table: Table, status: PrivacyStatus, attempts: nat): ProgressRow
  {
    Row(ProgressKey(request.key, table), StatusVersion(request.ingestedAt, status, attempts),
        ProgressData(status, attempts))
  }

  // ---------- V1 telemetry ----------

  datatype V1Item = V1Item(installation: string, id: string, payload: string)
  datatype V1Batch = V1Batch(events: seq<V1Item>, summaries: seq<V1Item>)
  datatype V1Key = V1Key(table: Table, installation: string, id: string)
  type V1Row = Row<V1Key, string>

  ghost predicate Mentions(batch: V1Batch, installation: string)
  {
    || (exists e :: e in batch.events && e.installation == installation)
    || (exists e :: e in batch.summaries && e.installation == installation)
  }

  function V1RowFor(table: Table, item: V1Item, at: int): V1Row
  {
    Row(V1Key(table, item.installation, item.id), at, item.payload)
  }

  function V1Rows(table: Table, items: seq<V1Item>, at: int): (rows: seq<V1Row>)
    ensures |rows| == |items|
  {
    seq(|items|, i requires 0 <= i < |items| => V1RowFor(table, items[i], at))
  }
}
