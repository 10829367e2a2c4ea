/**
 What every statement of the protocol keeps.
 */
module Invariant {
  import opened Tables
  import opened Telemetry
  import opened Protocol
  import opened History

  // ---------- Ledger ----------

  ghost predicate LedgerRowOk(r: LedgerRow)
  {
    && r == LedgerRowFor(r.data.sha, r.data.status, r.version)
    && r.data.status != StatusOther
    && ValidBatch(r.data.sha.batch)
  }

  /** Rows of one batch: one body, one reservation, one later completion. */
  predicate SameBatch(r: LedgerRow, q: LedgerRow)
  {
    && r.data.sha == q.data.sha
    && (r.data.status == q.data.status ==> r == q)
    && (r.data.status == StatusReserved && q.data.status == StatusCompleted ==> r.version < q.version)
  }

  ghost predicate LedgerOk(ledger: seq<LedgerRow>)
  {
    && (forall r | r in ledger :: LedgerRowOk(r))
    && (forall r, q | r in ledger && q in ledger && r.key == q.key :: SameBatch(r, q))
  }

  // ---------- The referential chain ----------

  ghost predicate HasLedgerRow(ledger: seq<LedgerRow>, product: string, batch: string, sha: Digest)
  {
    exists l :: l in ledger && l.key == BatchKey(product, batch) && l.data.sha == sha
  }

  ghost predicate HasRegistryRow(registry: seq<RegistryRow>, product: string, record: string, batch: string)
  {
    exists g :: g in registry && g.key == RecordKey(product, record) && g.data.batch == batch
  }

  ghost predicate RegistryRowOk(g: RegistryRow)
  {
    && g == RegistryRowFor(g.data.sha, g.key.record, g.version)
    && ValidBatch(g.data.sha.batch)
    && HasRecord(g.data.sha.batch, g.key.record)
  }

  ghost predicate RegistryOk(registry: seq<RegistryRow>, ledger: seq<LedgerRow>)
  {
    && (forall g | g in registry :: RegistryRowOk(g))
    && (forall g, h | g in registry && h in registry && g.key == h.key :: g.data == h.data)
    && (forall g | g in registry :: HasLedgerRow(ledger, g.key.product, g.data.batch, g.data.sha))
  }

  /** A stream row repeats a record of the batch that the registry names as its owner. */
  ghost predicate Owned(registry: seq<RegistryRow>, s: StreamRow)
  {
    exists g :: && g in registry && g.key == RecordKey(s.key.product, s.key.record)
                && s == StreamRowFor(g.data.sha.batch, Record(s.key.record, s.data.payload), s.version)
                && Record(s.key.record, s.data.payload) in g.data.sha.batch.records
  }

  ghost predicate StreamsOk(streams: seq<StreamRow>, registry: seq<RegistryRow>)
  {
    forall s | s in streams :: Owned(registry, s)
  }

  // ---------- Requests ----------

  ghost predicate HistoryOk(
    history: map<RequestKey, seq<SuppressionRow>>, suppressions: seq<SuppressionRow>, maxAttempts: nat)
  {
    && maxAttempts >= 1
    && (forall k | k in history :: WellFormed(history[k], k, maxAttempts))
    && StatusesStored(history, suppressions)
  }

  /** The table holds rows of the history, among them the last one of each request. */
  ghost predicate StatusesStored(history: map<RequestKey, seq<SuppressionRow>>, suppressions: seq<SuppressionRow>)
  {
    && (forall r | r in suppressions :: r.key in history && r in history[r.key])
    && (forall k | k in history :: history[k] != [] && Last(history[k]).key == k && Last(history[k]) in suppressions)
  }

  /** Some stored request covers the scope. */
  ghost predicate Suppressed(history: map<RequestKey, seq<SuppressionRow>>, scope: Scope)
  {
    exists k :: k in history && history[k] != [] && GateMatches(history[k][0].data.scope, scope)
  }

  /** Some stored request asks to delete the scope's V2 telemetry. */
  ghost predicate DeletionRequested(history: map<RequestKey, seq<SuppressionRow>>, scope: Scope)
  {
    exists k :: k in history && history[k] != [] && Deletes(history[k][0], scope)
  }

  predicate Deletes(row: SuppressionRow, scope: Scope)
  {
    row.data.action == Delete && row.data.legacyInstallation.None? && DeleteMatches(row.data.scope, scope)
  }

  ghost predicate LegacySuppressed(history: map<RequestKey, seq<SuppressionRow>>, installation: string)
  {
    exists k :: k in history && history[k] != [] && history[k][0].data.legacyInstallation == Some(installation)
  }

  // ---------- Deletion progress ----------

  ghost predicate MarksOk(
    marks: map<ProgressKey, seq<ProgressRow>>, progress: seq<ProgressRow>,
    history: map<RequestKey, seq<SuppressionRow>>)
  {
    && (forall k | k in marks :: k.request in history && history[k.request] != []
                                 && history[k.request][0].data.action == Delete
                                 && WellMarked(marks[k], k, history[k.request][0].data.ingestedAt))
    && (forall k | k in marks :: Last(marks[k]).data.attempts <= Claims(history[k.request]))
    && MarksStored(marks, progress)
  }

  ghost predicate MarksStored(marks: map<ProgressKey, seq<ProgressRow>>, progress: seq<ProgressRow>)
  {
    && (forall r | r in progress :: r.key in marks && r in marks[r.key])
    && (forall k | k in marks :: marks[k] != [] && Last(marks[k]).key == k && Last(marks[k]) in progress)
  }

  ghost predicate TableDone(marks: map<ProgressKey, seq<ProgressRow>>, k: ProgressKey)
  {
    k in marks && marks[k] != [] && Last(marks[k]).data.status == Completed
  }

  /** A table recorded as completed holds nothing of the request's scope. */
  ghost predicate DoneIsClear(
    ledger: seq<LedgerRow>, registry: seq<RegistryRow>, streams: seq<StreamRow>, v1Rows: seq<V1Row>,
    history: map<RequestKey, seq<SuppressionRow>>, marks: map<ProgressKey, seq<ProgressRow>>)
  {
    forall k | TableDone(marks, k) && k.request in history && history[k.request] != [] ::
      Clear(ledger, registry, streams, v1Rows, history[k.request][0].data.scope,
            history[k.request][0].data.legacyInstallation, k.table)
  }

  ghost predicate AllDone(marks: map<ProgressKey, seq<ProgressRow>>, key: RequestKey, tables: seq<Table>)
  {
    forall t | t in tables :: TableDone(marks, ProgressKey(key, t))
  }

  /** A completed deletion request has completed every table. */
  ghost predicate CompletedIsDone(
    history: map<RequestKey, seq<SuppressionRow>>, marks: map<ProgressKey, seq<ProgressRow>>)
  {
    forall k | k in history && history[k] != [] && Last(history[k]).data.status == Completed
                            && history[k][0].data.action == Delete ::
      AllDone(marks, k, TablesOf(history[k][0].data.legacyInstallation))
  }

  // ---------- Exactly once ----------

  /** A row of the record's ID; if the batch has the ID more than once, of any of its records. */
  predicate Carries(t: StreamRow, batch: Batch, record: Record)
  {
    && t.key == StreamKeyOf(batch, record.id) && t.data.scope == batch.scope && t.data.batch == batch.id
    && Record(record.id, t.data.payload) in batch.records
  }

  ghost predicate HasStreamRow(streams: seq<StreamRow>, batch: Batch, record: Record)
  {
    exists t :: t in streams && Carries(t, batch, record)
  }

  ghost predicate AllRegistered(registry: seq<RegistryRow>, batch: Batch)
  {
    forall r | r in batch.records :: HasRegistryRow(registry, batch.scope.product, r.id, batch.id)
  }

  ghost predicate AllWritten(streams: seq<StreamRow>, batch: Batch)
  {
    forall r | r in batch.records :: HasStreamRow(streams, batch, r)
  }

  /** A completed batch whose scope nobody asked to delete has all its records. */
  ghost predicate CompletedIsWritten(
    ledger: seq<LedgerRow>, registry: seq<RegistryRow>, streams: seq<StreamRow>,
    history: map<RequestKey, seq<SuppressionRow>>)
  {
    forall l | l in ledger && l.data.status == StatusCompleted && !DeletionRequested(history, l.data.sha.batch.scope) ::
      AllRegistered(registry, l.data.sha.batch) && AllWritten(streams, l.data.sha.batch)
  }

  // ---------- Program counters ----------

  ghost predicate NoRow(ledger: seq<LedgerRow>, key: BatchKey)
  {
    forall l | l in ledger :: l.key != key
  }

  /** The batch is reserved at `at` and not completed. */
  ghost predicate HoldsReservation(ledger: seq<LedgerRow>, sha: Digest, at: int)
  {
    && LedgerRowFor(sha, StatusReserved, at) in ledger
    && (forall l | l in ledger && l.key == KeyOf(sha.batch) :: l == LedgerRowFor(sha, StatusReserved, at))
  }

  ghost predicate NoClash(registry: seq<RegistryRow>, sha: Digest)
  {
    forall g | g in registry :: !Clashes(g, sha)
  }

  ghost predicate WriterOk(
    pc: WriterPc, ledger: seq<LedgerRow>, registry: seq<RegistryRow>, streams: seq<StreamRow>,
    history: map<RequestKey, seq<SuppressionRow>>)
  {
    match pc
    case Idle => true
    case Looked(sha, reserved) =>
      && ValidBatch(sha.batch)
      && (!Suppressed(history, sha.batch.scope) ==>
            if reserved.Some? then HoldsReservation(ledger, sha, reserved.value)
            else NoRow(ledger, KeyOf(sha.batch)))
    case Cleared(sha) =>
      ValidBatch(sha.batch) && !Suppressed(history, sha.batch.scope) && NoRow(ledger, KeyOf(sha.batch))
    case Reserved(sha, at) =>
      ValidBatch(sha.batch) && !Suppressed(history, sha.batch.scope) && HoldsReservation(ledger, sha, at)
    case Vacant(sha, at) =>
      && ValidBatch(sha.batch) && !Suppressed(history, sha.batch.scope) && HoldsReservation(ledger, sha, at)
      && NoClash(registry, sha)
    case Registered(sha, at) =>
      && ValidBatch(sha.batch) && !Suppressed(history, sha.batch.scope) && HoldsReservation(ledger, sha, at)
      && NoClash(registry, sha) && AllRegistered(registry, sha.batch)
    case Written(sha, at) =>
      && ValidBatch(sha.batch) && !Suppressed(history, sha.batch.scope) && HoldsReservation(ledger, sha, at)
      && NoClash(registry, sha) && AllRegistered(registry, sha.batch) && AllWritten(streams, sha.batch)
    case Requesting(request) => ValidRequest(request) && request.key !in history
  }

  ghost predicate V1Ok(pc: V1Pc, writer: WriterPc, history: map<RequestKey, seq<SuppressionRow>>)
  {
    && (pc != V1Idle ==> !HoldsV1(writer))
    && match pc
       case V1Idle => true
       case V1Cleared(batch) => forall x | Mentions(batch, x) :: !LegacySuppressed(history, x)
       case V1Events(batch) => forall x | Mentions(batch, x) :: !LegacySuppressed(history, x)
  }

  /** The worker's copy of a request agrees with the last row stored for it. */
  ghost predicate Current(request: Request, history: map<RequestKey, seq<SuppressionRow>>)
  {
    && request.key in history && history[request.key] != []
    && request == Snapshot(Last(history[request.key]))
  }

  ghost predicate QueueOk(queue: seq<Request>, history: map<RequestKey, seq<SuppressionRow>>)
  {
    && (forall q | q in queue :: Current(q, history))
    && (forall i, j | 0 <= i < j < |queue| :: queue[i].key != queue[j].key)
  }

  /** The worker holds the claim of `request` and will come back to `queue`. */
  ghost predicate HoldsClaim(request: Request, queue: seq<Request>, history: map<RequestKey, seq<SuppressionRow>>)
  {
    && Current(request, history)
    && Last(history[request.key]).data.status == Processing
    && QueueOk(queue, history)
    && (forall q | q in queue :: q.key != request.key)
  }

  ghost predicate LoopOk(
    request: Request, table: nat, marks: map<ProgressKey, seq<ProgressRow>>)
  {
    && request.action == Delete
    && table < |TablesOf(request.legacyInstallation)|
    && (forall i | 0 <= i < table :: TableDone(marks, ProgressKey(request.key, CurrentTable(request, i))))
    && (forall i | table < i < |TablesOf(request.legacyInstallation)| ::
          MarkedBelow(marks, ProgressKey(request.key, CurrentTable(request, i)), request.attempts))
  }

  ghost predicate MarkedBelow(marks: map<ProgressKey, seq<ProgressRow>>, k: ProgressKey, attempts: nat)
  {
    k in marks && marks[k] != [] ==> Last(marks[k]).data.attempts < attempts
  }

  ghost predicate WorkerOk(
    pc: WorkerPc, ledger: seq<LedgerRow>, registry: seq<RegistryRow>, streams: seq<StreamRow>, v1Rows: seq<V1Row>,
    history: map<RequestKey, seq<SuppressionRow>>, marks: map<ProgressKey, seq<ProgressRow>>)
  {
    match pc
    case Resting => true
    case Listed(queue) => QueueOk(queue, history)
    case Claiming(request, queue, attempts, _) =>
      && Current(request, history) && QueueOk(queue, history) && (forall q | q in queue :: q.key != request.key)
      && attempts == request.attempts
      && Last(history[request.key]).data.status in {Pending, Retry, Processing}
    case Deleting(request, queue, table) =>
      && HoldsClaim(request, queue, history) && LoopOk(request, table, marks)
      && MarkedBelow(marks, ProgressKey(request.key, CurrentTable(request, table)), request.attempts)
    case Marking(request, queue, table, attempts) =>
      && HoldsClaim(request, queue, history) && LoopOk(request, table, marks)
      && attempts < request.attempts
      && (var k := ProgressKey(request.key, CurrentTable(request, table));
          if k in marks && marks[k] != [] then
            Last(marks[k]).data.attempts == attempts && Last(marks[k]).data.status in {Processing, Retry}
          else attempts == 0)
    case Marked(request, queue, table, attempts) =>
      && HoldsClaim(request, queue, history) && LoopOk(request, table, marks)
      && InProgress(marks, request, table, attempts)
    case Mutating(request, queue, table, attempts, _) =>
      && HoldsClaim(request, queue, history) && LoopOk(request, table, marks)
      && InProgress(marks, request, table, attempts)
    case Mutated(request, queue, table, attempts) =>
      && HoldsClaim(request, queue, history) && LoopOk(request, table, marks)
      && InProgress(marks, request, table, attempts)
      && Clear(ledger, registry, streams, v1Rows, request.scope, request.legacyInstallation, CurrentTable(request, table))
    case Botched(request, queue, table, attempts) =>
      && HoldsClaim(request, queue, history) && LoopOk(request, table, marks)
      && InProgress(marks, request, table, attempts)
    case Closing(request, queue, succeeded) =>
      && HoldsClaim(request, queue, history)
      && (succeeded && request.action == Delete ==>
            AllDone(marks, request.key, TablesOf(request.legacyInstallation)))
  }

  ghost predicate InProgress(marks: map<ProgressKey, seq<ProgressRow>>, request: Request, table: nat, attempts: nat)
    requires table < |TablesOf(request.legacyInstallation)|
  {
    var k := ProgressKey(request.key, CurrentTable(request, table));
    && k in marks && marks[k] != []
    && Last(marks[k]).data == ProgressData(Processing, attempts)
    && attempts <= request.attempts
  }

  // ---------- Mutations ----------

  /** No row that came after the mutation was submitted matches it. */
  predicate Covers(c: Contents, m: Mutation)
    requires HasTable(m)
  {
    match TableOf(m)
    case StreamTable(stream) =>
      forall r | r in c.streams && r.key.stream == stream && DeleteMatches(m.scope, r.data.scope) :: r in m.before.streams
    case RegistryTable => forall r | r in c.registry && DeleteMatches(m.scope, r.data.scope) :: r in m.before.registry
    case LedgerTable => forall r | r in c.ledger && DeleteMatches(m.scope, r.data.scope) :: r in m.before.ledger
    case table =>
      forall r | r in c.v1Rows && r.key.table == table && Some(r.key.installation) == m.legacyInstallation :: r in m.before.v1Rows
  }

  /** The mutation carries out a stored deletion request whose earlier tables are done. */
  ghost predicate Ordered(
    m: Mutation, history: map<RequestKey, seq<SuppressionRow>>, marks: map<ProgressKey, seq<ProgressRow>>)
  {
    && IsDeleting(history, m.key, m.scope, m.legacyInstallation) && HasTable(m)
    && forall i | 0 <= i < m.index :: TableDone(marks, ProgressKey(m.key, TablesOf(m.legacyInstallation)[i]))
  }

  /** A stored request to delete that scope or installation. */
  ghost predicate IsDeleting(
    history: map<RequestKey, seq<SuppressionRow>>, key: RequestKey, scope: Scope, legacyInstallation: Option<string>)
  {
    && key in history && history[key] != []
    && history[key][0].data.scope == scope
    && history[key][0].data.action == Delete
    && history[key][0].data.legacyInstallation == legacyInstallation
  }

  ghost predicate MutationsOk(
    mutations: seq<Mutation>, worker: WorkerPc, c: Contents, history: map<RequestKey, seq<SuppressionRow>>,
    marks: map<ProgressKey, seq<ProgressRow>>)
  {
    && (forall m | m in mutations :: Ordered(m, history, marks) && Covers(c, m))
    && (worker.Mutating? ==> worker.mutation < |mutations| && IsFor(mutations[worker.mutation], worker.request, worker.table))
  }

  predicate IsFor(m: Mutation, request: Request, table: nat)
  {
    && m.key == request.key && m.scope == request.scope && m.legacyInstallation == request.legacyInstallation
    && m.index == table
  }

  // ---------- The invariant ----------

  /** Each stream row has its owner in the registry, each registry row its batch in the ledger. */
  ghost predicate ChainOk(ledger: seq<LedgerRow>, registry: seq<RegistryRow>, streams: seq<StreamRow>)
  {
    && RegistryOk(registry, ledger)
    && StreamsOk(streams, registry)
  }

  /** What is recorded of the deletions agrees with what is left of the rows. */
  ghost predicate ErasureOk(
    ledger: seq<LedgerRow>, registry: seq<RegistryRow>, streams: seq<StreamRow>, v1Rows: seq<V1Row>,
    history: map<RequestKey, seq<SuppressionRow>>, progress: seq<ProgressRow>, marks: map<ProgressKey, seq<ProgressRow>>)
  {
    && MarksOk(marks, progress, history)
    && DoneIsClear(ledger, registry, streams, v1Rows, history, marks)
    && CompletedIsDone(history, marks)
  }

  /** The writers, and what they have completed. */
  ghost predicate WritersOk(
    writer: WriterPc, v1: V1Pc, ledger: seq<LedgerRow>, registry: seq<RegistryRow>, streams: seq<StreamRow>,
    history: map<RequestKey, seq<SuppressionRow>>)
  {
    && CompletedIsWritten(ledger, registry, streams, history)
    && WriterOk(writer, ledger, registry, streams, history)
    && V1Ok(v1, writer, history)
  }

  /** The worker, and the mutations it has submitted. */
  ghost predicate DeleterOk(
    worker: WorkerPc, mutations: seq<Mutation>, c: Contents, history: map<RequestKey, seq<SuppressionRow>>,
    marks: map<ProgressKey, seq<ProgressRow>>)
  {
    && WorkerOk(worker, c.ledger, c.registry, c.streams, c.v1Rows, history, marks)
    && MutationsOk(mutations, worker, c, history, marks)
  }

  ghost predicate Inv(s: Sys)
  {
    && LedgerOk(s.ledger)
    && ChainOk(s.ledger, s.registry, s.streams)
    && HistoryOk(s.history, s.suppressions, s.maxAttempts)
    && ErasureOk(s.ledger, s.registry, s.streams, s.v1Rows, s.history, s.progress, s.marks)
    && WritersOk(s.writer, s.v1, s.ledger, s.registry, s.streams, s.history)
    && DeleterOk(s.worker, s.mutations, ContentsOf(s), s.history, s.marks)
  }

  lemma InitKeepsInv(s: Sys)
    requires Init(s)
    ensures Inv(s)
  {
  }
}
