/**
 The ingest and privacy-deletion protocol as a state machine.

 One writer process holds `v2Mu` (program counter `writer`) and `v1Mu` (program
 counter `v1`); callers that wait for a mutex have done nothing yet, so they
 need no state.  One worker process runs the deletion loop (program counter
 `worker`).  Every SQL statement is one action, a multi-row send may store any
 part of its rows, a background merge drops one dominated row, and either process
 may stop between any two actions.  A submitted mutation covers the rows stored
 at that time; the server removes them one at a time, whether or not the worker
 still waits for it.
 */
module Protocol {
  import opened Tables
  import opened Telemetry

  // ---------- State ----------

  datatype WriterPc =
    | Idle
    | Looked(sha: Digest, reserved: Option<int>)   // ledger read
    | Cleared(sha: Digest)                         // not suppressed, nothing reserved yet
    | Reserved(sha: Digest, at: int)               // reservation stored
    | Vacant(sha: Digest, at: int)                 // no record ID is taken by another batch
    | Registered(sha: Digest, at: int)             // registry rows stored
    | Written(sha: Digest, at: int)                // stream rows stored
    | Requesting(request: NewRequest)              // privacy request not stored yet

  datatype V1Pc =
    | V1Idle
    | V1Cleared(batch: V1Batch)                    // no installation is suppressed
    | V1Events(batch: V1Batch)                     // events stored, summaries not yet

  datatype WorkerPc =
    | Resting
    | Listed(queue: seq<Request>)
    | Claiming(request: Request, queue: seq<Request>, attempts: nat, now: int)
    | Deleting(request: Request, queue: seq<Request>, table: nat)
    | Marking(request: Request, queue: seq<Request>, table: nat, attempts: nat)
    | Marked(request: Request, queue: seq<Request>, table: nat, attempts: nat)
    | Mutating(request: Request, queue: seq<Request>, table: nat, attempts: nat, mutation: nat)
    | Mutated(request: Request, queue: seq<Request>, table: nat, attempts: nat)
    | Botched(request: Request, queue: seq<Request>, table: nat, attempts: nat)
    | Closing(request: Request, queue: seq<Request>, succeeded: bool)

  /** What the tables that are deleted from hold. */
  datatype Contents = Contents(
    ledger: seq<LedgerRow>, registry: seq<RegistryRow>, streams: seq<StreamRow>, v1Rows: seq<V1Row>)

  /** An `ALTER TABLE ... DELETE` of a request's table number `index`, and what was stored when it was submitted. */
  datatype Mutation = Mutation(
    key: RequestKey, scope: Scope, legacyInstallation: Option<string>, index: nat, before: Contents)

  datatype Sys = Sys(
    // the database
    ledger: seq<LedgerRow>,
    registry: seq<RegistryRow>,
    streams: seq<StreamRow>,
    suppressions: seq<SuppressionRow>,
    progress: seq<ProgressRow>,
    v1Rows: seq<V1Row>,
    // every mutation ever submitted; the server may come back to any of them
    mutations: seq<Mutation>,
    // program counters
    writer: WriterPc,
    v1: V1Pc,
    worker: WorkerPc,
    // every status row and progress row ever stored, per key (not part of the database)
    history: map<RequestKey, seq<SuppressionRow>>,
    marks: map<ProgressKey, seq<ProgressRow>>,
    maxAttempts: nat)

  ghost predicate Init(s: Sys)
  {
    && s.ledger == [] && s.registry == [] && s.streams == [] && s.suppressions == [] && s.progress == [] && s.v1Rows == []
    && s.mutations == []
    && s.writer == Idle && s.v1 == V1Idle && s.worker == Resting
    && s.history == map[] && s.marks == map[]
    && s.maxAttempts >= 1
  }

  // ---------- Actions ----------

  /** A statement is stored and acknowledged, stored without acknowledgement, or not stored. */
  datatype Outcome = Acked | Lost | Unapplied

  /** Statements issued under `v2Mu`. */
  datatype WriterAction =
    // InsertV2
    | LookUpBatch(sha: Digest, foundBatch: Option<LedgerRow>)
    | CheckSuppressed(hit: Option<SuppressionRow>)
    | Reserve(now: int, outcome: Outcome)
    | QueryRegistry(clash: Option<RegistryRow>)
    | SendRegistry(registryRows: seq<RegistryRow>, outcome: Outcome)
    | SendStream(streamRows: seq<StreamRow>, outcome: Outcome)
    | CompleteBatch(now: int, outcome: Outcome)
    // CreatePrivacyRequest and CreateLegacyPrivacyRequest
    | LookUpRequest(request: NewRequest, foundRequest: Option<SuppressionRow>)
    | CommitRequest(now: int, outcome: Outcome)
    | StopWriter

  /** Statements of the V1 `Insert`, issued under `v1Mu`. */
  datatype V1Action =
    | CheckV1(batch: V1Batch, hit: Option<SuppressionRow>)
    | SendEvents(at: int, rows: seq<V1Row>, outcome: Outcome)
    | SendSummaries(at: int, rows: seq<V1Row>, outcome: Outcome)
    | StopV1

  /** Statements of the privacy worker. */
  datatype WorkerAction =
    | ListPending(now: int, rows: seq<SuppressionRow>)
    | ReadClaim(now: int, row: SuppressionRow)
    | SkipRequest
    | WriteClaim(outcome: Outcome)
    | ReadProgress(mark: Option<ProgressRow>)
    | FailProgressRead
    | MarkProcessing(outcome: Outcome)
    | SubmitMutation(reached: bool)
    | EndMutation(acked: bool)
    | MarkRetry(outcome: Outcome)
    | MarkCompleted(outcome: Outcome)
    | WriteOutcome(now: int, outcome: Outcome)
    | StopWorker

  /** A background merge drops row `i` of a table because of row `j`. */
  datatype MergeAction =
    | MergeLedger(i: nat, j: nat)
    | MergeRegistry(i: nat, j: nat)
    | MergeStreams(i: nat, j: nat)
    | MergeSuppressions(i: nat, j: nat)
    | MergeProgress(i: nat, j: nat)
    | MergeV1(i: nat, j: nat)

  datatype Action =
    | ByWriter(writer: WriterAction)
    | ByV1(v1: V1Action)
    | ByWorker(worker: WorkerAction)
    | ByMerge(merge: MergeAction)
    // the server removes row `index` for a submitted mutation
    | ByMutation(mutation: nat, index: nat)

  // ---------- Reads ----------

  /** The answer of the suppression query: a matching active FINAL row, if there is one. */
  predicate SuppressionRead(suppressions: seq<SuppressionRow>, scope: Scope, hit: Option<SuppressionRow>)
  {
    match hit
    case Some(r) => IsNewest(suppressions, r) && r.data.active && GateMatches(r.data.scope, scope)
    case None => forall r | r in suppressions && IsNewest(suppressions, r) :: !(r.data.active && GateMatches(r.data.scope, scope))
  }

  ghost predicate V1SuppressionRead(suppressions: seq<SuppressionRow>, batch: V1Batch, hit: Option<SuppressionRow>)
  {
    match hit
    case Some(r) => IsNewest(suppressions, r) && r.data.active && LegacyHit(r, batch)
    case None => forall r | r in suppressions && IsNewest(suppressions, r) :: !(r.data.active && LegacyHit(r, batch))
  }

  ghost predicate LegacyHit(row: SuppressionRow, batch: V1Batch)
  {
    row.data.legacyInstallation.Some? && Mentions(batch, row.data.legacyInstallation.value)
  }

  /** A registry row of one of the batch's record IDs that belongs to another batch or body. */
  ghost predicate Clashes(row: RegistryRow, sha: Digest)
  {
    && row.key.product == sha.batch.scope.product
    && HasRecord(sha.batch, row.key.record)
    && (row.data.batch != sha.batch.id || row.data.sha != sha)
  }

  /** A multi-row send stores some of its rows, and all of them if acknowledged. */
  predicate Sent<T(==)>(all: seq<T>, stored: seq<T>, outcome: Outcome)
  {
    && (forall r | r in stored :: r in all)
    && (outcome == Acked ==> forall r | r in all :: r in stored)
  }

  /** The worker's reservation of a table, read with FINAL: none yet counts as no attempt. */
  function MarkAttempts(mark: Option<ProgressRow>): nat
  {
    if mark.None? then 0 else mark.value.data.attempts
  }

  /** Row number `index` of `table` is one that a deletion request removes. */
  predicate RowDoomed(
    ledger: seq<LedgerRow>, registry: seq<RegistryRow>, streams: seq<StreamRow>, v1Rows: seq<V1Row>,
    scope: Scope, legacyInstallation: Option<string>, table: Table, index: nat)
  {
    match table
    case StreamTable(stream) =>
      index < |streams| && streams[index].key.stream == stream && DeleteMatches(scope, streams[index].data.scope)
    case RegistryTable => index < |registry| && DeleteMatches(scope, registry[index].data.scope)
    case LedgerTable => index < |ledger| && DeleteMatches(scope, ledger[index].data.scope)
    case _ =>
      index < |v1Rows| && v1Rows[index].key.table == table && Some(v1Rows[index].key.installation) == legacyInstallation
  }

  predicate HasTable(m: Mutation)
  {
    m.index < |TablesOf(m.legacyInstallation)|
  }

  function TableOf(m: Mutation): Table
    requires HasTable(m)
  {
    TablesOf(m.legacyInstallation)[m.index]
  }

  /** Row number `index` of the mutation's table matches it and was there when it was submitted. */
  predicate RowCovered(c: Contents, m: Mutation, index: nat)
    requires HasTable(m)
  {
    && RowDoomed(c.ledger, c.registry, c.streams, c.v1Rows, m.scope, m.legacyInstallation, TableOf(m), index)
    && match TableOf(m)
       case StreamTable(_) => c.streams[index] in m.before.streams
       case RegistryTable => c.registry[index] in m.before.registry
       case LedgerTable => c.ledger[index] in m.before.ledger
       case _ => c.v1Rows[index] in m.before.v1Rows
  }

  /** The mutation is done when none of the rows it covers is left. */
  predicate Finished(c: Contents, m: Mutation)
    requires HasTable(m)
  {
    match TableOf(m)
    case StreamTable(stream) =>
      forall r | r in c.streams && r in m.before.streams && r.key.stream == stream :: !DeleteMatches(m.scope, r.data.scope)
    case RegistryTable => forall r | r in c.registry && r in m.before.registry :: !DeleteMatches(m.scope, r.data.scope)
    case LedgerTable => forall r | r in c.ledger && r in m.before.ledger :: !DeleteMatches(m.scope, r.data.scope)
    case table =>
      forall r | r in c.v1Rows && r in m.before.v1Rows && r.key.table == table :: Some(r.key.installation) != m.legacyInstallation
  }

  function ContentsOf(s: Sys): Contents
  {
    Contents(s.ledger, s.registry, s.streams, s.v1Rows)
  }

  ghost predicate Clear(
    ledger: seq<LedgerRow>, registry: seq<RegistryRow>, streams: seq<StreamRow>, v1Rows: seq<V1Row>,
    scope: Scope, legacyInstallation: Option<string>, table: Table)
  {
    match table
    case StreamTable(stream) => forall r | r in streams && r.key.stream == stream :: !DeleteMatches(scope, r.data.scope)
    case RegistryTable => forall r | r in registry :: !DeleteMatches(scope, r.data.scope)
    case LedgerTable => forall r | r in ledger :: !DeleteMatches(scope, r.data.scope)
    case _ => forall r | r in v1Rows && r.key.table == table :: Some(r.key.installation) != legacyInstallation
  }

  function CurrentTable(request: Request, table: nat): Table
    requires table < |TablesOf(request.legacyInstallation)|
  {
    TablesOf(request.legacyInstallation)[table]
  }

  /** `CreateLegacyPrivacyRequest` takes `v1Mu` before `v2Mu`. */
  predicate HoldsV1(writer: WriterPc)
  {
    writer.Requesting? && writer.request.legacyInstallation.Some?
  }

  // ---------- The writer ----------

  ghost predicate WriterEnabled(s: Sys, a: WriterAction)
  {
    match a
    case LookUpBatch(sha, found) =>
      s.writer == Idle && ValidBatch(sha.batch) && FinalRead(s.ledger, KeyOf(sha.batch), found)
    case CheckSuppressed(hit) => s.writer.Looked? && SuppressionRead(s.suppressions, s.writer.sha.batch.scope, hit)
    case Reserve(_, _) => s.writer.Cleared?
    case QueryRegistry(clash) =>
      && s.writer.Reserved?
      && (match clash
          case Some(r) => r in s.registry && Clashes(r, s.writer.sha)
          case None => forall r | r in s.registry :: !Clashes(r, s.writer.sha))
    case SendRegistry(rows, outcome) => s.writer.Vacant? && Sent(RegistryRows(s.writer.sha, s.writer.at), rows, outcome)
    case SendStream(rows, outcome) => s.writer.Registered? && Sent(StreamRows(s.writer.sha.batch, s.writer.at), rows, outcome)
    case CompleteBatch(_, _) => s.writer.Written?
    case LookUpRequest(request, found) =>
      && s.writer == Idle && ValidRequest(request) && FinalRead(s.suppressions, request.key, found)
      && (request.legacyInstallation.Some? ==> s.v1 == V1Idle)
    case CommitRequest(_, _) => s.writer.Requesting?
    case StopWriter => true
  }

  ghost function WriterApply(s: Sys, a: WriterAction): Sys
    requires WriterEnabled(s, a)
  {
    match a
    case LookUpBatch(sha, found) => s.(writer := AfterLookUp(sha, found))
    case CheckSuppressed(hit) => s.(writer := AfterCheck(s.writer, hit))
    case Reserve(now, outcome) =>
      s.(ledger := Stored(s.ledger, LedgerRowFor(s.writer.sha, StatusReserved, now), outcome),
         writer := if outcome == Acked then Reserved(s.writer.sha, now) else Idle)
    case QueryRegistry(clash) => s.(writer := if clash.Some? then Idle else Vacant(s.writer.sha, s.writer.at))
    case SendRegistry(rows, outcome) =>
      s.(registry := s.registry + rows,
         writer := if outcome == Acked then Registered(s.writer.sha, s.writer.at) else Idle)
    case SendStream(rows, outcome) =>
      s.(streams := s.streams + rows,
         writer := if outcome == Acked then Written(s.writer.sha, s.writer.at) else Idle)
    case CompleteBatch(now, outcome) =>
      s.(ledger := Stored(s.ledger, LedgerRowFor(s.writer.sha, StatusCompleted, CompletionTime(now, s.writer.at)), outcome),
         writer := Idle)
    case LookUpRequest(request, found) => s.(writer := if found.Some? then Idle else Requesting(request))
    case CommitRequest(now, outcome) => WithStatus(s, PendingRowFor(s.writer.request, now), outcome).(writer := Idle)
    case StopWriter => s.(writer := Idle)
  }

  // ---------- V1 ingest ----------

  ghost predicate V1Enabled(s: Sys, a: V1Action)
  {
    match a
    case CheckV1(batch, hit) => s.v1 == V1Idle && !HoldsV1(s.writer) && V1SuppressionRead(s.suppressions, batch, hit)
    case SendEvents(at, rows, outcome) => s.v1.V1Cleared? && Sent(V1Rows(EventsTable, s.v1.batch.events, at), rows, outcome)
    case SendSummaries(at, rows, outcome) => s.v1.V1Events? && Sent(V1Rows(SummariesTable, s.v1.batch.summaries, at), rows, outcome)
    case StopV1 => true
  }

  ghost function V1Apply(s: Sys, a: V1Action): Sys
    requires V1Enabled(s, a)
  {
    match a
    case CheckV1(batch, hit) => s.(v1 := if hit.Some? then V1Idle else V1Cleared(batch))
    case SendEvents(_, rows, outcome) =>
      s.(v1Rows := s.v1Rows + rows, v1 := if outcome == Acked then V1Events(s.v1.batch) else V1Idle)
    case SendSummaries(_, rows, _) => s.(v1Rows := s.v1Rows + rows, v1 := V1Idle)
    case StopV1 => s.(v1 := V1Idle)
  }

  // ---------- The worker ----------

  ghost predicate WorkerEnabled(s: Sys, a: WorkerAction)
  {
    match a
    case ListPending(now, rows) =>
      && (s.worker == Resting || s.worker == Listed([]))
      && (forall r | r in rows :: IsNewest(s.suppressions, r) && Due(r, now))
      && (forall i, j | 0 <= i < j < |rows| :: rows[i].key != rows[j].key)
    case ReadClaim(_, row) =>
      s.worker.Listed? && s.worker.queue != [] && FinalRead(s.suppressions, s.worker.queue[0].key, Some(row))
    case SkipRequest => s.worker.Listed? && s.worker.queue != []
    case WriteClaim(_) => s.worker.Claiming?
    case ReadProgress(mark) =>
      && s.worker.Deleting? && AtTable(s.worker)
      && FinalRead(s.progress, ProgressKey(s.worker.request.key, CurrentTable(s.worker.request, s.worker.table)), mark)
    case FailProgressRead => s.worker.Deleting?
    case MarkProcessing(_) => s.worker.Marking? && AtTable(s.worker)
    case SubmitMutation(_) => s.worker.Marked? && AtTable(s.worker)
    case EndMutation(acked) =>
      && s.worker.Mutating? && AtTable(s.worker)
      && (acked ==> s.worker.mutation < |s.mutations| && HasTable(s.mutations[s.worker.mutation])
                    && Finished(ContentsOf(s), s.mutations[s.worker.mutation]))
    case MarkRetry(_) => s.worker.Botched? && AtTable(s.worker)
    case MarkCompleted(_) => s.worker.Mutated? && AtTable(s.worker)
    case WriteOutcome(_, _) => s.worker.Closing?
    case StopWorker => true
  }

  /** The deletion loop stands at one of the request's tables. */
  predicate AtTable(pc: WorkerPc)
  {
    && (pc.Deleting? || pc.Marking? || pc.Marked? || pc.Mutating? || pc.Mutated? || pc.Botched?)
    && pc.table < |TablesOf(pc.request.legacyInstallation)|
  }

  ghost function WorkerApply(s: Sys, a: WorkerAction): Sys
    requires WorkerEnabled(s, a)
  {
    match a
    case ListPending(_, rows) => s.(worker := Listed(Snapshots(rows)))
    case ReadClaim(now, row) =>
      s.(worker :=
        if Due(row, now) then Claiming(s.worker.queue[0], s.worker.queue[1..], row.data.attempts, now)
        else Listed(s.worker.queue[1..]))
    case SkipRequest => s.(worker := Listed(s.worker.queue[1..]))
    case WriteClaim(outcome) =>
      WithStatus(s, ClaimRow(s.worker.request, s.worker.attempts, s.worker.now), outcome).(
        worker :=
          if outcome == Acked then
            Dispatch(s.worker.request.(attempts := NextAttempt(s.worker.request.attempts)), s.worker.queue)
          else Listed(s.worker.queue))
    case ReadProgress(mark) =>
      s.(worker :=
        if mark.Some? && mark.value.data.status == Completed then
          NextTable(s.worker.request, s.worker.queue, s.worker.table + 1)
        else Marking(s.worker.request, s.worker.queue, s.worker.table, MarkAttempts(mark)))
    case FailProgressRead => s.(worker := Closing(s.worker.request, s.worker.queue, false))
    case MarkProcessing(outcome) =>
      WithMark(s, MarkRow(s.worker, Processing, NextAttempt(s.worker.attempts)), outcome).(
        worker :=
          if outcome == Acked then
            Marked(s.worker.request, s.worker.queue, s.worker.table, NextAttempt(s.worker.attempts))
          else Closing(s.worker.request, s.worker.queue, false))
    case SubmitMutation(reached) =>
      if reached then
        s.(mutations := s.mutations + [MutationFor(s)],
           worker := Mutating(s.worker.request, s.worker.queue, s.worker.table, s.worker.attempts, |s.mutations|))
      else
        s.(worker := Botched(s.worker.request, s.worker.queue, s.worker.table, s.worker.attempts))
    case EndMutation(acked) =>
      s.(worker :=
        if acked then Mutated(s.worker.request, s.worker.queue, s.worker.table, s.worker.attempts)
        else Botched(s.worker.request, s.worker.queue, s.worker.table, s.worker.attempts))
    case MarkRetry(outcome) =>
      WithMark(s, MarkRow(s.worker, Retry, s.worker.attempts), outcome).(
        worker := Closing(s.worker.request, s.worker.queue, false))
    case MarkCompleted(outcome) =>
      WithMark(s, MarkRow(s.worker, Completed, s.worker.attempts), outcome).(
        worker :=
          if outcome == Acked then NextTable(s.worker.request, s.worker.queue, s.worker.table + 1)
          else Closing(s.worker.request, s.worker.queue, false))
    case WriteOutcome(now, outcome) =>
      WithStatus(s, OutcomeRow(s.worker.request, s.worker.succeeded, s.maxAttempts, now), outcome).(
        worker := Listed(s.worker.queue))
    case StopWorker => s.(worker := Resting)
  }

  // ---------- Merges ----------

  predicate MergeEnabled(s: Sys, a: MergeAction)
  {
    match a
    case MergeLedger(i, j) => Dominated(s.ledger, i, j)
    case MergeRegistry(i, j) => Dominated(s.registry, i, j)
    case MergeStreams(i, j) => Dominated(s.streams, i, j)
    case MergeSuppressions(i, j) => Dominated(s.suppressions, i, j)
    case MergeProgress(i, j) => Dominated(s.progress, i, j)
    case MergeV1(i, j) => Dominated(s.v1Rows, i, j)
  }

  function MergeApply(s: Sys, a: MergeAction): Sys
    requires MergeEnabled(s, a)
  {
    match a
    case MergeLedger(i, _) => s.(ledger := Without(s.ledger, i))
    case MergeRegistry(i, _) => s.(registry := Without(s.registry, i))
    case MergeStreams(i, _) => s.(streams := Without(s.streams, i))
    case MergeSuppressions(i, _) => s.(suppressions := Without(s.suppressions, i))
    case MergeProgress(i, _) => s.(progress := Without(s.progress, i))
    case MergeV1(i, _) => s.(v1Rows := Without(s.v1Rows, i))
  }

  // ---------- Mutations ----------

  predicate MutationEnabled(s: Sys, mutation: nat, index: nat)
  {
    mutation < |s.mutations| && HasTable(s.mutations[mutation]) && RowCovered(ContentsOf(s), s.mutations[mutation], index)
  }

  function MutationApply(s: Sys, mutation: nat, index: nat): Sys
    requires MutationEnabled(s, mutation, index)
  {
    RemoveCovered(s, s.mutations[mutation], index)
  }

  // ---------- Effects ----------

  function Stored<T>(table: seq<T>, row: T, outcome: Outcome): seq<T>
  {
    if outcome == Unapplied then table else table + [row]
  }

  /** Stores a status row and remembers it. */
  function WithStatus(s: Sys, row: SuppressionRow, outcome: Outcome): Sys
  {
    if outcome == Unapplied then s
    else
      s.(suppressions := s.suppressions + [row],
         history := s.history[row.key := (if row.key in s.history then s.history[row.key] else []) + [row]])
  }

  /** Stores a deletion-progress row and remembers it. */
  function WithMark(s: Sys, row: ProgressRow, outcome: Outcome): Sys
  {
    if outcome == Unapplied then s
    else
      s.(progress := s.progress + [row],
         marks := s.marks[row.key := (if row.key in s.marks then s.marks[row.key] else []) + [row]])
  }

  function CompletionTime(now: int, reservedAt: int): int
  {
    if now > reservedAt then now else reservedAt + 1
  }

  function Snapshots(rows: seq<SuppressionRow>): (queue: seq<Request>)
    ensures |queue| == |rows|
  {
    seq(|rows|, i requires 0 <= i < |rows| => Snapshot(rows[i]))
  }

  /** Where the deletion loop goes after its table number `table - 1`. */
  function NextTable(request: Request, queue: seq<Request>, table: nat): WorkerPc
  {
    if table < |TablesOf(request.legacyInstallation)| then Deleting(request, queue, table)
    else Closing(request, queue, true)
  }

  /** Where the worker goes once it holds the claim. */
  function Dispatch(request: Request, queue: seq<Request>): WorkerPc
  {
    match request.action
    case OptOut => Closing(request, queue, true)
    case Delete => NextTable(request, queue, 0)
    case Unsupported => Closing(request, queue, false)
  }

  function OutcomeStatus(request: Request, succeeded: bool, maxAttempts: nat): PrivacyStatus
  {
    if succeeded then Completed else if request.attempts >= maxAttempts then Failed else Retry
  }

  function OutcomeRow(request: Request, succeeded: bool, maxAttempts: nat, now: int): SuppressionRow
  {
    StatusRowFor(request, OutcomeStatus(request, succeeded, maxAttempts), request.attempts,
                 if succeeded then now else now + RetryDelay(request.attempts), None)
  }

  function MutationFor(s: Sys): Mutation
    requires s.worker.Marked?
  {
    Mutation(s.worker.request.key, s.worker.request.scope, s.worker.request.legacyInstallation, s.worker.table, ContentsOf(s))
  }

  function RemoveCovered(s: Sys, m: Mutation, index: nat): Sys
    requires HasTable(m) && RowCovered(ContentsOf(s), m, index)
  {
    match TableOf(m)
    case StreamTable(_) => s.(streams := Without(s.streams, index))
    case RegistryTable => s.(registry := Without(s.registry, index))
    case LedgerTable => s.(ledger := Without(s.ledger, index))
    case _ => s.(v1Rows := Without(s.v1Rows, index))
  }

  function ClaimRow(request: Request, storedAttempts: nat, now: int): SuppressionRow
  {
    StatusRowFor(request, Processing, NextAttempt(storedAttempts), now, Some(now + LEASE))
  }

  /** The branches `InsertV2` takes on the ledger row it finds. */
  function AfterLookUp(sha: Digest, found: Option<LedgerRow>): WriterPc
  {
    match found
    case None => Looked(sha, None)
    case Some(row) =>
      if row.data.sha != sha then Idle                                       // conflict
      else if row.data.status == StatusCompleted then Idle                   // replay
      else if row.data.status == StatusOther then Idle                       // invalid status
      else Looked(sha, Some(row.version))
  }

  /** What `InsertV2` does with the answer of the suppression query. */
  function AfterCheck(pc: WriterPc, hit: Option<SuppressionRow>): WriterPc
    requires pc.Looked?
  {
    if hit.Some? then Idle
    else if pc.reserved.Some? then Reserved(pc.sha, pc.reserved.value)
    else Cleared(pc.sha)
  }

  function MarkRow(pc: WorkerPc, status: PrivacyStatus, attempts: nat): ProgressRow
    requires pc.Marking? || pc.Mutated? || pc.Botched?
    requires pc.table < |TablesOf(pc.request.legacyInstallation)|
  {
    ProgressRowFor(pc.request, CurrentTable(pc.request, pc.table), status, attempts)
  }

  // ---------- Runs ----------

  /** How often a request was claimed, going by the rows stored for it. */
  function Claims(rows: seq<SuppressionRow>): nat
  {
    if rows == [] then 0
    else Claims(rows[..|rows| - 1]) + if rows[|rows| - 1].data.status == Processing then 1 else 0
  }

  /** No request was claimed more often than its UInt16 counter can count. */
  ghost predicate CounterFits(s: Sys)
  {
    forall k | k in s.history :: Claims(s.history[k]) < 0x1_0000
  }

  ghost predicate Next(s: Sys, a: Action, s': Sys)
  {
    match a
    case ByWriter(w) => WriterEnabled(s, w) && s' == WriterApply(s, w)
    case ByV1(v) => V1Enabled(s, v) && s' == V1Apply(s, v)
    case ByWorker(k) => WorkerEnabled(s, k) && s' == WorkerApply(s, k)
    case ByMerge(m) => MergeEnabled(s, m) && s' == MergeApply(s, m)
    case ByMutation(m, i) => MutationEnabled(s, m, i) && s' == MutationApply(s, m, i)
  }

  /** A run: states from an empty database on, and the action between any two neighbours. */
  ghost predicate IsRun(run: seq<Sys>, actions: seq<Action>)
  {
    && |run| == |actions| + 1
    && Init(run[0])
    && (forall i | 0 <= i < |actions| :: Next(run[i], actions[i], run[i + 1]))
    && (forall i | 0 <= i < |run| :: CounterFits(run[i]))
  }
}
