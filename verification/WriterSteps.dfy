/**
 Every statement of the writer keeps the invariant.
 */
module WriterSteps {
  import opened Tables
  import opened Telemetry
  import opened Protocol
  import opened History
  import opened Invariant
  import opened Facts

  lemma LookUpBatchKeepsInv(s: Sys, a: WriterAction)
    requires Inv(s) && a.LookUpBatch? && WriterEnabled(s, a)
    ensures Inv(WriterApply(s, a))
  {
    hide ChainOk, HistoryOk, ErasureOk, DeleterOk;
    if a.foundBatch.Some? && WriterApply(s, a).writer.Looked? {
      var row := a.foundBatch.value;
      assert LedgerRowOk(row) && row.data.status == StatusReserved;
      forall l | l in s.ledger && l.key == row.key
        ensures l == row
      {
        assert SameBatch(row, l) && SameBatch(l, row);
        assert l.data.status != StatusOther by { assert LedgerRowOk(l); }
      }
    }
  }

  lemma CheckSuppressedKeepsInv(s: Sys, a: WriterAction)
    requires Inv(s) && a.CheckSuppressed? && WriterEnabled(s, a)
    ensures Inv(WriterApply(s, a))
  {
    hide ErasureOk, DeleterOk, Suppressed, HistoryOk;
    ReadIsSuppressed(s.history, s.suppressions, s.maxAttempts, s.writer.sha.batch.scope, a.hit);
  }

  lemma QueryRegistryKeepsInv(s: Sys, a: WriterAction)
    requires Inv(s) && a.QueryRegistry? && WriterEnabled(s, a)
    ensures Inv(WriterApply(s, a))
  {
    hide ChainOk, HistoryOk, ErasureOk, CompletedIsWritten, DeleterOk, Clashes;
  }

  lemma LookUpRequestKeepsInv(s: Sys, a: WriterAction)
    requires Inv(s) && (a.LookUpRequest? || a.StopWriter?) && WriterEnabled(s, a)
    ensures Inv(WriterApply(s, a))
  {
    hide ChainOk, ErasureOk, CompletedIsWritten, DeleterOk, HistoryOk;
    if a.LookUpRequest? && a.request.key in s.history {
      LastIsFound(s.history, s.suppressions, s.maxAttempts, a.request.key);
      assert Last(s.history[a.request.key]) in s.suppressions;
    }
  }

  // ---------- Reservation ----------

  lemma ReservationIsOk(ledger: seq<LedgerRow>, sha: Digest, now: int)
    requires LedgerOk(ledger) && ValidBatch(sha.batch) && NoRow(ledger, KeyOf(sha.batch))
    ensures LedgerOk(ledger + [LedgerRowFor(sha, StatusReserved, now)])
    ensures HoldsReservation(ledger + [LedgerRowFor(sha, StatusReserved, now)], sha, now)
  {
  }

  lemma ReserveKeepsInv(s: Sys, a: WriterAction)
    requires Inv(s) && a.Reserve? && WriterEnabled(s, a)
    ensures Inv(WriterApply(s, a))
  {
    hide LedgerOk, RegistryOk, StreamsOk, HistoryOk, MarksOk, DoneIsClear, CompletedIsDone, CompletedIsWritten, WorkerOk, MutationsOk;
    var s' := WriterApply(s, a);
    if a.outcome != Unapplied {
      var sha := s.writer.sha;
      UnsuppressedIsUntouched(s.history, sha.batch.scope);
      ReservationIsOk(s.ledger, sha, a.now);
      LedgerGrows(s.ledger, s'.ledger, s.registry);
      DoneStaysClear(s, s', sha.batch.scope);
      WorkerStaysOk(s, s', sha.batch.scope);
      CompletedStaysWritten(s, s');
    }
  }

  // ---------- Registry rows ----------

  lemma RegistrationIsOk(
    ledger: seq<LedgerRow>, registry: seq<RegistryRow>, sha: Digest, at: int, rows: seq<RegistryRow>)
    requires RegistryOk(registry, ledger) && NoClash(registry, sha) && ValidBatch(sha.batch)
    requires HoldsReservation(ledger, sha, at)
    requires forall r | r in rows :: r in RegistryRows(sha, at)
    ensures RegistryOk(registry + rows, ledger) && NoClash(registry + rows, sha)
  {
    forall g | g in rows
      ensures HasRecord(sha.batch, g.key.record) && g == RegistryRowFor(sha, g.key.record, at)
      ensures HasLedgerRow(ledger, g.key.product, g.data.batch, g.data.sha)
      ensures RegistryRowOk(g) && !Clashes(g, sha)
    {
      var i :| 0 <= i < |sha.batch.records| && RegistryRows(sha, at)[i] == g;
      assert sha.batch.records[i] in sha.batch.records;
      assert LedgerRowFor(sha, StatusReserved, at) in ledger;
    }
    forall g, h | g in registry && h in rows && g.key == h.key
      ensures g.data == h.data
    {
      assert !Clashes(g, sha) && RegistryRowOk(g);
    }
  }

  lemma AllSentAreRegistered(registry: seq<RegistryRow>, sha: Digest, at: int, rows: seq<RegistryRow>)
    requires forall r | r in RegistryRows(sha, at) :: r in rows
    ensures AllRegistered(registry + rows, sha.batch)
  {
    forall r | r in sha.batch.records
      ensures HasRegistryRow(registry + rows, sha.batch.scope.product, r.id, sha.batch.id)
    {
      var i :| 0 <= i < |sha.batch.records| && sha.batch.records[i] == r;
      var g := RegistryRows(sha, at)[i];
      assert g in registry + rows;
    }
  }

  lemma SendRegistryKeepsInv(s: Sys, a: WriterAction)
    requires Inv(s) && a.SendRegistry? && WriterEnabled(s, a)
    ensures Inv(WriterApply(s, a))
  {
    hide LedgerOk, RegistryOk, StreamsOk, HistoryOk, MarksOk, DoneIsClear, CompletedIsDone, CompletedIsWritten, WorkerOk, MutationsOk,
         HoldsReservation, NoClash, AllRegistered;
    var s' := WriterApply(s, a);
    var sha := s.writer.sha;
    UnsuppressedIsUntouched(s.history, sha.batch.scope);
    RegistrationIsOk(s.ledger, s.registry, sha, s.writer.at, a.registryRows);
    RegistryGrows(s.registry, s'.registry, s.streams);
    forall g | g in a.registryRows
      ensures g.data.scope == sha.batch.scope
    {
      var i :| 0 <= i < |sha.batch.records| && RegistryRows(sha, s.writer.at)[i] == g;
    }
    DoneStaysClear(s, s', sha.batch.scope);
    WorkerStaysOk(s, s', sha.batch.scope);
    CompletedStaysWritten(s, s');
    if a.outcome == Acked {
      AllSentAreRegistered(s.registry, sha, s.writer.at, a.registryRows);
    }
  }

  // ---------- Stream rows ----------

  lemma WritingIsOk(
    ledger: seq<LedgerRow>, registry: seq<RegistryRow>, streams: seq<StreamRow>, sha: Digest, at: int, rows: seq<StreamRow>)
    requires RegistryOk(registry, ledger) && NoClash(registry, sha) && AllRegistered(registry, sha.batch)
    requires StreamsOk(streams, registry)
    requires forall r | r in rows :: r in StreamRows(sha.batch, at)
    ensures StreamsOk(streams + rows, registry)
  {
    forall t | t in rows
      ensures Owned(registry, t)
    {
      var batch := sha.batch;
      var i :| 0 <= i < |batch.records| && StreamRows(batch, at)[i] == t;
      var r := batch.records[i];
      assert r in batch.records;
      assert HasRegistryRow(registry, batch.scope.product, r.id, batch.id);
      var g :| g in registry && g.key == RecordKey(batch.scope.product, r.id) && g.data.batch == batch.id;
      assert HasRecord(batch, r.id);
      assert !Clashes(g, sha);
      assert g.data.sha == sha;
      assert t == StreamRowFor(batch, Record(t.key.record, t.data.payload), t.version);
      assert Record(t.key.record, t.data.payload) == r;
    }
  }

  lemma AllSentAreWritten(streams: seq<StreamRow>, batch: Batch, at: int, rows: seq<StreamRow>)
    requires forall r | r in StreamRows(batch, at) :: r in rows
    ensures AllWritten(streams + rows, batch)
  {
    forall r | r in batch.records
      ensures HasStreamRow(streams + rows, batch, r)
    {
      var i :| 0 <= i < |batch.records| && batch.records[i] == r;
      var t := StreamRows(batch, at)[i];
      assert t in streams + rows;
    }
  }

  lemma SendStreamKeepsInv(s: Sys, a: WriterAction)
    requires Inv(s) && a.SendStream? && WriterEnabled(s, a)
    ensures Inv(WriterApply(s, a))
  {
    hide LedgerOk, RegistryOk, StreamsOk, HistoryOk, MarksOk, DoneIsClear, CompletedIsDone, CompletedIsWritten, WorkerOk, MutationsOk,
         HoldsReservation, NoClash, AllRegistered, AllWritten;
    var s' := WriterApply(s, a);
    var batch := s.writer.sha.batch;
    UnsuppressedIsUntouched(s.history, batch.scope);
    WritingIsOk(s.ledger, s.registry, s.streams, s.writer.sha, s.writer.at, a.streamRows);
    forall t | t in a.streamRows
      ensures t.data.scope == batch.scope
    {
      var i :| 0 <= i < |batch.records| && StreamRows(batch, s.writer.at)[i] == t;
    }
    DoneStaysClear(s, s', batch.scope);
    WorkerStaysOk(s, s', batch.scope);
    CompletedStaysWritten(s, s');
    if a.outcome == Acked {
      AllSentAreWritten(s.streams, batch, s.writer.at, a.streamRows);
    }
  }

  // ---------- Completion ----------

  lemma CompletionIsOk(ledger: seq<LedgerRow>, sha: Digest, at: int, now: int)
    requires LedgerOk(ledger) && ValidBatch(sha.batch) && HoldsReservation(ledger, sha, at)
    ensures LedgerOk(ledger + [LedgerRowFor(sha, StatusCompleted, CompletionTime(now, at))])
  {
  }

  lemma CompletionIsWritten(s: Sys, row: LedgerRow)
    requires CompletedIsWritten(s.ledger, s.registry, s.streams, s.history)
    requires AllRegistered(s.registry, row.data.sha.batch) && AllWritten(s.streams, row.data.sha.batch)
    ensures CompletedIsWritten(s.ledger + [row], s.registry, s.streams, s.history)
  {
  }

  lemma CompleteBatchKeepsInv(s: Sys, a: WriterAction)
    requires Inv(s) && a.CompleteBatch? && WriterEnabled(s, a)
    ensures Inv(WriterApply(s, a))
  {
    hide LedgerOk, RegistryOk, StreamsOk, HistoryOk, MarksOk, DoneIsClear, CompletedIsDone, CompletedIsWritten, WorkerOk, MutationsOk,
         HoldsReservation, NoClash, AllRegistered, AllWritten;
    var s' := WriterApply(s, a);
    if a.outcome != Unapplied {
      var sha := s.writer.sha;
      var row := LedgerRowFor(sha, StatusCompleted, CompletionTime(a.now, s.writer.at));
      UnsuppressedIsUntouched(s.history, sha.batch.scope);
      CompletionIsOk(s.ledger, sha, s.writer.at, a.now);
      LedgerGrows(s.ledger, s'.ledger, s.registry);
      DoneStaysClear(s, s', sha.batch.scope);
      WorkerStaysOk(s, s', sha.batch.scope);
      CompletionIsWritten(s, row);
    }
  }

  // ---------- A new privacy request ----------

  lemma FirstIsWellFormed(row: SuppressionRow, maxAttempts: nat)
    requires IsFirst(row, row.key)
    ensures WellFormed([row], row.key, maxAttempts) && Last([row]) == row
  {
  }

  lemma NewRequestInHistory(
    history: map<RequestKey, seq<SuppressionRow>>, suppressions: seq<SuppressionRow>, maxAttempts: nat,
    row: SuppressionRow, history': map<RequestKey, seq<SuppressionRow>>)
    requires HistoryOk(history, suppressions, maxAttempts)
    requires row.key !in history && IsFirst(row, row.key)
    requires history' == history[row.key := [row]]
    ensures HistoryOk(history', suppressions + [row], maxAttempts)
  {
    FirstIsWellFormed(row, maxAttempts);
    NewRequestIsStored(history, suppressions, row, history');
  }

  lemma NewRequestIsStored(
    history: map<RequestKey, seq<SuppressionRow>>, suppressions: seq<SuppressionRow>,
    row: SuppressionRow, history': map<RequestKey, seq<SuppressionRow>>)
    requires StatusesStored(history, suppressions)
    requires row.key !in history && history' == history[row.key := [row]]
    ensures StatusesStored(history', suppressions + [row])
  {
    assert Last([row]) == row;
  }

  lemma NewRequestKeepsMarks(
    s: Sys, row: SuppressionRow, history': map<RequestKey, seq<SuppressionRow>>)
    requires row.key !in s.history && history' == s.history[row.key := [row]]
    requires MarksOk(s.marks, s.progress, s.history)
    ensures MarksOk(s.marks, s.progress, history')
    ensures forall k | k in s.marks :: k.request != row.key
  {
    hide WellMarked, MarksStored;
  }

  lemma NewRequestKeepsDone(
    s: Sys, row: SuppressionRow, history': map<RequestKey, seq<SuppressionRow>>)
    requires row.key !in s.history && row.data.status == Pending
    requires history' == s.history[row.key := [row]]
    requires forall k | k in s.marks :: k.request != row.key
    requires DoneIsClear(s.ledger, s.registry, s.streams, s.v1Rows, s.history, s.marks)
    requires CompletedIsDone(s.history, s.marks)
    ensures DoneIsClear(s.ledger, s.registry, s.streams, s.v1Rows, history', s.marks)
    ensures CompletedIsDone(history', s.marks)
  {
    hide Clear;
  }

  lemma NewRequestKeepsWorker(
    s: Sys, row: SuppressionRow, history': map<RequestKey, seq<SuppressionRow>>)
    requires row.key !in s.history
    requires history' == s.history[row.key := [row]]
    requires WorkerOk(s.worker, s.ledger, s.registry, s.streams, s.v1Rows, s.history, s.marks)
    ensures WorkerOk(s.worker, s.ledger, s.registry, s.streams, s.v1Rows, history', s.marks)
  {
    hide Clear, LoopOk, InProgress, MarkedBelow, AllDone, TablesOf;
  }

  lemma NewRequestKeepsMutations(
    s: Sys, row: SuppressionRow, history': map<RequestKey, seq<SuppressionRow>>)
    requires row.key !in s.history
    requires history' == s.history[row.key := [row]]
    requires MutationsOk(s.mutations, s.worker, ContentsOf(s), s.history, s.marks)
    ensures MutationsOk(s.mutations, s.worker, ContentsOf(s), history', s.marks)
  {
    hide Covers, TableDone, TablesOf;
  }

  lemma NewRequestKeepsCompleted(s: Sys, history': map<RequestKey, seq<SuppressionRow>>)
    requires CompletedIsWritten(s.ledger, s.registry, s.streams, s.history)
    requires forall k | k in s.history :: k in history' && history'[k] == s.history[k]
    ensures CompletedIsWritten(s.ledger, s.registry, s.streams, history')
  {
    forall l | l in s.ledger && l.data.status == StatusCompleted && !DeletionRequested(history', l.data.sha.batch.scope)
      ensures AllRegistered(s.registry, l.data.sha.batch) && AllWritten(s.streams, l.data.sha.batch)
    {
      var scope := l.data.sha.batch.scope;
      forall k | k in s.history && s.history[k] != []
        ensures !Deletes(s.history[k][0], scope)
      {
        assert k in history' && history'[k] == s.history[k];
      }
    }
  }

  lemma NewRequestKeepsV1(s: Sys, row: SuppressionRow, history': map<RequestKey, seq<SuppressionRow>>)
    requires row.key !in s.history && history' == s.history[row.key := [row]]
    requires row.data.legacyInstallation.Some? ==> s.v1 == V1Idle
    requires V1Ok(s.v1, s.writer, s.history)
    ensures V1Ok(s.v1, Idle, history')
  {
    if s.v1 != V1Idle {
      forall x, k | Mentions(s.v1.batch, x) && k in history' && history'[k] != []
        ensures history'[k][0].data.legacyInstallation != Some(x)
      {
        assert !LegacySuppressed(s.history, x);
      }
    }
  }

  lemma CommitRequestKeepsInv(s: Sys, a: WriterAction)
    requires Inv(s) && a.CommitRequest? && WriterEnabled(s, a)
    ensures Inv(WriterApply(s, a))
  {
    hide ChainOk, HistoryOk, MarksOk, DoneIsClear, CompletedIsDone, CompletedIsWritten, WorkerOk, MutationsOk;
    var s' := WriterApply(s, a);
    if a.outcome != Unapplied {
      var row := PendingRowFor(s.writer.request, a.now);
      assert [] + [row] == [row];
      assert s'.history == s.history[row.key := [row]];
      NewRequestInHistory(s.history, s.suppressions, s.maxAttempts, row, s'.history);
      NewRequestKeepsMarks(s, row, s'.history);
      NewRequestKeepsDone(s, row, s'.history);
      NewRequestKeepsWorker(s, row, s'.history);
      NewRequestKeepsMutations(s, row, s'.history);
      NewRequestKeepsCompleted(s, s'.history);
      NewRequestKeepsV1(s, row, s'.history);
    }
  }

  lemma WriterKeepsInv(s: Sys, a: WriterAction)
    requires Inv(s) && WriterEnabled(s, a)
    ensures Inv(WriterApply(s, a))
  {
    hide Inv;
    match a
    case LookUpBatch(_, _) => LookUpBatchKeepsInv(s, a);
    case CheckSuppressed(_) => CheckSuppressedKeepsInv(s, a);
    case Reserve(_, _) => ReserveKeepsInv(s, a);
    case QueryRegistry(_) => QueryRegistryKeepsInv(s, a);
    case SendRegistry(_, _) => SendRegistryKeepsInv(s, a);
    case SendStream(_, _) => SendStreamKeepsInv(s, a);
    case CompleteBatch(_, _) => CompleteBatchKeepsInv(s, a);
    case LookUpRequest(_, _) => LookUpRequestKeepsInv(s, a);
    case CommitRequest(_, _) => CommitRequestKeepsInv(s, a);
    case StopWriter => LookUpRequestKeepsInv(s, a);
  }
}
