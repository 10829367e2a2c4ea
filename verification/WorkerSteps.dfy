/**
 Every statement of the privacy worker keeps the invariant.
 */
module WorkerSteps {
  import opened Tables
  import opened Telemetry
  import opened Protocol
  import opened History
  import opened Invariant
  import opened Facts
  import opened OtherSteps

  // ---------- Listing and claiming ----------

  lemma ListPendingKeepsInv(s: Sys, a: WorkerAction)
    requires Inv(s) && a.ListPending? && WorkerEnabled(s, a)
    ensures Inv(WorkerApply(s, a))
  {
    hide ErasureOk, WritersOk, HistoryOk;
    var queue := Snapshots(a.rows);
    forall q | q in queue
      ensures Current(q, s.history)
    {
      var i :| 0 <= i < |queue| && queue[i] == q;
      assert a.rows[i] in a.rows;
      NewestIsLast(s.history, s.suppressions, s.maxAttempts, a.rows[i]);
    }
  }

  lemma RestIsOk(queue: seq<Request>, history: map<RequestKey, seq<SuppressionRow>>)
    requires QueueOk(queue, history) && queue != []
    ensures QueueOk(queue[1..], history) && Current(queue[0], history)
    ensures forall q | q in queue[1..] :: q.key != queue[0].key
  {
    hide Current;
    forall q | q in queue[1..]
      ensures q in queue && q.key != queue[0].key
    {
      var i :| 0 <= i < |queue[1..]| && queue[1..][i] == q;
      assert queue[i + 1] == q;
    }
    assert queue[0] in queue;
  }

  lemma ReadClaimKeepsInv(s: Sys, a: WorkerAction)
    requires Inv(s) && (a.ReadClaim? || a.SkipRequest? || a.StopWorker?) && WorkerEnabled(s, a)
    ensures Inv(WorkerApply(s, a))
  {
    hide LedgerOk, ChainOk, ErasureOk, WritersOk, HistoryOk, QueueOk;
    if !a.StopWorker? {
      RestIsOk(s.worker.queue, s.history);
    }
    if a.ReadClaim? {
      NewestIsLast(s.history, s.suppressions, s.maxAttempts, a.row);
    }
  }

  // ---------- Storing a status row ----------

  /** `history` after one more row of a request. */
  function Advanced(history: map<RequestKey, seq<SuppressionRow>>, row: SuppressionRow): map<RequestKey, seq<SuppressionRow>>
    requires row.key in history
  {
    history[row.key := history[row.key] + [row]]
  }

  lemma AdvanceIsSame(history: map<RequestKey, seq<SuppressionRow>>, row: SuppressionRow)
    requires row.key in history && history[row.key] != []
    ensures SameRequests(history, Advanced(history, row))
    ensures Last(Advanced(history, row)[row.key]) == row
    ensures Claims(Advanced(history, row)[row.key]) == Claims(history[row.key]) + if row.data.status == Processing then 1 else 0
  {
    var rows := history[row.key];
    assert (rows + [row])[..|rows|] == rows;
  }

  lemma AdvanceKeepsHistory(
    history: map<RequestKey, seq<SuppressionRow>>, suppressions: seq<SuppressionRow>, maxAttempts: nat, row: SuppressionRow)
    requires HistoryOk(history, suppressions, maxAttempts)
    requires row.key in history && Follows(Last(history[row.key]), row, maxAttempts)
    ensures HistoryOk(Advanced(history, row), suppressions + [row], maxAttempts)
  {
    hide StatusesStored;
    Extend(history[row.key], row.key, maxAttempts, row);
    AdvanceIsStored(history, suppressions, row);
  }

  lemma AdvanceIsStored(
    history: map<RequestKey, seq<SuppressionRow>>, suppressions: seq<SuppressionRow>, row: SuppressionRow)
    requires StatusesStored(history, suppressions) && row.key in history
    ensures StatusesStored(Advanced(history, row), suppressions + [row])
  {
  }

  lemma AdvanceKeepsMarks(s: Sys, row: SuppressionRow)
    requires row.key in s.history && s.history[row.key] != []
    requires MarksOk(s.marks, s.progress, s.history)
    requires DoneIsClear(s.ledger, s.registry, s.streams, s.v1Rows, s.history, s.marks)
    ensures MarksOk(s.marks, s.progress, Advanced(s.history, row))
    ensures DoneIsClear(s.ledger, s.registry, s.streams, s.v1Rows, Advanced(s.history, row), s.marks)
  {
    hide Claims, MarksStored, Clear, TableDone;
    AdvanceIsSame(s.history, row);
  }

  lemma AdvanceKeepsCompleted(s: Sys, row: SuppressionRow)
    requires row.key in s.history && s.history[row.key] != []
    requires CompletedIsDone(s.history, s.marks)
    requires row.data.status == Completed && s.history[row.key][0].data.action == Delete ==>
               AllDone(s.marks, row.key, TablesOf(s.history[row.key][0].data.legacyInstallation))
    ensures CompletedIsDone(Advanced(s.history, row), s.marks)
  {
    hide TablesOf;
    AdvanceIsSame(s.history, row);
  }

  lemma QueueAfterAdvance(queue: seq<Request>, history: map<RequestKey, seq<SuppressionRow>>, row: SuppressionRow)
    requires QueueOk(queue, history) && row.key in history
    requires forall q | q in queue :: q.key != row.key
    ensures QueueOk(queue, Advanced(history, row))
  {
  }

  /** Everything but the worker's own state survives the next status row of a request. */
  lemma AdvanceKeepsRest(s: Sys, row: SuppressionRow)
    requires Inv(s) && row.key in s.history && s.history[row.key] != []
    requires Follows(Last(s.history[row.key]), row, s.maxAttempts)
    requires row.data.status == Completed && s.history[row.key][0].data.action == Delete ==>
               AllDone(s.marks, row.key, TablesOf(s.history[row.key][0].data.legacyInstallation))
    ensures var s' := s.(history := Advanced(s.history, row), suppressions := s.suppressions + [row], worker := Resting);
            Inv(s') && SameRequests(s.history, s'.history)
  {
    hide ChainOk, HistoryOk, MarksOk, V1Ok, Follows, TablesOf, SameRequests;
    AdvanceIsSame(s.history, row);
    AdvanceKeepsHistory(s.history, s.suppressions, s.maxAttempts, row);
    AdvanceKeepsMarks(s, row);
    AdvanceKeepsCompleted(s, row);
    StatusKeepsWriters(s, Advanced(s.history, row));
  }

  /** Claims are counted in the row's attempt column. */
  lemma ClaimFollows(s: Sys, a: WorkerAction)
    requires Inv(s) && a.WriteClaim? && WorkerEnabled(s, a)
    requires Claims(s.history[s.worker.request.key]) + 1 < 0x1_0000
    ensures var row := ClaimRow(s.worker.request, s.worker.attempts, s.worker.now);
            && Follows(Last(s.history[s.worker.request.key]), row, s.maxAttempts)
            && row.data.attempts == s.worker.request.attempts + 1 == NextAttempt(s.worker.request.attempts)
  {
    hide ChainOk, ErasureOk, WritersOk, HistoryOk;
    CurrentAgrees(s.history, s.suppressions, s.maxAttempts, s.worker.request);
    LastIsFound(s.history, s.suppressions, s.maxAttempts, s.worker.request.key);
  }

  lemma AllMarkedBelow(s: Sys, key: RequestKey, attempts: nat)
    requires MarksOk(s.marks, s.progress, s.history) && key in s.history && Claims(s.history[key]) < attempts
    ensures forall t :: MarkedBelow(s.marks, ProgressKey(key, t), attempts)
  {
  }

  /** What the worker knows once its claim is stored. */
  lemma ClaimIsHeld(s: Sys, a: WorkerAction, row: SuppressionRow)
    requires Inv(s) && a.WriteClaim? && WorkerEnabled(s, a)
    requires row == ClaimRow(s.worker.request, s.worker.attempts, s.worker.now)
    requires row.data.attempts == s.worker.request.attempts + 1 == NextAttempt(s.worker.request.attempts)
    requires s.worker.request.key in s.history
    ensures var request := s.worker.request.(attempts := s.worker.request.attempts + 1);
            && HoldsClaim(request, s.worker.queue, Advanced(s.history, row)) && QueueOk(s.worker.queue, Advanced(s.history, row))
            && forall t :: MarkedBelow(s.marks, ProgressKey(request.key, t), request.attempts)
  {
    hide LedgerOk, ChainOk, HistoryOk, MarksOk, DoneIsClear, CompletedIsDone, WritersOk, MutationsOk, Follows, QueueOk,
         Clear, AllDone, TableDone;
    AdvanceIsSame(s.history, row);
    QueueAfterAdvance(s.worker.queue, s.history, row);
    CurrentAgrees(s.history, s.suppressions, s.maxAttempts, s.worker.request);
    AllMarkedBelow(s, s.worker.request.key, s.worker.request.attempts + 1);
  }

  /** Where the worker goes with a claim. */
  lemma DispatchIsOk(s: Sys, request: Request, queue: seq<Request>)
    requires HoldsClaim(request, queue, s.history)
    requires forall t :: MarkedBelow(s.marks, ProgressKey(request.key, t), request.attempts)
    ensures WorkerOk(Dispatch(request, queue), s.ledger, s.registry, s.streams, s.v1Rows, s.history, s.marks)
    ensures !Dispatch(request, queue).Mutating?
  {
    hide HoldsClaim, MarkedBelow;
  }

  lemma RestKeepsInv(s: Sys)
    requires Inv(s)
    ensures Inv(s.(worker := Resting))
  {
    hide LedgerOk, ChainOk, HistoryOk, ErasureOk, WritersOk;
  }

  /** The worker may go to any place that agrees with what is stored. */
  lemma PlaceKeepsInv(s: Sys, pc: WorkerPc)
    requires Inv(s.(worker := Resting)) && !pc.Mutating?
    requires WorkerOk(pc, s.ledger, s.registry, s.streams, s.v1Rows, s.history, s.marks)
    ensures Inv(s.(worker := pc))
  {
    hide LedgerOk, ChainOk, HistoryOk, ErasureOk, WritersOk, WorkerOk;
  }

  lemma ListIsOk(s: Sys, queue: seq<Request>)
    requires QueueOk(queue, s.history)
    ensures WorkerOk(Listed(queue), s.ledger, s.registry, s.streams, s.v1Rows, s.history, s.marks)
  {
  }

  lemma ClaimingFacts(s: Sys)
    requires Inv(s) && s.worker.Claiming?
    ensures s.worker.attempts == s.worker.request.attempts && QueueOk(s.worker.queue, s.history)
    ensures s.worker.request.key in s.history && s.history[s.worker.request.key] != []
  {
    hide LedgerOk, ChainOk, HistoryOk, ErasureOk, WritersOk, MutationsOk, QueueOk;
  }

  lemma WriteClaimKeepsInv(s: Sys, a: WorkerAction)
    requires Inv(s) && a.WriteClaim? && WorkerEnabled(s, a)
    requires CounterFits(WorkerApply(s, a))
    ensures Inv(WorkerApply(s, a))
  {
    hide Inv, WorkerOk, HoldsClaim, MarkedBelow, QueueOk, Dispatch, Follows, ClaimRow, SameRequests;
    var request, queue, s' := s.worker.request, s.worker.queue, WorkerApply(s, a);
    ClaimingFacts(s);
    if a.outcome == Unapplied {
      RestKeepsInv(s);
      ListIsOk(s, queue);
      PlaceKeepsInv(s, Listed(queue));
    } else {
      var row := ClaimRow(request, s.worker.attempts, s.worker.now);
      assert row.key == request.key && row.data.status == Processing by {
        ClaimRowColumns(request, s.worker.attempts, s.worker.now);
      }
      AdvanceIsSame(s.history, row);
      assert s'.history == Advanced(s.history, row);
      assert Claims(s'.history[request.key]) < 0x1_0000;
      hide CounterFits, Claims;
      ClaimFollows(s, a);
      AdvanceKeepsRest(s, row);
      ClaimIsHeld(s, a, row);
      assert s'.(worker := Resting) == s.(history := s'.history, suppressions := s.suppressions + [row], worker := Resting);
      if a.outcome == Acked {
        DispatchIsOk(s', request.(attempts := NextAttempt(request.attempts)), queue);
        PlaceKeepsInv(s', s'.worker);
      } else {
        ListIsOk(s', queue);
        PlaceKeepsInv(s', Listed(queue));
      }
    }
  }

  lemma ClaimRowColumns(request: Request, attempts: nat, now: int)
    ensures ClaimRow(request, attempts, now).key == request.key && ClaimRow(request, attempts, now).data.status == Processing
    ensures ClaimRow(request, attempts, now).data.attempts == NextAttempt(attempts)
  {
  }

  lemma ClosingFacts(s: Sys)
    requires Inv(s) && s.worker.Closing?
    ensures HistoryOk(s.history, s.suppressions, s.maxAttempts)
    ensures HoldsClaim(s.worker.request, s.worker.queue, s.history)
  {
    hide LedgerOk, ChainOk, HistoryOk, ErasureOk, WritersOk, MutationsOk, HoldsClaim, AllDone;
  }

  lemma OutcomeRowFollows(claim: SuppressionRow, succeeded: bool, maxAttempts: nat, now: int)
    requires claim.data.status == Processing && claim.data.active
    ensures Follows(claim, OutcomeRow(Snapshot(claim), succeeded, maxAttempts, now), maxAttempts)
  {
    hide RetryDelay;
  }

  lemma OutcomeFollows(s: Sys, a: WorkerAction, row: SuppressionRow)
    requires Inv(s) && a.WriteOutcome? && WorkerEnabled(s, a)
    requires row == OutcomeRow(s.worker.request, s.worker.succeeded, s.maxAttempts, a.now)
    ensures s.worker.request.key in s.history && s.history[s.worker.request.key] != []
    ensures Follows(Last(s.history[s.worker.request.key]), row, s.maxAttempts)
  {
    hide Inv, HistoryOk, Follows, OutcomeRow, QueueOk;
    ClosingFacts(s);
    LastIsFound(s.history, s.suppressions, s.maxAttempts, s.worker.request.key);
    OutcomeRowFollows(Last(s.history[s.worker.request.key]), s.worker.succeeded, s.maxAttempts, a.now);
  }

  lemma WriteOutcomeKeepsInv(s: Sys, a: WorkerAction)
    requires Inv(s) && a.WriteOutcome? && WorkerEnabled(s, a)
    ensures Inv(WorkerApply(s, a))
  {
    hide ChainOk, HistoryOk, ErasureOk, WritersOk, Follows, QueueOk, RetryDelay;
    var s' := WorkerApply(s, a);
    if a.outcome != Unapplied {
      var request := s.worker.request;
      var row := OutcomeRow(request, s.worker.succeeded, s.maxAttempts, a.now);
      assert s'.history == Advanced(s.history, row);
      CurrentAgrees(s.history, s.suppressions, s.maxAttempts, request);
      OutcomeFollows(s, a, row);
      AdvanceKeepsRest(s, row);
      QueueAfterAdvance(s.worker.queue, s.history, row);
    }
  }

  // ---------- The deletion loop ----------

  lemma TablesAreDistinct(legacyInstallation: Option<string>, i: nat, j: nat)
    requires i < |TablesOf(legacyInstallation)| && j < |TablesOf(legacyInstallation)| && i != j
    ensures TablesOf(legacyInstallation)[i] != TablesOf(legacyInstallation)[j]
  {
  }

  /** The loop goes on behind a completed table. */
  lemma LoopGoesOn(s: Sys, marks: map<ProgressKey, seq<ProgressRow>>)
    requires AtTable(s.worker) && LoopOk(s.worker.request, s.worker.table, marks)
    requires HoldsClaim(s.worker.request, s.worker.queue, s.history)
    requires TableDone(marks, ProgressKey(s.worker.request.key, CurrentTable(s.worker.request, s.worker.table)))
    ensures WorkerOk(NextTable(s.worker.request, s.worker.queue, s.worker.table + 1),
                     s.ledger, s.registry, s.streams, s.v1Rows, s.history, marks)
  {
    var request, next := s.worker.request, s.worker.table + 1;
    var tables := TablesOf(request.legacyInstallation);
    if next == |tables| {
      forall t | t in tables
        ensures TableDone(marks, ProgressKey(request.key, t))
      {
        var i :| 0 <= i < |tables| && tables[i] == t;
        assert CurrentTable(request, i) == t;
      }
    }
  }

  lemma ClaimedAtLeastOnce(s: Sys, request: Request, queue: seq<Request>)
    requires HistoryOk(s.history, s.suppressions, s.maxAttempts) && HoldsClaim(request, queue, s.history)
    ensures request.attempts >= 1
  {
    var rows := s.history[request.key];
    assert WellFormed(rows, request.key, s.maxAttempts);
    assert |rows| > 1;
    assert Follows(rows[|rows| - 2], rows[|rows| - 1], s.maxAttempts);
  }

  lemma ReadProgressKeepsInv(s: Sys, a: WorkerAction)
    requires Inv(s) && (a.ReadProgress? || a.FailProgressRead?) && WorkerEnabled(s, a)
    ensures Inv(WorkerApply(s, a))
  {
    hide LedgerOk, ChainOk, HistoryOk, DoneIsClear, CompletedIsDone, WritersOk, HoldsClaim, Clear, LoopOk, AllDone;
    if a.ReadProgress? {
      var request := s.worker.request;
      var k := ProgressKey(request.key, CurrentTable(request, s.worker.table));
      ClaimedAtLeastOnce(s, request, s.worker.queue);
      if a.mark.Some? {
        NewestMarkIsLast(s.history, s.marks, s.progress, a.mark.value);
        LastMarkStatus(s, k);
        if a.mark.value.data.status == Completed {
          LoopGoesOn(s, s.marks);
        }
      } else {
        assert k !in s.marks;
      }
    }
  }

  lemma LastMarkStatus(s: Sys, k: ProgressKey)
    requires MarksOk(s.marks, s.progress, s.history) && k in s.marks
    ensures s.marks[k] != [] && Last(s.marks[k]).data.status in {Processing, Retry, Completed}
  {
    var rows := s.marks[k];
    assert WellMarked(rows, k, s.history[k.request][0].data.ingestedAt);
    if |rows| > 1 {
      assert MarkFollows(rows[|rows| - 2], rows[|rows| - 1], s.history[k.request][0].data.ingestedAt);
    }
  }

  // ---------- Storing a progress row ----------

  /** `marks` after one more row of a table. */
  function Marked(marks: map<ProgressKey, seq<ProgressRow>>, row: ProgressRow): map<ProgressKey, seq<ProgressRow>>
  {
    marks[row.key := (if row.key in marks then marks[row.key] else []) + [row]]
  }

  /** The row may come next for its table. */
  ghost predicate MayMark(s: Sys, row: ProgressRow)
  {
    && row.key.request in s.history && s.history[row.key.request] != []
    && s.history[row.key.request][0].data.action == Delete
    && row.version == StatusVersion(s.history[row.key.request][0].data.ingestedAt, row.data.status, row.data.attempts)
    && row.data.attempts <= Claims(s.history[row.key.request])
    && (if row.key in s.marks && s.marks[row.key] != [] then
          MarkFollows(Last(s.marks[row.key]), row, s.history[row.key.request][0].data.ingestedAt)
        else row.data == ProgressData(Processing, 1))
  }

  lemma MarkIsWellMarked(s: Sys, row: ProgressRow)
    requires MarksOk(s.marks, s.progress, s.history) && MayMark(s, row)
    ensures WellMarked(Marked(s.marks, row)[row.key], row.key, s.history[row.key.request][0].data.ingestedAt)
  {
    if row.key in s.marks {
      ExtendMarks(s.marks[row.key], row.key, s.history[row.key.request][0].data.ingestedAt, row);
    } else {
      assert [] + [row] == [row];
    }
  }

  lemma MarkIsStored(marks: map<ProgressKey, seq<ProgressRow>>, progress: seq<ProgressRow>, row: ProgressRow)
    requires MarksStored(marks, progress)
    ensures MarksStored(Marked(marks, row), progress + [row])
  {
  }

  lemma MarkKeepsMarks(s: Sys, row: ProgressRow)
    requires MarksOk(s.marks, s.progress, s.history) && MayMark(s, row)
    ensures MarksOk(Marked(s.marks, row), s.progress + [row], s.history)
  {
    hide MarksStored;
    MarkIsWellMarked(s, row);
    MarkIsStored(s.marks, s.progress, row);
  }

  lemma MarkKeepsDone(s: Sys, row: ProgressRow)
    requires MarksOk(s.marks, s.progress, s.history) && MayMark(s, row)
    requires DoneIsClear(s.ledger, s.registry, s.streams, s.v1Rows, s.history, s.marks)
    requires CompletedIsDone(s.history, s.marks)
    requires row.data.status == Completed ==>
               Clear(s.ledger, s.registry, s.streams, s.v1Rows, s.history[row.key.request][0].data.scope,
                     s.history[row.key.request][0].data.legacyInstallation, row.key.table)
    ensures DoneIsClear(s.ledger, s.registry, s.streams, s.v1Rows, s.history, Marked(s.marks, row))
    ensures CompletedIsDone(s.history, Marked(s.marks, row))
    ensures forall k | TableDone(s.marks, k) :: TableDone(Marked(s.marks, row), k)
  {
    hide Clear, MarksStored, TablesOf;
    assert !TableDone(s.marks, row.key);
  }

  /** Everything but the worker's own state survives the next progress row. */
  lemma MarkKeepsRest(s: Sys, row: ProgressRow)
    requires Inv(s) && MayMark(s, row)
    requires row.data.status == Completed ==>
               Clear(s.ledger, s.registry, s.streams, s.v1Rows, s.history[row.key.request][0].data.scope,
                     s.history[row.key.request][0].data.legacyInstallation, row.key.table)
    ensures Inv(s.(marks := Marked(s.marks, row), progress := s.progress + [row], worker := Resting))
  {
    hide ChainOk, HistoryOk, MarksOk, CompletedIsDone, WritersOk, MayMark, Clear;
    MarkKeepsMarks(s, row);
    MarkKeepsDone(s, row);
  }

  /** A row of the loop's own table leaves what the loop knows of the others. */
  lemma LoopAfterMark(pc: WorkerPc, marks: map<ProgressKey, seq<ProgressRow>>, row: ProgressRow)
    requires AtTable(pc) && LoopOk(pc.request, pc.table, marks)
    requires row.key == ProgressKey(pc.request.key, CurrentTable(pc.request, pc.table))
    ensures LoopOk(pc.request, pc.table, Marked(marks, row))
  {
    forall i | 0 <= i < |TablesOf(pc.request.legacyInstallation)| && i != pc.table
      ensures CurrentTable(pc.request, i) != CurrentTable(pc.request, pc.table)
    {
      TablesAreDistinct(pc.request.legacyInstallation, i, pc.table);
    }
  }

  lemma MayMarkNext(s: Sys, status: PrivacyStatus, attempts: nat)
    requires Inv(s) && AtTable(s.worker) && (s.worker.Marking? || s.worker.Mutated? || s.worker.Botched?)
    requires status == if s.worker.Marking? then Processing else if s.worker.Mutated? then Completed else Retry
    requires attempts == if s.worker.Marking? then s.worker.attempts + 1 else s.worker.attempts
    ensures MayMark(s, MarkRow(s.worker, status, attempts))
    ensures s.history[s.worker.request.key][0].data.scope == s.worker.request.scope
    ensures s.history[s.worker.request.key][0].data.legacyInstallation == s.worker.request.legacyInstallation
  {
    hide ChainOk, HistoryOk, WritersOk;
    CurrentAgrees(s.history, s.suppressions, s.maxAttempts, s.worker.request);
    var k := ProgressKey(s.worker.request.key, CurrentTable(s.worker.request, s.worker.table));
    if k in s.marks {
      assert Last(s.marks[k]).key == k;
    }
  }

  lemma MarkProcessingKeepsInv(s: Sys, a: WorkerAction)
    requires Inv(s) && a.MarkProcessing? && WorkerEnabled(s, a) && CounterFits(s)
    ensures Inv(WorkerApply(s, a))
  {
    hide LedgerOk, ChainOk, HistoryOk, ErasureOk, WritersOk, QueueOk, Clear, MayMark, LoopOk;
    CurrentAgrees(s.history, s.suppressions, s.maxAttempts, s.worker.request);
    assert NextAttempt(s.worker.attempts) == s.worker.attempts + 1;
    if a.outcome != Unapplied {
      var row := MarkRow(s.worker, Processing, s.worker.attempts + 1);
      MayMarkNext(s, Processing, s.worker.attempts + 1);
      MarkKeepsRest(s, row);
      LoopAfterMark(s.worker, s.marks, row);
    }
  }

  lemma MarkRetryKeepsInv(s: Sys, a: WorkerAction)
    requires Inv(s) && a.MarkRetry? && WorkerEnabled(s, a)
    ensures Inv(WorkerApply(s, a))
  {
    hide ChainOk, HistoryOk, ErasureOk, WritersOk, LoopOk, HoldsClaim;
    if a.outcome != Unapplied {
      MayMarkNext(s, Retry, s.worker.attempts);
      MarkKeepsRest(s, MarkRow(s.worker, Retry, s.worker.attempts));
    }
  }

  lemma MarkCompletedKeepsInv(s: Sys, a: WorkerAction)
    requires Inv(s) && a.MarkCompleted? && WorkerEnabled(s, a)
    ensures Inv(WorkerApply(s, a))
  {
    hide LedgerOk, ChainOk, HistoryOk, ErasureOk, WritersOk, QueueOk, Clear, MayMark, LoopOk, InProgress, HoldsClaim,
         TablesOf;
    if a.outcome != Unapplied {
      var row := MarkRow(s.worker, Completed, s.worker.attempts);
      MayMarkNext(s, Completed, s.worker.attempts);
      MarkKeepsRest(s, row);
      LoopAfterMark(s.worker, s.marks, row);
      if a.outcome == Acked {
        assert Last(Marked(s.marks, row)[row.key]) == row;
        LoopGoesOn(s, Marked(s.marks, row));
      }
    }
  }

  // ---------- The mutation ----------

  lemma SubmitMutationKeepsInv(s: Sys, a: WorkerAction)
    requires Inv(s) && a.SubmitMutation? && WorkerEnabled(s, a)
    ensures Inv(WorkerApply(s, a))
  {
    hide LedgerOk, ChainOk, HistoryOk, ErasureOk, WritersOk, QueueOk, Clear, InProgress, MarkedBelow, DeleteMatches,
         TableDone, TablesOf;
    CurrentAgrees(s.history, s.suppressions, s.maxAttempts, s.worker.request);
    if a.reached {
      var m := MutationFor(s);
      assert Ordered(m, s.history, s.marks) by {
        assert forall i | 0 <= i < m.index :: TablesOf(m.legacyInstallation)[i] == CurrentTable(s.worker.request, i);
      }
      assert Covers(ContentsOf(s), m);
      hide Ordered, Covers;
    }
  }

  lemma EndMutationKeepsInv(s: Sys, a: WorkerAction)
    requires Inv(s) && a.EndMutation? && WorkerEnabled(s, a)
    ensures Inv(WorkerApply(s, a))
  {
    hide LedgerOk, ChainOk, HistoryOk, ErasureOk, WritersOk, QueueOk, Clear, LoopOk, InProgress, HoldsClaim, Ordered,
         Covers, Finished, TablesOf;
    if a.acked {
      FinishedIsClear(ContentsOf(s), s.mutations[s.worker.mutation]);
    }
  }

  /** When all rows a mutation covers are gone and none came after them, its table is clear. */
  lemma FinishedIsClear(c: Contents, m: Mutation)
    requires HasTable(m) && Covers(c, m) && Finished(c, m)
    ensures Clear(c.ledger, c.registry, c.streams, c.v1Rows, m.scope, m.legacyInstallation, TableOf(m))
  {
  }

  lemma WorkerKeepsInv(s: Sys, a: WorkerAction)
    requires Inv(s) && WorkerEnabled(s, a) && CounterFits(s) && CounterFits(WorkerApply(s, a))
    ensures Inv(WorkerApply(s, a))
  {
    hide Inv, CounterFits;
    match a
    case ListPending(_, _) => ListPendingKeepsInv(s, a);
    case ReadClaim(_, _) => ReadClaimKeepsInv(s, a);
    case SkipRequest => ReadClaimKeepsInv(s, a);
    case WriteClaim(_) => WriteClaimKeepsInv(s, a);
    case ReadProgress(_) => ReadProgressKeepsInv(s, a);
    case FailProgressRead => ReadProgressKeepsInv(s, a);
    case MarkProcessing(_) => MarkProcessingKeepsInv(s, a);
    case SubmitMutation(_) => SubmitMutationKeepsInv(s, a);
    case EndMutation(_) => EndMutationKeepsInv(s, a);
    case MarkRetry(_) => MarkRetryKeepsInv(s, a);
    case MarkCompleted(_) => MarkCompletedKeepsInv(s, a);
    case WriteOutcome(_, _) => WriteOutcomeKeepsInv(s, a);
    case StopWorker => ReadClaimKeepsInv(s, a);
  }
}
