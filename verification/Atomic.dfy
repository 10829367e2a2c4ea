/**
 The protocol refines a store that knows only two events: accept a body as a
 whole, and forget every body of a scope.
 */
module Atomic {
  import opened Tables
  import opened Telemetry
  import opened Protocol
  import opened History
  import opened Invariant
  import opened Facts
  import opened WorkerSteps
  import opened MutationSteps
  import opened OtherSteps
  import opened Safety
  import opened Exactly

  // ---------- The abstract store ----------

  /** The bodies the store has accepted and nobody asked to delete. */
  ghost function Accepted(s: Sys): set<Digest>
  {
    set l | l in s.ledger && l.data.status == StatusCompleted && !DeletionRequested(s.history, l.data.sha.batch.scope) :: l.data.sha
  }

  /** A body may be accepted when its batch ID and its record IDs are new to the product. */
  ghost predicate Fresh(accepted: set<Digest>, sha: Digest)
  {
    forall d | d in accepted ::
      && KeyOf(d.batch) != KeyOf(sha.batch)
      && (d.batch.scope.product == sha.batch.scope.product ==>
            forall r | r in sha.batch.records :: !HasRecord(d.batch, r.id))
  }

  ghost function Forget(accepted: set<Digest>, scope: Scope): set<Digest>
  {
    set d | d in accepted && !Concerns(scope, d.batch.scope)
  }

  /** What one action of the protocol does to the abstract store: accept, forget, or nothing. */
  ghost predicate AtomicStep(s: Sys, a: Action, s': Sys)
  {
    if Accepts(a) && s.writer.Written? then
      && Fresh(Accepted(s), s.writer.sha)
      && !Suppressed(s.history, s.writer.sha.batch.scope)
      && Accepted(s') == Accepted(s) + {s.writer.sha}
    else if Forgets(a) && s.writer.Requesting? && DeletesV2(s.writer.request) then
      Accepted(s') == Forget(Accepted(s), s.writer.request.scope)
    else
      Accepted(s') == Accepted(s)
  }

  predicate Accepts(a: Action)
  {
    a.ByWriter? && a.writer.CompleteBatch? && a.writer.outcome != Unapplied
  }

  predicate Forgets(a: Action)
  {
    a.ByWriter? && a.writer.CommitRequest? && a.writer.outcome != Unapplied
  }

  predicate DeletesV2(request: NewRequest)
  {
    request.action == Delete && request.legacyInstallation.None?
  }

  // ---------- Refinement ----------

  lemma AcceptanceIsFresh(s: Sys)
    requires Inv(s) && s.writer.Written?
    ensures Fresh(Accepted(s), s.writer.sha)
  {
    hide DeleterOk, AllWritten;
    var sha := s.writer.sha;
    forall l, r | l in s.ledger && l.data.status == StatusCompleted && !DeletionRequested(s.history, l.data.sha.batch.scope)
                  && r in sha.batch.records && l.data.sha.batch.scope.product == sha.batch.scope.product
      ensures l.key != KeyOf(sha.batch) && !HasRecord(l.data.sha.batch, r.id)
    {
      assert HasRecord(sha.batch, r.id);
      AcceptedOwnsRecords(s, l, r.id);
    }
    forall l | l in s.ledger && l.data.status == StatusCompleted
      ensures l.key != KeyOf(sha.batch) && l.key == KeyOf(l.data.sha.batch)
    {
      assert LedgerRowOk(l);
    }
  }

  /** The registry names an accepted batch as the owner of its records. */
  lemma AcceptedOwnsRecords(s: Sys, l: LedgerRow, id: string)
    requires LedgerOk(s.ledger) && RegistryOk(s.registry, s.ledger)
    requires CompletedIsWritten(s.ledger, s.registry, s.streams, s.history)
    requires l in s.ledger && l.data.status == StatusCompleted && !DeletionRequested(s.history, l.data.sha.batch.scope)
    ensures HasRecord(l.data.sha.batch, id) ==>
              exists g :: g in s.registry && g.key == RecordKey(l.data.sha.batch.scope.product, id) && g.data.sha == l.data.sha
  {
    hide AllWritten;
    var batch := l.data.sha.batch;
    if HasRecord(batch, id) {
      var r :| r in batch.records && r.id == id;
      assert HasRegistryRow(s.registry, batch.scope.product, r.id, batch.id);
      var g :| g in s.registry && g.key == RecordKey(batch.scope.product, id) && g.data.batch == batch.id;
      assert LedgerRowOk(l);
      OwnerScope(s, g, l);
    }
  }

  lemma AcceptanceIsAtomic(s: Sys, a: WriterAction)
    requires Inv(s) && a.CompleteBatch? && WriterEnabled(s, a) && a.outcome != Unapplied
    ensures AtomicStep(s, ByWriter(a), WriterApply(s, a))
  {
    hide ChainOk, HistoryOk, ErasureOk, CompletedIsWritten, V1Ok, DeleterOk, AllRegistered, AllWritten, HoldsReservation,
         NoClash, DeletionRequested, Suppressed;
    AcceptanceIsFresh(s);
    UnsuppressedIsUntouched(s.history, s.writer.sha.batch.scope);
    var s' := WriterApply(s, a);
    var row := LedgerRowFor(s.writer.sha, StatusCompleted, CompletionTime(a.now, s.writer.at));
    assert row in s'.ledger;
    forall d | d in Accepted(s') || d in Accepted(s) + {s.writer.sha}
      ensures d in Accepted(s') && d in Accepted(s) + {s.writer.sha}
    {
    }
  }

  lemma ForgettingIsAtomic(s: Sys, a: WriterAction)
    requires Inv(s) && a.CommitRequest? && WriterEnabled(s, a) && a.outcome != Unapplied
    ensures AtomicStep(s, ByWriter(a), WriterApply(s, a))
  {
    hide HistoryOk, ErasureOk, CompletedIsWritten, V1Ok, DeleterOk, DeleteMatches, GateMatches, Concerns;
    var s' := WriterApply(s, a);
    var request := s.writer.request;
    assert [] + [PendingRowFor(request, a.now)] == [PendingRowFor(request, a.now)];
    forall scope
      ensures DeletionRequested(s'.history, scope) <==>
              DeletionRequested(s.history, scope) || (DeletesV2(request) && Concerns(request.scope, scope))
    {
      NewDeletion(s.history, PendingRowFor(request, a.now), scope);
      ConcernsExactly(request.scope, scope);
    }
  }

  lemma NewDeletion(history: map<RequestKey, seq<SuppressionRow>>, row: SuppressionRow, scope: Scope)
    requires row.key !in history
    ensures DeletionRequested(history[row.key := [row]], scope) <==> DeletionRequested(history, scope) || Deletes(row, scope)
  {
    var history' := history[row.key := [row]];
    if DeletionRequested(history, scope) {
      var k :| k in history && history[k] != [] && Deletes(history[k][0], scope);
      assert k in history' && history'[k] == history[k];
    }
    if Deletes(row, scope) {
      assert history'[row.key] == [row];
    }
  }

  /** Steps that neither complete a batch nor store a request change no accepted body. */
  lemma OthersAreInvisible(s: Sys, a: Action, s': Sys)
    requires Inv(s) && Next(s, a, s') && SameRequests(s.history, s'.history)
    requires forall l | l in s'.ledger && l.data.status == StatusCompleted :: l in s.ledger
    ensures Accepted(s') == Accepted(s)
  {
    hide Inv, Next;
    forall scope
      ensures DeletionRequested(s'.history, scope) <==> DeletionRequested(s.history, scope)
    {
      SuppressionsAreSame(s.history, s'.history, scope);
    }
    forall l | l in s.ledger && l.data.status == StatusCompleted && !DeletionRequested(s.history, l.data.sha.batch.scope)
      ensures l in s'.ledger
    {
      CompletionPersists(s, a, s', l);
      ScopeOfRow(s, l);
      if Removes(s, a, l) {
        RemovedIsSuppressed(s, a, s', l);
      }
    }
  }

  lemma ScopeOfRow(s: Sys, l: LedgerRow)
    requires Inv(s) && l in s.ledger
    ensures l.data.scope == l.data.sha.batch.scope
  {
    assert LedgerRowOk(l);
  }

  lemma StatusKeepsRequests(s: Sys, row: SuppressionRow, outcome: Outcome)
    requires row.key in s.history && s.history[row.key] != []
    ensures SameRequests(s.history, WithStatus(s, row, outcome).history)
  {
  }

  /** The worker's actions other than its two kinds of status row leave the requests alone. */
  lemma OnlyStatusesChangeHistory(s: Sys, a: WorkerAction)
    requires WorkerEnabled(s, a) && !a.WriteClaim? && !a.WriteOutcome?
    ensures WorkerApply(s, a).history == s.history
  {
    hide Finished, FinalRead, IsNewest, Due, TablesOf;
  }

  lemma WorkerKeepsRequests(s: Sys, a: WorkerAction)
    requires Inv(s) && WorkerEnabled(s, a)
    ensures SameRequests(s.history, WorkerApply(s, a).history)
    ensures forall l | l in WorkerApply(s, a).ledger :: l in s.ledger
  {
    WorkerLedger(s, a);
    if a.WriteClaim? || a.WriteOutcome? {
      hide MarksOk;
      if a.WriteClaim? {
        StatusKeepsRequests(s, ClaimRow(s.worker.request, s.worker.attempts, s.worker.now), a.outcome);
      } else {
        StatusKeepsRequests(s, OutcomeRow(s.worker.request, s.worker.succeeded, s.maxAttempts, a.now), a.outcome);
      }
    } else {
      OnlyStatusesChangeHistory(s, a);
      SameIsSame(s.history);
    }
  }

  lemma WriterIsInvisible(s: Sys, a: WriterAction)
    requires Inv(s) && WriterEnabled(s, a)
    requires !((a.CompleteBatch? || a.CommitRequest?) && a.outcome != Unapplied)
    ensures SameRequests(s.history, WriterApply(s, a).history)
    ensures forall l | l in WriterApply(s, a).ledger && l.data.status == StatusCompleted :: l in s.ledger
  {
    hide ChainOk, HistoryOk, ErasureOk, WritersOk, DeleterOk, SuppressionRead, FinalRead, Sent, Clashes, ValidBatch;
    WriterLedger(s, a);
  }

  lemma MergeIsInvisible(s: Sys, a: MergeAction)
    requires MergeEnabled(s, a)
    ensures SameRequests(s.history, MergeApply(s, a).history)
    ensures forall l | l in MergeApply(s, a).ledger :: l in s.ledger
  {
    if a.MergeLedger? {
      WithoutKeeps(s.ledger, a.i);
    }
  }

  lemma WriterRefines(s: Sys, a: WriterAction)
    requires Inv(s) && WriterEnabled(s, a)
    ensures AtomicStep(s, ByWriter(a), WriterApply(s, a))
  {
    hide Inv;
    if a.CompleteBatch? && a.outcome != Unapplied {
      AcceptanceIsAtomic(s, a);
    } else if a.CommitRequest? && a.outcome != Unapplied {
      ForgettingIsAtomic(s, a);
    } else {
      WriterIsInvisible(s, a);
      OthersAreInvisible(s, ByWriter(a), WriterApply(s, a));
      InvisibleIsAtomic(s, ByWriter(a), WriterApply(s, a));
    }
  }

  lemma InvisibleIsAtomic(s: Sys, a: Action, s': Sys)
    requires Accepted(s') == Accepted(s) && !Accepts(a) && !Forgets(a)
    ensures AtomicStep(s, a, s')
  {
  }

  lemma V1IsInvisible(s: Sys, a: V1Action)
    requires V1Enabled(s, a)
    ensures V1Apply(s, a).ledger == s.ledger && V1Apply(s, a).history == s.history
  {
  }

  lemma NextRefines(s: Sys, a: Action, s': Sys)
    requires Inv(s) && Next(s, a, s')
    ensures AtomicStep(s, a, s')
  {
    hide Inv, WriterEnabled, WriterApply, WorkerEnabled, WorkerApply, V1Enabled, V1Apply, MergeEnabled, MergeApply, MutationEnabled, MutationApply,
         AtomicStep, Accepted, SameRequests;
    match a
    case ByWriter(w) => WriterRefines(s, w);
    case ByV1(v) =>
      V1IsInvisible(s, v);
      SameIsSame(s.history);
      OthersAreInvisible(s, a, s');
      InvisibleIsAtomic(s, a, s');
    case ByWorker(k) =>
      WorkerKeepsRequests(s, k);
      OthersAreInvisible(s, a, s');
      InvisibleIsAtomic(s, a, s');
    case ByMerge(m) =>
      MergeIsInvisible(s, m);
      OthersAreInvisible(s, a, s');
      InvisibleIsAtomic(s, a, s');
    case ByMutation(m, i) =>
      MutationLedger(s, m, i);
      SameIsSame(s.history);
      OthersAreInvisible(s, a, s');
      InvisibleIsAtomic(s, a, s');
  }

  /** Every action of every run is one atomic event of the abstract store, or none. */
  lemma RefinesAtomicStore(run: seq<Sys>, actions: seq<Action>, i: nat)
    requires IsRun(run, actions) && i < |actions|
    ensures AtomicStep(run[i], actions[i], run[i + 1])
  {
    RunInv(run, actions, i);
    StepOfRun(run, actions, i);
    NextRefines(run[i], actions[i], run[i + 1]);
  }

  lemma SameIsSame(history: map<RequestKey, seq<SuppressionRow>>)
    ensures SameRequests(history, history)
  {
  }

  // ---------- Answers ----------

  /** What a caller of `InsertV2` is told, and by which statement. */
  datatype Answer = Stored | Replayed | IdempotencyConflict | DuplicateRecord | ScopeSuppressed

  ghost function AnswerOf(a: WriterAction): Option<Answer>
  {
    match a
    case LookUpBatch(sha, Some(row)) =>
      if row.data.sha != sha then Option.Some(IdempotencyConflict)
      else if row.data.status == StatusCompleted then Option.Some(Replayed)
      else Option.None
    case CheckSuppressed(Some(_)) => Option.Some(ScopeSuppressed)
    case QueryRegistry(Some(_)) => Option.Some(DuplicateRecord)
    case CompleteBatch(_, Acked) => Option.Some(Stored)
    case _ => Option.None
  }

  /** The look-up answers for accepted bodies as the abstract store would. */
  lemma LookUpAnswersAtomically(run: seq<Sys>, actions: seq<Action>, i: nat, d: Digest)
    requires IsRun(run, actions) && i < |actions|
    requires actions[i].ByWriter? && actions[i].writer.LookUpBatch?
    requires d in Accepted(run[i]) && KeyOf(d.batch) == KeyOf(actions[i].writer.sha.batch)
    ensures AnswerOf(actions[i].writer) == Option.Some(if d == actions[i].writer.sha then Replayed else IdempotencyConflict)
  {
    RunInv(run, actions, i);
    StepOfRun(run, actions, i);
    var s := run[i];
    var c :| c in s.ledger && c.data.status == StatusCompleted && c.data.sha == d;
    assert LedgerRowOk(c) && c.key == KeyOf(d.batch);
    var found := actions[i].writer.foundBatch;
    assert found.Some?;
    assert SameBatch(found.value, c) && SameBatch(c, found.value) && LedgerRowOk(found.value);
  }

  /** A body told to be stored, or replayed in a scope nobody asked to delete, is an accepted one. */
  lemma StoredIsAccepted(run: seq<Sys>, actions: seq<Action>, i: nat)
    requires IsRun(run, actions) && i < |actions| && actions[i].ByWriter?
    ensures AnswerOf(actions[i].writer) == Option.Some(Stored) ==>
              run[i].writer.Written? && run[i].writer.sha in Accepted(run[i + 1])
    ensures AnswerOf(actions[i].writer) == Option.Some(Replayed) ==>
              actions[i].writer.sha in Accepted(run[i]) || DeletionRequested(run[i].history, actions[i].writer.sha.batch.scope)
    ensures AnswerOf(actions[i].writer) == Option.Some(ScopeSuppressed) ==>
              run[i].writer.Looked? && Suppressed(run[i].history, run[i].writer.sha.batch.scope)
  {
    RefinesAtomicStore(run, actions, i);
    RunInv(run, actions, i);
    StepOfRun(run, actions, i);
    hide IsRun, LedgerOk, ChainOk, HistoryOk, ErasureOk, WritersOk, DeleterOk, DeletionRequested, Suppressed, WriterApply,
         SuppressionRead;
    var w := actions[i].writer;
    if w.CheckSuppressed? {
      ReadIsSuppressed(run[i].history, run[i].suppressions, run[i].maxAttempts, run[i].writer.sha.batch.scope, w.hit);
    }
  }

  /** Two accepted bodies never share a batch ID, nor a record ID within a product. */
  lemma AcceptedAreDisjoint(run: seq<Sys>, actions: seq<Action>, i: nat, d: Digest, e: Digest, id: string)
    requires IsRun(run, actions) && i < |run|
    requires d in Accepted(run[i]) && e in Accepted(run[i]) && d.batch.scope.product == e.batch.scope.product
    requires d.batch.id == e.batch.id || (HasRecord(d.batch, id) && HasRecord(e.batch, id))
    ensures d == e
  {
    hide IsRun, HistoryOk, ErasureOk, WriterOk, V1Ok, DeleterOk, HasRecord;
    RunInv(run, actions, i);
    var s := run[i];
    var l :| l in s.ledger && l.data.status == StatusCompleted && !DeletionRequested(s.history, l.data.sha.batch.scope) && l.data.sha == d;
    var m :| m in s.ledger && m.data.status == StatusCompleted && !DeletionRequested(s.history, m.data.sha.batch.scope) && m.data.sha == e;
    assert LedgerRowOk(l) && LedgerRowOk(m);
    if d.batch.id == e.batch.id {
      assert SameBatch(l, m);
    } else {
      AcceptedOwnsRecords(s, l, id);
      AcceptedOwnsRecords(s, m, id);
    }
  }

  /** An accepted body's records are each there exactly once. */
  lemma AcceptedIsOnce(run: seq<Sys>, actions: seq<Action>, i: nat, sha: Digest, record: Record)
    requires IsRun(run, actions) && i < |run| && sha in Accepted(run[i]) && record in sha.batch.records
    ensures OnceUnderFinal(run[i].streams, sha.batch, record)
  {
    hide IsRun;
    var l :| l in run[i].ledger && l.data.status == StatusCompleted && !DeletionRequested(run[i].history, l.data.sha.batch.scope) && l.data.sha == sha;
    ExactlyOnce(run, actions, i, l, record);
  }
}
