/**
 Exactly-once ingest: the tables, with their retries, partial sends and
 duplicates, implement an atomic store of accepted bodies.
 */
module Exactly {
  import opened Tables
  import opened Telemetry
  import opened Protocol
  import opened History
  import opened Invariant
  import opened Facts
  import opened OtherSteps
  import opened MutationSteps
  import opened Safety
  import opened Theorems

  // ---------- Each record exactly once ----------

  /**
   FINAL shows the record's ID in its stream's table, every row of it is the
   batch's, and no other table of the product has the ID.
   */
  ghost predicate OnceUnderFinal(streams: seq<StreamRow>, batch: Batch, record: Record)
  {
    && (exists r :: r in streams && IsNewest(streams, r) && Carries(r, batch, record))
    && (forall r | r in streams && r.key.product == batch.scope.product && r.key.record == record.id :: Carries(r, batch, record))
  }

  /** In a batch without repeated IDs, every such row is a copy of that very record. */
  lemma CarriesIsCopy(t: StreamRow, batch: Batch, record: Record)
    requires DistinctIds(batch) && record in batch.records
    ensures Carries(t, batch, record) <==>
              t.key == StreamKeyOf(batch, record.id) && t.data == StreamData(batch.scope, batch.id, record.payload)
  {
    if Carries(t, batch, record) {
      var i :| 0 <= i < |batch.records| && batch.records[i] == record;
      var j :| 0 <= j < |batch.records| && batch.records[j] == Record(record.id, t.data.payload);
      assert i == j;
    }
  }

  lemma WrittenIsOnce(s: Sys, batch: Batch, record: Record)
    requires LedgerOk(s.ledger) && StreamsOk(s.streams, s.registry) && RegistryOk(s.registry, s.ledger)
    requires HasStreamRow(s.streams, batch, record) && InLedger(s.ledger, batch)
    ensures OnceUnderFinal(s.streams, batch, record)
  {
    var r :| r in s.streams && Carries(r, batch, record);
    assert r.key.product == batch.scope.product && r.key.record == record.id by {
      CarriesKey(r, batch, record);
    }
    forall q | q in s.streams && q.key.product == batch.scope.product && q.key.record == record.id
      ensures Carries(q, batch, record)
    {
      var other := StreamKeyDeterminesRow(s.streams, s.registry, s.ledger, r, q);
      CopyCarries(s.ledger, r, q, other, batch, record);
    }
    var n := NewestExists(s.streams, r);
  }

  lemma CarriesKey(t: StreamRow, batch: Batch, record: Record)
    requires Carries(t, batch, record)
    ensures t.key == StreamKeyOf(batch, record.id)
  {
  }

  /** A batch recorded as completed, in a scope nobody asked to delete, is there exactly once, record by record. */
  lemma ExactlyOnce(run: seq<Sys>, actions: seq<Action>, i: nat, l: LedgerRow, record: Record)
    requires IsRun(run, actions) && i < |run|
    requires l in run[i].ledger && l.data.status == StatusCompleted
    requires !DeletionRequested(run[i].history, l.data.sha.batch.scope)
    requires record in l.data.sha.batch.records
    ensures OnceUnderFinal(run[i].streams, l.data.sha.batch, record)
  {
    hide IsRun, HistoryOk, ErasureOk, WriterOk, V1Ok, DeleterOk, RegistryOk, DeletionRequested, AllRegistered, InLedger;
    RunInv(run, actions, i);
    assert AllWritten(run[i].streams, l.data.sha.batch);
    RowsAreInLedger(run[i].ledger);
    WrittenIsOnce(run[i], l.data.sha.batch, record);
  }

  // ---------- Ledger rows from one state to the next ----------

  lemma LedgerGrowsOrShrinks(s: Sys, a: Action, s': Sys)
    requires Next(s, a, s')
    ensures (forall r | r in s.ledger :: r in s'.ledger) || (forall r | r in s'.ledger :: r in s.ledger)
  {
    hide WriterEnabled, WriterApply, WorkerEnabled, WorkerApply, V1SuppressionRead, Sent, MutationEnabled, MutationApply;
    match a
    case ByWriter(w) => WriterLedger(s, w);
    case ByWorker(k) => WorkerLedger(s, k);
    case ByMerge(m) =>
      if m.MergeLedger? {
        WithoutKeeps(s.ledger, m.i);
      }
    case ByV1(v) =>
    case ByMutation(m, i) => MutationLedger(s, m, i);
  }

  lemma WriterLedger(s: Sys, a: WriterAction)
    requires WriterEnabled(s, a)
    ensures forall r | r in s.ledger :: r in WriterApply(s, a).ledger
    ensures !a.Reserve? && !a.CompleteBatch? ==> WriterApply(s, a).ledger == s.ledger
    ensures !a.CommitRequest? ==> WriterApply(s, a).history == s.history
  {
  }

  lemma WorkerLedger(s: Sys, a: WorkerAction)
    requires WorkerEnabled(s, a)
    ensures WorkerApply(s, a).ledger == s.ledger && WorkerApply(s, a).registry == s.registry
    ensures WorkerApply(s, a).streams == s.streams && WorkerApply(s, a).v1Rows == s.v1Rows
  {
  }

  /** A mutation takes at most one row away, and only from its own table. */
  lemma MutationLedger(s: Sys, mutation: nat, index: nat)
    requires MutationEnabled(s, mutation, index)
    ensures var m, s' := s.mutations[mutation], MutationApply(s, mutation, index);
            && (TableOf(m) == LedgerTable ==> index < |s.ledger| && s'.ledger == Without(s.ledger, index))
            && (TableOf(m) != LedgerTable ==> s'.ledger == s.ledger)
            && (TableOf(m).StreamTable? ==> index < |s.streams| && s'.streams == Without(s.streams, index))
            && (!TableOf(m).StreamTable? ==> s'.streams == s.streams)
            && s'.history == s.history
    ensures forall r | r in MutationApply(s, mutation, index).ledger :: r in s.ledger
    ensures forall r | r in MutationApply(s, mutation, index).streams :: r in s.streams
  {
    hide TablesOf;
    var m := s.mutations[mutation];
    if TableOf(m) == LedgerTable {
      WithoutKeeps(s.ledger, index);
    }
    if TableOf(m).StreamTable? {
      WithoutKeeps(s.streams, index);
    }
  }

  /** The body a batch ID stands for never changes while a row of it is stored. */
  lemma BodyIsFixed(run: seq<Sys>, actions: seq<Action>, i: nat, l: LedgerRow, l': LedgerRow)
    requires IsRun(run, actions) && i < |actions|
    requires l in run[i].ledger && l' in run[i + 1].ledger && l.key == l'.key
    ensures l.data.sha == l'.data.sha
  {
    RunInv(run, actions, i);
    RunInv(run, actions, i + 1);
    LedgerGrowsOrShrinks(run[i], actions[i], run[i + 1]);
    if l in run[i + 1].ledger {
      assert SameBatch(l, l');
    } else {
      assert SameBatch(l', l);
    }
  }

  lemma KeyFixesBody(run: seq<Sys>, actions: seq<Action>, i: nat, l: LedgerRow, l': LedgerRow)
    requires IsRun(run, actions) && i < |run|
    requires l in run[i].ledger && l' in run[i].ledger && l.key == l'.key
    ensures l.data.sha == l'.data.sha
  {
    hide IsRun, ChainOk, HistoryOk, ErasureOk, WritersOk, DeleterOk;
    RunInv(run, actions, i);
    assert SameBatch(l, l');
  }

  lemma {:induction false} BodyIsFixedWhileStored(run: seq<Sys>, actions: seq<Action>, i: nat, j: nat, l: LedgerRow, l': LedgerRow)
    requires IsRun(run, actions) && i <= j < |run|
    requires l in run[i].ledger && l' in run[j].ledger && l.key == l'.key
    requires forall m | i <= m <= j :: !NoRow(run[m].ledger, l.key)
    ensures l.data.sha == l'.data.sha
    decreases j
  {
    hide IsRun, NoRow;
    if i == j {
      KeyFixesBody(run, actions, i, l, l');
    } else {
      assert !NoRow(run[j - 1].ledger, l.key);
      var m := StoredRow(run[j - 1].ledger, l.key);
      BodyIsFixedWhileStored(run, actions, i, j - 1, l, m);
      StepOfRun(run, actions, j - 1);
      BodyIsFixed(run, actions, j - 1, m, l');
    }
  }

  lemma StoredRow(ledger: seq<LedgerRow>, key: BatchKey) returns (l: LedgerRow)
    requires !NoRow(ledger, key)
    ensures l in ledger && l.key == key
  {
    l :| l in ledger && l.key == key;
  }

  lemma StepOfRun(run: seq<Sys>, actions: seq<Action>, i: nat)
    requires IsRun(run, actions) && i + 1 < |run|
    ensures i < |actions| && Next(run[i], actions[i], run[i + 1])
  {
  }

  // ---------- Completed batches ----------

  /** The mutation deletes the ledger rows of the scope, and the row was there when it was submitted. */
  predicate MayRemove(m: Mutation, c: LedgerRow)
  {
    HasTable(m) && TableOf(m) == LedgerTable && DeleteMatches(m.scope, c.data.scope) && c in m.before.ledger
  }

  /** The action takes the only copy of the row away, on behalf of a deletion. */
  predicate Removes(s: Sys, a: Action, c: LedgerRow)
  {
    && a.ByMutation? && a.mutation < |s.mutations| && MayRemove(s.mutations[a.mutation], c)
    && a.index < |s.ledger| && s.ledger[a.index] == c && OnlyCopy(s.ledger, c)
  }

  predicate OnlyCopy(ledger: seq<LedgerRow>, c: LedgerRow)
  {
    forall i, j | 0 <= i < |ledger| && 0 <= j < |ledger| && ledger[i] == c && ledger[j] == c :: i == j
  }

  /** A completed row leaves the ledger just when a mutation of the ledger takes its only copy away. */
  lemma CompletionPersists(s: Sys, a: Action, s': Sys, c: LedgerRow)
    requires Inv(s) && Next(s, a, s')
    requires c in s.ledger && c.data.status == StatusCompleted
    ensures c !in s'.ledger <==> Removes(s, a, c)
  {
    hide ChainOk, HistoryOk, ErasureOk, WritersOk, DeleterOk, WriterEnabled, WriterApply, WorkerEnabled, WorkerApply,
         V1Enabled, MutationEnabled, MutationApply, MayRemove;
    match a
    case ByWriter(w) => WriterLedger(s, w);
    case ByV1(v) =>
    case ByWorker(k) => WorkerLedger(s, k);
    case ByMerge(m) =>
      if m.MergeLedger? {
        WithoutKeeps(s.ledger, m.i);
        if c == s.ledger[m.i] {
          assert SameBatch(s.ledger[m.j], c) && SameBatch(c, s.ledger[m.j]) && LedgerRowOk(s.ledger[m.j]);
        }
      }
    case ByMutation(m, i) => RemovedCompletion(s, m, i, c);
  }

  lemma RemovedCompletion(s: Sys, mutation: nat, index: nat, c: LedgerRow)
    requires MutationEnabled(s, mutation, index) && c in s.ledger
    ensures c !in MutationApply(s, mutation, index).ledger <==> Removes(s, ByMutation(mutation, index), c)
  {
    hide MutationApply;
    MutationLedger(s, mutation, index);
    var m := s.mutations[mutation];
    if TableOf(m) == LedgerTable {
      WithoutKeeps(s.ledger, index);
      var rest := Without(s.ledger, index);
      if c in rest {
        var j :| 0 <= j < |rest| && rest[j] == c;
        assert s.ledger[if j < index then j else j + 1] == c;
      } else {
        assert s.ledger[index] == c;
      }
    }
  }

  /** FINAL answers that the batch is reserved. */
  ghost predicate AnswersReserved(ledger: seq<LedgerRow>, key: BatchKey)
  {
    exists r: LedgerRow :: r.data.status == StatusReserved && FinalRead(ledger, key, Some(r))
  }

  /** A mutation of the ledger may still take the only copy of the row away, and its reservation is left. */
  ghost predicate MayTurnBack(s: Sys, c: LedgerRow)
  {
    && (exists m :: m in s.mutations && MayRemove(m, c))
    && OnlyCopy(s.ledger, c)
    && exists r :: r in s.ledger && r.key == c.key && r.data.status == StatusReserved
  }

  /**
   The status of a completed batch goes back to `reserved` with the next
   statement exactly when that deletion stands open.
   */
  lemma TurnsBackExactly(s: Sys, c: LedgerRow)
    requires Inv(s) && c in s.ledger && c.data.status == StatusCompleted
    ensures (exists a, s' :: Next(s, a, s') && AnswersReserved(s'.ledger, c.key)) <==> MayTurnBack(s, c)
  {
    hide Inv, Next;
    if exists a, s' :: Next(s, a, s') && AnswersReserved(s'.ledger, c.key) {
      var a, s' :| Next(s, a, s') && AnswersReserved(s'.ledger, c.key);
      TurnedBack(s, a, s', c);
    }
    if MayTurnBack(s, c) {
      var a, s' := TurnBack(s, c);
      assert Next(s, a, s') && AnswersReserved(s'.ledger, c.key);
    }
  }

  lemma TurnedBack(s: Sys, a: Action, s': Sys, c: LedgerRow)
    requires Inv(s) && Next(s, a, s') && AnswersReserved(s'.ledger, c.key)
    requires c in s.ledger && c.data.status == StatusCompleted
    ensures MayTurnBack(s, c) && Removes(s, a, c)
  {
    hide Inv, Next;
    var r: LedgerRow :| r.data.status == StatusReserved && FinalRead(s'.ledger, c.key, Some(r));
    ReservedIsOld(s, a, s', c, r);
    CompletionPersists(s, a, s', c);
    ReservationIsOlder(s, r, c);
  }

  lemma ReservationIsOlder(s: Sys, r: LedgerRow, c: LedgerRow)
    requires Inv(s) && r in s.ledger && c in s.ledger && r.key == c.key
    requires r.data.status == StatusReserved && c.data.status == StatusCompleted
    ensures r.version < c.version
  {
    assert SameBatch(r, c);
  }

  /** No statement reserves a batch that has a row. */
  lemma ReservedIsOld(s: Sys, a: Action, s': Sys, c: LedgerRow, r: LedgerRow)
    requires Inv(s) && Next(s, a, s') && c in s.ledger
    requires r in s'.ledger && r.key == c.key && r.data.status == StatusReserved
    ensures r in s.ledger
  {
    hide LedgerOk, ChainOk, HistoryOk, ErasureOk, CompletedIsWritten, V1Ok, DeleterOk, WorkerEnabled, WorkerApply,
         V1SuppressionRead, Sent, MutationEnabled, MutationApply, SuppressionRead, Clashes, ValidBatch, Suppressed,
         NoClash, AllRegistered, AllWritten, HoldsReservation;
    match a
    case ByWriter(w) =>
    case ByV1(v) =>
    case ByWorker(k) => WorkerLedger(s, k);
    case ByMerge(m) =>
      if m.MergeLedger? {
        WithoutKeeps(s.ledger, m.i);
      }
    case ByMutation(m, i) => MutationLedger(s, m, i);
  }

  lemma TurnBack(s: Sys, c: LedgerRow) returns (a: Action, s': Sys)
    requires Inv(s) && c in s.ledger && c.data.status == StatusCompleted && MayTurnBack(s, c)
    ensures Next(s, a, s') && Removes(s, a, c) && AnswersReserved(s'.ledger, c.key)
  {
    hide Inv, LedgerOk, OnlyCopy, DeleteMatches, TablesOf, AnswersReserved, MutationApply;
    var m :| m in s.mutations && MayRemove(m, c);
    var r :| r in s.ledger && r.key == c.key && r.data.status == StatusReserved;
    var k :| 0 <= k < |s.mutations| && s.mutations[k] == m;
    var i :| 0 <= i < |s.ledger| && s.ledger[i] == c;
    assert MutationEnabled(s, k, i);
    a, s' := ByMutation(k, i), MutationApply(s, k, i);
    MutationLedger(s, k, i);
    LedgerIsOk(s);
    ReservationIsLeft(s.ledger, i, c, r);
  }

  lemma LedgerIsOk(s: Sys)
    requires Inv(s)
    ensures LedgerOk(s.ledger)
  {
    hide LedgerOk, ChainOk, HistoryOk, ErasureOk, WritersOk, DeleterOk;
  }

  lemma ReservationIsLeft(ledger: seq<LedgerRow>, i: nat, c: LedgerRow, r: LedgerRow)
    requires LedgerOk(ledger) && i < |ledger| && ledger[i] == c && OnlyCopy(ledger, c) && c.data.status == StatusCompleted
    requires r in ledger && r.key == c.key && r.data.status == StatusReserved
    ensures AnswersReserved(Without(ledger, i), c.key)
  {
    hide ValidBatch;
    var rest := Without(ledger, i);
    WithoutKeeps(ledger, i);
    forall q | q in rest && q.key == r.key
      ensures q == r
    {
      var j :| 0 <= j < |rest| && rest[j] == q;
      assert ledger[if j < i then j else j + 1] == q;
      assert SameBatch(q, r) && SameBatch(q, c) && LedgerRowOk(q);
    }
    assert FinalRead(rest, c.key, Some(r));
  }

  /** In a run, the look-up of a batch once completed answers with its completion exactly until a deletion takes it away. */
  lemma CompletedUntilRemoved(
    run: seq<Sys>, actions: seq<Action>, i: nat, j: nat, c: LedgerRow, found: Option<LedgerRow>)
    requires IsRun(run, actions) && i <= j < |run|
    requires c in run[i].ledger && c.data.status == StatusCompleted
    requires FinalRead(run[j].ledger, c.key, found)
    ensures found == Some(c) <==> forall m | i <= m < j && m < |actions| :: !Removes(run[m], actions[m], c)
  {
    hide IsRun, ChainOk, HistoryOk, ErasureOk, WritersOk, DeleterOk, Removes;
    CompletionStays(run, actions, i, j, c);
    RunInv(run, actions, j);
    if c in run[j].ledger {
      var r := found.value;
      assert SameBatch(r, c) && SameBatch(c, r) && LedgerRowOk(r);
    }
  }

  lemma {:induction false} CompletionStays(run: seq<Sys>, actions: seq<Action>, i: nat, j: nat, c: LedgerRow)
    requires IsRun(run, actions) && i <= j < |run|
    requires c in run[i].ledger && c.data.status == StatusCompleted
    ensures c in run[j].ledger <==> forall m | i <= m < j && m < |actions| :: !Removes(run[m], actions[m], c)
    ensures c in run[j].ledger || Suppressed(run[j].history, c.data.scope)
    decreases j
  {
    hide IsRun, Inv, Next, Suppressed, Remembers, Removes;
    if i < j {
      CompletionStays(run, actions, i, j - 1, c);
      RunInv(run, actions, j - 1);
      StepOfRun(run, actions, j - 1);
      RunRemembers(run, actions, j - 1, j);
      if Suppressed(run[j - 1].history, c.data.scope) {
        SuppressionRemains(run[j - 1], run[j], c.data.scope);
      }
      if c in run[j - 1].ledger {
        CompletionPersists(run[j - 1], actions[j - 1], run[j], c);
        if Removes(run[j - 1], actions[j - 1], c) {
          RemovedIsSuppressed(run[j - 1], actions[j - 1], run[j], c);
        }
      } else {
        NextAdds(run[j - 1], actions[j - 1], run[j]);
        NoMoreIsIn(run[j - 1].ledger, run[j].ledger, c);
      }
    }
  }

  lemma SuppressionRemains(s: Sys, s': Sys, scope: Scope)
    requires Remembers(s, s') && Suppressed(s.history, scope)
    ensures Suppressed(s'.history, scope)
  {
    var k :| k in s.history && s.history[k] != [] && GateMatches(s.history[k][0].data.scope, scope);
    assert s'.history[k][0] == s.history[k][0];
  }

  lemma RemovedIsSuppressed(s: Sys, a: Action, s': Sys, c: LedgerRow)
    requires Inv(s) && Next(s, a, s') && Removes(s, a, c)
    ensures Suppressed(s'.history, c.data.scope)
    ensures DeletionRequested(s.history, c.data.scope)
  {
    hide Inv, RowCovered;
    var m := s.mutations[a.mutation];
    SubmittedIsOrdered(s, m);
    TableNumbers(s, m);
    RemovedIsRequested(s, m, c.data.scope);
    MutationLedger(s, a.mutation, a.index);
  }

  lemma DeletionStaysRequested(s: Sys, s': Sys, scope: Scope)
    requires Remembers(s, s') && DeletionRequested(s.history, scope)
    ensures DeletionRequested(s'.history, scope)
  {
    var k :| k in s.history && s.history[k] != [] && Deletes(s.history[k][0], scope);
    assert s'.history[k][0] == s.history[k][0];
  }

  /** A batch once completed stays completed, and replays, as long as nobody asks to delete its scope. */
  lemma CompletedNeverTurnsBack(
    run: seq<Sys>, actions: seq<Action>, i: nat, j: nat, c: LedgerRow, found: Option<LedgerRow>)
    requires IsRun(run, actions) && i <= j < |run|
    requires c in run[i].ledger && c.data.status == StatusCompleted
    requires !DeletionRequested(run[j].history, c.data.scope)
    requires FinalRead(run[j].ledger, c.key, found)
    ensures found == Some(c)
  {
    hide IsRun, Removes, DeletionRequested;
    forall m | i <= m < j && m < |actions|
      ensures !Removes(run[m], actions[m], c)
    {
      if Removes(run[m], actions[m], c) {
        RunInv(run, actions, m);
        StepOfRun(run, actions, m);
        RemovedIsSuppressed(run[m], actions[m], run[m + 1], c);
        RunRemembers(run, actions, m, j);
        DeletionStaysRequested(run[m], run[j], c.data.scope);
        assert false;
      }
    }
    CompletedUntilRemoved(run, actions, i, j, c, found);
  }
}
