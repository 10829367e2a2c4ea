/**
 Every row the server removes for a submitted mutation keeps the invariant,
 whatever the worker that submitted it does meanwhile.
 */
module MutationSteps {
  import opened Tables
  import opened Telemetry
  import opened Protocol
  import opened History
  import opened Invariant
  import opened Facts
  import opened OtherSteps

  /** A mutation of the V2 tables of a stored request. */
  ghost predicate DeletesScope(s: Sys, m: Mutation)
  {
    IsDeleting(s.history, m.key, m.scope, m.legacyInstallation) && m.legacyInstallation.None?
  }

  lemma RemovedIsRequested(s: Sys, m: Mutation, scope: Scope)
    requires DeletesScope(s, m) && DeleteMatches(m.scope, scope)
    ensures DeletionRequested(s.history, scope) && Suppressed(s.history, scope)
  {
    assert Deletes(s.history[m.key][0], scope);
    GateIsDelete(m.scope, scope);
  }

  lemma RemovalKeepsWritten(s: Sys, m: Mutation, index: nat, batch: Batch)
    requires DeletesScope(s, m)
    requires index < |s.streams| && DeleteMatches(m.scope, s.streams[index].data.scope)
    requires !DeletionRequested(s.history, batch.scope) && AllWritten(s.streams, batch)
    ensures AllWritten(Without(s.streams, index), batch)
  {
    WithoutKeeps(s.streams, index);
    forall r | r in batch.records
      ensures HasStreamRow(Without(s.streams, index), batch, r)
    {
      assert HasStreamRow(s.streams, batch, r);
      var t :| t in s.streams && Carries(t, batch, r);
      if t == s.streams[index] {
        RemovedIsRequested(s, m, batch.scope);
        assert false;
      }
    }
  }

  lemma RemovalKeepsRegistered(s: Sys, m: Mutation, index: nat, l: LedgerRow)
    requires RegistryOk(s.registry, s.ledger) && LedgerOk(s.ledger) && l in s.ledger
    requires DeletesScope(s, m)
    requires index < |s.registry| && DeleteMatches(m.scope, s.registry[index].data.scope)
    requires !DeletionRequested(s.history, l.data.sha.batch.scope) && AllRegistered(s.registry, l.data.sha.batch)
    ensures AllRegistered(Without(s.registry, index), l.data.sha.batch)
  {
    WithoutKeeps(s.registry, index);
    var batch := l.data.sha.batch;
    forall r | r in batch.records
      ensures HasRegistryRow(Without(s.registry, index), batch.scope.product, r.id, batch.id)
    {
      assert HasRegistryRow(s.registry, batch.scope.product, r.id, batch.id);
      var g :| g in s.registry && g.key == RecordKey(batch.scope.product, r.id) && g.data.batch == batch.id;
      if g == s.registry[index] {
        OwnerScope(s, g, l);
        RemovedIsRequested(s, m, batch.scope);
        assert false;
      }
    }
  }

  /** A registry row of a batch carries the scope of that batch's ledger row. */
  lemma OwnerScope(s: Sys, g: RegistryRow, l: LedgerRow)
    requires RegistryOk(s.registry, s.ledger) && LedgerOk(s.ledger) && l in s.ledger && g in s.registry
    requires l.key == BatchKey(g.key.product, g.data.batch)
    ensures g.data.sha == l.data.sha && g.data.scope == l.data.sha.batch.scope
  {
    assert HasLedgerRow(s.ledger, g.key.product, g.data.batch, g.data.sha);
    var h :| h in s.ledger && h.key == BatchKey(g.key.product, g.data.batch) && h.data.sha == g.data.sha;
    assert SameBatch(l, h) && RegistryRowOk(g);
  }

  /** The tables before the mutation's own hold nothing of the request. */
  lemma EarlierTablesAreClear(s: Sys, m: Mutation, i: nat)
    requires Ordered(m, s.history, s.marks) && i < m.index
    requires DoneIsClear(s.ledger, s.registry, s.streams, s.v1Rows, s.history, s.marks)
    ensures Clear(s.ledger, s.registry, s.streams, s.v1Rows, m.scope, m.legacyInstallation, TablesOf(m.legacyInstallation)[i])
  {
    hide TablesOf;
    assert TableDone(s.marks, ProgressKey(m.key, TablesOf(m.legacyInstallation)[i]));
  }

  lemma NoStreamRowLeft(s: Sys, m: Mutation, r: StreamRow)
    requires Ordered(m, s.history, s.marks) && m.legacyInstallation.None? && m.index >= 5
    requires DoneIsClear(s.ledger, s.registry, s.streams, s.v1Rows, s.history, s.marks)
    requires r in s.streams
    ensures !DeleteMatches(m.scope, r.data.scope)
  {
    hide Ordered, DeleteMatches;
    var i := match r.key.stream case Common => 0 case Technical => 1 case Plays => 2 case Product => 3 case Outcomes => 4;
    EarlierTablesAreClear(s, m, i);
    assert TablesOf(m.legacyInstallation)[i] == StreamTable(r.key.stream);
  }

  lemma RemovedRegistryIsOk(s: Sys, m: Mutation, index: nat)
    requires RegistryOk(s.registry, s.ledger) && StreamsOk(s.streams, s.registry)
    requires index < |s.registry| && DeleteMatches(m.scope, s.registry[index].data.scope)
    requires Ordered(m, s.history, s.marks) && m.legacyInstallation.None? && m.index >= 5
    requires DoneIsClear(s.ledger, s.registry, s.streams, s.v1Rows, s.history, s.marks)
    ensures RegistryOk(Without(s.registry, index), s.ledger) && StreamsOk(s.streams, Without(s.registry, index))
  {
    WithoutKeeps(s.registry, index);
    forall r | r in s.streams
      ensures Owned(Without(s.registry, index), r)
    {
      NoStreamRowLeft(s, m, r);
      assert Owned(s.registry, r);
      var g :| && g in s.registry && g.key == RecordKey(r.key.product, r.key.record)
               && r == StreamRowFor(g.data.sha.batch, Record(r.key.record, r.data.payload), r.version)
               && Record(r.key.record, r.data.payload) in g.data.sha.batch.records;
      assert RegistryRowOk(g);
      assert g.data.scope == r.data.scope;
      assert g in Without(s.registry, index);
    }
  }

  lemma RemovedLedgerIsOk(s: Sys, m: Mutation, index: nat)
    requires RegistryOk(s.registry, s.ledger) && LedgerOk(s.ledger)
    requires index < |s.ledger| && DeleteMatches(m.scope, s.ledger[index].data.scope)
    requires Clear(s.ledger, s.registry, s.streams, s.v1Rows, m.scope, m.legacyInstallation, RegistryTable)
    ensures RegistryOk(s.registry, Without(s.ledger, index)) && LedgerOk(Without(s.ledger, index))
  {
    WithoutKeeps(s.ledger, index);
    forall g | g in s.registry
      ensures HasLedgerRow(Without(s.ledger, index), g.key.product, g.data.batch, g.data.sha)
    {
      assert HasLedgerRow(s.ledger, g.key.product, g.data.batch, g.data.sha);
      var l :| l in s.ledger && l.key == BatchKey(g.key.product, g.data.batch) && l.data.sha == g.data.sha;
      assert RegistryRowOk(g) && LedgerRowOk(l);
      assert l in Without(s.ledger, index);
    }
  }

  /** Rows of an in-flight batch are not among those the server removes. */
  lemma RemovedLedgerKeepsWriter(s: Sys, m: Mutation, index: nat)
    requires DeletesScope(s, m)
    requires index < |s.ledger| && DeleteMatches(m.scope, s.ledger[index].data.scope)
    requires WriterOk(s.writer, s.ledger, s.registry, s.streams, s.history)
    ensures WriterOk(s.writer, Without(s.ledger, index), s.registry, s.streams, s.history)
  {
    hide AllWritten, Suppressed, DeleteMatches;
    RemovedIsRequested(s, m, s.ledger[index].data.scope);
    WithoutKeeps(s.ledger, index);
  }

  lemma RemovedStreamKeepsWritten(s: Sys, m: Mutation, index: nat)
    requires DeletesScope(s, m)
    requires index < |s.streams| && DeleteMatches(m.scope, s.streams[index].data.scope)
    requires CompletedIsWritten(s.ledger, s.registry, s.streams, s.history)
    requires WriterOk(s.writer, s.ledger, s.registry, s.streams, s.history)
    ensures CompletedIsWritten(s.ledger, s.registry, Without(s.streams, index), s.history)
    ensures WriterOk(s.writer, s.ledger, s.registry, Without(s.streams, index), s.history)
  {
    hide HoldsReservation, Suppressed, DeletionRequested, DeleteMatches;
    forall batch: Batch | !DeletionRequested(s.history, batch.scope) && AllWritten(s.streams, batch)
      ensures AllWritten(Without(s.streams, index), batch)
    {
      RemovalKeepsWritten(s, m, index, batch);
    }
    if s.writer.Written? {
      UnsuppressedIsUntouched(s.history, s.writer.sha.batch.scope);
    }
  }

  lemma RemovedRegistryKeepsCompleted(s: Sys, m: Mutation, index: nat)
    requires DeletesScope(s, m) && RegistryOk(s.registry, s.ledger) && LedgerOk(s.ledger)
    requires index < |s.registry| && DeleteMatches(m.scope, s.registry[index].data.scope)
    requires CompletedIsWritten(s.ledger, s.registry, s.streams, s.history)
    ensures CompletedIsWritten(s.ledger, Without(s.registry, index), s.streams, s.history)
  {
    hide AllWritten, RegistryOk, LedgerOk;
    forall l | l in s.ledger && !DeletionRequested(s.history, l.data.sha.batch.scope) && AllRegistered(s.registry, l.data.sha.batch)
      ensures AllRegistered(Without(s.registry, index), l.data.sha.batch)
    {
      RemovalKeepsRegistered(s, m, index, l);
    }
  }

  lemma RemovedRegistryKeepsWriter(s: Sys, m: Mutation, index: nat)
    requires DeletesScope(s, m) && RegistryOk(s.registry, s.ledger) && LedgerOk(s.ledger)
    requires index < |s.registry| && DeleteMatches(m.scope, s.registry[index].data.scope)
    requires WriterOk(s.writer, s.ledger, s.registry, s.streams, s.history)
    ensures WriterOk(s.writer, s.ledger, Without(s.registry, index), s.streams, s.history)
  {
    hide ValidBatch, Clashes, RegistryOk, LedgerOk;
    WithoutKeeps(s.registry, index);
    if s.writer.Registered? || s.writer.Written? {
      UnsuppressedIsUntouched(s.history, s.writer.sha.batch.scope);
      var l := LedgerRowFor(s.writer.sha, StatusReserved, s.writer.at);
      assert l in s.ledger;
      RemovalKeepsRegistered(s, m, index, l);
    }
  }

  // ---------- One row ----------

  /** Which table of which request a mutation is for, by its number. */
  lemma TableNumbers(s: Sys, m: Mutation)
    requires Ordered(m, s.history, s.marks)
    ensures HasTable(m)
    ensures TableOf(m).StreamTable? ==> DeletesScope(s, m)
    ensures TableOf(m).RegistryTable? ==> DeletesScope(s, m) && m.index == 5
    ensures TableOf(m).LedgerTable? ==> DeletesScope(s, m) && m.index == 6 && TablesOf(m.legacyInstallation)[5] == RegistryTable
    ensures m.legacyInstallation.Some? <==> TableOf(m) in {EventsTable, SummariesTable}
  {
  }

  lemma RemoveStreamKeepsInv(s: Sys, m: Mutation, index: nat)
    requires Inv(s) && Ordered(m, s.history, s.marks) && TableOf(m).StreamTable? && RowCovered(ContentsOf(s), m, index)
    ensures Inv(RemoveCovered(s, m, index))
  {
    hide RegistryOk, HistoryOk, MarksOk, DoneIsClear, V1Ok, WorkerOk, MutationsOk, WriterOk, CompletedIsWritten, Ordered, DeletesScope,
         DeleteMatches, Owned, TablesOf;
    TableNumbers(s, m);
    WithoutKeeps(s.streams, index);
    DroppingKeepsClear(s, RemoveCovered(s, m, index));
    RemovedStreamKeepsWritten(s, m, index);
  }

  lemma RemoveRegistryKeepsInv(s: Sys, m: Mutation, index: nat)
    requires Inv(s) && Ordered(m, s.history, s.marks) && TableOf(m).RegistryTable? && RowCovered(ContentsOf(s), m, index)
    ensures Inv(RemoveCovered(s, m, index))
  {
    hide RegistryOk, StreamsOk, HistoryOk, MarksOk, DoneIsClear, CompletedIsDone, V1Ok, WorkerOk, MutationsOk, WriterOk,
         CompletedIsWritten, Ordered, DeletesScope, DeleteMatches, TablesOf;
    TableNumbers(s, m);
    WithoutKeeps(s.registry, index);
    DroppingKeepsClear(s, RemoveCovered(s, m, index));
    RemovedRegistryIsOk(s, m, index);
    RemovedRegistryKeepsCompleted(s, m, index);
    RemovedRegistryKeepsWriter(s, m, index);
  }

  lemma RemovedLedgerKeepsCompleted(s: Sys, index: nat)
    requires index < |s.ledger| && CompletedIsWritten(s.ledger, s.registry, s.streams, s.history)
    ensures CompletedIsWritten(Without(s.ledger, index), s.registry, s.streams, s.history)
  {
    WithoutKeeps(s.ledger, index);
  }

  lemma RemoveLedgerKeepsInv(s: Sys, m: Mutation, index: nat)
    requires Inv(s) && Ordered(m, s.history, s.marks) && TableOf(m).LedgerTable? && RowCovered(ContentsOf(s), m, index)
    ensures Inv(RemoveCovered(s, m, index))
  {
    hide StreamsOk, HistoryOk, MarksOk, DoneIsClear, CompletedIsDone, WriterOk, V1Ok, WorkerOk, MutationsOk, CompletedIsWritten, Ordered,
         DeletesScope, DeleteMatches, TablesOf;
    TableNumbers(s, m);
    WithoutKeeps(s.ledger, index);
    DroppingKeepsClear(s, RemoveCovered(s, m, index));
    EarlierTablesAreClear(s, m, 5);
    RemovedLedgerIsOk(s, m, index);
    RemovedLedgerKeepsWriter(s, m, index);
    RemovedLedgerKeepsCompleted(s, index);
  }

  lemma RemoveV1KeepsInv(s: Sys, m: Mutation, index: nat)
    requires Inv(s) && HasTable(m) && TableOf(m) in {EventsTable, SummariesTable} && RowCovered(ContentsOf(s), m, index)
    ensures Inv(RemoveCovered(s, m, index))
  {
    hide LedgerOk, ChainOk, HistoryOk, MarksOk, DoneIsClear, CompletedIsDone, WritersOk, WorkerOk, MutationsOk, TablesOf;
    WithoutKeeps(s.v1Rows, index);
    DroppingKeepsClear(s, RemoveCovered(s, m, index));
  }

  lemma MutationKeepsInv(s: Sys, mutation: nat, index: nat)
    requires Inv(s) && MutationEnabled(s, mutation, index)
    ensures Inv(MutationApply(s, mutation, index))
  {
    hide Inv, Ordered, TablesOf;
    var m := s.mutations[mutation];
    SubmittedIsOrdered(s, m);
    match TableOf(m)
    case StreamTable(_) => RemoveStreamKeepsInv(s, m, index);
    case RegistryTable => RemoveRegistryKeepsInv(s, m, index);
    case LedgerTable => RemoveLedgerKeepsInv(s, m, index);
    case EventsTable => RemoveV1KeepsInv(s, m, index);
    case SummariesTable => RemoveV1KeepsInv(s, m, index);
  }

  lemma SubmittedIsOrdered(s: Sys, m: Mutation)
    requires Inv(s) && m in s.mutations
    ensures Ordered(m, s.history, s.marks) && Covers(ContentsOf(s), m)
  {
    hide ChainOk, HistoryOk, ErasureOk, WritersOk, WorkerOk, Ordered, Covers;
  }

  lemma InstallationIsSuppressed(s: Sys, m: Mutation)
    requires Ordered(m, s.history, s.marks) && m.legacyInstallation.Some?
    ensures LegacySuppressed(s.history, m.legacyInstallation.value)
  {
    assert s.history[m.key][0].data.legacyInstallation == m.legacyInstallation;
  }

  /** What a mutation removes was asked to be deleted. */
  lemma RemovedByRequest(s: Sys, m: Mutation, index: nat)
    requires Inv(s) && m in s.mutations && HasTable(m) && RowCovered(ContentsOf(s), m, index)
    ensures TableOf(m).StreamTable? ==> DeletionRequested(s.history, s.streams[index].data.scope) && Suppressed(s.history, s.streams[index].data.scope)
    ensures TableOf(m).RegistryTable? ==> DeletionRequested(s.history, s.registry[index].data.scope)
    ensures TableOf(m).LedgerTable? ==> DeletionRequested(s.history, s.ledger[index].data.scope)
    ensures TableOf(m) in {EventsTable, SummariesTable} ==> LegacySuppressed(s.history, s.v1Rows[index].key.installation)
  {
    hide Inv, LegacySuppressed, TablesOf;
    SubmittedIsOrdered(s, m);
    TableNumbers(s, m);
    match TableOf(m)
    case StreamTable(_) => RemovedIsRequested(s, m, s.streams[index].data.scope);
    case RegistryTable => RemovedIsRequested(s, m, s.registry[index].data.scope);
    case LedgerTable => RemovedIsRequested(s, m, s.ledger[index].data.scope);
    case _ => InstallationIsSuppressed(s, m);
  }

  // ---------- Until a mutation is done ----------

  function TableSize(c: Contents, table: Table): nat
  {
    match table
    case StreamTable(_) => |c.streams|
    case RegistryTable => |c.registry|
    case LedgerTable => |c.ledger|
    case _ => |c.v1Rows|
  }

  ghost predicate NoneCovered(c: Contents, m: Mutation, n: nat)
    requires HasTable(m)
  {
    forall j: nat | n <= j < TableSize(c, TableOf(m)) :: !RowCovered(c, m, j)
  }

  /** Removing a row moves the later ones up. */
  lemma RowsMoveUp(s: Sys, m: Mutation, n: nat)
    requires HasTable(m) && RowCovered(ContentsOf(s), m, n)
    ensures var s' := RemoveCovered(s, m, n);
            && (NoneCovered(ContentsOf(s), m, n + 1) ==> NoneCovered(ContentsOf(s'), m, n))
            && TableSize(ContentsOf(s'), TableOf(m)) == TableSize(ContentsOf(s), TableOf(m)) - 1
  {
    hide DeleteMatches, TablesOf;
    var s' := RemoveCovered(s, m, n);
    forall j: nat | n <= j < TableSize(ContentsOf(s'), TableOf(m))
      ensures RowCovered(ContentsOf(s'), m, j) <==> RowCovered(ContentsOf(s), m, j + 1)
    {
    }
  }

  lemma NoneCoveredIsFinished(c: Contents, m: Mutation)
    requires HasTable(m) && NoneCovered(c, m, 0)
    ensures Finished(c, m)
  {
    if !Finished(c, m) {
      var j := CoveredRow(c, m);
      assert false;
    }
  }

  /** A mutation that is not done has a row to remove. */
  lemma CoveredRow(c: Contents, m: Mutation) returns (j: nat)
    requires HasTable(m) && !Finished(c, m)
    ensures j < TableSize(c, TableOf(m)) && RowCovered(c, m, j)
  {
    hide DeleteMatches;
    match TableOf(m)
    case StreamTable(stream) =>
      var r :| r in c.streams && r in m.before.streams && r.key.stream == stream && DeleteMatches(m.scope, r.data.scope);
      j :| 0 <= j < |c.streams| && c.streams[j] == r;
    case RegistryTable =>
      var r :| r in c.registry && r in m.before.registry && DeleteMatches(m.scope, r.data.scope);
      j :| 0 <= j < |c.registry| && c.registry[j] == r;
    case LedgerTable =>
      var r :| r in c.ledger && r in m.before.ledger && DeleteMatches(m.scope, r.data.scope);
      j :| 0 <= j < |c.ledger| && c.ledger[j] == r;
    case table =>
      var r :| r in c.v1Rows && r in m.before.v1Rows && r.key.table == table && Some(r.key.installation) == m.legacyInstallation;
      j :| 0 <= j < |c.v1Rows| && c.v1Rows[j] == r;
  }
}
