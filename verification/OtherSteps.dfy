/**
 Every statement of V1 ingest and every background merge keeps the invariant.
 */
module OtherSteps {
  import opened Tables
  import opened Telemetry
  import opened Protocol
  import opened History
  import opened Invariant
  import opened Facts

  // ---------- V1 ingest ----------

  /** New V1 rows belong to installations nobody asked to delete. */
  lemma V1RowsKeepClear(
    s: Sys, rows: seq<V1Row>, scope: Scope, legacyInstallation: Option<string>, table: Table)
    requires forall r | r in rows :: Some(r.key.installation) != legacyInstallation
    requires Clear(s.ledger, s.registry, s.streams, s.v1Rows, scope, legacyInstallation, table)
    ensures Clear(s.ledger, s.registry, s.streams, s.v1Rows + rows, scope, legacyInstallation, table)
  {
  }

  lemma V1RowsKeepDone(s: Sys, rows: seq<V1Row>)
    requires forall r | r in rows :: !LegacySuppressed(s.history, r.key.installation)
    requires DoneIsClear(s.ledger, s.registry, s.streams, s.v1Rows, s.history, s.marks)
    ensures DoneIsClear(s.ledger, s.registry, s.streams, s.v1Rows + rows, s.history, s.marks)
  {
    forall k | TableDone(s.marks, k) && k.request in s.history && s.history[k.request] != []
      ensures Clear(s.ledger, s.registry, s.streams, s.v1Rows + rows, s.history[k.request][0].data.scope,
                    s.history[k.request][0].data.legacyInstallation, k.table)
    {
      var row := s.history[k.request][0];
      V1RowsKeepClear(s, rows, row.data.scope, row.data.legacyInstallation, k.table);
    }
  }

  lemma V1RowsKeepMutations(s: Sys, rows: seq<V1Row>)
    requires forall r | r in rows :: !LegacySuppressed(s.history, r.key.installation)
    requires MutationsOk(s.mutations, s.worker, ContentsOf(s), s.history, s.marks)
    ensures MutationsOk(s.mutations, s.worker, ContentsOf(s).(v1Rows := s.v1Rows + rows), s.history, s.marks)
  {
    hide TablesOf;
    forall m | m in s.mutations
      ensures Ordered(m, s.history, s.marks) && Covers(ContentsOf(s).(v1Rows := s.v1Rows + rows), m)
    {
      assert s.history[m.key][0].data.legacyInstallation == m.legacyInstallation;
    }
  }

  lemma V1RowsKeepWorker(s: Sys, rows: seq<V1Row>)
    requires forall r | r in rows :: !LegacySuppressed(s.history, r.key.installation)
    requires HistoryOk(s.history, s.suppressions, s.maxAttempts)
    requires WorkerOk(s.worker, s.ledger, s.registry, s.streams, s.v1Rows, s.history, s.marks)
    requires MutationsOk(s.mutations, s.worker, ContentsOf(s), s.history, s.marks)
    ensures WorkerOk(s.worker, s.ledger, s.registry, s.streams, s.v1Rows + rows, s.history, s.marks)
    ensures MutationsOk(s.mutations, s.worker, ContentsOf(s).(v1Rows := s.v1Rows + rows), s.history, s.marks)
  {
    V1RowsKeepMutations(s, rows);
    if s.worker.Mutated? {
      var request := s.worker.request;
      CurrentAgrees(s.history, s.suppressions, s.maxAttempts, request);
      V1RowsKeepClear(s, rows, request.scope, request.legacyInstallation, CurrentTable(request, s.worker.table));
    }
  }

  lemma V1KeepsInv(s: Sys, a: V1Action)
    requires Inv(s) && V1Enabled(s, a)
    ensures Inv(V1Apply(s, a))
  {
    hide LedgerOk, ChainOk, HistoryOk, MarksOk, DoneIsClear, CompletedIsDone, CompletedIsWritten, WriterOk, WorkerOk,
         MutationsOk, LegacySuppressed;
    match a
    case CheckV1(batch, hit) =>
      if hit.None? {
        V1ReadIsSuppressed(s.history, s.suppressions, s.maxAttempts, batch);
      }
    case SendEvents(at, rows, _) =>
      forall r | r in rows
        ensures !LegacySuppressed(s.history, r.key.installation)
      {
        var i :| 0 <= i < |s.v1.batch.events| && V1Rows(EventsTable, s.v1.batch.events, at)[i] == r;
        assert s.v1.batch.events[i] in s.v1.batch.events;
        assert Mentions(s.v1.batch, r.key.installation);
      }
      V1RowsKeepDone(s, rows);
      V1RowsKeepWorker(s, rows);
    case SendSummaries(at, rows, _) =>
      forall r | r in rows
        ensures !LegacySuppressed(s.history, r.key.installation)
      {
        var i :| 0 <= i < |s.v1.batch.summaries| && V1Rows(SummariesTable, s.v1.batch.summaries, at)[i] == r;
        assert s.v1.batch.summaries[i] in s.v1.batch.summaries;
        assert Mentions(s.v1.batch, r.key.installation);
      }
      V1RowsKeepDone(s, rows);
      V1RowsKeepWorker(s, rows);
    case StopV1 =>
  }

  // ---------- Taking rows away ----------

  /** `s'` differs from `s` only in rows it no longer has. */
  ghost predicate Drops(s: Sys, s': Sys)
  {
    && (forall r | r in s'.ledger :: r in s.ledger)
    && (forall r | r in s'.registry :: r in s.registry)
    && (forall r | r in s'.streams :: r in s.streams)
    && (forall r | r in s'.v1Rows :: r in s.v1Rows)
    && s'.history == s.history && s'.marks == s.marks && s'.worker == s.worker && s'.mutations == s.mutations
  }

  lemma DroppingKeepsMutations(s: Sys, s': Sys)
    requires Drops(s, s') && MutationsOk(s.mutations, s.worker, ContentsOf(s), s.history, s.marks)
    ensures MutationsOk(s.mutations, s.worker, ContentsOf(s'), s.history, s.marks)
  {
    hide Ordered, TablesOf;
  }

  lemma DroppingKeepsClear(s: Sys, s': Sys)
    requires Drops(s, s')
    requires DoneIsClear(s.ledger, s.registry, s.streams, s.v1Rows, s.history, s.marks)
    requires WorkerOk(s.worker, s.ledger, s.registry, s.streams, s.v1Rows, s.history, s.marks)
    requires MutationsOk(s.mutations, s.worker, ContentsOf(s), s.history, s.marks)
    ensures MutationsOk(s'.mutations, s'.worker, ContentsOf(s'), s'.history, s'.marks)
    ensures DoneIsClear(s'.ledger, s'.registry, s'.streams, s'.v1Rows, s.history, s.marks)
    ensures WorkerOk(s.worker, s'.ledger, s'.registry, s'.streams, s'.v1Rows, s.history, s.marks)
  {
    hide MarkedBelow, MutationsOk;
    DroppingKeepsMutations(s, s');
    forall scope, legacy, table | Clear(s.ledger, s.registry, s.streams, s.v1Rows, scope, legacy, table)
      ensures Clear(s'.ledger, s'.registry, s'.streams, s'.v1Rows, scope, legacy, table)
    {
    }
  }

  // ---------- Merges of the ingest tables ----------

  lemma MergedLedgerIsOk(ledger: seq<LedgerRow>, i: nat, j: nat, registry: seq<RegistryRow>)
    requires LedgerOk(ledger) && RegistryOk(registry, ledger) && Dominated(ledger, i, j)
    ensures LedgerOk(Without(ledger, i)) && RegistryOk(registry, Without(ledger, i))
  {
    WithoutKeeps(ledger, i);
    forall g | g in registry
      ensures HasLedgerRow(Without(ledger, i), g.key.product, g.data.batch, g.data.sha)
    {
      assert HasLedgerRow(ledger, g.key.product, g.data.batch, g.data.sha);
      var l :| l in ledger && l.key == BatchKey(g.key.product, g.data.batch) && l.data.sha == g.data.sha;
      if l == ledger[i] {
        assert SameBatch(ledger[i], ledger[j]);
        assert ledger[j] in Without(ledger, i);
      }
    }
  }

  lemma MergedLedgerKeepsWriter(s: Sys, i: nat, j: nat)
    requires Dominated(s.ledger, i, j)
    requires WriterOk(s.writer, s.ledger, s.registry, s.streams, s.history)
    ensures WriterOk(s.writer, Without(s.ledger, i), s.registry, s.streams, s.history)
  {
    hide Suppressed, AllRegistered, AllWritten, ValidBatch;
    WithoutKeeps(s.ledger, i);
    assert s.ledger[i] in s.ledger && s.ledger[j] in s.ledger;
  }

  /** Some ledger row stands for the batch. */
  ghost predicate InLedger(ledger: seq<LedgerRow>, batch: Batch)
  {
    exists l :: l in ledger && l.key == KeyOf(batch) && l.data.sha.batch == batch
  }

  /** A stream row carries the batch of a ledger row, in that batch's scope, with one of its records. */
  ghost predicate RepeatsRecord(t: StreamRow, batch: Batch)
  {
    && t.key == StreamKeyOf(batch, t.key.record) && t.data.scope == batch.scope && t.data.batch == batch.id
    && Record(t.key.record, t.data.payload) in batch.records
  }

  lemma BatchOfRow(streams: seq<StreamRow>, registry: seq<RegistryRow>, ledger: seq<LedgerRow>, t: StreamRow) returns (g: RegistryRow)
    requires StreamsOk(streams, registry) && RegistryOk(registry, ledger) && t in streams
    ensures g in registry && g.key == RecordKey(t.key.product, t.key.record)
    ensures RepeatsRecord(t, g.data.sha.batch) && HasLedgerRow(ledger, g.key.product, g.data.sha.batch.id, g.data.sha)
  {
    assert Owned(registry, t);
    g :| && g in registry && g.key == RecordKey(t.key.product, t.key.record)
         && t == StreamRowFor(g.data.sha.batch, Record(t.key.record, t.data.payload), t.version)
         && Record(t.key.record, t.data.payload) in g.data.sha.batch.records;
    assert RegistryRowOk(g);
  }

  /** All rows of one product and record repeat records of one batch. */
  lemma StreamKeyDeterminesRow(
    streams: seq<StreamRow>, registry: seq<RegistryRow>, ledger: seq<LedgerRow>, a: StreamRow, b: StreamRow) returns (batch: Batch)
    requires StreamsOk(streams, registry) && RegistryOk(registry, ledger)
    requires a in streams && b in streams
    requires a.key.product == b.key.product && a.key.record == b.key.record
    ensures InLedger(ledger, batch) && RepeatsRecord(a, batch) && RepeatsRecord(b, batch)
    ensures a.key == b.key && a.data.scope == b.data.scope && a.data.batch == b.data.batch
    ensures DistinctIds(batch) ==> a.data == b.data
  {
    var g := BatchOfRow(streams, registry, ledger, a);
    var h := BatchOfRow(streams, registry, ledger, b);
    assert g.data == h.data;
    batch := g.data.sha.batch;
    var l :| l in ledger && l.key == BatchKey(g.key.product, batch.id) && l.data.sha == g.data.sha;
    assert l.key == KeyOf(batch);
    if DistinctIds(batch) {
      var i :| 0 <= i < |batch.records| && batch.records[i] == Record(a.key.record, a.data.payload);
      var j :| 0 <= j < |batch.records| && batch.records[j] == Record(b.key.record, b.data.payload);
      assert i == j;
    }
  }

  /** A row that carries a batch known to the ledger repeats a record of that very batch. */
  lemma CarriedBatch(ledger: seq<LedgerRow>, t: StreamRow, batch: Batch, other: Batch)
    requires LedgerOk(ledger) && InLedger(ledger, batch) && InLedger(ledger, other)
    requires t.key.product == batch.scope.product == other.scope.product && t.data.batch == batch.id == other.id
    ensures batch == other
  {
    var l :| l in ledger && l.key == KeyOf(batch) && l.data.sha.batch == batch;
    var m :| m in ledger && m.key == KeyOf(other) && m.data.sha.batch == other;
    assert SameBatch(l, m);
  }

  /** When one of two rows of a key carries the record, so does the other. */
  lemma CopyCarries(ledger: seq<LedgerRow>, t: StreamRow, u: StreamRow, other: Batch, batch: Batch, record: Record)
    requires LedgerOk(ledger) && InLedger(ledger, batch) && InLedger(ledger, other)
    requires t.key == u.key && RepeatsRecord(t, other) && RepeatsRecord(u, other)
    requires Carries(t, batch, record)
    ensures Carries(u, batch, record)
  {
    CarriedBatch(ledger, t, batch, other);
  }

  lemma MergedStreamsKeepRecord(
    s: Sys, i: nat, j: nat, batch: Batch, record: Record)
    requires StreamsOk(s.streams, s.registry) && RegistryOk(s.registry, s.ledger) && LedgerOk(s.ledger)
    requires Dominated(s.streams, i, j) && InLedger(s.ledger, batch)
    requires HasStreamRow(s.streams, batch, record)
    ensures HasStreamRow(Without(s.streams, i), batch, record)
  {
    WithoutKeeps(s.streams, i);
    var t :| t in s.streams && Carries(t, batch, record);
    if t == s.streams[i] {
      var u := s.streams[j];
      var other := StreamKeyDeterminesRow(s.streams, s.registry, s.ledger, t, u);
      hide DistinctIds;
      CopyCarries(s.ledger, t, u, other, batch, record);
      assert u in Without(s.streams, i);
    }
  }

  lemma MergedStreamsKeepWritten(s: Sys, i: nat, j: nat, batch: Batch)
    requires StreamsOk(s.streams, s.registry) && RegistryOk(s.registry, s.ledger) && LedgerOk(s.ledger)
    requires Dominated(s.streams, i, j) && InLedger(s.ledger, batch)
    requires AllWritten(s.streams, batch)
    ensures AllWritten(Without(s.streams, i), batch)
  {
    hide LedgerOk, HasStreamRow;
    forall r | r in batch.records
      ensures HasStreamRow(Without(s.streams, i), batch, r)
    {
      MergedStreamsKeepRecord(s, i, j, batch, r);
    }
  }

  lemma MergedRegistryKeepsRegistered(
    registry: seq<RegistryRow>, i: nat, j: nat, ledger: seq<LedgerRow>, batch: Batch)
    requires RegistryOk(registry, ledger) && Dominated(registry, i, j)
    requires AllRegistered(registry, batch)
    ensures AllRegistered(Without(registry, i), batch)
  {
    WithoutKeeps(registry, i);
    assert registry[i] in registry && registry[j] in registry;
    forall r | r in batch.records
      ensures HasRegistryRow(Without(registry, i), batch.scope.product, r.id, batch.id)
    {
      assert HasRegistryRow(registry, batch.scope.product, r.id, batch.id);
      var g :| g in registry && g.key == RecordKey(batch.scope.product, r.id) && g.data.batch == batch.id;
      if g == registry[i] {
        assert registry[j] in Without(registry, i);
      }
    }
  }

  lemma MergedRegistryIsOk(
    registry: seq<RegistryRow>, i: nat, j: nat, ledger: seq<LedgerRow>, streams: seq<StreamRow>)
    requires RegistryOk(registry, ledger) && StreamsOk(streams, registry) && Dominated(registry, i, j)
    ensures RegistryOk(Without(registry, i), ledger) && StreamsOk(streams, Without(registry, i))
  {
    WithoutKeeps(registry, i);
    assert registry[i] in registry && registry[j] in registry;
    assert registry[i].data == registry[j].data;
    forall s | s in streams
      ensures Owned(Without(registry, i), s)
    {
      assert Owned(registry, s);
      var g :| && g in registry && g.key == RecordKey(s.key.product, s.key.record)
               && s == StreamRowFor(g.data.sha.batch, Record(s.key.record, s.data.payload), s.version)
               && Record(s.key.record, s.data.payload) in g.data.sha.batch.records;
      if g == registry[i] {
        assert registry[j] in Without(registry, i);
      }
    }
  }

  lemma MergeLedgerKeepsInv(s: Sys, a: MergeAction)
    requires Inv(s) && a.MergeLedger? && MergeEnabled(s, a)
    ensures Inv(MergeApply(s, a))
  {
    hide RegistryOk, HistoryOk, MarksOk, DoneIsClear, CompletedIsDone, WriterOk, WorkerOk, MutationsOk, AllRegistered, AllWritten;
    WithoutKeeps(s.ledger, a.i);
    DroppingKeepsClear(s, MergeApply(s, a));
    MergedLedgerIsOk(s.ledger, a.i, a.j, s.registry);
    MergedLedgerKeepsWriter(s, a.i, a.j);
  }

  lemma MergedRegistryKeepsWriters(s: Sys, i: nat, j: nat)
    requires RegistryOk(s.registry, s.ledger) && Dominated(s.registry, i, j)
    requires WritersOk(s.writer, s.v1, s.ledger, s.registry, s.streams, s.history)
    ensures WritersOk(s.writer, s.v1, s.ledger, Without(s.registry, i), s.streams, s.history)
  {
    hide RegistryOk, V1Ok, AllRegistered, AllWritten, HoldsReservation, ValidBatch, DeletionRequested, Suppressed, Clashes;
    WithoutKeeps(s.registry, i);
    forall batch | AllRegistered(s.registry, batch)
      ensures AllRegistered(Without(s.registry, i), batch)
    {
      MergedRegistryKeepsRegistered(s.registry, i, j, s.ledger, batch);
    }
  }

  lemma MergeRegistryKeepsInv(s: Sys, a: MergeAction)
    requires Inv(s) && a.MergeRegistry? && MergeEnabled(s, a)
    ensures Inv(MergeApply(s, a))
  {
    hide LedgerOk, RegistryOk, StreamsOk, HistoryOk, MarksOk, DoneIsClear, CompletedIsDone, WritersOk, WorkerOk, MutationsOk;
    WithoutKeeps(s.registry, a.i);
    DroppingKeepsClear(s, MergeApply(s, a));
    MergedRegistryIsOk(s.registry, a.i, a.j, s.ledger, s.streams);
    MergedRegistryKeepsWriters(s, a.i, a.j);
  }

  lemma MergeStreamsKeepsInv(s: Sys, a: MergeAction)
    requires Inv(s) && a.MergeStreams? && MergeEnabled(s, a)
    ensures Inv(MergeApply(s, a))
  {
    hide LedgerOk, HistoryOk, MarksOk, CompletedIsDone, WorkerOk, MutationsOk, AllRegistered, AllWritten, HoldsReservation, Suppressed,
         ValidBatch, DeletionRequested, Owned, InLedger;
    WithoutKeeps(s.streams, a.i);
    DroppingKeepsClear(s, MergeApply(s, a));
    forall batch | AllWritten(s.streams, batch) && InLedger(s.ledger, batch)
      ensures AllWritten(Without(s.streams, a.i), batch)
    {
      MergedStreamsKeepWritten(s, a.i, a.j, batch);
    }
    RowsAreInLedger(s.ledger);
    assert s.writer.Written? ==> LedgerRowFor(s.writer.sha, StatusReserved, s.writer.at) in s.ledger by {
      HeldIsStored(s);
    }
  }

  lemma RowsAreInLedger(ledger: seq<LedgerRow>)
    requires LedgerOk(ledger)
    ensures forall l | l in ledger :: InLedger(ledger, l.data.sha.batch)
  {
    forall l | l in ledger
      ensures InLedger(ledger, l.data.sha.batch)
    {
      assert LedgerRowOk(l);
    }
  }

  lemma HeldIsStored(s: Sys)
    requires WriterOk(s.writer, s.ledger, s.registry, s.streams, s.history)
    ensures s.writer.Written? ==> LedgerRowFor(s.writer.sha, StatusReserved, s.writer.at) in s.ledger
  {
    hide AllWritten, Suppressed;
  }

  // ---------- Merges of the other tables ----------

  lemma MergeSuppressionsKeepsInv(s: Sys, a: MergeAction)
    requires Inv(s) && a.MergeSuppressions? && MergeEnabled(s, a)
    ensures Inv(MergeApply(s, a))
  {
    hide LedgerOk, ChainOk, ErasureOk, WritersOk, DeleterOk, WellFormed;
    var table := s.suppressions;
    WithoutKeeps(table, a.i);
    assert table[a.i] in table && table[a.j] in table;
    RowInHistory(s.history, table, s.maxAttempts, table[a.j]);
    RowInHistory(s.history, table, s.maxAttempts, table[a.i]);
    forall k | k in s.history
      ensures Last(s.history[k]) in Without(table, a.i)
    {
      if Last(s.history[k]) == table[a.i] {
        assert table[a.j] == table[a.i];
      }
    }
  }

  lemma MergedProgressIsStored(
    history: map<RequestKey, seq<SuppressionRow>>, marks: map<ProgressKey, seq<ProgressRow>>, table: seq<ProgressRow>, i: nat, j: nat)
    requires MarksOk(marks, table, history) && Dominated(table, i, j)
    ensures MarksOk(marks, Without(table, i), history)
  {
    hide WellMarked, Claims;
    WithoutKeeps(table, i);
    assert table[i] in table && table[j] in table;
    MarkInHistory(history, marks, table, table[j]);
    MarkInHistory(history, marks, table, table[i]);
    forall k | k in marks
      ensures Last(marks[k]) in Without(table, i)
    {
      if Last(marks[k]) == table[i] {
        assert table[j] == table[i];
      }
    }
  }

  lemma MergeProgressKeepsInv(s: Sys, a: MergeAction)
    requires Inv(s) && a.MergeProgress? && MergeEnabled(s, a)
    ensures Inv(MergeApply(s, a))
  {
    hide LedgerOk, ChainOk, HistoryOk, MarksOk, DoneIsClear, CompletedIsDone, WritersOk, DeleterOk, Dominated, Without;
    MergedProgressIsStored(s.history, s.marks, s.progress, a.i, a.j);
  }

  lemma MergeV1KeepsInv(s: Sys, a: MergeAction)
    requires Inv(s) && a.MergeV1? && MergeEnabled(s, a)
    ensures Inv(MergeApply(s, a))
  {
    hide LedgerOk, ChainOk, HistoryOk, MarksOk, DoneIsClear, CompletedIsDone, WritersOk, WorkerOk, MutationsOk;
    WithoutKeeps(s.v1Rows, a.i);
    DroppingKeepsClear(s, MergeApply(s, a));
  }

  lemma MergeKeepsInv(s: Sys, a: MergeAction)
    requires Inv(s) && MergeEnabled(s, a)
    ensures Inv(MergeApply(s, a))
  {
    hide Inv;
    match a
    case MergeLedger(_, _) => MergeLedgerKeepsInv(s, a);
    case MergeRegistry(_, _) => MergeRegistryKeepsInv(s, a);
    case MergeStreams(_, _) => MergeStreamsKeepsInv(s, a);
    case MergeSuppressions(_, _) => MergeSuppressionsKeepsInv(s, a);
    case MergeProgress(_, _) => MergeProgressKeepsInv(s, a);
    case MergeV1(_, _) => MergeV1KeepsInv(s, a);
  }
}
