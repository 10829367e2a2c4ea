/**
 What holds in every state of every run: any interleaving of writer, V1 ingest,
 worker and merges, with crashes, lost acknowledgements, partial sends and an
 arbitrary clock.
 */
module Safety {
  import opened Tables
  import opened Telemetry
  import opened Protocol
  import opened History
  import opened Invariant
  import opened Facts
  import opened WriterSteps
  import opened OtherSteps
  import opened WorkerSteps
  import opened MutationSteps

  // ---------- The invariant over runs ----------

  lemma NextKeepsInv(s: Sys, a: Action, s': Sys)
    requires Inv(s) && Next(s, a, s') && CounterFits(s) && CounterFits(s')
    ensures Inv(s')
  {
    hide Inv, WriterEnabled, WriterApply, WorkerEnabled, WorkerApply, V1Enabled, MergeEnabled, MergeApply, MutationEnabled, MutationApply;
    match a
    case ByWriter(w) => WriterKeepsInv(s, w);
    case ByV1(v) => V1KeepsInv(s, v);
    case ByWorker(k) => WorkerKeepsInv(s, k);
    case ByMerge(m) => MergeKeepsInv(s, m);
    case ByMutation(m, i) => MutationKeepsInv(s, m, i);
  }

  lemma {:induction false} RunInv(run: seq<Sys>, actions: seq<Action>, i: nat)
    requires IsRun(run, actions) && i < |run|
    ensures Inv(run[i])
  {
    hide Inv, Next;
    if i == 0 {
      InitKeepsInv(run[0]);
    } else {
      RunInv(run, actions, i - 1);
      assert Next(run[i - 1], actions[i - 1], run[i - 1 + 1]);
      NextKeepsInv(run[i - 1], actions[i - 1], run[i]);
    }
  }

  // ---------- What one action can change ----------

  /** Of suppressed scopes and installations no row appears, and no further copy of a stored one. */
  ghost predicate AddsUnsuppressed(s: Sys, s': Sys)
  {
    && (forall r: LedgerRow | Suppressed(s.history, r.data.scope) :: NoMore(s.ledger, s'.ledger, r))
    && (forall r: RegistryRow | Suppressed(s.history, r.data.scope) :: NoMore(s.registry, s'.registry, r))
    && (forall r: StreamRow | Suppressed(s.history, r.data.scope) :: NoMore(s.streams, s'.streams, r))
    && (forall r: V1Row | LegacySuppressed(s.history, r.key.installation) :: NoMore(s.v1Rows, s'.v1Rows, r))
  }

  lemma SameRowsAddNone(s: Sys, s': Sys)
    requires ContentsOf(s') == ContentsOf(s)
    ensures AddsUnsuppressed(s, s')
  {
  }

  lemma LedgerRowAdds(s: Sys, row: LedgerRow, outcome: Outcome, r: LedgerRow)
    requires r.data.scope != row.data.scope
    ensures NoMore(s.ledger, Stored(s.ledger, row, outcome), r)
  {
    OthersAppended(s.ledger, [row], r);
  }

  lemma WriterAdds(s: Sys, a: WriterAction)
    requires Inv(s) && WriterEnabled(s, a)
    ensures AddsUnsuppressed(s, WriterApply(s, a))
  {
    hide LedgerOk, ChainOk, HistoryOk, ErasureOk, CompletedIsWritten, DeleterOk, V1Ok, HoldsReservation, NoRow, NoClash,
         AllRegistered, AllWritten, Suppressed, LegacySuppressed, ValidBatch, NoMore;
    var s' := WriterApply(s, a);
    SameRowsAddNone(s, s.(writer := Idle));
    match a
    case SendRegistry(rows, _) =>
      forall r: RegistryRow | Suppressed(s.history, r.data.scope)
        ensures NoMore(s.registry, s'.registry, r)
      {
        RegistryScope(s, rows, r);
        OthersAppended(s.registry, rows, r);
      }
    case SendStream(rows, _) =>
      forall r: StreamRow | Suppressed(s.history, r.data.scope)
        ensures NoMore(s.streams, s'.streams, r)
      {
        StreamScope(s, rows, r);
        OthersAppended(s.streams, rows, r);
      }
    case Reserve(now, outcome) =>
      forall r: LedgerRow | Suppressed(s.history, r.data.scope)
        ensures NoMore(s.ledger, s'.ledger, r)
      {
        LedgerRowAdds(s, LedgerRowFor(s.writer.sha, StatusReserved, now), outcome, r);
      }
    case CompleteBatch(now, outcome) =>
      forall r: LedgerRow | Suppressed(s.history, r.data.scope)
        ensures NoMore(s.ledger, s'.ledger, r)
      {
        LedgerRowAdds(s, LedgerRowFor(s.writer.sha, StatusCompleted, CompletionTime(now, s.writer.at)), outcome, r);
      }
    case _ => SameRowsAddNone(s, s');
  }

  lemma RegistryScope(s: Sys, rows: seq<RegistryRow>, r: RegistryRow)
    requires s.writer.Vacant? && (forall q | q in rows :: q in RegistryRows(s.writer.sha, s.writer.at))
    ensures r in rows ==> r.data.scope == s.writer.sha.batch.scope
  {
    if r in rows {
      var i :| 0 <= i < |s.writer.sha.batch.records| && RegistryRows(s.writer.sha, s.writer.at)[i] == r;
    }
  }

  lemma StreamScope(s: Sys, rows: seq<StreamRow>, r: StreamRow)
    requires s.writer.Registered? && (forall q | q in rows :: q in StreamRows(s.writer.sha.batch, s.writer.at))
    ensures r in rows ==> r.data.scope == s.writer.sha.batch.scope
  {
    if r in rows {
      var i :| 0 <= i < |s.writer.sha.batch.records| && StreamRows(s.writer.sha.batch, s.writer.at)[i] == r;
    }
  }

  /** Rows of one of the batch's tables are of installations it mentions. */
  lemma RowIsMentioned(batch: V1Batch, table: Table, items: seq<V1Item>, at: int, r: V1Row)
    requires (items == batch.events || items == batch.summaries) && r in V1Rows(table, items, at)
    ensures Mentions(batch, r.key.installation)
  {
    var i :| 0 <= i < |items| && V1Rows(table, items, at)[i] == r;
    assert items[i] in items;
  }

  lemma V1RowsAreFree(s: Sys, table: Table, items: seq<V1Item>, at: int, rows: seq<V1Row>, r: V1Row)
    requires Inv(s) && s.v1 != V1Idle && (items == s.v1.batch.events || items == s.v1.batch.summaries)
    requires (forall q | q in rows :: q in V1Rows(table, items, at)) && LegacySuppressed(s.history, r.key.installation)
    ensures NoMore(s.v1Rows, s.v1Rows + rows, r)
  {
    hide LedgerOk, ChainOk, HistoryOk, ErasureOk, CompletedIsWritten, DeleterOk, WriterOk, LegacySuppressed, NoMore,
         Mentions;
    if r in rows {
      RowIsMentioned(s.v1.batch, table, items, at, r);
    }
    OthersAppended(s.v1Rows, rows, r);
  }

  lemma V1Adds(s: Sys, a: V1Action)
    requires Inv(s) && V1Enabled(s, a)
    ensures AddsUnsuppressed(s, V1Apply(s, a))
  {
    hide Inv, LegacySuppressed, Suppressed, NoMore;
    SameRowsAddNone(s, s.(v1 := V1Idle));
    match a
    case SendEvents(at, rows, _) =>
      forall r: V1Row | LegacySuppressed(s.history, r.key.installation)
        ensures NoMore(s.v1Rows, s.v1Rows + rows, r)
      {
        V1RowsAreFree(s, EventsTable, s.v1.batch.events, at, rows, r);
      }
    case SendSummaries(at, rows, _) =>
      forall r: V1Row | LegacySuppressed(s.history, r.key.installation)
        ensures NoMore(s.v1Rows, s.v1Rows + rows, r)
      {
        V1RowsAreFree(s, SummariesTable, s.v1.batch.summaries, at, rows, r);
      }
    case _ => SameRowsAddNone(s, V1Apply(s, a));
  }

  /** Taking one row away adds none. */
  lemma RemovalAdds(s: Sys, s': Sys, i: nat)
    requires || ContentsOf(s') == ContentsOf(s)
             || (i < |s.ledger| && ContentsOf(s') == ContentsOf(s).(ledger := Without(s.ledger, i)))
             || (i < |s.registry| && ContentsOf(s') == ContentsOf(s).(registry := Without(s.registry, i)))
             || (i < |s.streams| && ContentsOf(s') == ContentsOf(s).(streams := Without(s.streams, i)))
             || (i < |s.v1Rows| && ContentsOf(s') == ContentsOf(s).(v1Rows := Without(s.v1Rows, i)))
    ensures AddsUnsuppressed(s, s')
  {
    hide Suppressed, LegacySuppressed, NoMore;
    SameRowsAddNone(s, s);
    forall r: LedgerRow ensures i < |s.ledger| ==> NoMore(s.ledger, Without(s.ledger, i), r) {
      if i < |s.ledger| {
        OneRemoved(s.ledger, i, r);
      }
    }
    forall r: RegistryRow ensures i < |s.registry| ==> NoMore(s.registry, Without(s.registry, i), r) {
      if i < |s.registry| {
        OneRemoved(s.registry, i, r);
      }
    }
    forall r: StreamRow ensures i < |s.streams| ==> NoMore(s.streams, Without(s.streams, i), r) {
      if i < |s.streams| {
        OneRemoved(s.streams, i, r);
      }
    }
    forall r: V1Row ensures i < |s.v1Rows| ==> NoMore(s.v1Rows, Without(s.v1Rows, i), r) {
      if i < |s.v1Rows| {
        OneRemoved(s.v1Rows, i, r);
      }
    }
  }

  lemma MergeAdds(s: Sys, a: MergeAction)
    requires MergeEnabled(s, a)
    ensures AddsUnsuppressed(s, MergeApply(s, a))
  {
    hide AddsUnsuppressed;
    RemovalAdds(s, MergeApply(s, a), a.i);
  }

  lemma WorkerAdds(s: Sys, a: WorkerAction)
    requires WorkerEnabled(s, a)
    ensures AddsUnsuppressed(s, WorkerApply(s, a))
  {
    hide AddsUnsuppressed, Finished, TablesOf, RetryDelay;
    SameRowsAddNone(s, WorkerApply(s, a));
  }

  lemma MutationAdds(s: Sys, mutation: nat, index: nat)
    requires MutationEnabled(s, mutation, index)
    ensures AddsUnsuppressed(s, MutationApply(s, mutation, index))
  {
    hide AddsUnsuppressed, DeleteMatches, TablesOf;
    RemovalAdds(s, MutationApply(s, mutation, index), index);
  }

  lemma NextAdds(s: Sys, a: Action, s': Sys)
    requires Inv(s) && Next(s, a, s')
    ensures AddsUnsuppressed(s, s')
  {
    hide Inv, WriterEnabled, WriterApply, WorkerEnabled, WorkerApply, V1Enabled, V1Apply, MergeEnabled, MergeApply, MutationEnabled, MutationApply,
         AddsUnsuppressed;
    match a
    case ByWriter(w) => WriterAdds(s, w);
    case ByV1(v) => V1Adds(s, v);
    case ByWorker(k) => WorkerAdds(s, k);
    case ByMerge(m) => MergeAdds(s, m);
    case ByMutation(m, i) => MutationAdds(s, m, i);
  }

  /** Stored status and progress rows are only ever followed by more of them. */
  ghost predicate Remembers(s: Sys, s': Sys)
  {
    && (forall k | k in s.history :: k in s'.history && s.history[k] <= s'.history[k])
    && (forall k | k in s.marks :: k in s'.marks && s.marks[k] <= s'.marks[k])
  }

  lemma StatusIsRemembered(s: Sys, row: SuppressionRow, outcome: Outcome)
    ensures Remembers(s, WithStatus(s, row, outcome)) && WithStatus(s, row, outcome).maxAttempts == s.maxAttempts
  {
  }

  lemma MarkIsRemembered(s: Sys, row: ProgressRow, outcome: Outcome)
    ensures Remembers(s, WithMark(s, row, outcome)) && WithMark(s, row, outcome).maxAttempts == s.maxAttempts
  {
  }

  lemma WriterRemembers(s: Sys, a: WriterAction)
    requires WriterEnabled(s, a)
    ensures Remembers(s, WriterApply(s, a)) && WriterApply(s, a).maxAttempts == s.maxAttempts
  {
    if a.CommitRequest? {
      StatusIsRemembered(s, PendingRowFor(s.writer.request, a.now), a.outcome);
    }
  }

  lemma WorkerRemembers(s: Sys, a: WorkerAction)
    requires WorkerEnabled(s, a)
    ensures Remembers(s, WorkerApply(s, a)) && WorkerApply(s, a).maxAttempts == s.maxAttempts
  {
    hide Finished, TablesOf, RetryDelay, WithStatus, WithMark;
    match a
    case WriteClaim(outcome) => StatusIsRemembered(s, ClaimRow(s.worker.request, s.worker.attempts, s.worker.now), outcome);
    case WriteOutcome(now, outcome) =>
      StatusIsRemembered(s, OutcomeRow(s.worker.request, s.worker.succeeded, s.maxAttempts, now), outcome);
    case MarkProcessing(outcome) => MarkIsRemembered(s, MarkRow(s.worker, Processing, NextAttempt(s.worker.attempts)), outcome);
    case MarkRetry(outcome) => MarkIsRemembered(s, MarkRow(s.worker, Retry, s.worker.attempts), outcome);
    case MarkCompleted(outcome) => MarkIsRemembered(s, MarkRow(s.worker, Completed, s.worker.attempts), outcome);
    case _ =>
  }

  lemma V1Remembers(s: Sys, a: V1Action)
    requires V1Enabled(s, a)
    ensures Remembers(s, V1Apply(s, a)) && V1Apply(s, a).maxAttempts == s.maxAttempts
  {
    hide Sent;
  }

  lemma MergeRemembers(s: Sys, a: MergeAction)
    requires MergeEnabled(s, a)
    ensures Remembers(s, MergeApply(s, a)) && MergeApply(s, a).maxAttempts == s.maxAttempts
  {
  }

  lemma MutationRemembers(s: Sys, mutation: nat, index: nat)
    requires MutationEnabled(s, mutation, index)
    ensures Remembers(s, MutationApply(s, mutation, index)) && MutationApply(s, mutation, index).maxAttempts == s.maxAttempts
  {
    hide RowCovered;
  }

  lemma NextRemembers(s: Sys, a: Action, s': Sys)
    requires Next(s, a, s')
    ensures Remembers(s, s') && s'.maxAttempts == s.maxAttempts
  {
    hide WriterEnabled, WriterApply, WorkerEnabled, WorkerApply, V1Enabled, V1Apply, MergeEnabled, MergeApply, MutationEnabled, MutationApply, Remembers;
    match a
    case ByWriter(w) => WriterRemembers(s, w);
    case ByV1(v) => V1Remembers(s, v);
    case ByWorker(k) => WorkerRemembers(s, k);
    case ByMerge(m) => MergeRemembers(s, m);
    case ByMutation(m, i) => MutationRemembers(s, m, i);
  }

  lemma {:induction false} RunRemembers(run: seq<Sys>, actions: seq<Action>, i: nat, j: nat)
    requires IsRun(run, actions) && i <= j < |run|
    ensures Remembers(run[i], run[j]) && run[j].maxAttempts == run[i].maxAttempts
    decreases j
  {
    hide Next, Init, CounterFits;
    if i < j {
      RunRemembers(run, actions, i, j - 1);
      assert Next(run[j - 1], actions[j - 1], run[j - 1 + 1]);
      NextRemembers(run[j - 1], actions[j - 1], run[j]);
    }
  }
}
