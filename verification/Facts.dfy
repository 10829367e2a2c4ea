/**
 Facts about the invariant that several actions share: what reads return, and
 how adding rows of an unsuppressed scope or advancing a request's status
 carries each part of the invariant over.
 */
module Facts {
  import opened Tables
  import opened Telemetry
  import opened Protocol
  import opened History
  import opened Invariant

  // ---------- What reads return ----------

  /** The gate and the mutation are one relation: a request covers an incoming scope iff it deletes its rows. */
  lemma GateIsDelete(request: Scope, scope: Scope)
    ensures GateMatches(request, scope) <==> DeleteMatches(request, scope)
  {
  }

  lemma RowInHistory(
    history: map<RequestKey, seq<SuppressionRow>>, suppressions: seq<SuppressionRow>, maxAttempts: nat, r: SuppressionRow)
    requires HistoryOk(history, suppressions, maxAttempts) && r in suppressions
    ensures r.key in history && history[r.key] != [] && SameRequest(history[r.key][0], r)
    ensures Last(history[r.key]).key == r.key
    ensures r == Last(history[r.key]) || r.version < Last(history[r.key]).version
  {
    var rows := history[r.key];
    var i :| 0 <= i < |rows| && rows[i] == r;
    RowsAgree(rows, r.key, maxAttempts, i);
    RowsAgree(rows, r.key, maxAttempts, |rows| - 1);
    if i < |rows| - 1 {
      VersionsIncrease(rows, r.key, maxAttempts, i, |rows| - 1);
    }
  }

  lemma CurrentAgrees(
    history: map<RequestKey, seq<SuppressionRow>>, suppressions: seq<SuppressionRow>, maxAttempts: nat, request: Request)
    requires HistoryOk(history, suppressions, maxAttempts) && Current(request, history)
    ensures history[request.key][0].data.scope == request.scope
    ensures history[request.key][0].data.action == request.action
    ensures history[request.key][0].data.ingestedAt == request.ingestedAt
    ensures history[request.key][0].data.legacyInstallation == request.legacyInstallation
    ensures request.attempts == Claims(history[request.key])
  {
    var rows := history[request.key];
    RowsAgree(rows, request.key, maxAttempts, |rows| - 1);
    AttemptsAreClaims(rows, request.key, maxAttempts);
  }

  /** FINAL returns the last row stored for a request, in every merge state. */
  lemma NewestIsLast(
    history: map<RequestKey, seq<SuppressionRow>>, suppressions: seq<SuppressionRow>, maxAttempts: nat, r: SuppressionRow)
    requires HistoryOk(history, suppressions, maxAttempts) && r in suppressions
    ensures r.key in history && history[r.key] != []
    ensures IsNewest(suppressions, r) <==> r == Last(history[r.key])
  {
    var last := Last(history[r.key]);
    RowInHistory(history, suppressions, maxAttempts, r);
    assert last in suppressions;
    forall q | q in suppressions && q.key == r.key
      ensures q.version <= last.version
    {
      RowInHistory(history, suppressions, maxAttempts, q);
    }
  }

  lemma MarkInHistory(
    history: map<RequestKey, seq<SuppressionRow>>, marks: map<ProgressKey, seq<ProgressRow>>, progress: seq<ProgressRow>, r: ProgressRow)
    requires MarksOk(marks, progress, history) && r in progress
    ensures r.key in marks && marks[r.key] != [] && Last(marks[r.key]).key == r.key && Last(marks[r.key]) in progress
    ensures r == Last(marks[r.key]) || r.version < Last(marks[r.key]).version
  {
    var rows := marks[r.key];
    var at := history[r.key.request][0].data.ingestedAt;
    var i :| 0 <= i < |rows| && rows[i] == r;
    MarksAgree(rows, r.key, at, |rows| - 1);
    if i < |rows| - 1 {
      MarkVersionsIncrease(rows, r.key, at, i, |rows| - 1);
    }
  }

  /** FINAL returns the last progress row stored for a table, in every merge state. */
  lemma NewestMarkIsLast(
    history: map<RequestKey, seq<SuppressionRow>>, marks: map<ProgressKey, seq<ProgressRow>>, progress: seq<ProgressRow>, r: ProgressRow)
    requires MarksOk(marks, progress, history) && r in progress
    ensures r.key in marks && marks[r.key] != []
    ensures IsNewest(progress, r) <==> r == Last(marks[r.key])
  {
    MarkInHistory(history, marks, progress, r);
    forall q | q in progress && q.key == r.key
      ensures q.version <= Last(marks[r.key]).version
    {
      MarkInHistory(history, marks, progress, q);
    }
  }

  /** The suppression query finds a row exactly when a stored request covers the scope. */
  lemma ReadIsSuppressed(
    history: map<RequestKey, seq<SuppressionRow>>, suppressions: seq<SuppressionRow>, maxAttempts: nat,
    scope: Scope, hit: Option<SuppressionRow>)
    requires HistoryOk(history, suppressions, maxAttempts) && SuppressionRead(suppressions, scope, hit)
    ensures hit.Some? <==> Suppressed(history, scope)
  {
    if hit.Some? {
      RowInHistory(history, suppressions, maxAttempts, hit.value);
      assert GateMatches(history[hit.value.key][0].data.scope, scope);
    } else if Suppressed(history, scope) {
      var k :| k in history && history[k] != [] && GateMatches(history[k][0].data.scope, scope);
      LastIsFound(history, suppressions, maxAttempts, k);
      assert false;
    }
  }

  lemma LastIsFound(
    history: map<RequestKey, seq<SuppressionRow>>, suppressions: seq<SuppressionRow>, maxAttempts: nat, k: RequestKey)
    requires HistoryOk(history, suppressions, maxAttempts) && k in history
    ensures history[k] != [] && Last(history[k]) in suppressions && IsNewest(suppressions, Last(history[k]))
    ensures SameRequest(history[k][0], Last(history[k])) && Last(history[k]).data.active && Last(history[k]).key == k
  {
    var last := Last(history[k]);
    RowsAgree(history[k], k, maxAttempts, |history[k]| - 1);
    NewestIsLast(history, suppressions, maxAttempts, last);
  }

  /** For a request without empty keys, each of the two conditions picks the scopes it is about. */
  lemma ConcernsExactly(request: Scope, other: Scope)
    requires request.person != Some("") && request.org != Some("")
    ensures GateMatches(request, other) <==> Concerns(request, other)
    ensures DeleteMatches(request, other) <==> Concerns(request, other)
  {
  }

  /** No stored request has an empty key. */
  lemma StoredKeysAreGiven(
    history: map<RequestKey, seq<SuppressionRow>>, suppressions: seq<SuppressionRow>, maxAttempts: nat, r: SuppressionRow)
    requires HistoryOk(history, suppressions, maxAttempts) && r in suppressions
    ensures r.data.scope.person != Some("") && r.data.scope.org != Some("")
  {
    RowInHistory(history, suppressions, maxAttempts, r);
    assert WellFormed(history[r.key], r.key, maxAttempts);
  }

  /** Some stored row is of a request about the scope. */
  ghost predicate Covered(suppressions: seq<SuppressionRow>, scope: Scope)
  {
    exists r :: r in suppressions && Concerns(r.data.scope, scope)
  }

  /** A scope is suppressed just when a stored request is about it. */
  lemma SuppressedExactly(
    history: map<RequestKey, seq<SuppressionRow>>, suppressions: seq<SuppressionRow>, maxAttempts: nat, scope: Scope)
    requires HistoryOk(history, suppressions, maxAttempts)
    ensures Suppressed(history, scope) <==> Covered(suppressions, scope)
  {
    hide HistoryOk, GateMatches, DeleteMatches, Concerns;
    if r :| r in suppressions && Concerns(r.data.scope, scope) {
      RowInHistory(history, suppressions, maxAttempts, r);
      StoredKeysAreGiven(history, suppressions, maxAttempts, r);
      ConcernsExactly(r.data.scope, scope);
      assert GateMatches(history[r.key][0].data.scope, scope);
    }
    if k :| k in history && history[k] != [] && GateMatches(history[k][0].data.scope, scope) {
      LastIsFound(history, suppressions, maxAttempts, k);
      StoredKeysAreGiven(history, suppressions, maxAttempts, Last(history[k]));
      ConcernsExactly(Last(history[k]).data.scope, scope);
    }
  }

  /** The deletion of a scope is requested just when a stored V2 request to delete is about it. */
  lemma DeletionRequestedExactly(
    history: map<RequestKey, seq<SuppressionRow>>, suppressions: seq<SuppressionRow>, maxAttempts: nat, scope: Scope)
    requires HistoryOk(history, suppressions, maxAttempts)
    ensures DeletionRequested(history, scope) <==>
              exists r :: && r in suppressions && r.data.action == Delete && r.data.legacyInstallation.None?
                          && Concerns(r.data.scope, scope)
  {
    hide HistoryOk, GateMatches, DeleteMatches, Concerns;
    if r :| && r in suppressions && r.data.action == Delete && r.data.legacyInstallation.None? && Concerns(r.data.scope, scope) {
      RowInHistory(history, suppressions, maxAttempts, r);
      StoredKeysAreGiven(history, suppressions, maxAttempts, r);
      ConcernsExactly(r.data.scope, scope);
      assert Deletes(history[r.key][0], scope);
    }
    if k :| k in history && history[k] != [] && Deletes(history[k][0], scope) {
      LastIsFound(history, suppressions, maxAttempts, k);
      StoredKeysAreGiven(history, suppressions, maxAttempts, Last(history[k]));
      ConcernsExactly(Last(history[k]).data.scope, scope);
    }
  }

  lemma V1ReadIsSuppressed(
    history: map<RequestKey, seq<SuppressionRow>>, suppressions: seq<SuppressionRow>, maxAttempts: nat, batch: V1Batch)
    requires HistoryOk(history, suppressions, maxAttempts) && V1SuppressionRead(suppressions, batch, None)
    ensures forall x | Mentions(batch, x) :: !LegacySuppressed(history, x)
  {
    forall x | Mentions(batch, x)
      ensures !LegacySuppressed(history, x)
    {
      if LegacySuppressed(history, x) {
        var k :| k in history && history[k] != [] && history[k][0].data.legacyInstallation == Some(x);
        LastIsFound(history, suppressions, maxAttempts, k);
        assert LegacyHit(Last(history[k]), batch);
        assert false;
      }
    }
  }

  // ---------- Adding rows of a scope nobody suppressed ----------

  ghost predicate Untouched(history: map<RequestKey, seq<SuppressionRow>>, scope: Scope)
  {
    forall k | k in history && history[k] != [] :: !DeleteMatches(history[k][0].data.scope, scope)
  }

  lemma UnsuppressedIsUntouched(history: map<RequestKey, seq<SuppressionRow>>, scope: Scope)
    requires !Suppressed(history, scope)
    ensures Untouched(history, scope)
    ensures !DeletionRequested(history, scope)
  {
    forall k | k in history && history[k] != []
      ensures !DeleteMatches(history[k][0].data.scope, scope)
    {
      GateIsDelete(history[k][0].data.scope, scope);
    }
  }

  /** `s'` has at most additional rows of one scope in the ingest tables. */
  ghost predicate Adds(s: Sys, s': Sys, scope: Scope)
  {
    && (forall r | r in s'.ledger :: r in s.ledger || r.data.scope == scope)
    && (forall r | r in s'.registry :: r in s.registry || r.data.scope == scope)
    && (forall r | r in s'.streams :: r in s.streams || r.data.scope == scope)
    && s'.v1Rows == s.v1Rows
  }

  lemma ClearAfterAddition(s: Sys, s': Sys, scope: Scope, request: Scope, legacyInstallation: Option<string>, table: Table)
    requires Adds(s, s', scope) && !DeleteMatches(request, scope)
    requires Clear(s.ledger, s.registry, s.streams, s.v1Rows, request, legacyInstallation, table)
    ensures Clear(s'.ledger, s'.registry, s'.streams, s'.v1Rows, request, legacyInstallation, table)
  {
  }

  /** Rows of an unsuppressed scope leave every completed table clear. */
  lemma DoneStaysClear(s: Sys, s': Sys, scope: Scope)
    requires Untouched(s.history, scope) && Adds(s, s', scope)
    requires DoneIsClear(s.ledger, s.registry, s.streams, s.v1Rows, s.history, s.marks)
    ensures DoneIsClear(s'.ledger, s'.registry, s'.streams, s'.v1Rows, s.history, s.marks)
  {
    forall k | TableDone(s.marks, k) && k.request in s.history && s.history[k.request] != []
      ensures Clear(s'.ledger, s'.registry, s'.streams, s'.v1Rows, s.history[k.request][0].data.scope,
                    s.history[k.request][0].data.legacyInstallation, k.table)
    {
      ClearAfterAddition(s, s', scope, s.history[k.request][0].data.scope,
                         s.history[k.request][0].data.legacyInstallation, k.table);
    }
  }

  lemma MutationsStayOk(s: Sys, s': Sys, scope: Scope)
    requires Untouched(s.history, scope) && Adds(s, s', scope)
    requires MutationsOk(s.mutations, s.worker, ContentsOf(s), s.history, s.marks)
    ensures MutationsOk(s.mutations, s.worker, ContentsOf(s'), s.history, s.marks)
  {
    forall m | m in s.mutations
      ensures Ordered(m, s.history, s.marks) && Covers(ContentsOf(s'), m)
    {
      assert !DeleteMatches(m.scope, scope);
    }
  }

  /** Nor do they disturb the worker and the mutations under way. */
  lemma WorkerStaysOk(s: Sys, s': Sys, scope: Scope)
    requires Untouched(s.history, scope) && Adds(s, s', scope)
    requires HistoryOk(s.history, s.suppressions, s.maxAttempts)
    requires WorkerOk(s.worker, s.ledger, s.registry, s.streams, s.v1Rows, s.history, s.marks)
    requires MutationsOk(s.mutations, s.worker, ContentsOf(s), s.history, s.marks)
    ensures WorkerOk(s.worker, s'.ledger, s'.registry, s'.streams, s'.v1Rows, s.history, s.marks)
    ensures MutationsOk(s.mutations, s.worker, ContentsOf(s'), s.history, s.marks)
  {
    MutationsStayOk(s, s', scope);
    if s.worker.Mutated? {
      CurrentAgrees(s.history, s.suppressions, s.maxAttempts, s.worker.request);
      ClearAfterAddition(s, s', scope, s.worker.request.scope, s.worker.request.legacyInstallation,
                         CurrentTable(s.worker.request, s.worker.table));
    }
  }

  lemma LedgerGrows(ledger: seq<LedgerRow>, ledger': seq<LedgerRow>, registry: seq<RegistryRow>)
    requires RegistryOk(registry, ledger)
    requires forall l | l in ledger :: l in ledger'
    ensures RegistryOk(registry, ledger')
  {
    forall g | g in registry
      ensures HasLedgerRow(ledger', g.key.product, g.data.batch, g.data.sha)
    {
      assert HasLedgerRow(ledger, g.key.product, g.data.batch, g.data.sha);
      var l :| l in ledger && l.key == BatchKey(g.key.product, g.data.batch) && l.data.sha == g.data.sha;
      assert l in ledger';
    }
  }

  lemma RegistryGrows(registry: seq<RegistryRow>, registry': seq<RegistryRow>, streams: seq<StreamRow>)
    requires StreamsOk(streams, registry)
    requires forall g | g in registry :: g in registry'
    ensures StreamsOk(streams, registry')
  {
    forall s | s in streams
      ensures Owned(registry', s)
    {
      assert Owned(registry, s);
      var g :| && g in registry && g.key == RecordKey(s.key.product, s.key.record)
               && s == StreamRowFor(g.data.sha.batch, Record(s.key.record, s.data.payload), s.version)
               && Record(s.key.record, s.data.payload) in g.data.sha.batch.records;
      assert g in registry';
    }
  }

  lemma AllRegisteredGrows(registry: seq<RegistryRow>, registry': seq<RegistryRow>, batch: Batch)
    requires AllRegistered(registry, batch)
    requires forall g | g in registry :: g in registry'
    ensures AllRegistered(registry', batch)
  {
    forall r | r in batch.records
      ensures HasRegistryRow(registry', batch.scope.product, r.id, batch.id)
    {
      assert HasRegistryRow(registry, batch.scope.product, r.id, batch.id);
      var g :| g in registry && g.key == RecordKey(batch.scope.product, r.id) && g.data.batch == batch.id;
      assert g in registry';
    }
  }

  lemma AllWrittenGrows(streams: seq<StreamRow>, streams': seq<StreamRow>, batch: Batch)
    requires AllWritten(streams, batch)
    requires forall s | s in streams :: s in streams'
    ensures AllWritten(streams', batch)
  {
    forall r | r in batch.records
      ensures HasStreamRow(streams', batch, r)
    {
      assert HasStreamRow(streams, batch, r);
      var t :| t in streams && Carries(t, batch, r);
      assert t in streams';
    }
  }

  /** More rows, none of them a completion, keep completed batches complete. */
  lemma CompletedStaysWritten(s: Sys, s': Sys)
    requires CompletedIsWritten(s.ledger, s.registry, s.streams, s.history)
    requires forall l | l in s'.ledger && l.data.status == StatusCompleted :: l in s.ledger
    requires forall g | g in s.registry :: g in s'.registry
    requires forall r | r in s.streams :: r in s'.streams
    ensures CompletedIsWritten(s'.ledger, s'.registry, s'.streams, s.history)
  {
    forall l | l in s'.ledger && l.data.status == StatusCompleted && !DeletionRequested(s.history, l.data.sha.batch.scope)
      ensures AllRegistered(s'.registry, l.data.sha.batch) && AllWritten(s'.streams, l.data.sha.batch)
    {
      AllRegisteredGrows(s.registry, s'.registry, l.data.sha.batch);
      AllWrittenGrows(s.streams, s'.streams, l.data.sha.batch);
    }
  }

  // ---------- Advancing the status of a request ----------

  /** The same requests are stored, with the same scopes and actions. */
  ghost predicate SameRequests(history: map<RequestKey, seq<SuppressionRow>>, history': map<RequestKey, seq<SuppressionRow>>)
  {
    && (forall k | k in history' :: k in history)
    && (forall k | k in history ::
          && k in history'
          && (history[k] != [] <==> history'[k] != [])
          && (history[k] != [] ==> history'[k][0] == history[k][0]))
  }

  lemma SuppressionsAreSame(
    history: map<RequestKey, seq<SuppressionRow>>, history': map<RequestKey, seq<SuppressionRow>>, scope: Scope)
    requires SameRequests(history, history')
    ensures Suppressed(history, scope) <==> Suppressed(history', scope)
    ensures DeletionRequested(history, scope) <==> DeletionRequested(history', scope)
  {
    if Suppressed(history, scope) {
      var k :| k in history && history[k] != [] && GateMatches(history[k][0].data.scope, scope);
      assert k in history';
    }
    if DeletionRequested(history, scope) {
      var k :| k in history && history[k] != [] && Deletes(history[k][0], scope);
      assert k in history';
    }
  }

  lemma LegacyIsSame(
    history: map<RequestKey, seq<SuppressionRow>>, history': map<RequestKey, seq<SuppressionRow>>, installation: string)
    requires SameRequests(history, history')
    ensures LegacySuppressed(history, installation) <==> LegacySuppressed(history', installation)
  {
    if LegacySuppressed(history, installation) {
      var k :| k in history && history[k] != [] && history[k][0].data.legacyInstallation == Some(installation);
      assert k in history';
    }
  }

  /** A status row of a known request changes nothing for the writer and for V1 ingest. */
  lemma StatusKeepsWriters(s: Sys, history': map<RequestKey, seq<SuppressionRow>>)
    requires SameRequests(s.history, history')
    requires WriterOk(s.writer, s.ledger, s.registry, s.streams, s.history) && V1Ok(s.v1, s.writer, s.history)
    requires CompletedIsWritten(s.ledger, s.registry, s.streams, s.history)
    ensures WriterOk(s.writer, s.ledger, s.registry, s.streams, history') && V1Ok(s.v1, s.writer, history')
    ensures CompletedIsWritten(s.ledger, s.registry, s.streams, history')
  {
    if s.writer.Looked? || s.writer.Cleared? || s.writer.Reserved? || s.writer.Vacant? || s.writer.Registered? || s.writer.Written? {
      SuppressionsAreSame(s.history, history', s.writer.sha.batch.scope);
    }
    if s.v1 != V1Idle {
      forall x | Mentions(s.v1.batch, x)
        ensures !LegacySuppressed(history', x)
      {
        LegacyIsSame(s.history, history', x);
      }
    }
    forall l | l in s.ledger && l.data.status == StatusCompleted && !DeletionRequested(history', l.data.sha.batch.scope)
      ensures AllRegistered(s.registry, l.data.sha.batch) && AllWritten(s.streams, l.data.sha.batch)
    {
      SuppressionsAreSame(s.history, history', l.data.sha.batch.scope);
    }
  }
}
