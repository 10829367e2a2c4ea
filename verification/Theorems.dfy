/**
 The promises of the store, for every state of every run.
 */
module Theorems {
  import opened Tables
  import opened Telemetry
  import opened Protocol
  import opened History
  import opened Invariant
  import opened Facts
  import opened OtherSteps
  import opened Safety

  // ---------- Referential chain ----------

  /** Stream row, registry row, ledger row: each rests on the next. */
  ghost predicate Chained(s: Sys)
  {
    && (forall r | r in s.streams ::
          exists g :: g in s.registry && g.key == RecordKey(r.key.product, r.key.record) && g.data.batch == r.data.batch)
    && (forall g | g in s.registry ::
          exists l :: l in s.ledger && l.key == BatchKey(g.key.product, g.data.batch) && l.data.sha == g.data.sha)
  }

  lemma ReferentialChain(run: seq<Sys>, actions: seq<Action>, i: nat)
    requires IsRun(run, actions) && i < |run|
    ensures Chained(run[i])
  {
    hide IsRun, LedgerOk, HistoryOk, ErasureOk, WritersOk, DeleterOk;
    RunInv(run, actions, i);
    var s := run[i];
    forall r | r in s.streams
      ensures exists g :: g in s.registry && g.key == RecordKey(r.key.product, r.key.record) && g.data.batch == r.data.batch
    {
      assert Owned(s.registry, r);
      var g :| && g in s.registry && g.key == RecordKey(r.key.product, r.key.record)
               && r == StreamRowFor(g.data.sha.batch, Record(r.key.record, r.data.payload), r.version)
               && Record(r.key.record, r.data.payload) in g.data.sha.batch.records;
      assert RegistryRowOk(g);
    }
    forall g | g in s.registry
      ensures exists l :: l in s.ledger && l.key == BatchKey(g.key.product, g.data.batch) && l.data.sha == g.data.sha
    {
      assert HasLedgerRow(s.ledger, g.key.product, g.data.batch, g.data.sha);
    }
  }

  /** The columns of a ledger row are those of the body it names. */
  predicate RepeatsBody(r: LedgerRow)
  {
    var batch := r.data.sha.batch;
    && r.key.product == batch.scope.product && r.key.batch == batch.id
    && r.data.scope == batch.scope && r.data.stream == batch.stream && r.data.count == |batch.records|
  }

  /** So are those of a registry row, and its record ID is one of the body's. */
  ghost predicate RegistersRecord(g: RegistryRow)
  {
    var batch := g.data.sha.batch;
    && g.key.product == batch.scope.product && (exists record :: record in batch.records && record.id == g.key.record)
    && g.data.batch == batch.id && g.data.stream == batch.stream && g.data.scope == batch.scope
  }

  /** A stream row stands in the table of the batch's stream, with the batch's ID and scope and one of its records. */
  ghost predicate StoresRecord(t: StreamRow, batch: Batch)
  {
    && t.key.stream == batch.stream && t.key.product == batch.scope.product && t.key.subject == batch.scope.subject
    && t.data.scope == batch.scope && t.data.batch == batch.id
    && exists record :: record in batch.records && record.id == t.key.record && record.payload == t.data.payload
  }

  /** Column by column, what is stored in any state of any run is what the accepted or reserved bodies say. */
  lemma RowsRepeatBodies(run: seq<Sys>, actions: seq<Action>, i: nat)
    requires IsRun(run, actions) && i < |run|
    ensures forall r | r in run[i].ledger :: RepeatsBody(r)
    ensures forall g | g in run[i].registry :: RegistersRecord(g)
    ensures forall t | t in run[i].streams :: exists g :: g in run[i].registry && g.key.record == t.key.record && StoresRecord(t, g.data.sha.batch)
  {
    hide IsRun, HistoryOk, ErasureOk, WritersOk, DeleterOk, HasLedgerRow, ValidBatch;
    RunInv(run, actions, i);
    forall r | r in run[i].ledger
      ensures RepeatsBody(r)
    {
      assert LedgerRowOk(r);
    }
    forall g | g in run[i].registry
      ensures RegistersRecord(g)
    {
      assert RegistryRowOk(g);
    }
    forall t | t in run[i].streams
      ensures exists g :: g in run[i].registry && g.key.record == t.key.record && StoresRecord(t, g.data.sha.batch)
    {
      assert Owned(run[i].registry, t);
      var g :| && g in run[i].registry && g.key == RecordKey(t.key.product, t.key.record)
               && t == StreamRowFor(g.data.sha.batch, Record(t.key.record, t.data.payload), t.version)
               && Record(t.key.record, t.data.payload) in g.data.sha.batch.records;
      assert StoresRecord(t, g.data.sha.batch);
    }
  }

  // ---------- Suppression barrier ----------

  /** Once a request's row is stored, every later suppression query about a scope it covers finds a row. */
  lemma SuppressionOnlyGrows(
    run: seq<Sys>, actions: seq<Action>, i: nat, j: nat, request: SuppressionRow, scope: Scope, hit: Option<SuppressionRow>)
    requires IsRun(run, actions) && i <= j < |run|
    requires request in run[i].suppressions && Concerns(request.data.scope, scope)
    requires SuppressionRead(run[j].suppressions, scope, hit)
    ensures hit.Some? && Suppressed(run[j].history, scope)
  {
    hide IsRun, ChainOk, ErasureOk, WritersOk, DeleterOk, HistoryOk, SuppressionRead, GateMatches, Concerns;
    StaysSuppressed(run, actions, i, j, request);
    RunInv(run, actions, j);
    ReadIsSuppressed(run[j].history, run[j].suppressions, run[j].maxAttempts, scope, hit);
  }

  lemma StaysSuppressed(run: seq<Sys>, actions: seq<Action>, i: nat, j: nat, request: SuppressionRow)
    requires IsRun(run, actions) && i <= j < |run| && request in run[i].suppressions
    ensures request.key in run[j].history && run[j].history[request.key] != []
    ensures SameRequest(run[j].history[request.key][0], request)
    ensures forall scope | Concerns(request.data.scope, scope) :: Suppressed(run[j].history, scope)
  {
    hide IsRun, ChainOk, ErasureOk, WritersOk, DeleterOk, HistoryOk, GateMatches, Concerns;
    RunInv(run, actions, i);
    RunRemembers(run, actions, i, j);
    RowInHistory(run[i].history, run[i].suppressions, run[i].maxAttempts, request);
    StoredKeysAreGiven(run[i].history, run[i].suppressions, run[i].maxAttempts, request);
    assert run[j].history[request.key][0] == run[i].history[request.key][0];
    forall scope | Concerns(request.data.scope, scope)
      ensures Suppressed(run[j].history, scope)
    {
      ConcernsExactly(request.data.scope, scope);
      assert GateMatches(run[j].history[request.key][0].data.scope, scope);
    }
  }

  /**
   Once a privacy request's row is stored, no statement of any call adds a
   ledger, registry, stream or V1 row that the request is about, nor a further
   copy of a stored one.
   */
  lemma SuppressionBarrier(run: seq<Sys>, actions: seq<Action>, i: nat, j: nat, request: SuppressionRow)
    requires IsRun(run, actions) && i <= j < |actions|
    requires request in run[i].suppressions
    ensures forall r: LedgerRow | Concerns(request.data.scope, r.data.scope) :: NoMore(run[j].ledger, run[j + 1].ledger, r)
    ensures forall r: RegistryRow | Concerns(request.data.scope, r.data.scope) :: NoMore(run[j].registry, run[j + 1].registry, r)
    ensures forall r: StreamRow | Concerns(request.data.scope, r.data.scope) :: NoMore(run[j].streams, run[j + 1].streams, r)
    ensures forall r: V1Row | Some(r.key.installation) == request.data.legacyInstallation :: NoMore(run[j].v1Rows, run[j + 1].v1Rows, r)
  {
    StaysSuppressed(run, actions, i, j, request);
    RunInv(run, actions, j);
    assert Next(run[j], actions[j], run[j + 1]);
    hide IsRun, Inv, Next, Concerns, Suppressed, NoMore;
    NextAdds(run[j], actions[j], run[j + 1]);
    if request.data.legacyInstallation.Some? {
      assert LegacySuppressed(run[j].history, request.data.legacyInstallation.value);
    }
  }

  // ---------- Deletion is final ----------

  /** Nothing is stored that a request for this scope, or this V1 installation, is about. */
  ghost predicate Gone(s: Sys, scope: Scope, legacyInstallation: Option<string>)
  {
    if legacyInstallation.None? then
      && (forall r | r in s.ledger :: !Concerns(scope, r.data.scope))
      && (forall r | r in s.registry :: !Concerns(scope, r.data.scope))
      && (forall r | r in s.streams :: !Concerns(scope, r.data.scope))
    else
      forall r | r in s.v1Rows && r.key.table in {EventsTable, SummariesTable} :: r.key.installation != legacyInstallation.value
  }

  ghost predicate Erased(s: Sys, request: SuppressionRow)
  {
    Gone(s, request.data.scope, request.data.legacyInstallation)
  }

  /** When all tables of a request are clear, nothing it is about is left. */
  lemma ClearIsGone(s: Sys, scope: Scope, legacyInstallation: Option<string>)
    requires scope.person != Some("") && scope.org != Some("")
    requires forall t | t in TablesOf(legacyInstallation) ::
               Clear(s.ledger, s.registry, s.streams, s.v1Rows, scope, legacyInstallation, t)
    ensures Gone(s, scope, legacyInstallation)
  {
    hide DeleteMatches, Concerns, GateMatches;
    var tables := TablesOf(legacyInstallation);
    if legacyInstallation.None? {
      assert tables[5] in tables && tables[6] in tables;
      forall other
        ensures DeleteMatches(scope, other) <==> Concerns(scope, other)
      {
        ConcernsExactly(scope, other);
      }
      forall r | r in s.streams
        ensures !Concerns(scope, r.data.scope)
      {
        var i := match r.key.stream case Common => 0 case Technical => 1 case Plays => 2 case Product => 3 case Outcomes => 4;
        assert tables[i] in tables;
      }
    } else {
      assert tables[0] in tables && tables[1] in tables;
    }
  }

  lemma DoneIsErased(s: Sys, request: SuppressionRow)
    requires Inv(s) && request.key in s.history && s.history[request.key] != []
    requires SameRequest(s.history[request.key][0], request) && request.data.action == Delete
    requires request.data.scope.person != Some("") && request.data.scope.org != Some("")
    requires Last(s.history[request.key]).data.status == Completed
    ensures Erased(s, request)
  {
    hide LedgerOk, ChainOk, HistoryOk, MarksOk, WritersOk, DeleterOk, TableDone, TablesOf, Clear, Gone;
    forall t | t in TablesOf(request.data.legacyInstallation)
      ensures Clear(s.ledger, s.registry, s.streams, s.v1Rows, request.data.scope, request.data.legacyInstallation, t)
    {
      assert TableDone(s.marks, ProgressKey(request.key, t));
    }
    ClearIsGone(s, request.data.scope, request.data.legacyInstallation);
  }

  lemma SettledStaysLast(rows: seq<SuppressionRow>, later: seq<SuppressionRow>, key: RequestKey, maxAttempts: nat, row: SuppressionRow)
    requires rows <= later && WellFormed(later, key, maxAttempts)
    requires row in rows && row.data.status in {Completed, Failed}
    ensures Last(later) == row
  {
    var x :| 0 <= x < |rows| && rows[x] == row;
    assert later[x] == row;
    if x + 1 < |later| {
      SettledIsLast(later, key, maxAttempts, x);
    }
  }

  lemma CompletedMarkStaysLast(rows: seq<ProgressRow>, later: seq<ProgressRow>, key: ProgressKey, at: int, mark: ProgressRow)
    requires rows <= later && WellMarked(later, key, at)
    requires mark in rows && mark.data.status == Completed
    ensures Last(later) == mark
  {
    var x :| 0 <= x < |rows| && rows[x] == mark;
    assert later[x] == mark;
    if x + 1 < |later| {
      CompletedMarkIsLast(later, key, at, x);
    }
  }

  lemma KeysAreGiven(run: seq<Sys>, actions: seq<Action>, i: nat, request: SuppressionRow)
    requires IsRun(run, actions) && i < |run| && request in run[i].suppressions
    ensures request.data.scope.person != Some("") && request.data.scope.org != Some("")
  {
    hide IsRun, LedgerOk, ChainOk, HistoryOk, ErasureOk, WritersOk, DeleterOk;
    RunInv(run, actions, i);
    StoredKeysAreGiven(run[i].history, run[i].suppressions, run[i].maxAttempts, request);
  }

  /** A request whose stored status is `completed` or `failed` keeps it. */
  lemma SettledStays(run: seq<Sys>, actions: seq<Action>, i: nat, j: nat, request: SuppressionRow)
    requires IsRun(run, actions) && i <= j < |run|
    requires request in run[i].suppressions && request.data.status in {Completed, Failed}
    ensures request.key in run[j].history && run[j].history[request.key] != [] && Last(run[j].history[request.key]) == request
  {
    hide IsRun, LedgerOk, ChainOk, ErasureOk, WritersOk, DeleterOk, WellFormed, Last;
    RunInv(run, actions, i);
    RunInv(run, actions, j);
    RunRemembers(run, actions, i, j);
    SettledStaysLast(run[i].history[request.key], run[j].history[request.key], request.key, run[j].maxAttempts, request);
  }

  /**
   When a deletion request is completed, its scope is gone from all seven V2
   tables (its installation from both V1 tables), then and for ever.
   */
  lemma DeletionIsFinal(run: seq<Sys>, actions: seq<Action>, i: nat, j: nat, request: SuppressionRow)
    requires IsRun(run, actions) && i <= j < |run|
    requires request in run[i].suppressions
    requires request.data.action == Delete && request.data.status == Completed
    ensures Erased(run[j], request)
  {
    hide IsRun, Inv;
    KeysAreGiven(run, actions, i, request);
    SettledStays(run, actions, i, j, request);
    StaysSuppressed(run, actions, i, j, request);
    RunInv(run, actions, j);
    DoneIsErased(run[j], request);
  }

  /** A table whose progress is `completed` stays free of the request's rows, whatever ingest does. */
  lemma CompletedTableStaysClear(
    run: seq<Sys>, actions: seq<Action>, i: nat, j: nat, mark: ProgressRow, request: SuppressionRow)
    requires IsRun(run, actions) && i <= j < |run|
    requires mark in run[i].progress && mark.data.status == Completed
    requires request in run[i].suppressions && request.key == mark.key.request
    ensures Clear(run[j].ledger, run[j].registry, run[j].streams, run[j].v1Rows, request.data.scope,
                  request.data.legacyInstallation, mark.key.table)
  {
    hide IsRun, LedgerOk, ChainOk, HistoryOk, CompletedIsDone, WritersOk, DeleterOk, Clear;
    StaysSuppressed(run, actions, i, j, request);
    RunInv(run, actions, i);
    RunInv(run, actions, j);
    RunRemembers(run, actions, i, j);
    CompletedMarkStaysLast(run[i].marks[mark.key], run[j].marks[mark.key], mark.key,
                           run[j].history[mark.key.request][0].data.ingestedAt, mark);
    assert TableDone(run[j].marks, mark.key);
  }

  /** What a stored request asks for is kept: in every later state FINAL answers with a row that repeats it. */
  lemma RequestIsKept(run: seq<Sys>, actions: seq<Action>, i: nat, j: nat, request: SuppressionRow) returns (last: SuppressionRow)
    requires IsRun(run, actions) && i <= j < |run| && request in run[i].suppressions
    ensures IsNewest(run[j].suppressions, last) && last.key == request.key
    ensures last.data.sha == request.data.sha && last.data.scope == request.data.scope && last.data.action == request.data.action
    ensures last.data.requestedAt == request.data.requestedAt && last.data.active == request.data.active
    ensures last.data.legacyInstallation == request.data.legacyInstallation
  {
    hide IsRun, LedgerOk, ChainOk, HistoryOk, ErasureOk, WritersOk, DeleterOk, Concerns, Suppressed;
    StaysSuppressed(run, actions, i, j, request);
    RunInv(run, actions, j);
    LastIsFound(run[j].history, run[j].suppressions, run[j].maxAttempts, request.key);
    last := Last(run[j].history[request.key]);
  }

  // ---------- Version order of status and progress rows ----------

  /** Every status row stored for a request is newer than all its earlier ones. */
  lemma StatusRowsAreOrdered(run: seq<Sys>, actions: seq<Action>, i: nat, key: RequestKey, x: nat, y: nat)
    requires IsRun(run, actions) && i < |run| && key in run[i].history && x < y < |run[i].history[key]|
    ensures run[i].history[key][x].version < run[i].history[key][y].version
  {
    RunInv(run, actions, i);
    VersionsIncrease(run[i].history[key], key, run[i].maxAttempts, x, y);
  }

  /** Each attempt has four milliseconds of its own: the first is the claim's, then come retry and failure, then completion. */
  lemma StatusVersionsCount(run: seq<Sys>, actions: seq<Action>, i: nat, key: RequestKey, x: nat)
    requires IsRun(run, actions) && i < |run| && key in run[i].history && x < |run[i].history[key]|
    ensures var r := run[i].history[key][x];
            r.version == r.data.ingestedAt +
              match r.data.status
              case Pending => 0
              case Processing => 4 * r.data.attempts + 1
              case Retry => 4 * r.data.attempts + 2
              case Failed => 4 * r.data.attempts + 2
              case Completed => 4 * r.data.attempts + 3
  {
    RunInv(run, actions, i);
    hide IsRun, Inv;
    VersionRule(run[i].history[key], key, run[i].maxAttempts, x);
    if x > 0 {
      assert Follows(run[i].history[key][x - 1], run[i].history[key][x], run[i].maxAttempts);
    }
  }

  lemma ProgressRowsAreOrdered(run: seq<Sys>, actions: seq<Action>, i: nat, key: ProgressKey, x: nat, y: nat)
    requires IsRun(run, actions) && i < |run| && key in run[i].marks && x < y < |run[i].marks[key]|
    ensures run[i].marks[key][x].version < run[i].marks[key][y].version
  {
    RunInv(run, actions, i);
    MarkVersionsIncrease(run[i].marks[key], key, run[i].history[key.request][0].data.ingestedAt, x, y);
  }

  /** So FINAL answers with the row stored last, and with that row only. */
  lemma FinalIsLastStored(run: seq<Sys>, actions: seq<Action>, i: nat, key: RequestKey, found: Option<SuppressionRow>)
    requires IsRun(run, actions) && i < |run| && FinalRead(run[i].suppressions, key, found)
    ensures found.Some? <==> key in run[i].history
    ensures found.Some? ==> run[i].history[key] != [] && found.value == Last(run[i].history[key])
  {
    hide IsRun, ChainOk, ErasureOk, WritersOk, DeleterOk;
    RunInv(run, actions, i);
    if found.Some? {
      NewestIsLast(run[i].history, run[i].suppressions, run[i].maxAttempts, found.value);
    } else if key in run[i].history {
      LastIsFound(run[i].history, run[i].suppressions, run[i].maxAttempts, key);
      assert false;
    }
  }

  /** A stored `completed` or `failed` is what every later FINAL read answers. */
  lemma SettledIsAbsorbing(
    run: seq<Sys>, actions: seq<Action>, i: nat, j: nat, row: SuppressionRow, found: Option<SuppressionRow>)
    requires IsRun(run, actions) && i <= j < |run|
    requires row in run[i].suppressions && row.data.status in {Completed, Failed}
    requires FinalRead(run[j].suppressions, row.key, found)
    ensures found == Some(row)
  {
    SettledStays(run, actions, i, j, row);
    FinalIsLastStored(run, actions, j, row.key, found);
  }

  /** When the worker writes an outcome, its own attempt count is the stored one. */
  lemma WorkerCountIsStored(run: seq<Sys>, actions: seq<Action>, i: nat, found: Option<SuppressionRow>)
    requires IsRun(run, actions) && i < |run| && run[i].worker.Closing?
    requires FinalRead(run[i].suppressions, run[i].worker.request.key, found)
    ensures found.Some? && found.value.data.status == Processing
    ensures found.value.data.attempts == run[i].worker.request.attempts
  {
    hide IsRun, LedgerOk, ChainOk, ErasureOk, WritersOk, HistoryOk, MutationsOk, QueueOk, AllDone, FinalRead;
    RunInv(run, actions, i);
    FinalIsLastStored(run, actions, i, run[i].worker.request.key, found);
  }

  // ---------- Bounded retry ----------

  /** Claims are bounded by `maxAttempts` plus the claims whose outcome row was lost. */
  lemma RetryIsBounded(run: seq<Sys>, actions: seq<Action>, i: nat, key: RequestKey)
    requires IsRun(run, actions) && i < |run| && key in run[i].history
    ensures Claims(run[i].history[key]) <= run[i].maxAttempts + LostClaims(run[i].history[key])
    ensures LostClaims(run[i].history[key]) == 0 && Claims(run[i].history[key]) == run[i].maxAttempts ==>
              run[i].history[key] != [] && Last(run[i].history[key]).data.status in {Processing, Completed, Failed}
  {
    RunInv(run, actions, i);
    ClaimsAreBounded(run[i].history[key], key, run[i].maxAttempts);
    if LostClaims(run[i].history[key]) == 0 {
      RetriesRunOut(run[i].history[key], key, run[i].maxAttempts);
    }
  }

  /**
   In a run, the claim of an open request is newer than every row ever stored for
   it, and FINAL answers with it, exactly while there is room in its counter.
   */
  lemma ClaimWinsExactly(run: seq<Sys>, actions: seq<Action>, i: nat, key: RequestKey, now: int)
    requires IsRun(run, actions) && i < |run| && key in run[i].history
    ensures var rows := run[i].history[key];
            rows != [] &&
            (Last(rows).data.status in {Pending, Retry, Processing} ==>
               var claim := ClaimRow(Snapshot(Last(rows)), Last(rows).data.attempts, now);
               && ((forall x | 0 <= x < |rows| :: rows[x].version < claim.version) <==> Claims(rows) < 0xFFFF)
               && (IsNewest(run[i].suppressions + [claim], claim) <==> Claims(rows) < 0xFFFF))
  {
    RunInv(run, actions, i);
    assert CounterFits(run[i]);
    hide IsRun, CounterFits, Inv, ClaimRow, Claims;
    ClaimWins(run[i], key, now);
  }

  lemma ClaimWins(s: Sys, key: RequestKey, now: int)
    requires Inv(s) && key in s.history && Claims(s.history[key]) < 0x1_0000
    ensures s.history[key] != []
    ensures var rows := s.history[key];
            Last(rows).data.status in {Pending, Retry, Processing} ==>
              var claim := ClaimRow(Snapshot(Last(rows)), Last(rows).data.attempts, now);
              && ((forall x | 0 <= x < |rows| :: rows[x].version < claim.version) <==> Claims(rows) < 0xFFFF)
              && (IsNewest(s.suppressions + [claim], claim) <==> Claims(rows) < 0xFFFF)
  {
    hide LedgerOk, ChainOk, ErasureOk, WritersOk, DeleterOk, ClaimRow, Claims, WellFormed, StatusVersion, IsNewest;
    LastIsFound(s.history, s.suppressions, s.maxAttempts, key);
    var rows := s.history[key];
    if Last(rows).data.status in {Pending, Retry, Processing} {
      var claim := ClaimRow(Snapshot(Last(rows)), Last(rows).data.attempts, now);
      ClaimRowIs(Last(rows), now);
      ClaimIsNewestExactly(rows, key, s.maxAttempts, now);
      LastAgainstClaim(rows, key, s.maxAttempts, claim);
      NewestIfNewer(s.suppressions, Last(rows), claim);
    }
  }

  lemma ClaimRowIs(last: SuppressionRow, now: int)
    ensures var claim := ClaimRow(Snapshot(last), last.data.attempts, now);
            && claim.key == last.key
            && claim.version == StatusVersion(last.data.ingestedAt, Processing, NextAttempt(last.data.attempts))
  {
  }

  lemma NewestIfNewer<K, D>(table: seq<Row<K, D>>, last: Row<K, D>, row: Row<K, D>)
    requires IsNewest(table, last) && last.key == row.key && last.version != row.version
    ensures IsNewest(table + [row], row) <==> last.version < row.version
  {
    assert row in table + [row] && last in table + [row];
  }

  /** Between two states of a run the request was claimed and the outcome of that claim stored. */
  ghost predicate Passed(s: Sys, s': Sys, key: RequestKey)
  {
    && key in s.history && key in s'.history
    && exists request, succeeded :: PassStored(s.history[key], s'.history[key], request, succeeded, s.maxAttempts)
  }

  /** Passes over one request, one after the other; anything may happen in between. */
  ghost predicate Passes(run: seq<Sys>, key: RequestKey, starts: seq<nat>, ends: seq<nat>)
  {
    && |starts| == |ends|
    && (forall n | 0 <= n < |starts| :: starts[n] <= ends[n] < |run| && Passed(run[starts[n]], run[ends[n]], key))
    && (forall n | 0 < n < |starts| :: ends[n - 1] <= starts[n])
  }

  lemma OnePass(run: seq<Sys>, actions: seq<Action>, i: nat, j: nat, key: RequestKey)
    requires IsRun(run, actions) && i <= j < |run| && Passed(run[i], run[j], key)
    ensures key in run[i].history && key in run[j].history && run[j].maxAttempts >= 1
    ensures Claims(run[j].history[key]) == Claims(run[i].history[key]) + 1
    ensures run[i].history[key] != [] && Last(run[i].history[key]).data.status !in {Completed, Failed}
    ensures run[j].history[key] != []
    ensures Last(run[j].history[key]).data.status == Retry ==> Claims(run[j].history[key]) < run[j].maxAttempts
    ensures Last(run[j].history[key]).data.status in {Completed, Failed, Retry}
  {
    RunInv(run, actions, j);
    RunRemembers(run, actions, i, j);
    var request, succeeded :| PassStored(run[i].history[key], run[j].history[key], request, succeeded, run[i].maxAttempts);
    PassDecreases(run[i].history[key], run[j].history[key], key, run[j].maxAttempts, request, succeeded);
  }

  lemma {:induction false} ClaimsOnlyGrow(rows: seq<SuppressionRow>, later: seq<SuppressionRow>)
    requires rows <= later
    ensures Claims(rows) <= Claims(later)
    decreases |later|
  {
    if rows != later {
      assert rows <= later[..|later| - 1];
      ClaimsOnlyGrow(rows, later[..|later| - 1]);
    }
  }

  lemma NotSettledBefore(run: seq<Sys>, actions: seq<Action>, i: nat, j: nat, key: RequestKey)
    requires IsRun(run, actions) && i <= j < |run| && key in run[i].history && run[i].history[key] != []
    ensures key in run[j].history && run[j].history[key] != []
    ensures Claims(run[i].history[key]) <= Claims(run[j].history[key])
    ensures Last(run[i].history[key]).data.status in {Completed, Failed} ==> Last(run[j].history[key]) == Last(run[i].history[key])
  {
    hide IsRun, LedgerOk, ChainOk, ErasureOk, WritersOk, DeleterOk, WellFormed, StatusesStored;
    RunInv(run, actions, j);
    RunRemembers(run, actions, i, j);
    ClaimsOnlyGrow(run[i].history[key], run[j].history[key]);
    if Last(run[i].history[key]).data.status in {Completed, Failed} {
      SettledStaysLast(run[i].history[key], run[j].history[key], key, run[j].maxAttempts, Last(run[i].history[key]));
    }
  }

  lemma LastPass(run: seq<Sys>, key: RequestKey, starts: seq<nat>, ends: seq<nat>)
    requires Passes(run, key, starts, ends) && |starts| > 0
    ensures var n := |starts| - 1;
            && |ends| == |starts| && starts[n] <= ends[n] < |run| && Passed(run[starts[n]], run[ends[n]], key)
            && (n > 0 ==> Passes(run, key, starts[..n], ends[..n]) && ends[n - 1] <= starts[n])
  {
    hide Passed;
  }

  /**
   Without a lost claim or outcome, a request is settled after at most
   `maxAttempts` passes: there are no more of them, and the last one allowed
   leaves it completed or failed.
   */
  lemma {:induction false} PassesSettle(run: seq<Sys>, actions: seq<Action>, key: RequestKey, starts: seq<nat>, ends: seq<nat>)
    requires IsRun(run, actions) && Passes(run, key, starts, ends) && |starts| > 0
    ensures var s := run[ends[|ends| - 1]];
            && key in s.history && s.history[key] != []
            && |starts| <= Claims(s.history[key]) && |starts| <= s.maxAttempts
            && (Last(s.history[key]).data.status == Retry ==> Claims(s.history[key]) < s.maxAttempts)
            && Last(s.history[key]).data.status in {Completed, Failed, Retry}
            && (|starts| == s.maxAttempts ==> Last(s.history[key]).data.status in {Completed, Failed})
    decreases |starts|
  {
    hide *;
    var n := |starts| - 1;
    LastPass(run, key, starts, ends);
    OnePass(run, actions, starts[n], ends[n], key);
    if n > 0 {
      PassesSettle(run, actions, key, starts[..n], ends[..n]);
      NotSettledBefore(run, actions, ends[n - 1], starts[n], key);
      RunRemembers(run, actions, ends[n - 1], ends[n]);
    }
  }

  // ---------- Registry ----------

  /** All physical registry rows of one record ID name one batch and one body. */
  lemma RegistryIsFunctional(run: seq<Sys>, actions: seq<Action>, i: nat, g: RegistryRow, h: RegistryRow)
    requires IsRun(run, actions) && i < |run|
    requires g in run[i].registry && h in run[i].registry && g.key == h.key
    ensures g.data.batch == h.data.batch && g.data.sha == h.data.sha
  {
    RunInv(run, actions, i);
  }

  /** So the conflict check over all physical rows decides as one over FINAL rows would. */
  lemma ConflictCheckNeedsNoFinal(run: seq<Sys>, actions: seq<Action>, i: nat, sha: Digest)
    requires IsRun(run, actions) && i < |run|
    ensures (exists g :: g in run[i].registry && Clashes(g, sha))
       <==> (exists g :: g in run[i].registry && IsNewest(run[i].registry, g) && Clashes(g, sha))
  {
    var registry := run[i].registry;
    if exists g :: g in registry && Clashes(g, sha) {
      var g :| g in registry && Clashes(g, sha);
      var n := NewestExists(registry, g);
      RegistryIsFunctional(run, actions, i, g, n);
      assert Clashes(n, sha);
    }
  }

  // ---------- Ledger ----------

  /** Under any clock, a completion is newer than the reservation it follows. */
  lemma CompletionIsNewer(run: seq<Sys>, actions: seq<Action>, i: nat, r: LedgerRow, c: LedgerRow)
    requires IsRun(run, actions) && i < |run| && r in run[i].ledger && c in run[i].ledger && r.key == c.key
    requires r.data.status == StatusReserved && c.data.status == StatusCompleted
    ensures r.version < c.version && r.data.sha == c.data.sha
    ensures IsNewest(run[i].ledger, c) && !IsNewest(run[i].ledger, r)
  {
    hide IsRun, ChainOk, HistoryOk, ErasureOk, WritersOk, DeleterOk;
    RunInv(run, actions, i);
    assert SameBatch(r, c);
    forall q | q in run[i].ledger && q.key == c.key
      ensures q.version <= c.version
    {
      assert SameBatch(q, c) && LedgerRowOk(q);
    }
  }

  /** No ledger row ever has a status outside the two the store writes. */
  lemma LedgerStatusIsValid(run: seq<Sys>, actions: seq<Action>, i: nat, r: LedgerRow)
    requires IsRun(run, actions) && i < |run| && r in run[i].ledger
    ensures r.data.status in {StatusReserved, StatusCompleted}
  {
    RunInv(run, actions, i);
    assert LedgerRowOk(r);
  }
}
